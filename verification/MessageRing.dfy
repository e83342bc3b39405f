/** The bounded ring of messages between the posters and the loop. */
module MessageRing {
  import opened Options

  /** The slot of the k-th message in a ring of n slots whose oldest message is at head. */
  function Index(head: nat, k: nat, n: nat): (i: nat)
    requires head < n && k <= n
    ensures i < n
  {
    if head + k < n then head + k else head + k - n
  }

  lemma IndexIsRemainder(head: nat, k: nat, n: nat)
    requires head < n && k <= n
    ensures Index(head, k, n) == (head + k) % n
  {
    if head + k >= n {
      assert head + k == n * 1 + (head + k - n);
    }
  }

  /** After the head advances, message k sits where message k + 1 sat, and the slot freed comes last. */
  lemma IndexAdvances(head: nat, n: nat)
    requires head < n
    ensures var next := Index(head, 1, n);
      && (forall k | 0 <= k < n - 1 :: Index(next, k, n) == Index(head, k + 1, n))
      && Index(next, n - 1, n) == head
  {
  }

  /** ring_, ringHead_ and ringCount_: one slot more than the queue size, so that the timer message still
      fits when ordinary messages fill the queue. */
  class Ring<T> {
    const queueSize: nat
    const slots: array<Option<T>>
    var head: nat
    var count: nat

    ghost predicate Valid()
      reads this, slots
    {
      && slots.Length == queueSize + 1
      && head < slots.Length
      && count <= slots.Length
      && (forall k | 0 <= k < count :: slots[Index(head, k, slots.Length)].Some?)
      && (forall k | count <= k < slots.Length :: slots[Index(head, k, slots.Length)].None?)
    }

    /** The messages in the ring, oldest first. */
    ghost function Contents(): (c: seq<T>)
      requires Valid()
      reads this, slots
      ensures |c| == count
    {
      seq(count, k requires 0 <= k < count && Valid() reads this, slots => slots[Index(head, k, slots.Length)].value)
    }

    constructor (queueSize: nat)
      ensures Valid() && Contents() == [] && fresh(slots) && this.queueSize == queueSize
    {
      this.queueSize := queueSize;
      slots := new Option<T>[queueSize + 1](_ => None);
      head, count := 0, 0;
    }

    /** The locked part of Enqueue. Only the timer message may use the extra slot. */
    method Push(message: T, isTimer: bool) returns (ok: bool)
      requires Valid()
      modifies this`count, slots
      ensures Valid()
      ensures ok <==> |old(Contents())| < queueSize + if isTimer then 1 else 0
      ensures Contents() == old(Contents()) + if ok then [message] else []
    {
      var limit := if isTimer then slots.Length else queueSize;
      if count >= limit {
        return false;
      }
      IndexIsRemainder(head, count, slots.Length);
      slots[(head + count) % slots.Length] := Some(message);
      count := count + 1;
      return true;
    }

    method Pop() returns (message: Option<T>)
      requires Valid()
      modifies this`head, this`count, slots
      ensures Valid()
      ensures old(Contents()) == [] ==> message == None && Contents() == []
      ensures old(Contents()) != [] ==> message == Some(old(Contents())[0]) && Contents() == old(Contents())[1..]
    {
      if count == 0 {
        return None;
      }
      message := slots[head];
      slots[head] := None;
      IndexIsRemainder(head, 1, slots.Length);
      ghost var first := head;
      head, count := (head + 1) % slots.Length, count - 1;
      IndexAdvances(first, slots.Length);
    }
  }
}
