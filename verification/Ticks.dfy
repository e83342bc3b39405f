/** Tick and millisecond conversions of the kernel adapter and of the event handler, on 32-bit counters.
    The 64-bit intermediates of the source are unbounded here and proved to fit. */
module Ticks {
  const WORD := 0x1_0000_0000
  const HALF := 0x8000_0000
  const WORD64 := 0x1_0000_0000_0000_0000
  const MS_PER_SECOND := 1000
  const WAIT_FOREVER := 0xFFFF_FFFF
  const MAX_FINITE := 0xFFFF_FFFE

  type Word = x: nat | x < WORD

  /** The value of a 32-bit word read as a signed number. */
  function AsInt32(x: Word): int {
    if x < HALF then x else x - WORD
  }

  predicate IsDue(dueTick: Word, now: Word) {
    AsInt32((dueTick - now) % WORD) <= 0
  }

  function CeilDiv(a: nat, b: nat): nat
    requires b > 0
  {
    (a + b - 1) / b
  }

  function MsToTicks(delayMs: Word, freq: Word): Word {
    if delayMs == WAIT_FOREVER then WAIT_FOREVER
    else if freq == 0 then delayMs
    else
      var ticks := CeilDiv(delayMs * freq, MS_PER_SECOND);
      if ticks > MAX_FINITE then MAX_FINITE else ticks
  }

  function TicksToMs(ticks: Word, freq: Word): Word {
    if freq == 0 then ticks
    else
      var ms := CeilDiv(ticks * MS_PER_SECOND, freq);
      if ms >= WAIT_FOREVER then WAIT_FOREVER - 1 else ms
  }

  /** CeilDiv(a, b) is the least q with a <= q * b. */
  lemma CeilDivBounds(a: nat, b: nat)
    requires b > 0
    ensures a <= CeilDiv(a, b) * b < a + b
  {
    var q := CeilDiv(a, b);
    assert a + b - 1 == q * b + (a + b - 1) % b;
  }

  /** A quotient rounded up is the least number that is long enough. */
  lemma CeilDivLeast(a: nat, b: nat, q: nat)
    requires b > 0
    ensures a <= q * b <==> CeilDiv(a, b) <= q
  {
    var r := CeilDiv(a, b);
    CeilDivBounds(a, b);
    if r <= q {
      MulMonotone(r, q, b, b);
    } else {
      MulMonotone(q, r - 1, b, b);
      assert (r - 1) * b == r * b - b;
    }
  }

  /** A delay becomes the least tick count that is not shorter, or the longest finite one if none of those reaches;
      forever stays forever, and without a frequency the number passes through. */
  lemma MsToTicksIsLeast(delayMs: Word, freq: Word, ticks: Word)
    ensures MsToTicks(WAIT_FOREVER, freq) == WAIT_FOREVER
    ensures MsToTicks(delayMs, 0) == delayMs
    ensures freq > 0 && delayMs != WAIT_FOREVER && ticks < MAX_FINITE ==>
      (MsToTicks(delayMs, freq) <= ticks <==> delayMs * freq <= ticks * MS_PER_SECOND)
    ensures freq > 0 && delayMs != WAIT_FOREVER ==> MsToTicks(delayMs, freq) <= MAX_FINITE
  {
    CeilDivLeast(delayMs * freq, MS_PER_SECOND, ticks);
  }

  /** A tick count becomes the least number of milliseconds that is not shorter, or the longest finite one. */
  lemma TicksToMsIsLeast(ticks: Word, freq: Word, ms: Word)
    ensures TicksToMs(ticks, 0) == ticks
    ensures freq > 0 && ms < MAX_FINITE ==>
      (TicksToMs(ticks, freq) <= ms <==> ticks * MS_PER_SECOND <= ms * freq)
    ensures freq > 0 ==> TicksToMs(ticks, freq) <= MAX_FINITE
  {
    if freq > 0 {
      CeilDivLeast(ticks * MS_PER_SECOND, freq, ms);
    }
  }

  lemma MulMonotone(a: nat, b: nat, c: nat, d: nat)
    requires a <= b && c <= d
    ensures a * c <= b * d
  {
    assert b * d == a * c + a * (d - c) + (b - a) * d;
  }

  /** Neither 64-bit intermediate wraps, for any 32-bit operands. */
  lemma IntermediatesFit(x: Word, freq: Word)
    ensures x * freq + MS_PER_SECOND - 1 < WORD64
    ensures x * MS_PER_SECOND + freq < WORD64
  {
    MulMonotone(x, WORD - 1, freq, WORD - 1);
  }

  /** Forever is the image of forever alone: no finite delay turns into it in either direction
      (a tick frequency of zero passes the number through). */
  lemma OnlyForeverIsForever(x: Word, freq: Word)
    ensures MsToTicks(x, freq) == WAIT_FOREVER <==> x == WAIT_FOREVER
    ensures freq > 0 ==> TicksToMs(x, freq) != WAIT_FOREVER
  {
  }

  /** The longest tick count whose millisecond image is not cut short by the clamp. */
  function LongestExact(freq: Word): nat
    requires freq > 0
  {
    CeilDiv(MAX_FINITE * freq, MS_PER_SECOND)
  }

  /** Ticks -> milliseconds -> ticks when no clamp applies: never shorter, and longer by less than
      one millisecond's worth of ticks. */
  lemma UnclampedRoundTrip(t: Word, freq: Word)
    requires freq > 0
    requires CeilDiv(t * MS_PER_SECOND, freq) <= MAX_FINITE
    ensures t <= CeilDiv(TicksToMs(t, freq) * freq, MS_PER_SECOND) <= t + CeilDiv(freq, MS_PER_SECOND)
  {
    var ms := TicksToMs(t, freq);
    CeilDivBounds(t * MS_PER_SECOND, freq);
    CeilDivBounds(ms * freq, MS_PER_SECOND);
    CeilDivBounds(freq, MS_PER_SECOND);
  }

  /** A tick count past the clamp comes back as LongestExact, which is no longer than itself. */
  lemma ClampedRoundTrip(t: Word, freq: Word)
    requires freq > 0
    requires CeilDiv(t * MS_PER_SECOND, freq) > MAX_FINITE
    ensures TicksToMs(t, freq) == MAX_FINITE
    ensures LongestExact(freq) <= t
  {
    var x := CeilDiv(t * MS_PER_SECOND, freq);
    CeilDivBounds(t * MS_PER_SECOND, freq);
    CeilDivBounds(MAX_FINITE * freq, MS_PER_SECOND);
    assert MAX_FINITE * freq <= (x - 1) * freq by { MulMonotone(MAX_FINITE, x - 1, freq, freq); }
    assert (x - 1) * freq == x * freq - freq;
  }

  /** Arming the timer for t ticks never fires early exactly when t is at most LongestExact (and is
      itself finite); otherwise it fires early and the handler re-arms. Never late by more than one
      millisecond's worth of ticks, whatever t is. */
  lemma ArmingIsNeverEarly(t: Word, freq: Word)
    requires freq > 0
    ensures t <= MsToTicks(TicksToMs(t, freq), freq) <==> t <= LongestExact(freq) && t <= MAX_FINITE
    ensures MsToTicks(TicksToMs(t, freq), freq) <= t + CeilDiv(freq, MS_PER_SECOND)
  {
    if CeilDiv(t * MS_PER_SECOND, freq) <= MAX_FINITE {
      UnclampedRoundTrip(t, freq);
      var ms := TicksToMs(t, freq);
      CeilDivBounds(ms * freq, MS_PER_SECOND);
      CeilDivBounds(MAX_FINITE * freq, MS_PER_SECOND);
      MulMonotone(ms, MAX_FINITE, freq, freq);
      assert CeilDiv(ms * freq, MS_PER_SECOND) <= LongestExact(freq);
    } else {
      ClampedRoundTrip(t, freq);
    }
  }

  /** Two true times less than half a word apart compare by their wrapped ticks. */
  lemma WrappedOrder(a: int, b: int)
    requires -HALF < a - b < HALF
    ensures IsDue(a % WORD, b % WORD) <==> a <= b
    ensures a % WORD == b % WORD <==> a == b
  {
    WrappedDistance(a, b);
  }

  lemma WrappedDistance(a: int, b: int)
    ensures (a % WORD - b % WORD) % WORD == (a - b) % WORD
  {
    var qa, qb := a / WORD, b / WORD;
    assert a - b == (a % WORD - b % WORD) + WORD * (qa - qb);
    ModShift(a % WORD - b % WORD, qa - qb);
  }

  lemma ModShift(x: int, k: int)
    ensures (x + WORD * k) % WORD == x % WORD
  {
    var y := x + WORD * k;
    assert y == WORD * (x / WORD + k) + x % WORD;
  }

  /** A delay handed to the delayed table is due the moment it is posted exactly when it is half a word
      or longer: the documented limit on delays, and "forever" is past it. */
  lemma LongDelayIsDueAtOnce(now: Word, ticks: Word)
    requires ticks > 0
    ensures IsDue((now + ticks) % WORD, now) <==> ticks >= HALF
  {
    WrappedDistance(now + ticks, now);
  }
}
