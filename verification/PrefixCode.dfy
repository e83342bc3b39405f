/** A code that writes each value as one self-delimiting piece of a string. Reading a whole string, writing a whole
    string and converting from one code to another are the same for UTF-8 and for UTF-16. */
module PrefixCode {
  /** front: the length of the piece at the front, 0 if there is none. point: the value of that piece.
      scalar: what can be written. units: the piece that is written for it. */
  datatype Code<!U, !P> = Code(front: seq<U> -> nat, point: seq<U> -> P, scalar: P -> bool, units: P -> seq<U>)

  /** A piece stands for a value that is written as that piece, and what is written is read back whatever
      follows it. */
  ghost predicate Lawful<U(!new), P(!new)>(c: Code<U, P>) {
    && (forall s :: c.front(s) <= |s|)
    && (forall s | c.front(s) > 0 :: c.scalar(c.point(s)) && c.units(c.point(s)) == s[..c.front(s)])
    && (forall p | c.scalar(p) :: c.units(p) != [])
    && (forall p, rest | c.scalar(p) ::
          c.front(c.units(p) + rest) == |c.units(p)| && c.point(c.units(p) + rest) == p)
  }

  predicate WellFormed<U(==), P>(c: Code<U, P>, s: seq<U>) {
    s == [] || (0 < c.front(s) <= |s| && WellFormed(c, s[c.front(s)..]))
  }

  function Points<U(==), P>(c: Code<U, P>, s: seq<U>): seq<P>
    requires WellFormed(c, s)
  {
    if s == [] then [] else [c.point(s)] + Points(c, s[c.front(s)..])
  }

  predicate Scalars<U, P>(c: Code<U, P>, ps: seq<P>) {
    forall i | 0 <= i < |ps| :: c.scalar(ps[i])
  }

  function Encode<U, P>(c: Code<U, P>, ps: seq<P>): seq<U> {
    if |ps| == 0 then [] else c.units(ps[0]) + Encode(c, ps[1..])
  }

  /** Reads in the one code, writes in the other; nothing if the string is malformed. */
  function Convert<U(==), V, P>(c: Code<U, P>, d: Code<V, P>, s: seq<U>): seq<V> {
    if WellFormed(c, s) then Encode(d, Points(c, s)) else []
  }

  lemma {:induction false} EncodeReads<U(!new), P(!new)>(c: Code<U, P>, ps: seq<P>)
    requires Lawful(c) && Scalars(c, ps)
    ensures WellFormed(c, Encode(c, ps)) && Points(c, Encode(c, ps)) == ps
  {
    if ps != [] {
      var u, rest := c.units(ps[0]), Encode(c, ps[1..]);
      EncodeReads(c, ps[1..]);
      assert (u + rest)[|u|..] == rest;
      assert u + rest != [];
    }
  }

  lemma {:induction false} PointsWrite<U(!new), P(!new)>(c: Code<U, P>, s: seq<U>)
    requires Lawful(c) && WellFormed(c, s)
    ensures Scalars(c, Points(c, s)) && Encode(c, Points(c, s)) == s
  {
    if s != [] {
      var n := c.front(s);
      PointsWrite(c, s[n..]);
      assert Points(c, s)[1..] == Points(c, s[n..]);
      assert s == s[..n] + s[n..];
    }
  }

  /** The strings that can be read are exactly the ones that can be written. */
  lemma WellFormedIsEncoded<U(!new), P(!new)>(c: Code<U, P>, s: seq<U>)
    requires Lawful(c)
    ensures WellFormed(c, s) <==> exists ps :: Scalars(c, ps) && Encode(c, ps) == s
  {
    if WellFormed(c, s) {
      PointsWrite(c, s);
    }
    forall ps | Scalars(c, ps) && Encode(c, ps) == s ensures WellFormed(c, s) {
      EncodeReads(c, ps);
    }
  }

  /** Converting there and back, between two codes for the same values. */
  lemma RoundTrip<U(!new), V(!new), P(!new)>(c: Code<U, P>, d: Code<V, P>, s: seq<U>)
    requires Lawful(c) && Lawful(d) && (forall p :: c.scalar(p) == d.scalar(p))
    requires WellFormed(c, s)
    ensures WellFormed(d, Convert(c, d, s)) && Convert(d, c, Convert(c, d, s)) == s
  {
    PointsWrite(c, s);
    EncodeReads(d, Points(c, s));
  }

  lemma EmptyMeansRefused<U(!new), V(!new), P(!new)>(c: Code<U, P>, d: Code<V, P>, s: seq<U>)
    requires Lawful(c) && Lawful(d) && (forall p :: c.scalar(p) == d.scalar(p))
    ensures Convert(c, d, s) == [] <==> s == [] || !WellFormed(c, s)
  {
    if WellFormed(c, s) {
      RoundTrip(c, d, s);
    }
  }

  /** The converters' loop invariant: up to pos, out is what is returned unless something malformed follows. */
  predicate Converted<U(==), V(==), P>(c: Code<U, P>, d: Code<V, P>, s: seq<U>, pos: nat, out: seq<V>)
    requires pos <= |s|
  {
    && (WellFormed(c, s) <==> WellFormed(c, s[pos..]))
    && (WellFormed(c, s) ==> Convert(c, d, s) == out + Convert(c, d, s[pos..]))
  }

  lemma ConvertedStep<U(!new), V(!new), P(!new)>(c: Code<U, P>, d: Code<V, P>, s: seq<U>, pos: nat, out: seq<V>)
    requires Lawful(c) && pos < |s| && Converted(c, d, s, pos, out) && c.front(s[pos..]) > 0
    ensures pos + c.front(s[pos..]) <= |s| && c.scalar(c.point(s[pos..]))
    ensures Converted(c, d, s, pos + c.front(s[pos..]), out + d.units(c.point(s[pos..])))
  {
    var rest := s[pos..];
    var n := c.front(rest);
    assert s[pos + n..] == rest[n..];
    if WellFormed(c, rest) {
      assert Points(c, rest)[1..] == Points(c, rest[n..]);
      assert Convert(c, d, rest) == d.units(c.point(rest)) + Convert(c, d, rest[n..]);
    }
  }

  lemma ConvertedStops<U(!new), V(!new), P(!new)>(c: Code<U, P>, d: Code<V, P>, s: seq<U>, pos: nat, out: seq<V>)
    requires pos <= |s| && Converted(c, d, s, pos, out)
    requires pos == |s| || c.front(s[pos..]) == 0
    ensures Convert(c, d, s) == if pos == |s| then out else []
  {
  }
}
