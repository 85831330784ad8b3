/** Facts about sequences and slices. */
module Seqs {
  import opened Bits

  lemma Reassociate<T>(a: seq<T>, b: seq<T>, c: seq<T>)
    ensures (a + b) + c == a + (b + c)
  {
  }

  /** `t` stands in s from i on. */
  predicate StandsAt(s: seq<byte>, i: nat, t: seq<byte>) {
    i + |t| <= |s| && forall k :: 0 <= k < |t| ==> s[i + k] == t[k]
  }

  lemma StandsPieces(a: seq<byte>, b: seq<byte>)
    ensures StandsAt(a + b, 0, a) && StandsAt(a + b, |a|, b)
  {
  }

  lemma StandsInside(s: seq<byte>, o: nat, t: seq<byte>, p: nat, u: seq<byte>)
    requires StandsAt(s, o, t) && StandsAt(t, p, u)
    ensures StandsAt(s, o + p, u)
  {
    forall k | 0 <= k < |u|
      ensures s[o + p + k] == u[k]
    {
      assert s[o + (p + k)] == t[p + k];
    }
  }

  lemma StandsTail(a: seq<byte>, b: seq<byte>, p: nat, u: seq<byte>)
    requires StandsAt(b, p, u)
    ensures StandsAt(a + b, |a| + p, u)
  {
    StandsPieces(a, b);
    StandsInside(a + b, |a|, b, p, u);
  }

  lemma StandsThree(a: seq<byte>, b: seq<byte>, c: seq<byte>)
    ensures StandsAt(a + (b + c), 0, a) && StandsAt(a + (b + c), |a|, b) && StandsAt(a + (b + c), |a| + |b|, c)
  {
    StandsPieces(a, b + c);
    StandsPieces(b, c);
    StandsTail(a, b + c, 0, b);
    StandsTail(a, b + c, |b|, c);
  }

  /** A suffix that is a concatenation splits where the first part ends. */
  lemma SuffixSplit<T>(b: seq<T>, off: nat, x: seq<T>, y: seq<T>)
    requires off <= |b| && b[off..] == x + y
    ensures off + |x| <= |b|
    ensures b[off..off + |x|] == x
    ensures b[off + |x|..] == y
  {
    var s, n := b[off..], |x|;
    assert |s| == |x| + |y|;
    assert s[..n] == x && s[n..] == y;
    assert b[off..off + n] == s[..n];
    assert b[off + n..] == s[n..];
  }
}
