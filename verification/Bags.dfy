/** Bags of everything in a sequence of sequences. */
module Bags {
  function Bag(ss: seq<seq<nat>>): (m: multiset<nat>) {
    if ss == [] then multiset{} else Bag(ss[..|ss| - 1]) + multiset(ss[|ss| - 1])
  }

  function Total(ss: seq<seq<nat>>): (n: nat) {
    if ss == [] then 0 else Total(ss[..|ss| - 1]) + |ss[|ss| - 1]|
  }

  lemma BagOpen(ss: seq<seq<nat>>)
    ensures Bag(ss + [[]]) == Bag(ss) && Total(ss + [[]]) == Total(ss)
  {
    assert (ss + [[]])[..|ss|] == ss;
  }

  lemma {:induction false} BagPush(ss: seq<seq<nat>>, i: nat, x: nat)
    requires i < |ss|
    ensures Bag(ss[i := ss[i] + [x]]) == Bag(ss) + multiset{x}
    ensures Total(ss[i := ss[i] + [x]]) == Total(ss) + 1
    decreases |ss|
  {
    var k := |ss| - 1;
    var tt := ss[i := ss[i] + [x]];
    if i == k {
      assert tt[..k] == ss[..k];
    } else {
      BagPush(ss[..k], i, x);
      assert tt[..k] == ss[..k][i := ss[..k][i] + [x]];
    }
  }

  lemma {:induction false} BagOfNone(ss: seq<seq<nat>>)
    requires forall i :: 0 <= i < |ss| ==> ss[i] == []
    ensures Bag(ss) == multiset{} && Total(ss) == 0
    decreases |ss|
  {
    if ss != [] {
      BagOfNone(ss[..|ss| - 1]);
    }
  }

  /** Distinct indices below n: at most n of them. */
  lemma {:induction false} Pigeonhole(ws: seq<nat>, n: nat)
    requires forall i :: 0 <= i < |ws| ==> ws[i] < n
    requires forall i, j :: 0 <= i < j < |ws| ==> ws[i] != ws[j]
    ensures |ws| <= n
    decreases n
  {
    if ws != [] {
      var k := |ws| - 1;
      var rest := seq(k, i requires 0 <= i < k => if ws[i] == n - 1 then ws[k] else ws[i]);
      Pigeonhole(rest, n - 1);
    }
  }

  lemma PrefixBag(s: seq<nat>, t: seq<nat>)
    requires s <= t
    ensures multiset(s) <= multiset(t)
  {
    assert t == s + t[|s|..];
  }

  /** What the elements of xs add up to, when f says what each adds. */
  function Tallied<T, E(==)>(f: T -> multiset<E>, xs: seq<T>): (m: multiset<E>) {
    if xs == [] then multiset{} else Tallied(f, xs[..|xs| - 1]) + f(xs[|xs| - 1])
  }

  lemma TalliedPush<T, E>(f: T -> multiset<E>, xs: seq<T>, x: T)
    ensures Tallied(f, xs + [x]) == Tallied(f, xs) + f(x)
  {
    assert (xs + [x])[..|xs|] == xs;
  }

  lemma {:induction false} TalliedAppend<T, E>(f: T -> multiset<E>, xs: seq<T>, ys: seq<T>)
    ensures Tallied(f, xs + ys) == Tallied(f, xs) + Tallied(f, ys)
    decreases |ys|
  {
    if ys == [] {
      assert xs + ys == xs;
    } else {
      var front, last := ys[..|ys| - 1], ys[|ys| - 1];
      TalliedAppend(f, xs, front);
      TalliedPush(f, xs + front, last);
      assert (xs + front) + [last] == xs + ys;
    }
  }

  /** Taking one occurrence of x out. */
  lemma TakeOut<T, E>(f: T -> multiset<E>, xs: seq<T>, i: nat)
    requires i < |xs|
    ensures var rest := xs[..i] + xs[i + 1..];
            multiset(rest) == multiset(xs) - multiset{xs[i]} && Tallied(f, xs) == Tallied(f, rest) + f(xs[i])
  {
    var a, x, b := xs[..i], xs[i], xs[i + 1..];
    assert xs == (a + [x]) + b;
    TalliedAppend(f, a + [x], b);
    TalliedPush(f, a, x);
    TalliedAppend(f, a, b);
  }

  lemma Somewhere<T>(x: T, ys: seq<T>) returns (i: nat)
    requires x in multiset(ys)
    ensures i < |ys| && ys[i] == x
  {
    assert x in ys;
    i :| 0 <= i < |ys| && ys[i] == x;
  }

  /** It depends on the bag alone. */
  lemma {:induction false} TalliedByBag<T, E>(f: T -> multiset<E>, xs: seq<T>, ys: seq<T>)
    requires multiset(xs) == multiset(ys)
    ensures Tallied(f, xs) == Tallied(f, ys)
    decreases |xs|
  {
    if xs == [] {
      assert |multiset(ys)| == 0;
    } else {
      var k := |xs| - 1;
      var i := Somewhere(xs[k], ys);
      TakeOut(f, xs, k);
      TakeOut(f, ys, i);
      TalliedByBag(f, xs[..k] + xs[k + 1..], ys[..i] + ys[i + 1..]);
    }
  }

  /** Part by part. */
  function TalliedParts<T, E(==)>(f: T -> multiset<E>, xss: seq<seq<T>>): (m: multiset<E>) {
    if xss == [] then multiset{} else TalliedParts(f, xss[..|xss| - 1]) + Tallied(f, xss[|xss| - 1])
  }

  lemma PartsStep<T, E>(f: T -> multiset<E>, xss: seq<seq<T>>, k: nat)
    requires k < |xss|
    ensures TalliedParts(f, xss[..k + 1]) == TalliedParts(f, xss[..k]) + Tallied(f, xss[k])
  {
    assert xss[..k + 1][..k] == xss[..k];
  }

  lemma {:induction false} PartsAreWhole<E>(f: nat -> multiset<E>, xss: seq<seq<nat>>) returns (xs: seq<nat>)
    ensures multiset(xs) == Bag(xss) && TalliedParts(f, xss) == Tallied(f, xs)
    decreases |xss|
  {
    if xss == [] {
      xs := [];
    } else {
      var last := xss[|xss| - 1];
      var front := PartsAreWhole(f, xss[..|xss| - 1]);
      xs := front + last;
      TalliedAppend(f, front, last);
    }
  }

  /** So it makes no difference how the elements were dealt out. */
  lemma DealtOut<E>(f: nat -> multiset<E>, xss: seq<seq<nat>>, ids: seq<nat>)
    requires Bag(xss) == multiset(ids)
    ensures TalliedParts(f, xss) == Tallied(f, ids)
  {
    var xs := PartsAreWhole(f, xss);
    TalliedByBag(f, xs, ids);
  }
}
