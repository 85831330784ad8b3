/** Index lists as a user writes them for --ost, read back. */
module IndexLists {
  import opened Bits
  import opened Records
  import opened Seqs
  import opened Filter
  import opened Text
  import opened Options

  /** One item of a list: an index, or a range. */
  datatype Item = Index(n: nat) | Between(lo: nat, hi: nat)

  predicate GoodItem(it: Item) {
    match it
    case Index(n) => n < TWO32
    case Between(lo, hi) => lo <= hi < TWO32
  }

  predicate GoodItems(its: seq<Item>) {
    forall i :: 0 <= i < |its| ==> GoodItem(its[i])
  }

  function ItemText(it: Item): (t: Text)
    ensures |t| > 0
  {
    match it
    case Index(n) => Decimal(n)
    case Between(lo, hi) => Decimal(lo) + ([45] + Decimal(hi))
  }

  /** The items with commas between them. */
  function ListText(its: seq<Item>): (t: Text)
    requires its != []
    ensures |t| > 0
  {
    if |its| == 1 then ItemText(its[0]) else ItemText(its[0]) + ([44] + ListText(its[1..]))
  }

  function ItemTexts(its: seq<Item>): (ts: seq<Text>) {
    if its == [] then [] else [ItemText(its[0])] + ItemTexts(its[1..])
  }

  function First(it: Item): nat {
    match it
    case Index(n) => n
    case Between(lo, _) => lo
  }

  function Last(it: Item): nat {
    match it
    case Index(n) => n
    case Between(_, hi) => hi
  }

  /** What the items stand for, end to end. */
  function Indices(its: seq<Item>): (r: seq<u32>)
    requires GoodItems(its)
  {
    if its == [] then [] else Range(First(its[0]), Last(its[0])) + Indices(its[1..])
  }

  // ------------------------------------------------------------------
  // One item

  lemma {:induction false} DashIs(tok: Text, i: nat, j: nat)
    requires i <= j <= |tok| && (forall k :: i <= k < j ==> tok[k] != 45) && (j < |tok| ==> tok[j] == 45)
    ensures Dash(tok, i) == j
    decreases j - i
  {
    if i < j {
      DashIs(tok, i + 1, j);
    }
  }

  /** What the parser makes of an item, sound or not. */
  function Read(it: Item): Option<Span> {
    match it
    case Index(n) => if n < TWO64 then Some(Span(n, n)) else None
    case Between(lo, hi) => if lo < TWO64 && lo <= Saturated(hi) then Some(Span(lo, Saturated(hi))) else None
  }

  /** A sound item gives its range; of any other the parser makes nothing, or a range beyond 32 bits. */
  lemma ReadIs(it: Item)
    ensures GoodItem(it) ==> Read(it) == Some(Span(First(it), Last(it)))
    ensures !GoodItem(it) && Read(it).Some? ==> Read(it).value.lo <= Read(it).value.hi && Read(it).value.hi >= TWO32
  {
  }

  lemma IndexReads(n: nat)
    ensures ParseSpan(Decimal(n)) == Read(Index(n))
  {
    var t := Decimal(n);
    DecimalReadBack(t, 0, n, 0);
    DashIs(t, 0, |t|);
  }

  lemma BetweenStands(lo: nat, hi: nat)
    ensures var t := ItemText(Between(lo, hi));
            && StandsAt(t, 0, Decimal(lo)) && StandsAt(t, |Decimal(lo)| + 1, Decimal(hi))
            && |t| == |Decimal(lo)| + 1 + |Decimal(hi)| && t[|Decimal(lo)|] == 45
  {
    StandsThree(Decimal(lo), [45], Decimal(hi));
    var t := ItemText(Between(lo, hi));
    assert t[|Decimal(lo)| + 0] == [45][0];
  }

  lemma SpanOf(t: Text, lo: Scan, hi: Scan)
    requires 0 < lo.end && lo.end + 1 < |t| && Dash(t, 0) == lo.end && hi.end == |t|
    requires StrToUll(t, 0, 0) == lo && StrToUll(t, lo.end + 1, 0) == hi
    ensures ParseSpan(t) == if lo.range || hi.value < lo.value then None else Some(Span(lo.value, hi.value))
  {
  }

  lemma DashAfter(t: Text, lo: nat)
    requires StandsAt(t, 0, Decimal(lo)) && |Decimal(lo)| < |t| && t[|Decimal(lo)|] == 45
    ensures Dash(t, 0) == |Decimal(lo)|
  {
    var d := Decimal(lo);
    forall k | 0 <= k < |d|
      ensures t[k] != 45
    {
      assert t[0 + k] == d[k];
    }
    DashIs(t, 0, |d|);
  }

  lemma SpanReads(t: Text, lo: nat, hi: nat)
    requires StandsAt(t, 0, Decimal(lo)) && StandsAt(t, |Decimal(lo)| + 1, Decimal(hi))
    requires |t| == |Decimal(lo)| + 1 + |Decimal(hi)| && t[|Decimal(lo)|] == 45
    ensures ParseSpan(t) == Read(Between(lo, hi))
  {
    DecimalReadBack(t, 0, lo, 0);
    DecimalReadBack(t, |Decimal(lo)| + 1, hi, 0);
    DashAfter(t, lo);
    SpanOf(t, Scan(Saturated(lo), |Decimal(lo)|, lo >= TWO64), Scan(Saturated(hi), |t|, hi >= TWO64));
  }

  lemma ItemReads(it: Item)
    ensures ParseSpan(ItemText(it)) == Read(it)
  {
    match it {
      case Index(n) => IndexReads(n);
      case Between(lo, hi) =>
        BetweenStands(lo, hi);
        SpanReads(ItemText(it), lo, hi);
    }
  }

  lemma NoComma(it: Item)
    ensures forall k :: 0 <= k < |ItemText(it)| ==> ItemText(it)[k] != 44
  {
  }

  // ------------------------------------------------------------------
  // The tokens

  lemma {:induction false} TokenEndIs(s: Text, i: nat, j: nat)
    requires i <= j <= |s| && (forall k :: i <= k < j ==> s[k] != 44) && (j < |s| ==> s[j] == 44)
    ensures TokenEnd(s, i) == j
    decreases j - i
  {
    if i < j {
      TokenEndIs(s, i + 1, j);
    }
  }

  /** A token that stands at i, up to a comma or the end. */
  lemma TokenReads(s: Text, i: nat, t: Text)
    requires StandsAt(s, i, t) && |t| > 0 && (forall k :: 0 <= k < |t| ==> t[k] != 44)
    requires i + |t| < |s| ==> s[i + |t|] == 44
    ensures Tokens(s, i) == [t] + Tokens(s, i + |t|)
  {
    forall k | i <= k < i + |t|
      ensures s[k] != 44
    {
      assert s[i + (k - i)] == t[k - i];
    }
    TokenEndIs(s, i, i + |t|);
    assert s[i..i + |t|] == t;
  }

  lemma ListStands(s: Text, i: nat, its: seq<Item>)
    requires |its| > 1 && StandsAt(s, i, ListText(its))
    ensures var t := ItemText(its[0]);
            && StandsAt(s, i, t) && s[i + |t|] == 44 && StandsAt(s, i + |t| + 1, ListText(its[1..]))
            && |ListText(its)| == |t| + 1 + |ListText(its[1..])|
  {
    var t, rest := ItemText(its[0]), ListText(its[1..]);
    var all := t + ([44] + rest);
    StandsThree(t, [44], rest);
    StandsInside(s, i, all, 0, t);
    StandsInside(s, i, all, |t|, [44]);
    StandsInside(s, i, all, |t| + 1, rest);
    assert s[i + |t| + 0] == [44][0];
  }

  lemma {:induction false} TokensAre(s: Text, i: nat, its: seq<Item>)
    requires its != [] && StandsAt(s, i, ListText(its)) && i + |ListText(its)| == |s|
    ensures Tokens(s, i) == ItemTexts(its)
    decreases |its|
  {
    NoComma(its[0]);
    if |its| == 1 {
      TokenReads(s, i, ItemText(its[0]));
    } else {
      ListStands(s, i, its);
      TokenReads(s, i, ItemText(its[0]));
      TokensAre(s, i + |ItemText(its[0])| + 1, its[1..]);
    }
  }

  // ------------------------------------------------------------------
  // The list

  lemma AddSpansStep(list: seq<u32>, tok: Text, toks: seq<Text>)
    requires |list| <= MAX_LIST
    ensures AddSpans(list, [tok] + toks) ==
            if ParseSpan(tok).None? then Listed(list, false)
            else
              var r := AddSpan(list, ParseSpan(tok).value.lo, ParseSpan(tok).value.hi);
              if r.ok then AddSpans(r.list, toks) else r
  {
    assert ([tok] + toks)[1..] == toks;
  }

  lemma Join(a: seq<u32>, b: seq<u32>, c: seq<u32>)
    ensures (a + b) + c == a + (b + c)
  {
  }

  lemma FirstItemBad(list: seq<u32>, its: seq<Item>)
    requires |list| <= MAX_LIST && its != [] && !GoodItem(its[0])
    ensures !AddSpans(list, ItemTexts(its)).ok
  {
    ItemReads(its[0]);
    ReadIs(its[0]);
    AddSpansStep(list, ItemText(its[0]), ItemTexts(its[1..]));
    if Read(its[0]).Some? {
      SpanIsWritten(list, Read(its[0]).value.lo, Read(its[0]).value.hi);
    }
  }

  lemma FirstItemGood(list: seq<u32>, its: seq<Item>)
    requires |list| <= MAX_LIST && its != [] && GoodItem(its[0])
    ensures var more := Range(First(its[0]), Last(its[0]));
            if |list| + |more| <= MAX_LIST
            then AddSpans(list, ItemTexts(its)) == AddSpans(list + more, ItemTexts(its[1..]))
            else !AddSpans(list, ItemTexts(its)).ok
  {
    ItemReads(its[0]);
    ReadIs(its[0]);
    AddSpansStep(list, ItemText(its[0]), ItemTexts(its[1..]));
    SpanIsWritten(list, First(its[0]), Last(its[0]));
  }

  lemma {:induction false} SpansAre(list: seq<u32>, its: seq<Item>)
    requires |list| <= MAX_LIST
    ensures AddSpans(list, ItemTexts(its)).ok <==> GoodItems(its) && |list| + |Indices(its)| <= MAX_LIST
    ensures AddSpans(list, ItemTexts(its)).ok ==> AddSpans(list, ItemTexts(its)).list == list + Indices(its)
    decreases |its|
  {
    if its == [] {
      assert list + [] == list;
    } else if !GoodItem(its[0]) {
      FirstItemBad(list, its);
    } else {
      var more := Range(First(its[0]), Last(its[0]));
      FirstItemGood(list, its);
      TailGood(its);
      if |list| + |more| <= MAX_LIST {
        SpansAre(list + more, its[1..]);
        if GoodItems(its) {
          Join(list, more, Indices(its[1..]));
        }
      }
    }
  }

  lemma TailGood(its: seq<Item>)
    requires its != []
    ensures GoodItems(its) <==> GoodItem(its[0]) && GoodItems(its[1..])
  {
    if GoodItem(its[0]) && GoodItems(its[1..]) {
      forall i | 0 <= i < |its|
        ensures GoodItem(its[i])
      {
        assert i > 0 ==> its[i] == its[1..][i - 1];
      }
    }
  }

  /** A written list, "1,3-5" for example, is accepted exactly when it is shorter than the buffer, every item is an
      index or a range of indices within 32 bits and there are at most 64 of them in all; and then it reads back as
      the indices of its items end to end. */
  lemma ListReadBack(its: seq<Item>)
    requires its != []
    ensures var r := IndexList(ListText(its));
            && (r.ok <==> |ListText(its)| < 512 && GoodItems(its) && |Indices(its)| <= MAX_LIST)
            && (r.ok ==> r.list == Indices(its))
  {
    var s := ListText(its);
    TokensAre(s, 0, its);
    SpansAre([], its);
    if GoodItems(its) {
      assert [] + Indices(its) == Indices(its);
      assert |Indices(its)| > 0;
    }
  }
}
