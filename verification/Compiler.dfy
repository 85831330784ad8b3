/** The filter compiler of src/lfu_filter.c: option calls, failing ones included, that grow a filter in place. */
module Compiler {
  import opened Bits
  import opened Records
  import opened Filter
  import opened Text
  import opened Quantities
  import opened Options
  import opened Eval

  /** What lfu_filter_opt returns. */
  datatype Rc = Done | NotMine | BadValue | Crash

  datatype Called = Called(f: Filter, rc: Rc)

  predicate Growing(f: Filter) {
    0 <= f.n <= MAX_PRED && 0 <= f.negPending <= 1
  }

  /** The predicate as it goes in: negated if a `!` is pending. */
  function Signed(f: Filter, p: Pred): (r: Pred) {
    p.(neg := if f.negPending != 0 then 1 else 0)
  }

  /** lfu_pred_new, and the slot filled. */
  function Grow(f: Filter, p: Pred): (g: Filter)
    requires Growing(f) && f.n < MAX_PRED
  {
    f.(p := f.p[f.n := Signed(f, p)], n := f.n + 1, negPending := 0, needs := f.needs + FieldNeeds(p.field))
  }

  /** One call of lfu_filter_opt. */
  function Call(f: Filter, d: Draft): (r: Called)
    requires Growing(f)
    ensures Growing(r.f)
  {
    match d
    case Bang => Called(f.(negPending := 1), Done)
    case NotOurs => Called(f, NotMine)
    case Refused => Called(f, BadValue)
    case Dies => Called(f, Crash)
    case Ready(p) => if f.n == MAX_PRED then Called(f, BadValue) else Called(Grow(f, p), Done)
    case Tentative(p, ok) =>
      if f.n == MAX_PRED then Called(f, BadValue)
      else if ok then Called(Grow(f, p), Done)
      else Called(Grow(f, p).(n := f.n), BadValue)
  }

  /** The filter after a sequence of calls. */
  function After(ds: seq<Draft>): (f: Filter)
    ensures Growing(f)
  {
    if ds == [] then EMPTY_FILTER else Call(After(ds[..|ds| - 1]), ds[|ds| - 1]).f
  }

  predicate GoodDrafts(ds: seq<Draft>) {
    forall i :: 0 <= i < |ds| ==> GoodDraft(ds[i])
  }

  /** An option with its text, as typed. */
  datatype Arg = Arg(opt: Opt, text: Text)

  /** What the options on a command line amount to. */
  function Typed(args: seq<Arg>, names: Names): (ds: seq<Draft>)
    ensures |ds| == |args|
    ensures forall i :: 0 <= i < |args| ==> ds[i] == DraftOf(args[i].opt, args[i].text, names)
  {
    if args == [] then []
    else
      var last := args[|args| - 1];
      Typed(args[..|args| - 1], names) + [DraftOf(last.opt, last.text, names)]
  }

  lemma TypedAreGood(args: seq<Arg>, names: Names)
    ensures GoodDrafts(Typed(args, names))
  {
    forall i | 0 <= i < |args|
      ensures GoodDraft(Typed(args, names)[i])
    {
      DraftIsGood(args[i].opt, args[i].text, names);
    }
  }

  // ------------------------------------------------------------------
  // Any sequence of calls

  predicate SoundPred(p: Pred) {
    ValidPred(p) && AttrsCompiled(p)
  }

  predicate AllSound(f: Filter)
    requires Growing(f)
  {
    forall i :: 0 <= i < f.n ==> SoundPred(f.p[i])
  }

  /** What a refused --ost, --pool or --name leaves in the demand mask. */
  function Leak(f: Filter, d: Draft): set<Need> {
    if d.Tentative? && !d.ok && f.n < MAX_PRED then FieldNeeds(d.p.field) else {}
  }

  function Leaks(ds: seq<Draft>): set<Need> {
    if ds == [] then {} else Leaks(ds[..|ds| - 1]) + Leak(After(ds[..|ds| - 1]), ds[|ds| - 1])
  }

  lemma GrowActive(f: Filter, p: Pred)
    requires Growing(f) && f.n < MAX_PRED
    ensures Active(Grow(f, p)) == Active(f) + [Signed(f, p)]
    ensures NeedsOf(Active(Grow(f, p))) == NeedsOf(Active(f)) + FieldNeeds(p.field)
    ensures Active(Grow(f, p).(n := f.n)) == Active(f)
  {
    var ps := Active(f) + [Signed(f, p)];
    assert Active(Grow(f, p)) == ps;
    assert ps[..f.n] == Active(f);
  }

  lemma SignedIsSound(f: Filter, p: Pred)
    requires Sound(p)
    ensures SoundPred(Signed(f, p))
  {
  }

  lemma GrowIsSound(f: Filter, p: Pred)
    requires Growing(f) && f.n < MAX_PRED && AllSound(f) && SoundPred(Signed(f, p))
    ensures AllSound(Grow(f, p))
  {
  }

  lemma ClaimKeeps(f: Filter, p: Pred, ok: bool, leaks: set<Need>)
    requires Growing(f) && f.n < MAX_PRED && AllSound(f) && f.needs == NeedsOf(Active(f)) + leaks && (ok ==> Sound(p))
    ensures var g := if ok then Grow(f, p) else Grow(f, p).(n := f.n);
            AllSound(g) && g.needs == NeedsOf(Active(g)) + (leaks + if ok then {} else FieldNeeds(p.field))
  {
    GrowActive(f, p);
    if ok {
      SignedIsSound(f, p);
      GrowIsSound(f, p);
    }
  }

  lemma CallKeeps(f: Filter, d: Draft, leaks: set<Need>)
    requires Growing(f) && GoodDraft(d) && AllSound(f) && f.needs == NeedsOf(Active(f)) + leaks
    ensures var g := Call(f, d).f;
            AllSound(g) && g.needs == NeedsOf(Active(g)) + (leaks + Leak(f, d))
  {
    if f.n < MAX_PRED {
      match d {
        case Ready(p) => ClaimKeeps(f, p, true, leaks);
        case Tentative(p, ok) => ClaimKeeps(f, p, ok, leaks);
        case _ =>
      }
    }
  }

  /** Every sequence of calls, failing ones included, keeps the filter bounded and every predicate in force valid;
      and the demand mask is exactly what those predicates need plus what refused options left behind. */
  lemma {:induction false} AnyCalls(ds: seq<Draft>)
    requires GoodDrafts(ds)
    ensures AllSound(After(ds)) && After(ds).needs == NeedsOf(Active(After(ds))) + Leaks(ds)
    decreases |ds|
  {
    if ds != [] {
      var k := |ds| - 1;
      AnyCalls(ds[..k]);
      CallKeeps(After(ds[..k]), ds[k], Leaks(ds[..k]));
    }
  }

  /** The mask is exact, exactly when nothing was left behind that the predicates do not need anyway. */
  lemma MaskExactExactlyWhen(ds: seq<Draft>)
    requires GoodDrafts(ds)
    ensures After(ds).needs == NeedsOf(Active(After(ds))) <==> Leaks(ds) <= NeedsOf(Active(After(ds)))
  {
    AnyCalls(ds);
  }

  // ------------------------------------------------------------------
  // Calls that all succeed

  predicate NamesPred(d: Draft) {
    d.Ready? || d.Tentative?
  }

  predicate Accepted(d: Draft) {
    d.Bang? || d.Ready? || (d.Tentative? && d.ok)
  }

  /** The predicates as written on the command line: each negated exactly when a `!` stands right before it. */
  function Written(ds: seq<Draft>): (ps: seq<Pred>) {
    if ds == [] then []
    else
      var k := |ds| - 1;
      Written(ds[..k]) + if NamesPred(ds[k]) then [ds[k].p.(neg := if EndsInBang(ds[..k]) then 1 else 0)] else []
  }

  predicate EndsInBang(ds: seq<Draft>) {
    ds != [] && ds[|ds| - 1].Bang?
  }

  /** Every call returned 0. */
  predicate AllDone(ds: seq<Draft>) {
    ds == [] || (AllDone(ds[..|ds| - 1]) && Call(After(ds[..|ds| - 1]), ds[|ds| - 1]).rc == Done)
  }

  predicate AllAccepted(ds: seq<Draft>) {
    forall i :: 0 <= i < |ds| ==> Accepted(ds[i])
  }

  /** A call that returned 0. */
  lemma CallDone(f: Filter, d: Draft)
    requires Growing(f) && Call(f, d).rc == Done
    ensures var g := Call(f, d).f;
            && Accepted(d) && Leak(f, d) == {} && g.negPending == (if d.Bang? then 1 else 0)
            && Active(g) == Active(f) + if d.Bang? then [] else [Signed(f, d.p)]
  {
    if d.Bang? {
      assert Active(f) + [] == Active(f);
    } else {
      GrowActive(f, d.p);
    }
  }

  lemma {:induction false} WhatWasWritten(ds: seq<Draft>)
    requires AllDone(ds)
    ensures Active(After(ds)) == Written(ds) && Leaks(ds) == {}
    ensures After(ds).negPending == if EndsInBang(ds) then 1 else 0
    decreases |ds|
  {
    if ds != [] {
      var k := |ds| - 1;
      WhatWasWritten(ds[..k]);
      CallDone(After(ds[..k]), ds[k]);
    }
  }

  lemma {:induction false} WrittenGrows(ds: seq<Draft>, k: nat)
    requires k <= |ds|
    ensures |Written(ds[..k])| <= |Written(ds)|
    decreases |ds|
  {
    if k == |ds| {
      assert ds[..k] == ds;
    } else {
      var m := |ds| - 1;
      WrittenGrows(ds[..m], k);
      assert ds[..m][..k] == ds[..k];
    }
  }

  /** All calls succeed exactly when every text is accepted and there are at most 32 predicates. */
  lemma {:induction false} AllDoneExactlyWhen(ds: seq<Draft>)
    ensures AllDone(ds) <==> AllAccepted(ds) && |Written(ds)| <= MAX_PRED
    decreases |ds|
  {
    if ds != [] {
      var k := |ds| - 1;
      AllDoneExactlyWhen(ds[..k]);
      WrittenGrows(ds, k);
      assert AllAccepted(ds) <==> AllAccepted(ds[..k]) && Accepted(ds[k]) by {
        assert forall i :: 0 <= i < k ==> ds[..k][i] == ds[i];
      }
      if AllDone(ds[..k]) {
        WhatWasWritten(ds[..k]);
        if AllDone(ds) {
          CallDone(After(ds[..k]), ds[k]);
        }
      }
    }
  }

  /** lfu_filter_check. */
  predicate Check(f: Filter) {
    f.negPending == 0
  }

  /** When every call succeeded, the check passes exactly when no `!` is left over; then lfu_filter_validate accepts
      the filter, it holds the predicates as written, and its demand mask is exactly what they need. */
  lemma CompiledAsWritten(ds: seq<Draft>)
    requires GoodDrafts(ds) && AllDone(ds)
    ensures Check(After(ds)) <==> !EndsInBang(ds)
    ensures Check(After(ds)) ==> Compiled(After(ds)) && AllAttrsCompiled(After(ds)) && Active(After(ds)) == Written(ds)
  {
    AnyCalls(ds);
    WhatWasWritten(ds);
  }

  /** The command line gives a filter: every option call succeeded, and no `!` is left over. */
  predicate Compiles(args: seq<Arg>, names: Names) {
    AllDone(Typed(args, names)) && !EndsInBang(Typed(args, names))
  }

  /** From the texts themselves: any options, in any order, with any texts, keep the filter sound; and a command line
      that compiles gives a filter that validates, holds its predicates as written, and demands exactly what they
      need. */
  lemma AnyCommandLine(args: seq<Arg>, names: Names)
    ensures var f := After(Typed(args, names));
            && AllSound(f) && f.needs == NeedsOf(Active(f)) + Leaks(Typed(args, names))
            && (Compiles(args, names) ==>
                  Compiled(f) && AllAttrsCompiled(f) && Active(f) == Written(Typed(args, names)))
  {
    TypedAreGood(args, names);
    AnyCalls(Typed(args, names));
    if Compiles(args, names) {
      CompiledAsWritten(Typed(args, names));
    }
  }

  lemma AfterOne(ds: seq<Draft>, d: Draft)
    ensures After(ds + [d]) == Call(After(ds), d).f
  {
    assert (ds + [d])[..|ds|] == ds;
  }

  // ------------------------------------------------------------------
  // What becomes of a `!`

  /** Call i claims a slot: there is room, and whether its text is refused after that makes no difference. */
  predicate Claims(ds: seq<Draft>, i: nat)
    requires i < |ds|
  {
    NamesPred(ds[i]) && After(ds[..i]).n < MAX_PRED
  }

  /** Call i puts a predicate into the filter. */
  predicate Adds(ds: seq<Draft>, i: nat)
    requires i < |ds|
  {
    Claims(ds, i) && Accepted(ds[i])
  }

  /** Call i gives its slot back. */
  predicate GivesBack(ds: seq<Draft>, i: nat)
    requires i < |ds|
  {
    Claims(ds, i) && !Accepted(ds[i])
  }

  /** A `!` stands with no claim of a slot after it. */
  predicate Unclaimed(ds: seq<Draft>) {
    exists i :: 0 <= i < |ds| && ds[i].Bang? && forall j :: i < j < |ds| ==> !Claims(ds, j)
  }

  /** A `!` stands with no predicate after it: what is documented to negate the next one. */
  predicate Meant(ds: seq<Draft>) {
    exists i :: 0 <= i < |ds| && ds[i].Bang? && forall j :: i < j < |ds| ==> !Adds(ds, j)
  }

  /** A slot was given back after the last `!`. */
  predicate Swallowed(ds: seq<Draft>) {
    exists i :: 0 <= i < |ds| && GivesBack(ds, i) && forall j :: i < j < |ds| ==> !ds[j].Bang?
  }

  lemma SameBefore(ds: seq<Draft>, i: nat)
    requires i + 1 < |ds|
    ensures var front := ds[..|ds| - 1];
            front[i] == ds[i] && Claims(front, i) == Claims(ds, i) && Adds(front, i) == Adds(ds, i)
            && GivesBack(front, i) == GivesBack(ds, i)
  {
    assert ds[..|ds| - 1][..i] == ds[..i];
  }

  lemma UnclaimedStep(ds: seq<Draft>)
    requires ds != []
    ensures var k := |ds| - 1;
            Unclaimed(ds) <==> ds[k].Bang? || (Unclaimed(ds[..k]) && !Claims(ds, k))
  {
    var k := |ds| - 1;
    var front := ds[..k];
    forall i | 0 <= i < k
      ensures front[i] == ds[i] && Claims(front, i) == Claims(ds, i)
    {
      SameBefore(ds, i);
    }
    if Unclaimed(front) && !Claims(ds, k) {
      var i :| 0 <= i < k && front[i].Bang? && forall j :: i < j < k ==> !Claims(front, j);
      assert ds[i].Bang? && forall j :: i < j < |ds| ==> !Claims(ds, j);
    }
    if Unclaimed(ds) && !ds[k].Bang? {
      var i :| 0 <= i < |ds| && ds[i].Bang? && forall j :: i < j < |ds| ==> !Claims(ds, j);
      assert front[i].Bang? && forall j :: i < j < k ==> !Claims(front, j);
    }
  }

  lemma MeantStep(ds: seq<Draft>)
    requires ds != []
    ensures var k := |ds| - 1;
            Meant(ds) <==> ds[k].Bang? || (Meant(ds[..k]) && !Adds(ds, k))
  {
    var k := |ds| - 1;
    var front := ds[..k];
    forall i | 0 <= i < k
      ensures front[i] == ds[i] && Adds(front, i) == Adds(ds, i)
    {
      SameBefore(ds, i);
    }
    if Meant(front) && !Adds(ds, k) {
      var i :| 0 <= i < k && front[i].Bang? && forall j :: i < j < k ==> !Adds(front, j);
      assert ds[i].Bang? && forall j :: i < j < |ds| ==> !Adds(ds, j);
    }
    if Meant(ds) && !ds[k].Bang? {
      var i :| 0 <= i < |ds| && ds[i].Bang? && forall j :: i < j < |ds| ==> !Adds(ds, j);
      assert front[i].Bang? && forall j :: i < j < k ==> !Adds(front, j);
    }
  }

  lemma SwallowedStep(ds: seq<Draft>)
    requires ds != []
    ensures var k := |ds| - 1;
            Swallowed(ds) <==> GivesBack(ds, k) || (Swallowed(ds[..k]) && !ds[k].Bang?)
  {
    var k := |ds| - 1;
    var front := ds[..k];
    forall i | 0 <= i < k
      ensures front[i] == ds[i] && GivesBack(front, i) == GivesBack(ds, i)
    {
      SameBefore(ds, i);
    }
    if Swallowed(front) && !ds[k].Bang? {
      var i :| 0 <= i < k && GivesBack(front, i) && forall j :: i < j < k ==> !front[j].Bang?;
      assert GivesBack(ds, i) && forall j :: i < j < |ds| ==> !ds[j].Bang?;
    }
    if Swallowed(ds) && !GivesBack(ds, k) {
      var i :| 0 <= i < |ds| && GivesBack(ds, i) && forall j :: i < j < |ds| ==> !ds[j].Bang?;
      assert GivesBack(front, i) && forall j :: i < j < k ==> !front[j].Bang?;
    }
  }

  lemma CallPending(f: Filter, d: Draft)
    requires Growing(f)
    ensures Call(f, d).f.negPending != 0 <==> d.Bang? || (f.negPending != 0 && !(NamesPred(d) && f.n < MAX_PRED))
  {
  }

  /** After any calls, failing ones included, a `!` is pending exactly when one stands with no claim of a slot after
      it; that is what was meant, except when a refused option has given its slot back since. */
  lemma {:induction false} PendingExactlyWhen(ds: seq<Draft>)
    ensures After(ds).negPending != 0 <==> Unclaimed(ds)
    ensures Unclaimed(ds) <==> Meant(ds) && !Swallowed(ds)
    decreases |ds|
  {
    if ds != [] {
      var k := |ds| - 1;
      PendingExactlyWhen(ds[..k]);
      CallPending(After(ds[..k]), ds[k]);
      UnclaimedStep(ds);
      MeantStep(ds);
      SwallowedStep(ds);
    }
  }

  /** After any calls the next predicate that goes in is negated as documented exactly when no refused --ost, --pool
      or --name has given its slot back since the `!` meant for it. */
  lemma NegatedAsMeantExactlyWhen(ds: seq<Draft>, d: Draft)
    requires Accepted(d) && NamesPred(d) && After(ds).n < MAX_PRED
    ensures Active(After(ds + [d])) == Active(After(ds)) + [d.p.(neg := if Meant(ds) then 1 else 0)] <==>
            !(Meant(ds) && Swallowed(ds))
  {
    PendingExactlyWhen(ds);
    AfterOne(ds, d);
    GrowActive(After(ds), d.p);
    LastOf(Active(After(ds)), Signed(After(ds), d.p), d.p.(neg := if Meant(ds) then 1 else 0));
  }

  lemma LastOf(ps: seq<Pred>, p: Pred, q: Pred)
    ensures ps + [p] == ps + [q] <==> p == q
  {
    if ps + [p] == ps + [q] {
      assert (ps + [p])[|ps|] == (ps + [q])[|ps|];
    }
  }

  /** For example, after any calls, a `!` followed by a refused option is lost, and the refused field's demand stays. */
  lemma RefusedOptionSwallowsBang(ds: seq<Draft>, p: Pred, q: Pred)
    requires After(ds).n < MAX_PRED
    ensures var f := After(ds + [Bang] + [Tentative(p, false)] + [Ready(q)]);
            && Active(f) == Active(After(ds)) + [q.(neg := 0)]
            && f.needs == After(ds).needs + FieldNeeds(p.field) + FieldNeeds(q.field)
  {
    AfterOne(ds, Bang);
    AfterOne(ds + [Bang], Tentative(p, false));
    AfterOne(ds + [Bang] + [Tentative(p, false)], Ready(q));
    GrowActive(After(ds + [Bang]), p);
    GrowActive(After(ds + [Bang] + [Tentative(p, false)]), q);
  }

  // ------------------------------------------------------------------
  // What an unsigned quantity or age means

  /** A size equality with a margin hits exactly (val - margin, val], short of where value + margin would wrap. */
  lemma EqualityWindow(p: Pred, value: u64)
    requires ValidPred(p) && p.op == OP_EQ && p.val2 != 0
    ensures Cmp(p, value) <==> p.val - p.val2 < value <= p.val && value + p.val2 < TWO64
  {
    var sum: nat := value + p.val2;
    if sum < TWO64 {
      Unwrapped(sum);
    } else {
      DropMultiple(sum - TWO64, 1);
    }
  }

  /** An age equality hits exactly [val, val + margin), unless val + margin does not fit 64 bits: then nothing. */
  lemma AgeWindow(p: Pred, now: int, stamp: u32)
    requires ValidPred(p) && p.op == OP_EQ && now < TWO64
    ensures var age := if now > stamp then now - stamp else 0;
            CmpAge(p, now, stamp) <==> p.val <= age < p.val + p.val2 && p.val + p.val2 < TWO64
  {
    var sum: nat := p.val + p.val2;
    if sum < TWO64 {
      Unwrapped(sum);
    } else {
      DropMultiple(sum - TWO64, 1);
    }
  }

  lemma NoSign(whole: nat, frac: Option<Text>, unit: Option<byte>)
    ensures AfterSign(SizeText(whole, frac, unit)) == SizeText(whole, frac, unit)
    ensures SignOp(SizeText(whole, frac, unit)) == OP_EQ
  {
    SizeTextPlaces(whole, frac, unit);
    var s, d := SizeText(whole, frac, unit), Decimal(whole);
    assert s[0 + 0] == d[0];
  }

  /** What the text says, in bytes. */
  function Said(whole: nat, frac: Option<Text>, unit: Option<byte>): nat
    requires unit.Some? ==> SizeUnit(unit.value).Some?
  {
    SizeMeaning(whole, Spelled(frac), |FracDigits(frac)|, UnitOf(unit, UNITS))
  }

  predicate Sayable(whole: nat, frac: Option<Text>, unit: Option<byte>) {
    && (unit.Some? ==> SizeUnit(unit.value).Some?) && IsDigits(FracDigits(frac))
    && SizeFits(whole, Spelled(frac), |FracDigits(frac)|, UnitOf(unit, UNITS))
  }

  /** --size and --blocks without a sign: the exact number of bytes, with a margin of 512 whatever the unit. */
  lemma UnsignedSize(field: byte, whole: nat, frac: Option<Text>, unit: Option<byte>)
    requires (field == F_SIZE || field == F_BLOCKS || field == F_DEV_BLOCKS) && Sayable(whole, frac, unit)
    ensures SizeDraft(field, SizeText(whole, frac, unit)) == Ready(Plain(field, OP_EQ, Said(whole, frac, unit), UNITS))
  {
    NoSign(whole, frac, unit);
    SizeIsExact(whole, frac, unit, UNITS);
  }

  /** So an unsigned size hits exactly the last 512 bytes up to the number said. */
  lemma UnsignedSizeHits(field: byte, whole: nat, frac: Option<Text>, unit: Option<byte>, value: u64)
    requires (field == F_SIZE || field == F_BLOCKS || field == F_DEV_BLOCKS) && Sayable(whole, frac, unit)
    ensures var d := SizeDraft(field, SizeText(whole, frac, unit));
            && d.Ready? && ValidPred(d.p)
            && (Cmp(d.p, value) <==> Said(whole, frac, unit) - UNITS < value <= Said(whole, frac, unit)
                                     && value + UNITS < TWO64)
  {
    UnsignedSize(field, whole, frac, unit);
    PlainIsSound(field, OP_EQ, Said(whole, frac, unit), UNITS);
    EqualityWindow(Plain(field, OP_EQ, Said(whole, frac, unit), UNITS), value);
  }

  lemma WindowMetExactlyWhen(p: Pred, u: u64)
    requires ValidPred(p) && p.op == OP_EQ && p.val2 == UNITS && u >= 1
    ensures (forall value: u64 :: p.val - u < value <= p.val ==> Cmp(p, value)) <==>
            (u <= UNITS || p.val < UNITS) && p.val + UNITS < TWO64
  {
    forall value: u64
      ensures Cmp(p, value) <==> p.val - UNITS < value <= p.val && value + UNITS < TWO64
    {
      EqualityWindow(p, value);
    }
    if p.val + UNITS >= TWO64 {
      assert !Cmp(p, p.val);
    } else if u > UNITS && p.val >= UNITS {
      var short: u64 := p.val - UNITS;
      assert !Cmp(p, short);
    }
  }

  /** The margin is documented as the unit, so that "--size 1M" would mean (0, 1M].  That window is met exactly for
      units up to 512 bytes and for sizes below 512 bytes, short of where the sum would wrap; otherwise all but the last
      512 bytes of it are missed. */
  lemma UnitWindowMetExactlyWhen(field: byte, whole: nat, frac: Option<Text>, unit: byte)
    requires (field == F_SIZE || field == F_BLOCKS || field == F_DEV_BLOCKS) && Sayable(whole, frac, Some(unit))
    ensures var d := SizeDraft(field, SizeText(whole, frac, Some(unit)));
            var said, u := Said(whole, frac, Some(unit)), SizeUnit(unit).value;
            && d.Ready? && ValidPred(d.p)
            && ((forall value: u64 :: said - u < value <= said ==> Cmp(d.p, value)) <==>
                (u <= UNITS || said < UNITS) && said + UNITS < TWO64)
  {
    UnsignedSize(field, whole, frac, Some(unit));
    var p := Plain(field, OP_EQ, Said(whole, frac, Some(unit)), UNITS);
    PlainIsSound(field, OP_EQ, p.val, UNITS);
    WindowMetExactlyWhen(p, SizeUnit(unit).value);
  }

  lemma WholeUnits(whole: nat, unit: byte)
    requires SizeUnit(unit).Some? && Times(whole, SizeUnit(unit).value) < TWO64 && whole < TWO64
    ensures Sayable(whole, None, Some(unit)) && Said(whole, None, Some(unit)) == Times(whole, SizeUnit(unit).value)
  {
  }

  /** "--size 1M" ('M' is 77) misses a file of one byte. */
  lemma OneMegabyteMissesOneByte(one: nat, m: byte)
    requires one == 1 && m == 77
    ensures var d := SizeDraft(F_SIZE, SizeText(one, None, Some(m)));
            d.Ready? && ValidPred(d.p) && d.p.val == 0x10_0000 && !Cmp(d.p, one)
  {
    assert Times(one, SizeUnit(m).value) == 0x10_0000;
    WholeUnits(one, m);
    UnsignedSize(F_SIZE, one, None, Some(m));
    UnsignedSizeHits(F_SIZE, one, None, Some(m), one);
  }

  /** A size with 64 or more digits after the point, whatever they are, ends the program: "--size 1." and 64 ones, for
      example. */
  lemma LongFractionDies(field: byte, whole: nat, frac: Text, unit: Option<byte>)
    requires (unit.Some? ==> SizeUnit(unit.value).Some?) && whole < TWO64 && IsDigits(frac) && |frac| >= 64
    ensures SizeDraft(field, SizeText(whole, Some(frac), unit)) == Dies
  {
    NoSign(whole, Some(frac), unit);
    WrittenSizeDividesByZeroExactlyWhen(whole, Some(frac), unit, Margin(field));
  }

  lemma SixtyFourOnesDie(one: nat)
    requires one == 1
    ensures SizeDraft(F_SIZE, SizeText(one, Some(seq(64, i => 49)), None)) == Dies
  {
    LongFractionDies(F_SIZE, one, seq(64, i => 49), None);
  }

  // ------------------------------------------------------------------
  // The builder

  /** struct lfu_filter while options are being parsed. */
  class Builder {
    var f: Filter

    constructor ()
      ensures f == EMPTY_FILTER
    {
      f := EMPTY_FILTER;
    }

    /** lfu_pred_new: a fresh slot that takes up a pending `!`, or none. */
    method PredNew(field: byte) returns (slot: Option<nat>)
      requires Growing(f)
      modifies this
      ensures Growing(f)
      ensures slot.None? <==> old(f.n) == MAX_PRED
      ensures slot.None? ==> f == old(f)
      ensures slot.Some? ==> slot.value == old(f.n) && slot.value < MAX_PRED
                             && f == Grow(old(f), Plain(field, 0, 0, 0))
    {
      if f.n == MAX_PRED {
        return None;
      }
      slot := Some(f.n);
      var p := Plain(field, 0, 0, 0);
      var neg := if f.negPending != 0 then 1 else 0;
      f := f.(p := f.p[f.n := p.(neg := neg)]);
      f := f.(n := f.n + 1);
      f := f.(negPending := 0);
      f := f.(needs := f.needs + FieldNeeds(field));
    }

    /** The fields of the slot's predicate, but for the ones lfu_pred_new set. */
    method Fill(slot: nat, p: Pred)
      requires Growing(f) && slot < MAX_PRED
      modifies this
      ensures f == old(f).(p := old(f).p[slot := p.(field := old(f).p[slot].field, neg := old(f).p[slot].neg)])
    {
      f := f.(p := f.p[slot := p.(field := f.p[slot].field, neg := f.p[slot].neg)]);
    }

    /** lfu_filter_opt. */
    method Opt(opt: Opt, arg: Text, names: Names) returns (rc: Rc)
      requires Growing(f)
      modifies this
      ensures Called(f, rc) == Call(old(f), DraftOf(opt, arg, names))
    {
      rc := Apply(DraftOf(opt, arg, names));
    }

    method Apply(d: Draft) returns (rc: Rc)
      requires Growing(f)
      modifies this
      ensures Called(f, rc) == Call(old(f), d)
    {
      match d {
        case Bang =>
          f := f.(negPending := 1);
          return Done;
        case NotOurs => return NotMine;
        case Refused => return BadValue;
        case Dies => return Crash;
        case Ready(p) => rc := Claim(p, true);
        case Tentative(p, ok) => rc := Claim(p, ok);
      }
    }

    method Claim(p: Pred, ok: bool) returns (rc: Rc)
      requires Growing(f)
      modifies this
      ensures Called(f, rc) == Call(old(f), Tentative(p, ok))
    {
      var slot := PredNew(p.field);
      if slot.None? {
        return BadValue;
      }
      Fill(slot.value, p);
      assert f.p == old(f).p[slot.value := Signed(old(f), p)];
      if !ok {
        f := f.(n := f.n - 1);
        return BadValue;
      }
      return Done;
    }
  }

  lemma {:induction false} NotAllDone(ds: seq<Draft>, k: nat)
    requires k <= |ds| && !AllDone(ds[..k])
    ensures !AllDone(ds)
    decreases |ds|
  {
    if k == |ds| {
      assert ds[..k] == ds;
    } else {
      assert ds[..|ds| - 1][..k] == ds[..k];
      NotAllDone(ds[..|ds| - 1], k);
    }
  }

  /** The option loop of lfu_main, over the filter's options: it gives up at the first refused one, and in the end
      when lfu_filter_check refuses. */
  method ParseCommandLine(args: seq<Arg>, names: Names) returns (r: Option<Filter>)
    ensures r == if Compiles(args, names) then Some(After(Typed(args, names))) else None
  {
    var b := new Builder();
    ghost var ds := Typed(args, names);
    var k := 0;
    while k < |args|
      invariant 0 <= k <= |args|
      invariant AllDone(ds[..k]) && b.f == After(ds[..k])
    {
      var rc := b.Opt(args[k].opt, args[k].text, names);
      assert ds[..k + 1][..k] == ds[..k];
      if rc != Done {
        NotAllDone(ds, k + 1);
        return None;
      }
      k := k + 1;
    }
    assert ds[..k] == ds;
    WhatWasWritten(ds);
    if b.f.negPending != 0 {
      return None;
    }
    return Some(b.f);
  }
}
