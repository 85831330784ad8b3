/** The backend-independent pipeline of src/lfu_core.c: prefilter, classify, filter, emit; with the counters
    every backend reports. */
module Core {
  import opened Bags
  import opened Bits
  import opened Records
  import opened Filter
  import opened CStrings
  import opened Eval
  import Lov
  import Linkea
  import Seqs

  // ------------------------------------------------------------------
  // Classification (lfu_lustre.h, lfu_classify)

  const LMAC_NOT_IN_OI: u32 := 0x4
  const LMAC_FID_ON_OST: u32 := 0x8
  const LMAI_AGENT: u32 := 0x2
  const LMA_INCOMPAT_SUPP: u32 := 0x3E
  const LMA_INCOMPAT_OTHER: u32 := 0xFFFF_FFFF - LMA_INCOMPAT_SUPP

  const FID_SEQ_IGIF: u64 := 0xC
  const FID_SEQ_IDIF: u64 := 0x1_0000_0000
  const FID_SEQ_START: u64 := 0x2_0000_0000
  const FID_SEQ_DOT_LUSTRE: u64 := 0x2_0000_0002
  const FID_SEQ_ROOT: u64 := 0x2_0000_0007
  const FID_SEQ_NORMAL: u64 := 0x2_0000_0400

  datatype Class = Visible | Internal | OstObj | Agent | NoLma | Bad

  predicate NamespaceVisible(s: u64) {
    s >= FID_SEQ_NORMAL || FID_SEQ_IGIF <= s < FID_SEQ_IDIF || s == FID_SEQ_ROOT || s == FID_SEQ_DOT_LUSTRE
  }

  predicate SeqInternal(s: u64) {
    FID_SEQ_START <= s < FID_SEQ_NORMAL && s != FID_SEQ_ROOT && s != FID_SEQ_DOT_LUSTRE
  }

  function Classify(fid: Fid, compat: u32, incompat: u32, haveLma: bool): Class {
    if !haveLma then NoLma
    else if Has(incompat, LMA_INCOMPAT_OTHER) then Bad
    else if Has(compat, LMAC_NOT_IN_OI) then Internal
    else if Has(incompat, LMAI_AGENT) then Agent
    else if Has(compat, LMAC_FID_ON_OST) then OstObj
    else if FID_SEQ_IDIF <= fid.seq_ < FID_SEQ_START then OstObj
    else if SeqInternal(fid.seq_) then Internal
    else if NamespaceVisible(fid.seq_) then Visible
    else Internal
  }

  // ------------------------------------------------------------------
  // Emission

  datatype Layout = Layout(stripes: u32, stripeSize: u32, pool: seq<byte>)

  /** One output record, as lfu_emit prints it. */
  datatype Line = Line(
    fid: Fid, id: u64, mode: u16, nlink: u32, uid: u32, gid: u32, projid: u32,
    size: u64, blocks: u64, atime: u32, mtime: u32,
    layout: Option<Layout>, extEa: bool, orphan: bool, encrypted: bool, unknown: bool)

  function LineOf(rec: Rec, unknown: bool): Line {
    var t1 := if rec.t1Valid then rec.t1 else EMPTY_TIER1;
    Line(rec.fid, rec.id, rec.mode, rec.nlink, rec.uid, rec.gid, rec.projid,
         if t1.haveSom then t1.somSize else rec.size,
         if t1.haveSom then t1.somBlocks else rec.blocks,
         rec.atime, rec.mtime,
         if t1.haveLov then Some(Layout(t1.stripeCount, t1.stripeSize, CString(t1.pool))) else None,
         rec.hasExtEa, Has(rec.lmaIncompat, LMAI_ORPHAN), Has(rec.lmaIncompat, LMAI_ENCRYPT), unknown)
  }

  datatype Opts = Opts(filter: Filter, showInternal: bool, emitUnknown: bool, limit: nat)

  predicate Emittable(o: Opts, c: Class) {
    c == Visible || (o.showInternal && c == Internal)
  }

  // ------------------------------------------------------------------
  // Counters

  /** The counters of struct lfu_stats that the model keeps: of the walk, of each class, and of the decisions. */
  datatype Counter =
    | Seen | Filtered | FreeIno | Deleted | UsedInode | ValidateBad | NonZnode | SaFail
    | Of(cls: Class)
    | Emission | Filtered1 | Unsure

  /** What has been counted, as a bag: st[c] is the counter c. */
  type Stats = multiset<Counter>

  function Classified(st: Stats): nat {
    st[Of(Visible)] + st[Of(Internal)] + st[Of(OstObj)] + st[Of(Agent)] + st[Of(NoLma)] + st[Of(Bad)]
  }

  /** Every object of an emittable class was emitted, rejected at tier 1, or undecided and held back. */
  predicate EmitBalanced(o: Opts, st: Stats) {
    st[Of(Visible)] + (if o.showInternal then st[Of(Internal)] else 0) ==
    st[Emission] + st[Filtered1] + (if o.emitUnknown then 0 else st[Unsure])
  }

  /** ldiskfs: every inode in use was rejected at tier 0 or classified. */
  predicate LdiskfsBalanced(st: Stats) {
    st[UsedInode] == st[Filtered] + Classified(st)
  }

  /** ZFS: every dnode seen was not a znode, unreadable, rejected at tier 0, or classified. */
  predicate ZfsBalanced(st: Stats) {
    st[Seen] == st[NonZnode] + st[SaFail] + st[Filtered] + Classified(st)
  }

  /** lfu_stats_merge over any number of workers. */
  function MergeAll(ws: seq<Stats>): (r: Stats) {
    if ws == [] then multiset{} else MergeAll(ws[..|ws| - 1]) + ws[|ws| - 1]
  }

  /** The equations of one worker of a backend. */
  predicate Balanced(o: Opts, st: Stats, zfs: bool) {
    EmitBalanced(o, st) && if zfs then ZfsBalanced(st) else LdiskfsBalanced(st)
  }

  lemma MergeBalances(o: Opts, a: Stats, b: Stats, zfs: bool)
    requires Balanced(o, a, zfs) && Balanced(o, b, zfs)
    ensures Balanced(o, a + b, zfs)
  {
  }

  /** The equations hold of the merged totals of any number of workers. */
  lemma {:induction false} MergedTotalsBalance(o: Opts, ws: seq<Stats>, zfs: bool)
    requires forall i :: 0 <= i < |ws| ==> Balanced(o, ws[i], zfs)
    ensures Balanced(o, MergeAll(ws), zfs)
    decreases |ws|
  {
    if ws != [] {
      var front, last := ws[..|ws| - 1], ws[|ws| - 1];
      MergedTotalsBalance(o, front, zfs);
      MergeBalances(o, MergeAll(front), last, zfs);
    }
  }

  lemma CountsAssociate(a: Stats, b: Stats, c: Stats)
    ensures (a + b) + c == a + (b + c)
  {
  }

  // ------------------------------------------------------------------
  // One object through the pipeline

  /** What a backend that does its own filtering, or the device backends, bring to lfu_object. */
  datatype Mode = Device | Pushdown

  /** lfu_object's own view of the record: tier-1 values decoded if the filter wanted any. */
  function Decoded(o: Opts, rec: Rec, eas: Eas): (r: Rec) {
    if o.filter.needs != {} && !rec.t1Valid then rec.(t1 := Lov.EaDecode(eas), t1Valid := true) else rec
  }

  function ObjectVerdict(o: Opts, mode: Mode, rec: Rec, eas: Eas, now: int, glob: Linkea.Glob): Verdict
    requires Valid(o.filter) && now < TWO64
  {
    if mode.Pushdown? then (if rec.unknown then Unknown else Match)
    else if o.filter.needs != {} then Tier1Outcome(o.filter, Input(rec, rec.t1, eas, now, glob))
    else Match
  }

  /** The record lfu_object emits for an object of a class with a verdict, if it emits one. */
  function LineBy(o: Opts, mode: Mode, cls: Class, r: Rec, v: Verdict): Option<Line> {
    if !Emittable(o, cls) then None
    else
      match v
      case NoMatch => None
      case Match => Some(LineOf(r, false))
      case Unknown => if mode.Pushdown? || o.emitUnknown then Some(LineOf(r, true)) else None
  }

  /** It emits one. */
  predicate EmitsBy(o: Opts, mode: Mode, cls: Class, v: Verdict) {
    Emittable(o, cls) && (v == Match || (v == Unknown && (mode.Pushdown? || o.emitUnknown)))
  }

  /** What the decision on an object of an emittable class counts. */
  function DecisionStats(o: Opts, mode: Mode, v: Verdict): (st: Stats) {
    match v
    case NoMatch => if mode.Pushdown? then multiset{} else multiset{Filtered1}
    case Match => multiset{Emission}
    case Unknown =>
      if mode.Pushdown? then multiset{Emission}
      else if o.emitUnknown then multiset{Unsure, Emission}
      else multiset{Unsure}
  }

  /** What lfu_object counts for one. */
  function StatsBy(o: Opts, mode: Mode, cls: Class, v: Verdict): (st: Stats) {
    if Emittable(o, cls) then multiset{Of(cls)} + DecisionStats(o, mode, v) else multiset{Of(cls)}
  }

  lemma DecisionCounts(o: Opts, mode: Mode, v: Verdict)
    ensures var d := DecisionStats(o, mode, v);
            && d[Emission] == (if v == Match || (v == Unknown && (mode.Pushdown? || o.emitUnknown)) then 1
                                      else 0)
            && d[Filtered1] == (if mode.Device? && v == NoMatch then 1 else 0)
            && d[Unsure] == (if mode.Device? && v == Unknown then 1 else 0)
    ensures forall c :: DecisionStats(o, mode, v)[Of(c)] == 0
    ensures var d := DecisionStats(o, mode, v);
            d[Filtered] == 0 && d[Seen] == 0 && d[UsedInode] == 0 && d[NonZnode] == 0 && d[SaFail] == 0
  {
  }

  /** Which is balanced. */
  lemma StatsByBalances(o: Opts, mode: Mode, cls: Class, v: Verdict)
    ensures var st := StatsBy(o, mode, cls, v);
            && (mode.Device? ==> EmitBalanced(o, st))
            && st[Emission] == if EmitsBy(o, mode, cls, v) then 1 else 0
  {
    var one, d := multiset{Of(cls)}, DecisionStats(o, mode, v);
    DecisionCounts(o, mode, v);
    assert one[Emission] == 0 && one[Filtered1] == 0 && one[Unsure] == 0;
    assert one[Of(Visible)] == (if cls == Visible then 1 else 0);
    assert one[Of(Internal)] == (if cls == Internal then 1 else 0);
  }

  lemma OneClass(cls: Class)
    ensures Classified(multiset{Of(cls)}) == 1
  {
  }

  /** It counts one class, and nothing of the walk. */
  lemma StatsByClass(o: Opts, mode: Mode, cls: Class, v: Verdict)
    ensures var st := StatsBy(o, mode, cls, v);
            && Classified(st) == 1 && st[Filtered] == 0
            && st[Seen] == 0 && st[UsedInode] == 0 && st[NonZnode] == 0 && st[SaFail] == 0
  {
    OneClass(cls);
    DecisionCounts(o, mode, v);
    var one := multiset{Of(cls)};
    assert one[Filtered] == 0 && one[Seen] == 0 && one[UsedInode] == 0 && one[NonZnode] == 0 && one[SaFail] == 0;
  }

  lemma StillBalanced(o: Opts, mode: Mode, st: Stats, cls: Class, v: Verdict)
    ensures var st' := st + StatsBy(o, mode, cls, v);
            && (mode.Device? && EmitBalanced(o, st) ==> EmitBalanced(o, st'))
            && st'[Emission] == st[Emission] + if EmitsBy(o, mode, cls, v) then 1 else 0
  {
    StatsByBalances(o, mode, cls, v);
  }

  /** The record lfu_object emits, if it emits one. */
  function ObjectLine(o: Opts, mode: Mode, rec: Rec, haveLma: bool, eas: Eas, now: int, glob: Linkea.Glob)
    : Option<Line>
    requires Valid(o.filter) && now < TWO64
  {
    var cls := Classify(rec.fid, rec.lmaCompat, rec.lmaIncompat, haveLma);
    var r := Decoded(o, rec, eas);
    LineBy(o, mode, cls, r, ObjectVerdict(o, mode, r, eas, now, glob))
  }

  /** What lfu_object counts. */
  function ObjectStats(o: Opts, mode: Mode, rec: Rec, haveLma: bool, eas: Eas, now: int, glob: Linkea.Glob): Stats
    requires Valid(o.filter) && now < TWO64
  {
    var cls := Classify(rec.fid, rec.lmaCompat, rec.lmaIncompat, haveLma);
    StatsBy(o, mode, cls, ObjectVerdict(o, mode, Decoded(o, rec, eas), eas, now, glob))
  }

  /** What became of a walk that was to print ls after what stood in out0: all of it, or up to the limit. */
  predicate Printed(out0: seq<Line>, ls: seq<Line>, out: seq<Line>, stop: bool) {
    out <= out0 + ls && (!stop ==> out == out0 + ls)
  }

  function Maybe<T>(x: Option<T>): (r: seq<T>) {
    match x
    case None => []
    case Some(v) => [v]
  }

  /** What a walk over xs prints, in order, when `show` says what each element gives. */
  function Collect<T>(show: T -> Option<Line>, xs: seq<T>): (ls: seq<Line>) {
    if xs == [] then [] else Collect(show, xs[..|xs| - 1]) + Maybe(show(xs[|xs| - 1]))
  }

  lemma CollectStep<T>(show: T -> Option<Line>, xs: seq<T>, k: nat)
    requires k < |xs|
    ensures Collect(show, xs[..k + 1]) == Collect(show, xs[..k]) + Maybe(show(xs[k]))
  {
    assert xs[..k + 1][..k] == xs[..k];
  }

  lemma {:induction false} CollectGrow<T>(show: T -> Option<Line>, xs: seq<T>, k: nat)
    requires k <= |xs|
    ensures Collect(show, xs[..k]) <= Collect(show, xs)
    decreases |xs|
  {
    if k == |xs| {
      assert xs[..k] == xs;
    } else {
      var front := xs[..|xs| - 1];
      assert front[..k] == xs[..k];
      CollectGrow(show, front, k);
    }
  }

  lemma PrintedGrow(out0: seq<Line>, ls: seq<Line>, all: seq<Line>, out: seq<Line>)
    requires Printed(out0, ls, out, true) && ls <= all
    ensures Printed(out0, all, out, true)
  {
  }

  /** A walk that got through the first k elements, all of them unless it was stopped. */
  lemma PrintedPrefix<T>(show: T -> Option<Line>, xs: seq<T>, k: nat, out0: seq<Line>, out: seq<Line>, stop: bool)
    requires k <= |xs| && out == out0 + Collect(show, xs[..k]) && (k < |xs| ==> stop)
    ensures Printed(out0, Collect(show, xs), out, stop)
  {
    if k == |xs| {
      assert xs[..k] == xs;
    } else {
      CollectGrow(show, xs, k);
      PrintedGrow(out0, Collect(show, xs[..k]), Collect(show, xs), out);
    }
  }

  /** A walk has come as far as element k: it has printed and counted what the elements so far give. */
  predicate Along<T>(show: T -> Option<Line>, count: T -> Stats, xs: seq<T>, k: nat,
                     out0: seq<Line>, st0: Stats, out: seq<Line>, st: Stats)
  {
    k <= |xs| && out == out0 + Collect(show, xs[..k]) && st == st0 + Tallied(count, xs[..k])
  }

  lemma AlongStart<T>(show: T -> Option<Line>, count: T -> Stats, xs: seq<T>, out: seq<Line>, st: Stats)
    ensures Along(show, count, xs, 0, out, st, out, st)
  {
  }

  lemma AlongStep<T>(show: T -> Option<Line>, count: T -> Stats, xs: seq<T>, k: nat,
                     out0: seq<Line>, st0: Stats, out: seq<Line>, st: Stats, out': seq<Line>, st': Stats)
    requires Along(show, count, xs, k, out0, st0, out, st) && k < |xs|
    requires out' == out + Maybe(show(xs[k])) && st' == st + count(xs[k])
    ensures Along(show, count, xs, k + 1, out0, st0, out', st')
  {
    assert xs[..k + 1][..k] == xs[..k];
    Seqs.Reassociate(out0, Collect(show, xs[..k]), Maybe(show(xs[k])));
  }

  /** It went all the way unless it was stopped. */
  lemma AlongEnd<T>(show: T -> Option<Line>, count: T -> Stats, xs: seq<T>, k: nat,
                    out0: seq<Line>, st0: Stats, out: seq<Line>, st: Stats, stop: bool)
    requires Along(show, count, xs, k, out0, st0, out, st) && (k < |xs| ==> stop)
    ensures Printed(out0, Collect(show, xs), out, stop) && (!stop ==> st == st0 + Tallied(count, xs))
  {
    PrintedPrefix(show, xs, k, out0, out, stop);
    assert xs[..|xs|] == xs;
  }

  /** Batches or chunks, end to end. */
  function Flat<T>(xss: seq<seq<T>>): (xs: seq<T>) {
    if xss == [] then [] else Flat(xss[..|xss| - 1]) + xss[|xss| - 1]
  }

  lemma FlatStep<T>(xss: seq<seq<T>>, k: nat)
    requires k < |xss|
    ensures Flat(xss[..k + 1]) == Flat(xss[..k]) + xss[k]
  {
    assert xss[..k + 1][..k] == xss[..k];
  }

  lemma CollectPush<T>(show: T -> Option<Line>, xs: seq<T>, x: T)
    ensures Collect(show, xs + [x]) == Collect(show, xs) + Maybe(show(x))
  {
    assert (xs + [x])[..|xs|] == xs;
  }

  lemma {:induction false} CollectAppend<T>(show: T -> Option<Line>, xs: seq<T>, ys: seq<T>)
    ensures Collect(show, xs + ys) == Collect(show, xs) + Collect(show, ys)
    decreases |ys|
  {
    if ys == [] {
      assert xs + ys == xs;
    } else {
      var front, last := ys[..|ys| - 1], ys[|ys| - 1];
      calc {
        Collect(show, xs + ys);
        { Seqs.Reassociate(xs, front, [last]); assert front + [last] == ys; }
        Collect(show, (xs + front) + [last]);
        { CollectPush(show, xs + front, last); }
        Collect(show, xs + front) + Maybe(show(last));
        { CollectAppend(show, xs, front); }
        (Collect(show, xs) + Collect(show, front)) + Maybe(show(last));
        { Seqs.Reassociate(Collect(show, xs), Collect(show, front), Maybe(show(last))); }
        Collect(show, xs) + Collect(show, ys);
      }
    }
  }

  lemma {:induction false} CollectFlatGrow<T>(show: T -> Option<Line>, xss: seq<seq<T>>, k: nat)
    requires k <= |xss|
    ensures Collect(show, Flat(xss[..k])) <= Collect(show, Flat(xss))
    decreases |xss|
  {
    if k == |xss| {
      assert xss[..k] == xss;
    } else {
      var m := |xss| - 1;
      CollectFlatGrow(show, xss[..m], k);
      assert xss[..m][..k] == xss[..k];
      CollectAppend(show, Flat(xss[..m]), xss[m]);
    }
  }

  /** One more chunk: what was to be printed before it, and then its own. */
  lemma PrintedNext(out0: seq<Line>, before: seq<Line>, more: seq<Line>, out: seq<Line>, out': seq<Line>, stop: bool)
    requires out == out0 + before && Printed(out, more, out', stop)
    ensures Printed(out0, before + more, out', stop)
  {
    assert (out0 + before) + more == out0 + (before + more);
  }

  /** A walk over the first k chunks, all of them unless it was stopped. */
  lemma PrintedChunks<T>(show: T -> Option<Line>, xss: seq<seq<T>>, k: nat, out0: seq<Line>, out: seq<Line>, stop: bool)
    requires k <= |xss| && Printed(out0, Collect(show, Flat(xss[..k])), out, stop) && (k < |xss| ==> stop)
    ensures Printed(out0, Collect(show, Flat(xss)), out, stop)
  {
    if k == |xss| {
      assert xss[..k] == xss;
    } else {
      CollectFlatGrow(show, xss, k);
      PrintedGrow(out0, Collect(show, Flat(xss[..k])), Collect(show, Flat(xss)), out);
    }
  }

  lemma PrintedStep<T>(show: T -> Option<Line>, xss: seq<seq<T>>, k: nat, out0: seq<Line>, out: seq<Line>,
                       out': seq<Line>, stop: bool)
    requires k < |xss| && out == out0 + Collect(show, Flat(xss[..k])) && Printed(out, Collect(show, xss[k]), out', stop)
    ensures Printed(out0, Collect(show, Flat(xss[..k + 1])), out', stop)
  {
    FlatStep(xss, k);
    CollectAppend(show, Flat(xss[..k]), xss[k]);
    PrintedNext(out0, Collect(show, Flat(xss[..k])), Collect(show, xss[k]), out, out', stop);
  }

  /** A non-zero limit is never passed, and is what stops a scan. */
  predicate Limited(limit: nat, printed: nat, stop: bool) {
    if limit == 0 then !stop else printed <= limit && (stop <==> printed == limit)
  }

  /** The first `limit` lines, or all of them. */
  function FirstOf(limit: nat, ls: seq<Line>): (r: seq<Line>) {
    if limit == 0 || |ls| <= limit then ls else ls[..limit]
  }

  lemma PrintedIsFirst(limit: nat, ls: seq<Line>, out: seq<Line>, stop: bool)
    requires Printed([], ls, out, stop) && Limited(limit, |out|, stop)
    ensures out == FirstOf(limit, ls)
  {
    assert [] + ls == ls;
  }

  /** struct lfu_ctx with the statistics it points at; `out` is what has been printed. */
  class Context {
    const o: Opts
    const mode: Mode
    const now: int
    const glob: Linkea.Glob
    var st: Stats
    var stop: bool
    var out: seq<Line>

    constructor (o: Opts, mode: Mode, now: int, glob: Linkea.Glob)
      requires Valid(o.filter) && now < TWO64
      ensures this.o == o && this.mode == mode && this.now == now && this.glob == glob
      ensures st == multiset{} && !stop && out == [] && Ok()
    {
      this.o, this.mode, this.now, this.glob := o, mode, now, glob;
      st, stop, out := multiset{}, false, [];
    }

    ghost predicate Ok()
      reads this
    {
      && Valid(o.filter) && now < TWO64
      && |out| == st[Emission]
      && Limited(o.limit, |out|, stop)
      && (mode.Device? ==> EmitBalanced(o, st))
    }

    /** lfu_prefilter. */
    method Prefilter(rec: Rec) returns (keep: bool)
      requires Ok()
      modifies this`st
      ensures Ok()
      ensures keep <==> mode.Pushdown? || Tier0Passes(o.filter, rec, now)
      ensures st == if keep then old(st) else old(st) + multiset{Filtered}
    {
      if o.filter.n == 0 || mode.Pushdown? {
        return true;
      }
      keep := Tier0(o.filter, rec, now);
      if !keep {
        st := st + multiset{Filtered};
      }
    }

    /** The tier-1 decision inside lfu_object, with its counters. */
    method Decide(rec: Rec, eas: Eas, host: Linkea.Endian) returns (m: Verdict)
      requires Valid(o.filter) && now < TWO64
      modifies this`st
      ensures m == ObjectVerdict(o, mode, rec, eas, now, glob)
      ensures st == if mode.Pushdown? || m.Match? then old(st)
                    else if m.NoMatch? then old(st) + multiset{Filtered1}
                    else old(st) + multiset{Unsure}
    {
      if mode.Pushdown? {
        return if rec.unknown then Unknown else Match;
      }
      if o.filter.needs == {} {
        return Match;
      }
      m := Tier1Pass(o.filter, Input(rec, rec.t1, eas, now, glob), host);
      if m == NoMatch {
        st := st + multiset{Filtered1};
      } else if m == Unknown {
        st := st + multiset{Unsure};
      }
    }

    /** Print the record and stop at the limit. */
    method Emit(line: Line)
      requires !stop
      modifies this
      ensures out == old(out) + [line] && st == old(st) + multiset{Emission}
      ensures stop <==> o.limit != 0 && st[Emission] >= o.limit
    {
      st := st + multiset{Emission};
      out := out + [line];
      if o.limit != 0 && st[Emission] >= o.limit {
        stop := true;
      }
    }

    /** Decide on an object of an emittable class, and emit it if the verdict says so. */
    method Decided(r: Rec, eas: Eas, host: Linkea.Endian)
      requires Valid(o.filter) && now < TWO64 && !stop
      modifies this
      ensures var v := ObjectVerdict(o, mode, r, eas, now, glob);
              var emits := v == Match || (v == Unknown && (mode.Pushdown? || o.emitUnknown));
              && out == old(out) + (if emits then [LineOf(r, v == Unknown)] else [])
              && st == old(st) + DecisionStats(o, mode, v)
              && (stop <==> emits && o.limit != 0 && st[Emission] >= o.limit)
    {
      var m := Decide(r, eas, host);
      if m == NoMatch || (m == Unknown && mode.Device? && !o.emitUnknown) {
        return;
      }
      Emit(LineOf(r, m == Unknown));
    }

    /** Count the class, decide, emit. */
    method Settle(cls: Class, r: Rec, eas: Eas, host: Linkea.Endian, ghost v: Verdict)
      requires Valid(o.filter) && now < TWO64 && !stop && v == ObjectVerdict(o, mode, r, eas, now, glob)
      modifies this
      ensures out == old(out) + Maybe(LineBy(o, mode, cls, r, v))
      ensures st == old(st) + StatsBy(o, mode, cls, v)
      ensures stop <==> EmitsBy(o, mode, cls, v) && o.limit != 0 && st[Emission] >= o.limit
    {
      st := st + multiset{Of(cls)};
      if cls != Visible && !(o.showInternal && cls == Internal) {
        return;
      }
      Decided(r, eas, host);
    }

    /** lfu_object. */
    method Object(rec: Rec, haveLma: bool, eas: Eas, host: Linkea.Endian)
      requires Ok() && !stop
      modifies this
      ensures Ok()
      ensures out == old(out) + Maybe(ObjectLine(o, mode, rec, haveLma, eas, now, glob))
      ensures st == old(st) + ObjectStats(o, mode, rec, haveLma, eas, now, glob)
    {
      var cls, r := Classify(rec.fid, rec.lmaCompat, rec.lmaIncompat, haveLma), Decoded(o, rec, eas);
      ghost var v := ObjectVerdict(o, mode, r, eas, now, glob);
      Settle(cls, r, eas, host, v);
      assert |out| == st[Emission] && Limited(o.limit, |out|, stop) && (mode.Device? ==> EmitBalanced(o, st))
      by {
        StillBalanced(o, mode, old(st), cls, v);
      }
    }
  }
}
