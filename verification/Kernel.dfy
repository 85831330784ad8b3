/** The kernel producer's view of an object (src/kernel/lfu_ring.c): the iterator's record, the demanded xattrs
    through the iterator, the filter, the wire record, and the counters. */
module Kernel {
  import opened Bits
  import opened Records
  import opened Filter
  import opened Eval
  import Lov
  import Linkea

  const LUSTRE_ORPHAN_FL: u32 := 0x2000
  const LUSTRE_ENCRYPT_FL: u32 := 0x80_0000

  /** struct dt_otable_rec: the FID and struct lu_attr. */
  datatype Dor = Dor(
    fid: Fid, mode: u32, nlink: u32, uid: u32, gid: u32, projid: u32, flags: u32, size: u64, blocks: u64,
    atime: int, mtime: int, ctime: int, btime: int)

  /** What rec(DORA_XATTR) answers for one name. */
  datatype XaResult = Got(bytes: seq<byte>, external: bool) | NoData | TooLarge | Failed | Unsupported

  datatype Xattrs = Xattrs(som: XaResult, lov: XaResult, lmv: XaResult, link: XaResult)

  /** One position of the otable iterator. */
  datatype Source = Source(oid: u64, dor: Dor, xa: Xattrs)

  function Low16(x: int): u16 {
    x % TWO16
  }

  function Low32(x: int): u32 {
    x % TWO32
  }

  /** lfu_rec_from_dor. */
  function RecFromDor(oid: u64, d: Dor): Rec {
    var orphan: u32 := if Has(d.flags, LUSTRE_ORPHAN_FL) then LMAI_ORPHAN else 0;
    var encrypt: u32 := if Has(d.flags, LUSTRE_ENCRYPT_FL) then LMAI_ENCRYPT else 0;
    Rec(d.fid, 0, orphan + encrypt, oid, Low16(d.mode), d.nlink, d.uid, d.gid, d.projid, d.flags, d.size, d.blocks,
        Low32(d.atime), Low32(d.mtime), Low32(d.ctime), Low32(d.btime), false, EMPTY_TIER1, false, false)
  }

  /** lfu_fill_rec. */
  function FillRec(oid: u64, d: Dor, rec: Rec, unknown: bool, external: bool): WireRec {
    var t1 := if rec.t1Valid then rec.t1 else EMPTY_TIER1;
    WireRec(oid, d.fid, d.size, d.blocks, d.atime, d.mtime, d.ctime, d.btime,
            d.mode, d.nlink, d.uid, d.gid, d.projid, d.flags, rec.lmaCompat, rec.lmaIncompat,
            unknown, t1.haveSom, t1.haveLov, t1.haveLmv, external,
            if t1.haveSom then t1.somValid else 0,
            if t1.haveSom then t1.somSize else 0,
            if t1.haveSom then t1.somBlocks else 0,
            if t1.haveLov then t1.stripeCount else 0,
            if t1.haveLov then t1.stripeSize else 0,
            if t1.haveLov then t1.pool else NO_POOL,
            if t1.haveLmv then t1.lmvCount else 0,
            if t1.haveLmv then t1.lmvHash else 0)
  }

  // ------------------------------------------------------------------
  // The demanded xattrs

  function Result(xa: Xattrs, n: Need): XaResult {
    match n
    case Som => xa.som
    case Lov => xa.lov
    case Lmv => xa.lmv
    case Link => xa.link
  }

  /** Some demanded xattr came back as r. */
  predicate Demanded(needs: set<Need>, xa: Xattrs, r: XaResult) {
    exists n :: n in needs && Result(xa, n) == r
  }

  predicate DemandedExternal(needs: set<Need>, xa: Xattrs) {
    exists n :: n in needs && Result(xa, n).Got? && Result(xa, n).external
  }

  /** A value in hand; anything else counts as absent. */
  function InHand(r: XaResult): Ea {
    if r.Got? then Some(r.bytes) else None
  }

  function KernelEas(needs: set<Need>, xa: Xattrs): Eas {
    Fetch(needs, Eas(InHand(xa.som), InHand(xa.lov), InHand(xa.lmv), InHand(xa.link), DemandedExternal(needs, xa)))
  }

  /** What lfu_filter_object makes of an object. */
  datatype Outcome =
    | Unserved                          // -EOPNOTSUPP: the scan ends
    | Rejected0
    | Rejected1
    | Undecided(wr: WireRec)
    | Matched(wr: WireRec)

  /** lfu_filter_object and, for what passes, lfu_fill_rec. */
  function FilterObject(f: Option<Filter>, s: Source, now: int, glob: Linkea.Glob): Outcome
    requires f.Some? ==> Valid(f.value)
    requires now < TWO64
  {
    var rec := RecFromDor(s.oid, s.dor);
    if f.None? then Matched(FillRec(s.oid, s.dor, rec, false, false))
    else if !Tier0Passes(f.value, rec, now) then Rejected0
    else if f.value.needs == {} then Matched(FillRec(s.oid, s.dor, rec, false, false))
    else if Demanded(f.value.needs, s.xa, Unsupported) then Unserved
    else
      var needs := f.value.needs;
      var eas := KernelEas(needs, s.xa);
      var t1 := Lov.EaDecode(eas);
      var full := rec.(t1 := t1, t1Valid := true);
      var v := if Demanded(needs, s.xa, TooLarge) then Unknown
               else Tier1Outcome(f.value, Input(full, t1, eas, now, glob));
      match v
      case NoMatch => Rejected1
      case Unknown => Undecided(FillRec(s.oid, s.dor, full, true, eas.external))
      case Match => Matched(FillRec(s.oid, s.dor, full, false, eas.external))
  }

  /** The verdict on each object, for a fixed filter and scan. */
  type Judge = Source -> Outcome

  function JudgeBy(f: Option<Filter>, now: int, glob: Linkea.Glob): Judge
    requires f.Some? ==> Valid(f.value)
    requires now < TWO64
  {
    s => FilterObject(f, s, now, glob)
  }

  /** What enters the ring for one object. */
  function Emits(out: Outcome, emitUnknown: bool): (ws: seq<WireRec>) {
    match out
    case Matched(wr) => [wr]
    case Undecided(wr) => if emitUnknown then [wr] else []
    case _ => []
  }

  function Stream(judge: Judge, emitUnknown: bool, ss: seq<Source>): (ws: seq<WireRec>) {
    if ss == [] then []
    else
      var k := |ss| - 1;
      Stream(judge, emitUnknown, ss[..k]) + Emits(judge(ss[k]), emitUnknown)
  }

  // ------------------------------------------------------------------
  // The producer loop and its counters

  datatype KStats = KStats(seen: nat, filtered0: nat, filtered1: nat, unknown: nat, emitted: nat)

  function CountMatches(judge: Judge, ss: seq<Source>): nat {
    if ss == [] then 0
    else
      var k := |ss| - 1;
      CountMatches(judge, ss[..k]) + if judge(ss[k]).Matched? then 1 else 0
  }

  /** `seen` objects are all accounted for: rejected at a tier, undecided, or a match; and what entered the ring
      is the matches, plus the undecided ones if they are wanted. */
  predicate Conserved(st: KStats, seen: nat, matches: nat, emitUnknown: bool) {
    && seen == st.filtered0 + st.filtered1 + st.unknown + matches
    && st.emitted == matches + (if emitUnknown then st.unknown else 0)
  }

  lemma StreamPush(judge: Judge, emitUnknown: bool, ss: seq<Source>, s: Source)
    ensures Stream(judge, emitUnknown, ss + [s]) == Stream(judge, emitUnknown, ss) + Emits(judge(s), emitUnknown)
    ensures CountMatches(judge, ss + [s]) == CountMatches(judge, ss) + if judge(s).Matched? then 1 else 0
  {
    assert (ss + [s])[..|ss|] == ss;
  }

  /** The counters after one object has been judged and, if it passed, published. */
  function Tally(st: KStats, out: Outcome, emitUnknown: bool): (r: KStats)
    ensures r.emitted == st.emitted + |Emits(out, emitUnknown)|
  {
    match out
    case Unserved => st.(seen := st.seen + 1)
    case Rejected0 => st.(seen := st.seen + 1, filtered0 := st.filtered0 + 1)
    case Rejected1 => st.(seen := st.seen + 1, filtered1 := st.filtered1 + 1)
    case Undecided(_) =>
      st.(seen := st.seen + 1, unknown := st.unknown + 1, emitted := st.emitted + if emitUnknown then 1 else 0)
    case Matched(_) => st.(seen := st.seen + 1, emitted := st.emitted + 1)
  }

  lemma TallyConserves(st: KStats, seen: nat, matches: nat, out: Outcome, emitUnknown: bool)
    requires Conserved(st, seen, matches, emitUnknown)
    ensures !out.Unserved? ==>
              Conserved(Tally(st, out, emitUnknown), seen + 1, matches + (if out.Matched? then 1 else 0), emitUnknown)
    ensures out.Unserved? ==> Conserved(Tally(st, out, emitUnknown), seen, matches, emitUnknown)
  {
  }

  /** How the producer's loop ended: the table did; it was asked to stop between two objects, or while stalled with
      one in hand; or the OSD could not serve a demanded xattr. */
  datatype End = Exhausted | Stopped | Interrupted | CannotServe

  /** The counters when the loop ends with an object in hand that is neither published nor rejected. */
  function InHandTally(st: KStats, out: Outcome): KStats {
    if out.Undecided? then st.(seen := st.seen + 1, unknown := st.unknown + 1) else st.(seen := st.seen + 1)
  }

  const EOPNOTSUPP: int := -95

  type Errno = x: int | x < 0 witness -1

  /** One position of the table: rec() fails there, or returns the object. */
  datatype Position = Unreadable | At(s: Source)

  /** The otable iterator: the positions of the table in order, and where, if anywhere, moving on to a position fails
      and with what. */
  datatype Iterator = Iterator(table: seq<Position>, fault: Option<nat>, code: Errno)

  /** What load() returns for position 0, and next() for the others: 0, a failure, or the end of the table. */
  function Move(it: Iterator, k: nat): (rc: int) {
    if it.fault == Some(k) then it.code else if k >= |it.table| then 1 else 0
  }

  /** How many positions can be reached. */
  function Reach(it: Iterator): (n: nat)
    ensures n <= |it.table|
  {
    if it.fault.Some? && it.fault.value < |it.table| then it.fault.value else |it.table|
  }

  lemma ReachIsFirstStop(it: Iterator, k: nat)
    requires k <= Reach(it)
    ensures Move(it, k) == 0 <==> k < Reach(it)
  {
  }

  /** The objects rec() returned at these positions. */
  function Sources(ps: seq<Position>): (ss: seq<Source>)
    ensures |ss| <= |ps|
  {
    if ps == [] then []
    else Sources(ps[..|ps| - 1]) + if ps[|ps| - 1].At? then [ps[|ps| - 1].s] else []
  }

  lemma SourcesPush(ps: seq<Position>, p: Position)
    ensures Sources(ps + [p]) == if p.At? then Sources(ps) + [p.s] else Sources(ps)
  {
    assert (ps + [p])[..|ps|] == ps;
    assert Sources(ps) + [] == Sources(ps);
  }

  /** Nothing goes wrong on the way to the end of the table. */
  predicate Complete(it: Iterator) {
    && (it.fault.Some? ==> it.fault.value >= |it.table|)
    && forall k :: 0 <= k < |it.table| ==> it.table[k].At?
  }

  lemma {:induction false} AllReadable(ps: seq<Position>)
    ensures |Sources(ps)| == |ps| <==> forall k :: 0 <= k < |ps| ==> ps[k].At?
    decreases |ps|
  {
    if ps != [] {
      var front := ps[..|ps| - 1];
      AllReadable(front);
      assert forall k :: 0 <= k < |front| ==> front[k] == ps[k];
    }
  }

  /** Every position of the table is returned exactly when nothing goes wrong. */
  lemma CompleteReturnsAll(it: Iterator)
    ensures |Sources(it.table[..Reach(it)])| == |it.table| <==> Complete(it)
  {
    AllReadable(it.table[..Reach(it)]);
    if Reach(it) == |it.table| {
      assert it.table[..Reach(it)] == it.table;
    }
  }

  predicate AllServed(judge: Judge, ss: seq<Source>) {
    forall i :: 0 <= i < |ss| ==> !judge(ss[i]).Unserved?
  }

  /** What the producer's counters say about the objects it finished, with the one in hand when it had to leave. */
  predicate Accounted(judge: Judge, emitUnknown: bool, st: KStats, ss: seq<Source>, inHand: Option<Outcome>) {
    var extra := if inHand.Some? && inHand.value.Undecided? then 1 else 0;
    && st.seen == |ss| + (if inHand.Some? then 1 else 0)
    && st.unknown >= extra
    && Conserved(st.(unknown := st.unknown - extra), |ss|, CountMatches(judge, ss), emitUnknown)
  }

  /** What the producer has to show for the positions ps it has dealt with. */
  predicate SoFar(judge: Judge, emitUnknown: bool, ps: seq<Position>, ws: seq<WireRec>, st: KStats) {
    && ws == Stream(judge, emitUnknown, Sources(ps)) && st.emitted == |ws|
    && Accounted(judge, emitUnknown, st, Sources(ps), None)
  }

  lemma SoFarPush(judge: Judge, emitUnknown: bool, ps: seq<Position>, s: Source, ws: seq<WireRec>, st: KStats)
    requires SoFar(judge, emitUnknown, ps, ws, st) && !judge(s).Unserved?
    ensures var out := judge(s);
            SoFar(judge, emitUnknown, ps + [At(s)], ws + Emits(out, emitUnknown), Tally(st, out, emitUnknown))
  {
    SourcesPush(ps, At(s));
    StreamPush(judge, emitUnknown, Sources(ps), s);
    TallyConserves(st, |Sources(ps)|, CountMatches(judge, Sources(ps)), judge(s), emitUnknown);
  }

  /** It left at position p, after ps: for want of an xattr, or asked to stop while it waited for room. */
  predicate LeftAt(judge: Judge, emitUnknown: bool, ps: seq<Position>, p: Position, ws: seq<WireRec>, st: KStats,
                   end: End) {
    && p.At? && ws == Stream(judge, emitUnknown, Sources(ps)) && st.emitted == |ws|
    && Accounted(judge, emitUnknown, st, Sources(ps), Some(judge(p.s)))
    && (end.CannotServe? <==> judge(p.s).Unserved?)
    && (end.Interrupted? <==> Emits(judge(p.s), emitUnknown) != [])
  }

  /** The body of the producer's loop at one position, up to next(). */
  method OnePosition(judge: Judge, emitUnknown: bool, ghost ps: seq<Position>, p: Position, stop: bool,
                     ws: seq<WireRec>, st: KStats) returns (ws': seq<WireRec>, st': KStats, end: Option<End>)
    requires SoFar(judge, emitUnknown, ps, ws, st)
    ensures end.None? ==> SoFar(judge, emitUnknown, ps + [p], ws', st')
    ensures end.Some? ==> LeftAt(judge, emitUnknown, ps, p, ws', st', end.value)
    ensures end.Some? ==> end.value.CannotServe? || (end.value.Interrupted? && stop)
  {
    ws', st', end := ws, st, None;
    match p {
      case Unreadable => SourcesPush(ps, p);
      case At(s) =>
        var out := judge(s);
        var passed := Emits(out, emitUnknown);
        if out.Unserved? {
          st', end := Tally(st, out, emitUnknown), Some(CannotServe);
        } else if passed != [] && stop {
          st', end := InHandTally(st, out), Some(Interrupted);
        } else {
          SoFarPush(judge, emitUnknown, ps, s, ws, st);
          ws', st' := ws + passed, Tally(st, out, emitUnknown);
        }
    }
  }

  lemma {:induction false} UnservedIn(judge: Judge, ps: seq<Position>, k: nat)
    requires k < |ps| && ps[k].At? && judge(ps[k].s).Unserved?
    ensures !AllServed(judge, Sources(ps))
    decreases |ps|
  {
    var front := ps[..|ps| - 1];
    if k < |front| {
      UnservedIn(judge, front, k);
      var i :| 0 <= i < |Sources(front)| && judge(Sources(front)[i]).Unserved?;
      assert Sources(ps)[i] == Sources(front)[i];
    } else {
      assert Sources(ps)[|Sources(front)|] == ps[k].s;
    }
  }

  /** How the producer ended: where, and with what to show for it. */
  predicate EndedAt(judge: Judge, emitUnknown: bool, it: Iterator, stopAt: nat, stopStalled: nat,
                    ws: seq<WireRec>, st: KStats, done: nat, end: End) {
    match end
    case Exhausted => done == Reach(it) && SoFar(judge, emitUnknown, it.table[..done], ws, st)
    case Stopped => done == stopAt < Reach(it) && SoFar(judge, emitUnknown, it.table[..done], ws, st)
    case _ =>
      && done < Reach(it) && LeftAt(judge, emitUnknown, it.table[..done], it.table[done], ws, st, end)
      && (end.Interrupted? ==> done == stopStalled)
  }

  /** The loop, from a position that load() found. */
  method WalkPositions(judge: Judge, emitUnknown: bool, it: Iterator, stopAt: nat, stopStalled: nat)
    returns (ws: seq<WireRec>, st: KStats, done: nat, end: End)
    requires Reach(it) > 0
    ensures EndedAt(judge, emitUnknown, it, stopAt, stopStalled, ws, st, done, end)
  {
    ws, st, done := [], KStats(0, 0, 0, 0, 0), 0;
    while true
      invariant done < Reach(it)
      invariant SoFar(judge, emitUnknown, it.table[..done], ws, st)
      decreases Reach(it) - done
    {
      if done == stopAt {
        return ws, st, done, Stopped;
      }
      var left;
      ws, st, left := OnePosition(judge, emitUnknown, it.table[..done], it.table[done], done == stopStalled, ws, st);
      if left.Some? {
        return ws, st, done, left.value;
      }
      assert it.table[..done] + [it.table[done]] == it.table[..done + 1];
      done := done + 1;
      ReachIsFirstStop(it, done);
      if Move(it, done) != 0 {
        return ws, st, done, Exhausted;
      }
    }
  }

  /** lfu_producer over the iterator.  `stopAt` is the position at which the thread is asked to stop, `stopStalled` the
      one at which it is asked to while waiting for room.  What it published is the filtered stream of the objects it
      finished, whose counters conserve objects; an early end loses at most the one in hand.  A failing load() is
      reported; a failing next() or rec() is not, and the walk has covered the table exactly when there was none. */
  method Produce(judge: Judge, emitUnknown: bool, it: Iterator, stopAt: nat, stopStalled: nat)
    returns (ws: seq<WireRec>, st: KStats, done: nat, end: End, err: int)
    ensures EndedAt(judge, emitUnknown, it, stopAt, stopStalled, ws, st, done, end)
    ensures end.CannotServe? ==> !AllServed(judge, Sources(it.table))
    ensures err == if it.fault == Some(0) then it.code else if end.CannotServe? then EOPNOTSUPP else 0
    ensures end.Exhausted? ==> (|Sources(it.table[..done])| == |it.table| <==> Complete(it))
  {
    CompleteReturnsAll(it);
    ReachIsFirstStop(it, 0);
    var rc := Move(it, 0);
    if rc != 0 {
      return [], KStats(0, 0, 0, 0, 0), 0, Exhausted, if rc < 0 then rc else 0;
    }
    ws, st, done, end := WalkPositions(judge, emitUnknown, it, stopAt, stopStalled);
    if end.CannotServe? {
      UnservedIn(judge, it.table, done);
    }
    err := if end.CannotServe? then EOPNOTSUPP else 0;
  }
}
