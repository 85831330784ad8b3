/** Filter pushdown against device-side filtering: the kernel evaluates the filter, a lossy wire record crosses
    the ring, and the kmdt backend (src/lfu_scan_kmdt.c) re-reads it.  Both pipelines print the same lines. */
module Pushdown {
  import opened Bits
  import opened Records
  import opened Filter
  import opened Eval
  import opened Core
  import opened Kernel
  import Dev = Device
  import Lov
  import Linkea

  // ------------------------------------------------------------------
  // The consumer

  /** lfu_kmdt_rec. */
  function KmdtRec(wr: WireRec): (r: Rec) {
    var t1 := EMPTY_TIER1;
    var t2 := if wr.haveSom then
                t1.(haveSom := true, somValid := wr.somValid, somSize := wr.somSize, somBlocks := wr.somBlocks)
              else t1;
    var t3 := if wr.haveLov then
                t2.(haveLov := true, stripeCount := wr.stripeCount, stripeSize := wr.stripeSize,
                    pool := Terminate(wr.pool))
              else t2;
    var t4 := if wr.haveLmv then t3.(haveLmv := true, lmvCount := wr.lmvCount, lmvHash := wr.lmvHash) else t3;
    Rec(wr.fid, wr.lmaCompat, wr.lmaIncompat, wr.oid, Low16(wr.mode), wr.nlink, wr.uid, wr.gid, wr.projid,
        MaskAttrs(wr.flags), wr.size, wr.blocks,
        Low32(wr.atime), Low32(wr.mtime), Low32(wr.ctime), Low32(wr.btime),
        wr.xaExternal, t4, wr.haveSom || wr.haveLov || wr.haveLmv, wr.unknown)
  }

  function MaskAttrs(flags: u32): u32 {
    And(flags, ATTR_ALL)
  }

  /** t1->pool[sizeof(t1->pool) - 1] = 0. */
  function Terminate(pool: seq<byte>): (r: seq<byte>) {
    if |pool| == POOL_BYTES then pool[..15] + [0] else NO_POOL
  }

  function KmdtLine(o: Opts, wr: WireRec, now: int, glob: Linkea.Glob): Option<Line>
    requires Valid(o.filter) && now < TWO64
  {
    ObjectLine(o, Core.Pushdown, KmdtRec(wr), wr.fid.seq_ != 0, NO_EAS, now, glob)
  }

  function ShowWire(o: Opts, now: int, glob: Linkea.Glob): WireRec -> Option<Line>
    requires Valid(o.filter) && now < TWO64
  {
    wr => KmdtLine(o, wr, now, glob)
  }

  /** One record of a batch. */
  method ConsumeRecord(cx: Context, wr: WireRec, host: Linkea.Endian)
    requires cx.Ok() && cx.mode.Pushdown? && !cx.stop
    modifies cx
    ensures cx.Ok()
    ensures cx.out == old(cx.out) + Maybe(KmdtLine(cx.o, wr, cx.now, cx.glob))
  {
    cx.st := cx.st + multiset{Seen};
    var rec := KmdtRec(wr);
    var keep := cx.Prefilter(rec);
    if keep {
      cx.Object(rec, rec.fid.seq_ != 0, NO_EAS, host);
    }
  }

  /** The record loop of lfu_kmdt_scan_chunk over one batch: --limit takes effect in the middle of a batch. */
  method ConsumeBatch(cx: Context, batch: seq<WireRec>, host: Linkea.Endian)
    requires cx.Ok() && cx.mode.Pushdown? && !cx.stop
    modifies cx
    ensures cx.Ok()
    ensures Printed(old(cx.out), Collect(ShowWire(cx.o, cx.now, cx.glob), batch), cx.out, cx.stop)
  {
    ghost var show := ShowWire(cx.o, cx.now, cx.glob);
    var k := 0;
    while k < |batch| && !cx.stop
      invariant 0 <= k <= |batch|
      invariant cx.Ok()
      invariant cx.out == old(cx.out) + Collect(show, batch[..k])
    {
      CollectStep(show, batch, k);
      ConsumeRecord(cx, batch[k], host);
      k := k + 1;
    }
    PrintedPrefix(show, batch, k, old(cx.out), cx.out, cx.stop);
  }

  /** The read loop of lfu_kmdt_scan_chunk: batch after batch until end of file or the limit. */
  method ConsumeStream(cx: Context, batches: seq<seq<WireRec>>, host: Linkea.Endian)
    requires cx.Ok() && cx.mode.Pushdown? && !cx.stop
    modifies cx
    ensures cx.Ok()
    ensures Printed(old(cx.out), Collect(ShowWire(cx.o, cx.now, cx.glob), Flat(batches)), cx.out, cx.stop)
  {
    ghost var show := ShowWire(cx.o, cx.now, cx.glob);
    var k := 0;
    while k < |batches| && !cx.stop
      invariant 0 <= k <= |batches| && cx.Ok()
      invariant Printed(old(cx.out), Collect(show, Flat(batches[..k])), cx.out, cx.stop)
    {
      ghost var before := cx.out;
      ConsumeBatch(cx, batches[k], host);
      PrintedStep(show, batches, k, old(cx.out), before, cx.out, cx.stop);
      k := k + 1;
    }
    PrintedChunks(show, batches, k, old(cx.out), cx.out, cx.stop);
  }

  // ------------------------------------------------------------------
  // What the OSD promises about an object it iterates

  predicate ServedAs(r: XaResult, v: Ea) {
    if v.Some? then r.Got? && r.bytes == v.value else r.NoData?
  }

  /** The FID and the two LMA marks the iterator reports are those of the LMA, if there is one.  For an object without
      one it may report any FID: none, or one synthesised for it. */
  predicate ReportsLma(x: Dev.Object, d: Dor) {
    x.lma.Some? ==>
      && d.fid == x.lma.value.fid
      && (Has(d.flags, LUSTRE_ORPHAN_FL) <==> Has(x.lma.value.incompat, LMAI_ORPHAN))
      && (Has(d.flags, LUSTRE_ENCRYPT_FL) <==> Has(x.lma.value.incompat, LMAI_ENCRYPT))
  }

  /** The iterator reports the attributes of object x faithfully. */
  predicate ReportsAttrs(x: Dev.Object, s: Source) {
    var d := s.dor;
    && ReportsLma(x, d) && s.oid == x.id
    && Low16(d.mode) == x.mode && d.nlink == x.nlink && d.uid == x.uid && d.gid == x.gid && d.projid == x.projid
    && d.size == x.size && d.blocks == x.blocks
    && Low32(d.atime) == x.atime && Low32(d.mtime) == x.mtime && Low32(d.ctime) == x.ctime && Low32(d.btime) == x.crtime
    && MaskAttrs(d.flags) == MaskAttrs(x.flags)
  }

  /** The iterator reports x and serves what the filter demands: nothing oversized, nothing failed. */
  predicate Reports(x: Dev.Object, s: Source, needs: set<Need>) {
    && ReportsAttrs(x, s)
    && (Som in needs ==> ServedAs(s.xa.som, x.eas.som))
    && (Lov in needs ==> ServedAs(s.xa.lov, x.eas.lov))
    && (Lmv in needs ==> ServedAs(s.xa.lmv, x.eas.lmv))
    && (Link in needs ==> ServedAs(s.xa.link, x.eas.link))
  }

  /** The LMA says nothing the wire cannot carry, or there is none and no FID was made up for it. */
  predicate WireFaithful(lma: Option<Dev.Lma>, fid: Fid) {
    match lma
    case None => fid.seq_ == 0
    case Some(l) =>
      && l.fid.seq_ != 0
      && !Has(l.compat, LMAC_NOT_IN_OI) && !Has(l.compat, LMAC_FID_ON_OST)
      && !Has(l.incompat, LMA_INCOMPAT_OTHER) && !Has(l.incompat, LMAI_AGENT)
  }

  // ------------------------------------------------------------------
  // Same predicate values on both sides

  /** Two records that differ at most in flag bits no --attrs name uses, and in what tier 0 never reads. */
  predicate SameTier0(a: Rec, b: Rec) {
    && a.mode == b.mode && a.nlink == b.nlink && a.uid == b.uid && a.gid == b.gid && a.projid == b.projid
    && a.size == b.size && a.blocks == b.blocks
    && a.atime == b.atime && a.mtime == b.mtime && a.ctime == b.ctime && a.crtime == b.crtime
    && MaskAttrs(a.flags) == MaskAttrs(b.flags)
  }

  lemma MaskedTest(x: u32, y: u32, m: u64)
    requires MaskAttrs(x) == MaskAttrs(y) && AttrBits(m)
    ensures And(x, m) == And(y, m)
  {
    AndCommutes(m, ATTR_ALL);
    AndAssoc(x, ATTR_ALL, m);
    AndAssoc(y, ATTR_ALL, m);
  }

  lemma SameAttrs(p: Pred, x: u32, y: u32)
    requires ValidPred(p) && p.field == F_ATTRS && AttrsCompiled(p) && MaskAttrs(x) == MaskAttrs(y)
    ensures Cmp(p, x) == Cmp(p, y)
  {
    MaskedTest(x, y, p.val);
    MaskedTest(x, y, p.val2);
  }

  lemma SameOtherHit(p: Pred, a: Rec, b: Rec, now: int)
    requires ValidPred(p) && Tier(p.field) == 0 && now < TWO64 && p.field != F_ATTRS && SameTier0(a, b)
    ensures Tier0Hit(p, a, now) == Tier0Hit(p, b, now)
  {
  }

  lemma SameTier0Hit(p: Pred, a: Rec, b: Rec, now: int)
    requires ValidPred(p) && Tier(p.field) == 0 && now < TWO64 && AttrsCompiled(p) && SameTier0(a, b)
    ensures Tier0Hit(p, a, now) == Tier0Hit(p, b, now)
  {
    if p.field == F_ATTRS {
      SameAttrs(p, a.flags, b.flags);
    } else {
      SameOtherHit(p, a, b, now);
    }
  }

  lemma SameTier0Passes(f: Filter, a: Rec, b: Rec, now: int)
    requires Valid(f) && now < TWO64 && AllAttrsCompiled(f) && SameTier0(a, b)
    ensures Tier0Passes(f, a, now) == Tier0Passes(f, b, now)
  {
    forall k | 0 <= k < f.n && Tier(f.p[k].field) == 0
      ensures Passes0(f.p[k], a, now) == Passes0(f.p[k], b, now)
    {
      SameTier0Hit(f.p[k], a, b, now);
    }
  }

  lemma SameTier1(f: Filter, a: Rec, b: Rec, t1: Tier1, ea: Eas, eb: Eas, now: int, glob: Linkea.Glob)
    requires Valid(f) && now < TWO64 && SameTier0(a, b)
    requires ea.lov == eb.lov && ea.link == eb.link
    ensures Tier1Outcome(f, Input(a, t1, ea, now, glob)) == Tier1Outcome(f, Input(b, t1, eb, now, glob))
  {
    var oa, ob := Input(a, t1, ea, now, glob), Input(b, t1, eb, now, glob);
    forall k | 0 <= k < f.n && Tier(f.p[k].field) == 1
      ensures Value(f.p[k], oa) == Value(f.p[k], ob)
    {
    }
    assert forall v :: SomeTier1(f, oa, f.n, v) == SomeTier1(f, ob, f.n, v);
  }

  // ------------------------------------------------------------------
  // One object through both pipelines

  /** The filter as lfu_kmdt_negotiate installs it. */
  function Pushed(o: Opts): Option<Filter> {
    if o.filter.n == 0 then None else Some(o.filter)
  }

  function KernelJudge(o: Opts, now: int, glob: Linkea.Glob): Judge
    requires Valid(o.filter) && now < TWO64
  {
    JudgeBy(Pushed(o), now, glob)
  }

  /** What the pushed-down scan prints for one object, if it emits it. */
  function KernelLine(o: Opts, s: Source, now: int, glob: Linkea.Glob): Option<Line>
    requires Valid(o.filter) && now < TWO64
  {
    var ws := Emits(FilterObject(Pushed(o), s, now, glob), o.emitUnknown);
    if ws == [] then None else KmdtLine(o, ws[0], now, glob)
  }

  /** Equal but for the tier-2 marker, which the two sides define differently. */
  predicate SameLine(a: Line, b: Line) {
    a.(extEa := false) == b.(extEa := false)
  }

  predicate SameMaybe(a: Option<Line>, b: Option<Line>) {
    (a.None? <==> b.None?) && (a.Some? ==> SameLine(a.value, b.value))
  }

  /** A compiled filter, and an object the iterator reports and serves faithfully. */
  predicate Comparable(o: Opts, x: Dev.Object, s: Source)
    requires Valid(o.filter)
  {
    Compiled(o.filter) && AllAttrsCompiled(o.filter) && Reports(x, s, o.filter.needs)
  }

  /** Everything the two sides assume of one object. */
  predicate Agreeing(o: Opts, x: Dev.Object, s: Source)
    requires Valid(o.filter)
  {
    Comparable(o, x, s) && WireFaithful(x.lma, s.dor.fid)
  }

  lemma KernelIncompat(orphan: bool, encrypt: bool)
    ensures var w: u32 := (if orphan then LMAI_ORPHAN else 0) + (if encrypt then LMAI_ENCRYPT else 0);
            && (Has(w, LMAI_ORPHAN) <==> orphan) && (Has(w, LMAI_ENCRYPT) <==> encrypt)
            && !Has(w, LMA_INCOMPAT_OTHER) && !Has(w, LMAI_AGENT)
  {
    assert Has(0x10, 0x10) && !Has(0x10, 0x20) && !Has(0x10, 0xFFFF_FFC1) && !Has(0x10, 0x2);
    assert !Has(0x20, 0x10) && Has(0x20, 0x20) && !Has(0x20, 0xFFFF_FFC1) && !Has(0x20, 0x2);
    assert Has(0x30, 0x10) && Has(0x30, 0x20) && !Has(0x30, 0xFFFF_FFC1) && !Has(0x30, 0x2);
  }

  /** The class the consumer sees, with the FID as its only sign of an LMA. */
  function KernelClass(s: Source): Class {
    var r := RecFromDor(s.oid, s.dor);
    Classify(r.fid, r.lmaCompat, r.lmaIncompat, r.fid.seq_ != 0)
  }

  /** The class the device scan sees. */
  function DeviceClass(x: Dev.Object): Class {
    var r := Dev.FullRec(x);
    Classify(r.fid, r.lmaCompat, r.lmaIncompat, x.lma.Some?)
  }

  lemma SameLmaMarks(x: Dev.Object, s: Source)
    requires ReportsAttrs(x, s) && x.lma.Some?
    ensures var r, l := RecFromDor(s.oid, s.dor), x.lma.value;
            && (Has(r.lmaIncompat, LMAI_ORPHAN) <==> Has(l.incompat, LMAI_ORPHAN))
            && (Has(r.lmaIncompat, LMAI_ENCRYPT) <==> Has(l.incompat, LMAI_ENCRYPT))
  {
    KernelIncompat(Has(s.dor.flags, LUSTRE_ORPHAN_FL), Has(s.dor.flags, LUSTRE_ENCRYPT_FL));
  }

  /** When the wire carries the LMA, classification downstream of it sees the same class. */
  lemma SameClass(x: Dev.Object, s: Source)
    requires ReportsAttrs(x, s) && WireFaithful(x.lma, s.dor.fid)
    ensures KernelClass(s) == DeviceClass(x)
  {
    KernelIncompat(Has(s.dor.flags, LUSTRE_ORPHAN_FL), Has(s.dor.flags, LUSTRE_ENCRYPT_FL));
  }

  /** The pool buffer always ends in a NUL, so the wire's own termination changes nothing. */
  lemma {:induction false} PoolTerminated(t1: Tier1, cs: seq<seq<byte>>)
    requires |t1.pool| == POOL_BYTES && t1.pool[15] == 0
    ensures Lov.DecodeAll(t1, cs).pool[15] == 0
    decreases |cs|
  {
    if cs != [] {
      PoolTerminated(Lov.DecodeOne(t1, cs[0]), cs[1..]);
    }
  }

  lemma DecodedPool(eas: Eas)
    ensures Terminate(Lov.EaDecode(eas).pool) == Lov.EaDecode(eas).pool
  {
    if eas.lov.Some? && |eas.lov.value| >= 4 {
      PoolTerminated(Lov.DecodeHead(Lov.DecodeSom(EMPTY_TIER1, eas.som), eas.lov.value), Lov.Components(eas.lov.value));
    }
  }

  /** What the consumer makes of a record whose tier-1 values were decoded in the kernel. */
  predicate WireTier1(a: Tier1, t1: Tier1) {
    && a.haveSom == t1.haveSom && a.haveLov == t1.haveLov && a.haveLmv == t1.haveLmv
    && (t1.haveSom ==> a.somValid == t1.somValid && a.somSize == t1.somSize && a.somBlocks == t1.somBlocks)
    && (t1.haveLov ==> a.stripeCount == t1.stripeCount && a.stripeSize == t1.stripeSize && a.pool == t1.pool)
    && (t1.haveLmv ==> a.lmvCount == t1.lmvCount && a.lmvHash == t1.lmvHash)
  }

  /** The wire carries every value the consumer prints, decoded tier-1 values included. */
  lemma WireCarries(s: Source, full: Rec, unknown: bool, external: bool)
    requires full == RecFromDor(s.oid, s.dor).(t1 := full.t1, t1Valid := full.t1Valid)
    requires full.t1Valid ==> Terminate(full.t1.pool) == full.t1.pool
    ensures var r := KmdtRec(FillRec(s.oid, s.dor, full, unknown, external));
            && SameTier0(r, full.(flags := MaskAttrs(full.flags)))
            && r.id == full.id && r.fid == full.fid && r.unknown == unknown
            && r.lmaCompat == full.lmaCompat && r.lmaIncompat == full.lmaIncompat
            && WireTier1(r.t1, if full.t1Valid then full.t1 else EMPTY_TIER1)
            && (r.t1Valid <==> r.t1.haveSom || r.t1.haveLov || r.t1.haveLmv)
  {
    MaskTwice(full.flags);
  }

  lemma MaskTwice(flags: u32)
    ensures MaskAttrs(MaskAttrs(flags)) == MaskAttrs(flags)
  {
    AndAssoc(flags, ATTR_ALL, ATTR_ALL);
    AndSelf(ATTR_ALL);
  }

  /** Two records that print alike: what LineOf reads is the same on both. */
  predicate PrintsAlike(a: Rec, b: Rec) {
    var ta, tb := if a.t1Valid then a.t1 else EMPTY_TIER1, if b.t1Valid then b.t1 else EMPTY_TIER1;
    && SameTier0(a, b) && a.id == b.id && a.fid == b.fid
    && ta.haveSom == tb.haveSom && (ta.haveSom ==> ta.somSize == tb.somSize && ta.somBlocks == tb.somBlocks)
    && ta.haveLov == tb.haveLov
    && (ta.haveLov ==> ta.stripeCount == tb.stripeCount && ta.stripeSize == tb.stripeSize && ta.pool == tb.pool)
    && (Has(a.lmaIncompat, LMAI_ORPHAN) <==> Has(b.lmaIncompat, LMAI_ORPHAN))
    && (Has(a.lmaIncompat, LMAI_ENCRYPT) <==> Has(b.lmaIncompat, LMAI_ENCRYPT))
  }

  lemma AlikeSameLine(a: Rec, b: Rec, unknown: bool)
    requires PrintsAlike(a, b)
    ensures SameLine(LineOf(a, unknown), LineOf(b, unknown))
  {
  }

  /** The consumer's record for a kernel record prints like the device's record for the object. */
  lemma WirePrintsAlike(o: Opts, x: Dev.Object, s: Source, full: Rec, dev: Rec, unknown: bool, external: bool)
    requires ReportsAttrs(x, s) && x.lma.Some?
    requires full == RecFromDor(s.oid, s.dor).(t1 := full.t1, t1Valid := full.t1Valid)
    requires full.t1Valid ==> Terminate(full.t1.pool) == full.t1.pool
    requires dev == Dev.FullRec(x).(t1 := full.t1, t1Valid := full.t1Valid)
    requires full.t1Valid <==> o.filter.needs != {}
    ensures PrintsAlike(Decoded(o, KmdtRec(FillRec(s.oid, s.dor, full, unknown, external)), NO_EAS), dev)
  {
    WireCarries(s, full, unknown, external);
    SameLmaMarks(x, s);
    MaskTwice(full.flags);
    MaskTwice(x.flags);
    NothingDecoded();
  }

  lemma NothingDecoded()
    ensures Lov.EaDecode(NO_EAS) == EMPTY_TIER1
  {
  }

  /** A record that reached the consumer prints when its class is emittable. */
  lemma WirePrints(o: Opts, s: Source, full: Rec, unknown: bool, external: bool, now: int, glob: Linkea.Glob)
    requires Valid(o.filter) && now < TWO64
    requires full == RecFromDor(s.oid, s.dor).(t1 := full.t1, t1Valid := full.t1Valid)
    ensures var wr := FillRec(s.oid, s.dor, full, unknown, external);
            KmdtLine(o, wr, now, glob) == if Emittable(o, KernelClass(s))
                                          then Some(LineOf(Decoded(o, KmdtRec(wr), NO_EAS), unknown)) else None
  {
  }

  /** And for an object with an LMA it prints what the device pipeline prints when it reaches the same verdict. */
  lemma WireLine(o: Opts, x: Dev.Object, s: Source, full: Rec, dev: Rec, unknown: bool, external: bool,
                 now: int, glob: Linkea.Glob)
    requires Valid(o.filter) && now < TWO64 && ReportsAttrs(x, s)
    requires full == RecFromDor(s.oid, s.dor).(t1 := full.t1, t1Valid := full.t1Valid)
    requires full.t1Valid ==> Terminate(full.t1.pool) == full.t1.pool
    requires dev == Dev.FullRec(x).(t1 := full.t1, t1Valid := full.t1Valid)
    requires full.t1Valid <==> o.filter.needs != {}
    ensures var k := KmdtLine(o, FillRec(s.oid, s.dor, full, unknown, external), now, glob);
            && (k.Some? <==> Emittable(o, KernelClass(s)))
            && (k.Some? && x.lma.Some? ==> SameLine(k.value, LineOf(dev, unknown)))
  {
    WirePrints(o, s, full, unknown, external, now, glob);
    if x.lma.Some? {
      var r := KmdtRec(FillRec(s.oid, s.dor, full, unknown, external));
      WirePrintsAlike(o, x, s, full, dev, unknown, external);
      AlikeSameLine(Decoded(o, r, NO_EAS), dev, unknown);
    }
  }

  lemma RecordsSameTier0(x: Dev.Object, s: Source)
    requires ReportsAttrs(x, s)
    ensures SameTier0(RecFromDor(s.oid, s.dor), Dev.Tier0Rec(x))
  {
  }

  /** The kernel holds exactly the demanded values, with nothing unserved or oversized. */
  lemma DemandedServed(x: Dev.Object, s: Source, needs: set<Need>)
    requires Reports(x, s, needs)
    ensures !Demanded(needs, s.xa, Unsupported) && !Demanded(needs, s.xa, TooLarge)
    ensures KernelEas(needs, s.xa).(external := false) == Fetch(needs, x.eas).(external := false)
  {
    forall n | n in needs
      ensures !Result(s.xa, n).Unsupported? && !Result(s.xa, n).TooLarge?
    {
    }
  }

  /** What both sides decode and decide at tier 1. */
  lemma SameTier1Decision(o: Opts, x: Dev.Object, s: Source, now: int, glob: Linkea.Glob)
    requires Valid(o.filter) && now < TWO64 && Reports(x, s, o.filter.needs)
    ensures var ke, de := KernelEas(o.filter.needs, s.xa), Fetch(o.filter.needs, x.eas);
            var t1 := Lov.EaDecode(de);
            && Lov.EaDecode(ke) == t1
            && Tier1Outcome(o.filter, Input(RecFromDor(s.oid, s.dor).(t1 := t1, t1Valid := true), t1, ke, now, glob)) ==
               Tier1Outcome(o.filter, Input(Dev.FullRec(x).(t1 := t1, t1Valid := true), t1, de, now, glob))
  {
    var ke, de := KernelEas(o.filter.needs, s.xa), Fetch(o.filter.needs, x.eas);
    DemandedServed(x, s, o.filter.needs);
    assert ke.som == de.som && ke.lov == de.lov && ke.lmv == de.lmv && ke.link == de.link;
    var t1 := Lov.EaDecode(de);
    RecordsSameTier0(x, s);
    var full := RecFromDor(s.oid, s.dor).(t1 := t1, t1Valid := true);
    SameTier1(o.filter, full, Dev.FullRec(x).(t1 := t1, t1Valid := true), t1, ke, de, now, glob);
  }

  /** What becomes of a kernel verdict at the consumer. */
  function KernelSettle(o: Opts, s: Source, full: Rec, external: bool, v: Verdict, now: int, glob: Linkea.Glob)
    : Option<Line>
    requires Valid(o.filter) && now < TWO64
  {
    match v
    case NoMatch => None
    case Unknown => if o.emitUnknown then KmdtLine(o, FillRec(s.oid, s.dor, full, true, external), now, glob) else None
    case Match => KmdtLine(o, FillRec(s.oid, s.dor, full, false, external), now, glob)
  }

  predicate Emitted(o: Opts, v: Verdict) {
    v == Match || (v == Unknown && o.emitUnknown)
  }

  /** What becomes of a device verdict on an object of a class. */
  function DeviceSettle(o: Opts, cls: Class, dev: Rec, v: Verdict): Option<Line> {
    if Emittable(o, cls) && Emitted(o, v)
    then Some(LineOf(dev, v == Unknown))
    else None
  }

  /** Two lines that hang on one verdict and each on its own class, and are the same line when both are there. */
  predicate SplitByClass(emits: bool, k: Option<Line>, showK: bool, d: Option<Line>, showD: bool) {
    && (k.Some? <==> emits && showK)
    && (d.Some? <==> emits && showD)
    && (k.Some? && d.Some? ==> SameLine(k.value, d.value))
  }

  lemma SettledAlike(o: Opts, x: Dev.Object, s: Source, full: Rec, dev: Rec, external: bool, v: Verdict,
                     now: int, glob: Linkea.Glob)
    requires Valid(o.filter) && now < TWO64 && ReportsAttrs(x, s)
    requires full == RecFromDor(s.oid, s.dor).(t1 := full.t1, t1Valid := full.t1Valid)
    requires full.t1Valid ==> Terminate(full.t1.pool) == full.t1.pool
    requires dev == Dev.FullRec(x).(t1 := full.t1, t1Valid := full.t1Valid)
    requires full.t1Valid <==> o.filter.needs != {}
    ensures SplitByClass(Emitted(o, v), KernelSettle(o, s, full, external, v, now, glob), Emittable(o, KernelClass(s)),
                         DeviceSettle(o, DeviceClass(x), dev, v), Emittable(o, DeviceClass(x)))
  {
    if !v.NoMatch? {
      WireLine(o, x, s, full, dev, v == Unknown, external, now, glob);
    }
  }

  lemma KernelSettles(o: Opts, s: Source, now: int, glob: Linkea.Glob)
    requires Valid(o.filter) && now < TWO64 && o.filter.n != 0 && Tier0Passes(o.filter, RecFromDor(s.oid, s.dor), now)
    requires !Demanded(o.filter.needs, s.xa, Unsupported) && !Demanded(o.filter.needs, s.xa, TooLarge)
    requires o.filter.needs != {}
    ensures var eas := KernelEas(o.filter.needs, s.xa);
            var t1 := Lov.EaDecode(eas);
            var full := RecFromDor(s.oid, s.dor).(t1 := t1, t1Valid := true);
            var v := Tier1Outcome(o.filter, Input(full, t1, eas, now, glob));
            && KernelLine(o, s, now, glob) == KernelSettle(o, s, full, eas.external, v, now, glob)
            && (FilterEmits(o, s, now, glob) <==> Emitted(o, v))
  {
  }

  lemma DeviceSettles(o: Opts, x: Dev.Object, now: int, glob: Linkea.Glob)
    requires Valid(o.filter) && now < TWO64 && o.filter.needs != {}
    requires Tier0Passes(o.filter, Dev.Tier0Rec(x), now)
    ensures var eas := Fetch(o.filter.needs, x.eas);
            var t1 := Lov.EaDecode(eas);
            var dev := Dev.FullRec(x).(t1 := t1, t1Valid := true);
            Dev.DeviceLine(o, x, now, glob) ==
            DeviceSettle(o, DeviceClass(x), dev, Tier1Outcome(o.filter, Input(dev, t1, eas, now, glob)))
  {
  }

  lemma NeedsMeanPreds(f: Filter)
    requires Compiled(f) && f.needs != {}
    ensures f.n != 0
  {
  }

  lemma SplitWithoutNeeds(o: Opts, x: Dev.Object, s: Source, now: int, glob: Linkea.Glob)
    requires Valid(o.filter) && now < TWO64 && Comparable(o, x, s)
    requires o.filter.needs == {} && Tier0Passes(o.filter, Dev.Tier0Rec(x), now)
    requires Tier0Passes(o.filter, RecFromDor(s.oid, s.dor), now)
    ensures SplitByClass(FilterEmits(o, s, now, glob), KernelLine(o, s, now, glob), Emittable(o, KernelClass(s)),
                         Dev.DeviceLine(o, x, now, glob), Emittable(o, DeviceClass(x)))
  {
    WireLine(o, x, s, RecFromDor(s.oid, s.dor), Dev.FullRec(x), false, false, now, glob);
  }

  lemma SplitWithNeeds(o: Opts, x: Dev.Object, s: Source, now: int, glob: Linkea.Glob)
    requires Valid(o.filter) && now < TWO64 && Comparable(o, x, s)
    requires o.filter.needs != {} && Tier0Passes(o.filter, Dev.Tier0Rec(x), now)
    requires Tier0Passes(o.filter, RecFromDor(s.oid, s.dor), now)
    ensures SplitByClass(FilterEmits(o, s, now, glob), KernelLine(o, s, now, glob), Emittable(o, KernelClass(s)),
                         Dev.DeviceLine(o, x, now, glob), Emittable(o, DeviceClass(x)))
  {
    NeedsMeanPreds(o.filter);
    DemandedServed(x, s, o.filter.needs);
    SameTier1Decision(o, x, s, now, glob);
    KernelSettles(o, s, now, glob);
    DeviceSettles(o, x, now, glob);
    var eas := KernelEas(o.filter.needs, s.xa);
    DecodedPool(eas);
    var t1 := Lov.EaDecode(eas);
    var full := RecFromDor(s.oid, s.dor).(t1 := t1, t1Valid := true);
    var v := Tier1Outcome(o.filter, Input(full, t1, eas, now, glob));
    SettledAlike(o, x, s, full, Dev.FullRec(x).(t1 := t1, t1Valid := true), eas.external, v, now, glob);
  }

  /** The kernel filter lets the object into the ring. */
  predicate FilterEmits(o: Opts, s: Source, now: int, glob: Linkea.Glob)
    requires Valid(o.filter) && now < TWO64
  {
    Emits(FilterObject(Pushed(o), s, now, glob), o.emitUnknown) != []
  }

  /** Whatever its LMA says, or without one, an object is printed by either pipeline exactly when the filter lets it
      through and that pipeline sees a class it emits; and where both print it, they print the same line but for the
      tier-2 marker. */
  lemma OnlyTheClassCanDiffer(o: Opts, x: Dev.Object, s: Source, now: int, glob: Linkea.Glob)
    requires Valid(o.filter) && now < TWO64 && Comparable(o, x, s)
    ensures SplitByClass(FilterEmits(o, s, now, glob), KernelLine(o, s, now, glob), Emittable(o, KernelClass(s)),
                         Dev.DeviceLine(o, x, now, glob), Emittable(o, DeviceClass(x)))
  {
    RecordsSameTier0(x, s);
    SameTier0Passes(o.filter, RecFromDor(s.oid, s.dor), Dev.Tier0Rec(x), now);
    if Tier0Passes(o.filter, Dev.Tier0Rec(x), now) {
      if o.filter.needs == {} {
        SplitWithoutNeeds(o, x, s, now, glob);
      } else {
        SplitWithNeeds(o, x, s, now, glob);
      }
    }
  }

  /** For each object whose LMA the wire carries, the pushed-down filter emits a line exactly when the device filter
      does, and it is the same line but for the tier-2 marker. */
  lemma SameObject(o: Opts, x: Dev.Object, s: Source, now: int, glob: Linkea.Glob)
    requires Valid(o.filter) && now < TWO64 && Agreeing(o, x, s)
    ensures SameMaybe(KernelLine(o, s, now, glob), Dev.DeviceLine(o, x, now, glob))
  {
    OnlyTheClassCanDiffer(o, x, s, now, glob);
    SameClass(x, s);
  }

  // ------------------------------------------------------------------
  // Whole scans

  predicate SameLines(a: seq<Line>, b: seq<Line>) {
    |a| == |b| && forall i :: 0 <= i < |a| ==> SameLine(a[i], b[i])
  }

  /** The iterator walks the objects of the target, each faithfully. */
  predicate AllAgreeing(o: Opts, xs: seq<Dev.Object>, ss: seq<Source>)
    requires Valid(o.filter)
  {
    |xs| == |ss| && forall i :: 0 <= i < |xs| ==> Agreeing(o, xs[i], ss[i])
  }

  /** What one iterator position shows once it has been judged, sent and consumed. */
  function Shown(judge: Judge, emitUnknown: bool, show: WireRec -> Option<Line>, s: Source): Option<Line> {
    var ws := Emits(judge(s), emitUnknown);
    if ws == [] then None else show(ws[0])
  }

  lemma CollectEmitted(judge: Judge, emitUnknown: bool, show: WireRec -> Option<Line>, ws: seq<WireRec>, s: Source)
    ensures Collect(show, ws + Emits(judge(s), emitUnknown)) ==
            Collect(show, ws) + Maybe(Shown(judge, emitUnknown, show, s))
  {
    var out := Emits(judge(s), emitUnknown);
    if out == [] {
      assert ws + out == ws;
    } else {
      assert out == [out[0]] && (ws + out)[..|ws|] == ws;
    }
  }

  lemma SameLinesAppend(a: seq<Line>, b: seq<Line>, p: Option<Line>, q: Option<Line>)
    requires SameLines(a, b) && SameMaybe(p, q)
    ensures SameLines(a + Maybe(p), b + Maybe(q))
  {
  }

  lemma {:induction false} StreamsAlike<X>(judge: Judge, emitUnknown: bool, show: WireRec -> Option<Line>,
                                           ss: seq<Source>, showX: X -> Option<Line>, xs: seq<X>)
    requires |xs| == |ss|
    requires forall i :: 0 <= i < |xs| ==> SameMaybe(Shown(judge, emitUnknown, show, ss[i]), showX(xs[i]))
    ensures SameLines(Collect(show, Stream(judge, emitUnknown, ss)), Collect(showX, xs))
    decreases |xs|
  {
    if xs != [] {
      var k := |xs| - 1;
      StreamsAlike(judge, emitUnknown, show, ss[..k], showX, xs[..k]);
      var ws := Stream(judge, emitUnknown, ss[..k]);
      CollectEmitted(judge, emitUnknown, show, ws, ss[k]);
      SameLinesAppend(Collect(show, ws), Collect(showX, xs[..k]), Shown(judge, emitUnknown, show, ss[k]), showX(xs[k]));
    }
  }

  lemma NeverUnserved(o: Opts, x: Dev.Object, s: Source, now: int, glob: Linkea.Glob)
    requires Valid(o.filter) && now < TWO64 && Agreeing(o, x, s)
    ensures !KernelJudge(o, now, glob)(s).Unserved?
  {
    DemandedServed(x, s, o.filter.needs);
  }

  lemma SameShown(o: Opts, x: Dev.Object, s: Source, now: int, glob: Linkea.Glob)
    requires Valid(o.filter) && now < TWO64 && Agreeing(o, x, s)
    ensures SameMaybe(Shown(KernelJudge(o, now, glob), o.emitUnknown, ShowWire(o, now, glob), s),
                      Dev.ShowObject(o, now, glob)(x))
  {
    SameObject(o, x, s, now, glob);
    assert Shown(KernelJudge(o, now, glob), o.emitUnknown, ShowWire(o, now, glob), s) == KernelLine(o, s, now, glob);
  }

  /** Filter pushdown is transparent: over any target whose objects are reported faithfully, the records that pass
      the kernel filter, carried over the wire and consumed, print line for line what the device scan prints, and the
      producer never stops short for want of an xattr. */
  lemma PushdownTransparent(o: Opts, xs: seq<Dev.Object>, ss: seq<Source>, now: int, glob: Linkea.Glob)
    requires Valid(o.filter) && now < TWO64 && AllAgreeing(o, xs, ss)
    ensures SameLines(Collect(ShowWire(o, now, glob), Stream(KernelJudge(o, now, glob), o.emitUnknown, ss)),
                      Collect(Dev.ShowObject(o, now, glob), xs))
    ensures forall i :: 0 <= i < |ss| ==> !KernelJudge(o, now, glob)(ss[i]).Unserved?
  {
    var judge, show, showX := KernelJudge(o, now, glob), ShowWire(o, now, glob), Dev.ShowObject(o, now, glob);
    forall i | 0 <= i < |ss|
      ensures SameMaybe(Shown(judge, o.emitUnknown, show, ss[i]), showX(xs[i])) && !judge(ss[i]).Unserved?
    {
      SameShown(o, xs[i], ss[i], now, glob);
      NeverUnserved(o, xs[i], ss[i], now, glob);
    }
    StreamsAlike(judge, o.emitUnknown, show, ss, showX, xs);
  }

  lemma LimitLeavesTheSame(limit: nat, a: seq<Line>, b: seq<Line>)
    requires SameLines(a, b)
    ensures SameLines(FirstOf(limit, a), FirstOf(limit, b))
  {
  }

  /** The pushed-down scan and the ldiskfs device scan of one target, each run from scratch with the same options: batch
      boundaries, chunk boundaries and the limit make no difference, and both leave the same lines. */
  method PushdownAndLdiskfs(o: Opts, now: int, glob: Linkea.Glob, host: Linkea.Endian,
                            firstIno: nat, tabs: seq<seq<Dev.Inode>>, ss: seq<Source>, batches: seq<seq<WireRec>>)
    returns (kernelOut: seq<Line>, deviceOut: seq<Line>)
    requires Valid(o.filter) && now < TWO64 && AllAgreeing(o, Dev.InUseObjects(firstIno, Flat(tabs)), ss)
    requires Flat(batches) == Stream(KernelJudge(o, now, glob), o.emitUnknown, ss)
    ensures SameLines(kernelOut, deviceOut)
    ensures deviceOut == FirstOf(o.limit, Collect(Dev.ShowObject(o, now, glob), Dev.InUseObjects(firstIno, Flat(tabs))))
  {
    var kernel := new Context(o, Core.Pushdown, now, glob);
    ConsumeStream(kernel, batches, host);
    var device := new Context(o, Core.Device, now, glob);
    Dev.ScanInodeChunks(device, firstIno, tabs, host);
    PushdownTransparent(o, Dev.InUseObjects(firstIno, Flat(tabs)), ss, now, glob);
    ghost var a := Collect(ShowWire(o, now, glob), Flat(batches));
    ghost var b := Collect(Dev.ShowObject(o, now, glob), Dev.InUseObjects(firstIno, Flat(tabs)));
    PrintedIsFirst(o.limit, a, kernel.out, kernel.stop);
    PrintedIsFirst(o.limit, b, device.out, device.stop);
    LimitLeavesTheSame(o.limit, a, b);
    return kernel.out, device.out;
  }

  /** The same for ZFS. */
  method PushdownAndZfs(o: Opts, now: int, glob: Linkea.Glob, host: Linkea.Endian,
                        dss: seq<seq<Dev.Dnode>>, ss: seq<Source>, batches: seq<seq<WireRec>>)
    returns (kernelOut: seq<Line>, deviceOut: seq<Line>)
    requires Valid(o.filter) && now < TWO64 && AllAgreeing(o, Dev.ReadObjects(Flat(dss)), ss)
    requires Flat(batches) == Stream(KernelJudge(o, now, glob), o.emitUnknown, ss)
    ensures SameLines(kernelOut, deviceOut)
    ensures deviceOut == FirstOf(o.limit, Collect(Dev.ShowObject(o, now, glob), Dev.ReadObjects(Flat(dss))))
  {
    var kernel := new Context(o, Core.Pushdown, now, glob);
    ConsumeStream(kernel, batches, host);
    var device := new Context(o, Core.Device, now, glob);
    Dev.ScanDnodeChunks(device, dss, host);
    PushdownTransparent(o, Dev.ReadObjects(Flat(dss)), ss, now, glob);
    ghost var a := Collect(ShowWire(o, now, glob), Flat(batches));
    ghost var b := Collect(Dev.ShowObject(o, now, glob), Dev.ReadObjects(Flat(dss)));
    PrintedIsFirst(o.limit, a, kernel.out, kernel.stop);
    PrintedIsFirst(o.limit, b, device.out, device.stop);
    LimitLeavesTheSame(o.limit, a, b);
    return kernel.out, device.out;
  }
}
