/** Where filter pushdown and the device scan part ways: LMA bits the wire does not carry, objects without an LMA, and
    xattrs larger than the kernel's scratch buffers.  Each with the exact condition and a concrete object. */
module PushdownLimits {
  import opened Bits
  import opened Records
  import opened Filter
  import opened CStrings
  import opened Eval
  import opened Core
  import opened Kernel
  import opened Pushdown
  import Dev = Device
  import Lov
  import Linkea

  // ------------------------------------------------------------------
  // Classification downstream of the wire

  /** For every filter and every option, the two pipelines agree on an object exactly when the filter holds it back,
      or both or neither of the classes they see are emitted. */
  lemma ClassesAgreeExactlyWhen(o: Opts, x: Dev.Object, s: Source, now: int, glob: Linkea.Glob)
    requires Valid(o.filter) && now < TWO64 && Comparable(o, x, s)
    ensures SameMaybe(KernelLine(o, s, now, glob), Dev.DeviceLine(o, x, now, glob)) <==>
            !FilterEmits(o, s, now, glob) ||
            Emittable(o, KernelClass(s)) == Emittable(o, DeviceClass(x))
  {
    OnlyTheClassCanDiffer(o, x, s, now, glob);
  }

  predicate Idif(q: u64) {
    FID_SEQ_IDIF <= q < FID_SEQ_START
  }

  /** What the pushed-down scan goes by: the FID sequence alone. */
  predicate KernelShows(show: bool, q: u64) {
    if show then q != 0 && !Idif(q) else NamespaceVisible(q)
  }

  /** What the device scan goes by: the LMA, its bits and its sequence. */
  predicate DeviceShows(show: bool, lma: Option<Dev.Lma>) {
    match lma
    case None => false
    case Some(l) =>
      && !Has(l.incompat, LMA_INCOMPAT_OTHER)
      && if Has(l.compat, LMAC_NOT_IN_OI) then show
         else && !Has(l.incompat, LMAI_AGENT) && !Has(l.compat, LMAC_FID_ON_OST)
              && if show then !Idif(l.fid.seq_) else NamespaceVisible(l.fid.seq_)
  }

  lemma KernelClassBySequence(o: Opts, s: Source)
    ensures Emittable(o, KernelClass(s)) <==> KernelShows(o.showInternal, s.dor.fid.seq_)
  {
    KernelIncompat(Has(s.dor.flags, LUSTRE_ORPHAN_FL), Has(s.dor.flags, LUSTRE_ENCRYPT_FL));
  }

  lemma DeviceClassByBits(o: Opts, x: Dev.Object)
    ensures Emittable(o, DeviceClass(x)) <==> DeviceShows(o.showInternal, x.lma)
  {
  }

  /** Where the two go different ways, in the LMA and the sequence q of the FID reported.  Without an LMA: wherever the
      FID made up for it is one the pushed-down scan shows.  With one, and without --show-internal: only on a visible
      sequence with a bit the wire does not carry, which the pushed-down scan prints.  With --show-internal also the
      other way round: not in the object index and of sequence zero or an OST's, or of sequence zero with no such
      bit. */
  predicate Differs(show: bool, lma: Option<Dev.Lma>, q: u64) {
    match lma
    case None => KernelShows(show, q)
    case Some(l) =>
      var unindexed := Has(l.compat, LMAC_NOT_IN_OI);
      var hidden := || Has(l.incompat, LMA_INCOMPAT_OTHER)
                    || (!unindexed && (Has(l.incompat, LMAI_AGENT) || Has(l.compat, LMAC_FID_ON_OST)));
      if !show then NamespaceVisible(q) && (hidden || unindexed)
      else if q != 0 && !Idif(q) then hidden
      else !hidden && (unindexed || q == 0)
  }

  lemma DiffersIs(show: bool, lma: Option<Dev.Lma>, q: u64)
    requires lma.Some? ==> q == lma.value.fid.seq_
    ensures Differs(show, lma, q) <==> KernelShows(show, q) != DeviceShows(show, lma)
  {
  }

  /** So, for every filter, option and object, the two pipelines part ways exactly when the filter lets the object
      through and its LMA and the FID reported for it are ones on which they differ. */
  lemma PartWaysExactlyWhen(o: Opts, x: Dev.Object, s: Source, now: int, glob: Linkea.Glob)
    requires Valid(o.filter) && now < TWO64 && Comparable(o, x, s)
    ensures !SameMaybe(KernelLine(o, s, now, glob), Dev.DeviceLine(o, x, now, glob)) <==>
            FilterEmits(o, s, now, glob) && Differs(o.showInternal, x.lma, s.dor.fid.seq_)
  {
    ClassesAgreeExactlyWhen(o, x, s, now, glob);
    KernelClassBySequence(o, s);
    DeviceClassByBits(o, x);
    DiffersIs(o.showInternal, x.lma, s.dor.fid.seq_);
  }

  /** An unfiltered scan: agreement is decided by the LMA and the FID sequence alone. */
  lemma UnfilteredAgreeExactlyWhen(o: Opts, x: Dev.Object, s: Source, now: int, glob: Linkea.Glob)
    requires Valid(o.filter) && now < TWO64 && Comparable(o, x, s) && o.filter.n == 0
    ensures SameMaybe(KernelLine(o, s, now, glob), Dev.DeviceLine(o, x, now, glob)) <==>
            !Differs(o.showInternal, x.lma, s.dor.fid.seq_)
  {
    PartWaysExactlyWhen(o, x, s, now, glob);
  }

  const PLAIN := Dev.Object(7, 0x81A4, 1, 0, 0, 0, 0, 0, 0, 0, 0, 0, 0, false,
                            Some(Dev.Lma(Fid(FID_SEQ_NORMAL, 1, 0), 0, 0)), NO_EAS)

  const NOTHING := Xattrs(NoData, NoData, NoData, NoData)

  function ReportedAs(x: Dev.Object, fid: Fid, xa: Xattrs): Source {
    Source(x.id, Dor(fid, x.mode, x.nlink, x.uid, x.gid, x.projid, x.flags, x.size, x.blocks,
                     x.atime, x.mtime, x.ctime, x.crtime), xa)
  }

  function AsReported(x: Dev.Object, xa: Xattrs): Source
    requires x.lma.Some?
  {
    ReportedAs(x, x.lma.value.fid, xa)
  }

  const UNFILTERED := Opts(EMPTY_FILTER, false, false, 0)

  /** An agent inode with a namespace FID: the device scan hides it, the pushed-down scan prints it. */
  lemma AgentInodeShowsUp(glob: Linkea.Glob)
    ensures var x := PLAIN.(lma := Some(PLAIN.lma.value.(incompat := LMAI_AGENT)));
            && Dev.DeviceLine(UNFILTERED, x, 0, glob).None?
            && KernelLine(UNFILTERED, AsReported(x, NOTHING), 0, glob).Some?
  {
    var x := PLAIN.(lma := Some(PLAIN.lma.value.(incompat := LMAI_AGENT)));
    assert Has(0x2, 0x2) && !Has(0x2, 0x10) && !Has(0x2, 0x20);
    OnlyTheClassCanDiffer(UNFILTERED, x, AsReported(x, NOTHING), 0, glob);
    KernelClassBySequence(UNFILTERED, AsReported(x, NOTHING));
    DeviceClassByBits(UNFILTERED, x);
  }

  /** An object without an LMA for which the iterator made up an IGIF: the device scan hides it, the pushed-down scan
      prints it. */
  lemma MadeUpFidShowsUp(glob: Linkea.Glob)
    ensures var x := PLAIN.(lma := None);
            && Dev.DeviceLine(UNFILTERED, x, 0, glob).None?
            && KernelLine(UNFILTERED, ReportedAs(x, Fid(FID_SEQ_IGIF, 1, 0), NOTHING), 0, glob).Some?
  {
    var x := PLAIN.(lma := None);
    var s := ReportedAs(x, Fid(FID_SEQ_IGIF, 1, 0), NOTHING);
    OnlyTheClassCanDiffer(UNFILTERED, x, s, 0, glob);
    KernelClassBySequence(UNFILTERED, s);
    DeviceClassByBits(UNFILTERED, x);
  }

  const SHOW_INTERNAL := UNFILTERED.(showInternal := true)

  /** With --show-internal an object whose LMA holds FID sequence zero is printed by the device scan and lost when
      pushed down. */
  lemma ZeroSequenceIsLost(glob: Linkea.Glob)
    ensures var x := PLAIN.(lma := Some(PLAIN.lma.value.(fid := Dev.NO_FID)));
            && Dev.DeviceLine(SHOW_INTERNAL, x, 0, glob).Some?
            && KernelLine(SHOW_INTERNAL, AsReported(x, NOTHING), 0, glob).None?
  {
    var x := PLAIN.(lma := Some(PLAIN.lma.value.(fid := Dev.NO_FID)));
    OnlyTheClassCanDiffer(SHOW_INTERNAL, x, AsReported(x, NOTHING), 0, glob);
    KernelClassBySequence(SHOW_INTERNAL, AsReported(x, NOTHING));
    DeviceClassByBits(SHOW_INTERNAL, x);
  }

  /** So is one of an OST sequence that is marked as not in the object index. */
  lemma UnindexedOstObjectIsLost(glob: Linkea.Glob)
    ensures var x := PLAIN.(lma := Some(Dev.Lma(Fid(FID_SEQ_IDIF, 1, 0), LMAC_NOT_IN_OI, 0)));
            && Dev.DeviceLine(SHOW_INTERNAL, x, 0, glob).Some?
            && KernelLine(SHOW_INTERNAL, AsReported(x, NOTHING), 0, glob).None?
  {
    var x := PLAIN.(lma := Some(Dev.Lma(Fid(FID_SEQ_IDIF, 1, 0), LMAC_NOT_IN_OI, 0)));
    assert Has(0x4, 0x4) && !Has(0x4, 0x8);
    OnlyTheClassCanDiffer(SHOW_INTERNAL, x, AsReported(x, NOTHING), 0, glob);
    KernelClassBySequence(SHOW_INTERNAL, AsReported(x, NOTHING));
    DeviceClassByBits(SHOW_INTERNAL, x);
  }

  // ------------------------------------------------------------------
  // Oversized xattrs

  const XA_SOM_MAX: nat := 64
  const XA_LOV_MAX: nat := 65536
  const XA_LMV_MAX: nat := 65536
  const XA_LINK_MAX: nat := 8192

  /** rec(DORA_XATTR) into a buffer of `max` bytes. */
  predicate ServedIn(r: XaResult, v: Ea, max: nat) {
    if v.None? then r.NoData? else if |v.value| <= max then r.Got? && r.bytes == v.value else r.TooLarge?
  }

  predicate Answers(x: Dev.Object, s: Source, needs: set<Need>) {
    && ReportsAttrs(x, s)
    && (Som in needs ==> ServedIn(s.xa.som, x.eas.som, XA_SOM_MAX))
    && (Lov in needs ==> ServedIn(s.xa.lov, x.eas.lov, XA_LOV_MAX))
    && (Lmv in needs ==> ServedIn(s.xa.lmv, x.eas.lmv, XA_LMV_MAX))
    && (Link in needs ==> ServedIn(s.xa.link, x.eas.link, XA_LINK_MAX))
  }

  predicate FitsIn(v: Ea, max: nat) {
    v.Some? ==> |v.value| <= max
  }

  /** Every demanded value fits its buffer. */
  predicate Fits(needs: set<Need>, eas: Eas) {
    && (Som in needs ==> FitsIn(eas.som, XA_SOM_MAX))
    && (Lov in needs ==> FitsIn(eas.lov, XA_LOV_MAX))
    && (Lmv in needs ==> FitsIn(eas.lmv, XA_LMV_MAX))
    && (Link in needs ==> FitsIn(eas.link, XA_LINK_MAX))
  }

  lemma FitsReports(x: Dev.Object, s: Source, needs: set<Need>)
    requires Answers(x, s, needs) && Fits(needs, x.eas)
    ensures Reports(x, s, needs)
  {
  }

  lemma OversizedDemanded(x: Dev.Object, s: Source, needs: set<Need>)
    requires Answers(x, s, needs) && !Fits(needs, x.eas)
    ensures Demanded(needs, s.xa, TooLarge) && !Demanded(needs, s.xa, Unsupported) && needs != {}
  {
    if Som in needs && !FitsIn(x.eas.som, XA_SOM_MAX) {
      assert Result(s.xa, Som) == TooLarge;
    } else if Lov in needs && !FitsIn(x.eas.lov, XA_LOV_MAX) {
      assert Result(s.xa, Need.Lov) == TooLarge;
    } else if Lmv in needs && !FitsIn(x.eas.lmv, XA_LMV_MAX) {
      assert Result(s.xa, Lmv) == TooLarge;
    } else {
      assert Link in needs && Result(s.xa, Link) == TooLarge;
    }
    forall n | n in needs
      ensures !Result(s.xa, n).Unsupported?
    {
    }
  }

  /** What tier 1 says of the object when every demanded value is in hand. */
  function DeviceVerdict(o: Opts, x: Dev.Object, now: int, glob: Linkea.Glob): Verdict
    requires Valid(o.filter) && now < TWO64
  {
    var eas := Fetch(o.filter.needs, x.eas);
    var t1 := Lov.EaDecode(eas);
    Tier1Outcome(o.filter, Input(Dev.FullRec(x).(t1 := t1, t1Valid := true), t1, eas, now, glob))
  }

  /** An object that got past tier 0 with an oversized demanded xattr is never decided: it is emitted, tagged, when
      undecided objects are wanted, and dropped otherwise, whatever its predicates say. */
  lemma OversizedIsUndecided(o: Opts, x: Dev.Object, s: Source, now: int, glob: Linkea.Glob)
    requires Valid(o.filter) && now < TWO64 && Compiled(o.filter)
    requires Answers(x, s, o.filter.needs) && !Fits(o.filter.needs, x.eas)
    requires Tier0Passes(o.filter, RecFromDor(s.oid, s.dor), now)
    ensures KernelJudge(o, now, glob)(s).Undecided?
    ensures KernelLine(o, s, now, glob).Some? <==> o.emitUnknown && Emittable(o, KernelClass(s))
  {
    OversizedDemanded(x, s, o.filter.needs);
    NeedsMeanPreds(o.filter);
  }

  lemma OversizedOutcome(o: Opts, x: Dev.Object, s: Source, now: int, glob: Linkea.Glob)
    requires Valid(o.filter) && now < TWO64 && Compiled(o.filter) && AllAttrsCompiled(o.filter)
    requires Answers(x, s, o.filter.needs) && !Fits(o.filter.needs, x.eas)
    requires Tier0Passes(o.filter, Dev.Tier0Rec(x), now)
    ensures KernelLine(o, s, now, glob).Some? <==> Emittable(o, KernelClass(s)) && o.emitUnknown
    ensures Dev.DeviceLine(o, x, now, glob).Some? <==>
            Emittable(o, DeviceClass(x)) && Emitted(o, DeviceVerdict(o, x, now, glob))
  {
    RecordsSameTier0(x, s);
    SameTier0Passes(o.filter, RecFromDor(s.oid, s.dor), Dev.Tier0Rec(x), now);
    OversizedDemanded(x, s, o.filter.needs);
    OversizedIsUndecided(o, x, s, now, glob);
    DeviceSettles(o, x, now, glob);
  }

  lemma NoNeedsMatch(o: Opts, x: Dev.Object, now: int, glob: Linkea.Glob)
    requires Valid(o.filter) && now < TWO64 && Compiled(o.filter) && o.filter.needs == {}
    ensures DeviceVerdict(o, x, now, glob) == Match
  {
    NeedsEmptyIffTier0(o.filter);
  }

  /** When everything demanded fits, the kernel filter lets through exactly what the verdict says. */
  lemma FittingOutcome(o: Opts, x: Dev.Object, s: Source, now: int, glob: Linkea.Glob)
    requires Valid(o.filter) && now < TWO64 && Comparable(o, x, s) && Tier0Passes(o.filter, Dev.Tier0Rec(x), now)
    ensures FilterEmits(o, s, now, glob) <==> Emitted(o, DeviceVerdict(o, x, now, glob))
  {
    RecordsSameTier0(x, s);
    SameTier0Passes(o.filter, RecFromDor(s.oid, s.dor), Dev.Tier0Rec(x), now);
    if o.filter.needs == {} {
      NoNeedsMatch(o, x, now, glob);
    } else {
      NeedsMeanPreds(o.filter);
      DemandedServed(x, s, o.filter.needs);
      SameTier1Decision(o, x, s, now, glob);
      KernelSettles(o, s, now, glob);
    }
  }

  lemma RejectedAtTier0(o: Opts, x: Dev.Object, s: Source, now: int, glob: Linkea.Glob)
    requires Valid(o.filter) && now < TWO64 && AllAttrsCompiled(o.filter) && ReportsAttrs(x, s)
    requires !Tier0Passes(o.filter, Dev.Tier0Rec(x), now)
    ensures KernelLine(o, s, now, glob).None? && Dev.DeviceLine(o, x, now, glob).None?
  {
    RecordsSameTier0(x, s);
    SameTier0Passes(o.filter, RecFromDor(s.oid, s.dor), Dev.Tier0Rec(x), now);
  }

  /** The pushed-down scan emits the object: by the class the wire gives, and by the verdict only when every demanded
      xattr fits its buffer, otherwise by whether undecided objects are wanted. */
  predicate KernelWants(o: Opts, x: Dev.Object, s: Source, now: int, glob: Linkea.Glob)
    requires Valid(o.filter) && now < TWO64
  {
    && KernelShows(o.showInternal, s.dor.fid.seq_)
    && if Fits(o.filter.needs, x.eas) then Emitted(o, DeviceVerdict(o, x, now, glob)) else o.emitUnknown
  }

  /** The device scan does: by its own class and the verdict. */
  predicate DeviceWants(o: Opts, x: Dev.Object, now: int, glob: Linkea.Glob)
    requires Valid(o.filter) && now < TWO64
  {
    DeviceShows(o.showInternal, x.lma) && Emitted(o, DeviceVerdict(o, x, now, glob))
  }

  /** Which objects each scan emits, for every filter, option and object. */
  lemma OversizedEmittedExactlyWhen(o: Opts, x: Dev.Object, s: Source, now: int, glob: Linkea.Glob)
    requires Valid(o.filter) && now < TWO64 && Compiled(o.filter) && AllAttrsCompiled(o.filter)
    requires Answers(x, s, o.filter.needs)
    ensures KernelLine(o, s, now, glob).Some? <==>
            Tier0Passes(o.filter, Dev.Tier0Rec(x), now) && KernelWants(o, x, s, now, glob)
    ensures Dev.DeviceLine(o, x, now, glob).Some? <==>
            Tier0Passes(o.filter, Dev.Tier0Rec(x), now) && DeviceWants(o, x, now, glob)
  {
    KernelClassBySequence(o, s);
    DeviceClassByBits(o, x);
    if !Tier0Passes(o.filter, Dev.Tier0Rec(x), now) {
      RejectedAtTier0(o, x, s, now, glob);
    } else if Fits(o.filter.needs, x.eas) {
      FitsReports(x, s, o.filter.needs);
      OnlyTheClassCanDiffer(o, x, s, now, glob);
      FittingOutcome(o, x, s, now, glob);
    } else {
      OversizedOutcome(o, x, s, now, glob);
    }
  }

  // ------------------------------------------------------------------
  // The lines printed for an object with an oversized xattr

  /** What LineOf takes from the decoded values: the SOM's size and blocks instead of the inode's, and the layout. */
  predicate SamePrinted(x: Dev.Object, a: Tier1, b: Tier1) {
    && (if a.haveSom then a.somSize else x.size) == (if b.haveSom then b.somSize else x.size)
    && (if a.haveSom then a.somBlocks else x.blocks) == (if b.haveSom then b.somBlocks else x.blocks)
    && a.haveLov == b.haveLov
    && (a.haveLov ==>
          a.stripeCount == b.stripeCount && a.stripeSize == b.stripeSize && CString(a.pool) == CString(b.pool))
  }

  lemma LinesByValues(x: Dev.Object, a: Tier1, b: Tier1, p: bool, q: bool)
    ensures var r := Dev.FullRec(x).(t1Valid := true);
            SameLine(LineOf(r.(t1 := a), p), LineOf(r.(t1 := b), q)) <==> p == q && SamePrinted(x, a, b)
  {
  }

  /** A layout that fits its buffer, if one is demanded. */
  predicate LovHeld(needs: set<Need>, eas: Eas) {
    Lov in needs ==> FitsIn(eas.lov, XA_LOV_MAX)
  }

  /** A SOM that fits its buffer, if one is demanded, or holds the inode's own size and blocks. */
  predicate SomHeld(needs: set<Need>, x: Dev.Object) {
    Som in needs && !FitsIn(x.eas.som, XA_SOM_MAX) ==>
      Lov.Le64(x.eas.som.value, 8) == x.size && Lov.Le64(x.eas.som.value, 16) == x.blocks
  }

  /** What the kernel decodes of an object: everything demanded that fits. */
  lemma HeldValues(x: Dev.Object, s: Source, needs: set<Need>)
    requires Answers(x, s, needs)
    ensures var ke, de := KernelEas(needs, s.xa), Fetch(needs, x.eas);
            && ke.som == (if FitsIn(de.som, XA_SOM_MAX) then de.som else None)
            && ke.lov == (if FitsIn(de.lov, XA_LOV_MAX) then de.lov else None)
  {
  }

  lemma LovDecodedIffThere(eas: Eas)
    ensures Lov.EaDecode(eas).haveLov <==> eas.lov.Some? && |eas.lov.value| >= 4
  {
    if eas.lov.Some? && |eas.lov.value| >= 4 {
      Lov.DecodeAllFrame(Lov.DecodeHead(Lov.DecodeSom(EMPTY_TIER1, eas.som), eas.lov.value),
                         Lov.Components(eas.lov.value));
    }
  }

  /** Values that differ only by what does not fit print alike exactly when the layout does fit, and the SOM does or is
      no news. */
  lemma HeldPrintAlike(x: Dev.Object, s: Source, needs: set<Need>)
    requires Answers(x, s, needs)
    ensures SamePrinted(x, Lov.EaDecode(KernelEas(needs, s.xa)), Lov.EaDecode(Fetch(needs, x.eas))) <==>
            LovHeld(needs, x.eas) && SomHeld(needs, x)
  {
    var ke, de := KernelEas(needs, s.xa), Fetch(needs, x.eas);
    HeldValues(x, s, needs);
    SomFieldsOnly(ke);
    SomFieldsOnly(de);
    LovDecodedIffThere(ke);
    LovDecodedIffThere(de);
    if ke.lov == de.lov {
      LovFieldsOnly(ke, de);
    }
  }

  /** The kernel's line for an object with an oversized demanded xattr, as if the device had decoded only what fits. */
  lemma OversizedKernelLine(o: Opts, x: Dev.Object, s: Source, now: int, glob: Linkea.Glob)
    requires Valid(o.filter) && now < TWO64 && Compiled(o.filter) && AllAttrsCompiled(o.filter)
    requires Answers(x, s, o.filter.needs) && !Fits(o.filter.needs, x.eas) && x.lma.Some?
    requires Tier0Passes(o.filter, Dev.Tier0Rec(x), now) && KernelLine(o, s, now, glob).Some?
    ensures var t1 := Lov.EaDecode(KernelEas(o.filter.needs, s.xa));
            SameLine(KernelLine(o, s, now, glob).value, LineOf(Dev.FullRec(x).(t1 := t1, t1Valid := true), true))
  {
    var needs := o.filter.needs;
    RecordsSameTier0(x, s);
    SameTier0Passes(o.filter, RecFromDor(s.oid, s.dor), Dev.Tier0Rec(x), now);
    OversizedDemanded(x, s, needs);
    NeedsMeanPreds(o.filter);
    var eas := KernelEas(needs, s.xa);
    var t1 := Lov.EaDecode(eas);
    DecodedPool(eas);
    WireLine(o, x, s, RecFromDor(s.oid, s.dor).(t1 := t1, t1Valid := true),
             Dev.FullRec(x).(t1 := t1, t1Valid := true), true, eas.external, now, glob);
  }

  /** Where both scans print an object with an oversized demanded xattr, the kernel's line is tagged as undecided and
      lacks what did not fit.  The two lines are the same exactly when the device scan is undecided too and nothing
      printed is lacking. */
  lemma OversizedLines(o: Opts, x: Dev.Object, s: Source, now: int, glob: Linkea.Glob)
    requires Valid(o.filter) && now < TWO64 && Compiled(o.filter) && AllAttrsCompiled(o.filter)
    requires Answers(x, s, o.filter.needs) && !Fits(o.filter.needs, x.eas)
    requires KernelLine(o, s, now, glob).Some? && Dev.DeviceLine(o, x, now, glob).Some?
    ensures SameLine(KernelLine(o, s, now, glob).value, Dev.DeviceLine(o, x, now, glob).value) <==>
            DeviceVerdict(o, x, now, glob) == Unknown && LovHeld(o.filter.needs, x.eas) && SomHeld(o.filter.needs, x)
  {
    var needs := o.filter.needs;
    if !Tier0Passes(o.filter, Dev.Tier0Rec(x), now) {
      RejectedAtTier0(o, x, s, now, glob);
      assert false;
    }
    OversizedKernelLine(o, x, s, now, glob);
    OversizedDemanded(x, s, needs);
    DeviceSettles(o, x, now, glob);
    var a, b := Lov.EaDecode(KernelEas(needs, s.xa)), Lov.EaDecode(Fetch(needs, x.eas));
    LinesByValues(x, a, b, true, DeviceVerdict(o, x, now, glob) == Unknown);
    HeldPrintAlike(x, s, needs);
  }

  /** Buffers and LMA together, for every filter, option and object: the two scans print the same for it exactly when
      tier 0 rejects it, or both or neither emit it and, where both do although a demanded xattr does not fit, the
      device scan is undecided as well, the layout fits, and the SOM fits or says what the inode says. */
  lemma OversizedAgreeExactlyWhen(o: Opts, x: Dev.Object, s: Source, now: int, glob: Linkea.Glob)
    requires Valid(o.filter) && now < TWO64 && Compiled(o.filter) && AllAttrsCompiled(o.filter)
    requires Answers(x, s, o.filter.needs)
    ensures SameMaybe(KernelLine(o, s, now, glob), Dev.DeviceLine(o, x, now, glob)) <==>
            || !Tier0Passes(o.filter, Dev.Tier0Rec(x), now)
            || (&& KernelWants(o, x, s, now, glob) == DeviceWants(o, x, now, glob)
                && (DeviceWants(o, x, now, glob) && !Fits(o.filter.needs, x.eas) ==>
                      && DeviceVerdict(o, x, now, glob) == Unknown
                      && LovHeld(o.filter.needs, x.eas) && SomHeld(o.filter.needs, x)))
  {
    OversizedEmittedExactlyWhen(o, x, s, now, glob);
    if KernelLine(o, s, now, glob).Some? && Dev.DeviceLine(o, x, now, glob).Some? {
      if Fits(o.filter.needs, x.eas) {
        FitsReports(x, s, o.filter.needs);
        OnlyTheClassCanDiffer(o, x, s, now, glob);
      } else {
        OversizedLines(o, x, s, now, glob);
      }
    }
  }

  const SIZE_PRED: Pred := BLANK.(field := F_SIZE, op := OP_LT, val := 1)

  const SIZE_FILTER: Filter := EMPTY_FILTER.(p := EMPTY_FILTER.p[0 := SIZE_PRED], n := 1, needs := {Som, Need.Lov})

  const BY_SIZE := Opts(SIZE_FILTER, false, false, 0)

  /** A file without a layout whose SOM is 65 bytes long. */
  function LongSom(): Dev.Object {
    PLAIN.(eas := NO_EAS.(som := Some(seq(65, i => 0))))
  }

  function LongSomReported(): Source {
    AsReported(PLAIN, NOTHING.(som := TooLarge))
  }

  /** The device scan finds it to be of size 0. */
  lemma LongSomOnDevice(o: Opts, glob: Linkea.Glob)
    requires o.filter == SIZE_FILTER
    ensures Dev.DeviceLine(o, LongSom(), 0, glob).Some? && !Dev.DeviceLine(o, LongSom(), 0, glob).value.unknown
  {
  }

  /** The kernel cannot say. */
  lemma LongSomInKernel(o: Opts, glob: Linkea.Glob)
    requires o.filter == SIZE_FILTER
    ensures var k := KernelLine(o, LongSomReported(), 0, glob);
            (k.Some? <==> o.emitUnknown) && (k.Some? ==> k.value.unknown)
  {
    assert Result(LongSomReported().xa, Som) == TooLarge;
  }

  /** So it is lost when pushed down, unless undecided objects are wanted. */
  lemma OversizedSomIsLost(glob: Linkea.Glob)
    ensures Dev.DeviceLine(BY_SIZE, LongSom(), 0, glob).Some?
    ensures KernelLine(BY_SIZE, LongSomReported(), 0, glob).None?
  {
    LongSomOnDevice(BY_SIZE, glob);
    LongSomInKernel(BY_SIZE, glob);
  }

  /** If they are, both scans print it, the pushed-down one tagged as undecided, the device one not. */
  lemma OversizedSomIsTagged(glob: Linkea.Glob)
    ensures var o := BY_SIZE.(emitUnknown := true);
            var k, d := KernelLine(o, LongSomReported(), 0, glob), Dev.DeviceLine(o, LongSom(), 0, glob);
            k.Some? && d.Some? && k.value.unknown && !d.value.unknown && !SameMaybe(k, d)
  {
    LongSomOnDevice(BY_SIZE.(emitUnknown := true), glob);
    LongSomInKernel(BY_SIZE.(emitUnknown := true), glob);
  }
}
