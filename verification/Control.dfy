/** The control path of the ring device (src/kernel/lfu_ring.c): SET_FILTER, the read that starts the scan, and the
    other ioctls, in any order.  The mutex makes each a single step. */
module Control {
  import opened Bits
  import opened Records
  import opened Filter

  const FILTER_MAGIC: u32 := 0x4C46_5546
  const WIRE_VERSION: u32 := 2
  const FILTER_SIZE: u32 := 11280     // 32 * 352 + 16
  const EMIT_UNKNOWN: u32 := 0x1

  /** struct lfu_ring_filter as it comes from an untrusted caller. */
  datatype Request = Request(magic: u32, version: u32, size: u32, flags: u32, f: Filter)

  /** What the OSD under the device can answer; fixed when the device is opened. */
  datatype Osd = Osd(canSupply: set<Need>, attrMask: u32)

  datatype Status = Ok | Busy | NoMemory | Fault | Invalid | NotSupported | NotTty | StartFailed

  // ------------------------------------------------------------------
  // Attribute bits

  /** The bits one predicate tests. */
  function AttrsOf(p: Pred): u32 {
    if p.field == F_ATTRS then Or64(p.val, p.val2) % TWO32 else 0
  }

  /** lfu_filter_attrs_used: the attribute bits the first n predicates test. */
  function AttrsUsed(f: Filter, n: nat): (r: u32)
    requires n <= MAX_PRED
  {
    if n == 0 then 0 else Or32(AttrsUsed(f, n - 1), AttrsOf(f.p[n - 1]))
  }

  method AttrsUsedLoop(f: Filter) returns (used: u32)
    requires Valid(f)
    ensures used == AttrsUsed(f, f.n)
  {
    var u: u32 := 0;
    var i := 0;
    while i < f.n
      invariant 0 <= i <= f.n && u == AttrsUsed(f, i)
    {
      if f.p[i].field == F_ATTRS {
        u := Or32(u, Or64(f.p[i].val, f.p[i].val2) % TWO32);
      }
      i := i + 1;
    }
    return u;
  }

  function Complement(mask: u32): u32 {
    TWO32 - 1 - mask
  }

  /** No --attrs predicate tests a bit outside the mask. */
  predicate AttrsWithin(f: Filter, n: nat, mask: u32)
    requires n <= MAX_PRED
  {
    forall i :: 0 <= i < n && f.p[i].field == F_ATTRS ==>
      !Has(f.p[i].val, Complement(mask)) && !Has(f.p[i].val2, Complement(mask))
  }

  lemma {:induction false} HasLow(x: nat, k: nat, m: nat)
    requires m < Pow2(k)
    ensures Has(x % Pow2(k), m) <==> Has(x, m)
    decreases k
  {
    if k == 0 {
      HasNothing(x);
    } else {
      var h := Pow2(k - 1);
      ModDouble(x, h);
      assert (x % Pow2(k)) / 2 == (x / 2) % h && (x % Pow2(k)) % 2 == x % 2;
      HasLow(x / 2, k - 1, m / 2);
      HasStep(x % Pow2(k), m);
      HasStep(x, m);
    }
  }

  lemma {:induction false} HasNothing(x: nat)
    ensures !Has(x, 0)
    decreases x
  {
    if x != 0 {
      HasNothing(x / 2);
    }
  }

  lemma HasStep(x: nat, m: nat)
    ensures Has(x, m) <==> (x % 2 == 1 && m % 2 == 1) || Has(x / 2, m / 2)
  {
  }

  lemma OnePred(p: Pred, m: u32)
    ensures Has(AttrsOf(p), m) <==> p.field == F_ATTRS && (Has(p.val, m) || Has(p.val2, m))
  {
    if p.field == F_ATTRS {
      Pow2Of32();
      HasLow(Or64(p.val, p.val2), 32, m);
      OrHas(p.val, p.val2, m);
    }
  }

  /** The mask test on the whole filter is the test on each predicate. */
  lemma {:induction false} MaskTestIsEachPred(f: Filter, n: nat, mask: u32)
    requires n <= MAX_PRED
    ensures Has(AttrsUsed(f, n), Complement(mask)) <==> !AttrsWithin(f, n, mask)
    decreases n
  {
    if n > 0 {
      MaskTestIsEachPred(f, n - 1, mask);
      OrHas(AttrsUsed(f, n - 1), AttrsOf(f.p[n - 1]), Complement(mask));
      OnePred(f.p[n - 1], Complement(mask));
    }
  }

  // ------------------------------------------------------------------
  // The steps

  datatype State = State(started: bool, filter: Option<Filter>, emitUnknown: bool)

  const OPENED := State(false, None, false)

  datatype Event =
    | SetFilter(rq: Request, memory: bool, readable: bool, scratch: bool)
    | Read(want: nat, spawned: bool)
    | Info
    | Stats
    | OtherIoctl

  /** A filter this OSD can answer. */
  predicate Answerable(osd: Osd, f: Filter) {
    Valid(f) && f.needs <= osd.canSupply && AttrsWithin(f, f.n, osd.attrMask)
  }

  predicate WellFormed(rq: Request) {
    rq.magic == FILTER_MAGIC && rq.version == WIRE_VERSION && rq.size == FILTER_SIZE
  }

  /** What SET_FILTER answers before the scan has begun. */
  function Verdict(osd: Osd, e: Event): Status
    requires e.SetFilter?
  {
    if !e.memory then NoMemory
    else if !e.readable then Fault
    else if !WellFormed(e.rq) || !Valid(e.rq.f) then Invalid
    else if !(e.rq.f.needs <= osd.canSupply) || !AttrsWithin(e.rq.f, e.rq.f.n, osd.attrMask) then NotSupported
    else if e.rq.f.needs != {} && !e.scratch then NoMemory
    else Ok
  }

  function Step(osd: Osd, s: State, e: Event): (r: (State, Status)) {
    match e
    case SetFilter(rq, _, _, _) =>
      if s.started then (s, Busy)
      else if Verdict(osd, e) != Ok then (s, Verdict(osd, e))
      else (s.(filter := Some(rq.f), emitUnknown := Has(rq.flags, EMIT_UNKNOWN)), Ok)
    case Read(want, spawned) =>
      if want == 0 then (s, Invalid)
      else if s.started then (s, Ok)
      else if !spawned then (s, StartFailed)
      else (s.(started := true), Ok)
    case Info => (s, Ok)
    case Stats => (s, Ok)
    case OtherIoctl => (s, NotTty)
  }

  /** The device after a sequence of calls. */
  function After(osd: Osd, s: State, es: seq<Event>): (t: State) {
    if es == [] then s else Step(osd, After(osd, s, es[..|es| - 1]), es[|es| - 1]).0
  }

  // ------------------------------------------------------------------
  // Over any sequence of calls

  /** An installed filter is always one this OSD can answer. */
  lemma {:induction false} InstalledIsAnswerable(osd: Osd, es: seq<Event>)
    ensures After(osd, OPENED, es).filter.Some? ==> Answerable(osd, After(osd, OPENED, es).filter.value)
    decreases |es|
  {
    if es != [] {
      InstalledIsAnswerable(osd, es[..|es| - 1]);
    }
  }

  /** Once the scan has begun nothing changes the filter, the flag, or that it has begun. */
  lemma {:induction false} FrozenOnceStarted(osd: Osd, s: State, es: seq<Event>)
    requires s.started
    ensures After(osd, s, es) == s
    decreases |es|
  {
    if es != [] {
      FrozenOnceStarted(osd, s, es[..|es| - 1]);
    }
  }

  lemma {:induction false} AfterBoth(osd: Osd, s: State, es: seq<Event>, fs: seq<Event>)
    ensures After(osd, s, es + fs) == After(osd, After(osd, s, es), fs)
    decreases |fs|
  {
    if fs == [] {
      assert es + fs == es;
    } else {
      var k := |fs| - 1;
      AfterBoth(osd, s, es, fs[..k]);
      assert (es + fs)[..|es + fs| - 1] == es + fs[..k];
    }
  }

  /** Whatever calls come before and after the read that starts the scan, the filter the scan runs with is the one
      installed when it started. */
  lemma ScanKeepsItsFilter(osd: Osd, before: seq<Event>, after: seq<Event>)
    requires After(osd, OPENED, before).started
    ensures After(osd, OPENED, before + after) == After(osd, OPENED, before)
  {
    AfterBoth(osd, OPENED, before, after);
    FrozenOnceStarted(osd, After(osd, OPENED, before), after);
  }

  /** The request that is in force: the last acceptable one before the first read that started the scan. */
  function InForce(osd: Osd, es: seq<Event>): (r: Option<Request>) {
    if es == [] then None
    else
      var front, e := es[..|es| - 1], es[|es| - 1];
      if e.SetFilter? && Verdict(osd, e) == Ok && !Begun(front) then Some(e.rq) else InForce(osd, front)
  }

  /** Some read asked for a record and got its thread. */
  predicate Begun(es: seq<Event>) {
    exists i :: 0 <= i < |es| && es[i].Read? && es[i].want > 0 && es[i].spawned
  }

  lemma BegunStep(es: seq<Event>)
    requires es != []
    ensures var e := es[|es| - 1];
            Begun(es) <==> Begun(es[..|es| - 1]) || (e.Read? && e.want > 0 && e.spawned)
  {
    var k := |es| - 1;
    assert forall i :: 0 <= i < k ==> es[..k][i] == es[i];
    if Begun(es[..k]) {
      var i :| 0 <= i < k && es[..k][i].Read? && es[..k][i].want > 0 && es[..k][i].spawned;
      assert es[i].Read?;
    }
    if es[k].Read? && es[k].want > 0 && es[k].spawned {
      assert Begun(es);
    }
  }

  /** The device holds exactly the request in force, with its flag. */
  lemma {:induction false} HoldsWhatIsInForce(osd: Osd, es: seq<Event>)
    ensures var s := After(osd, OPENED, es);
            && s.started == Begun(es)
            && s.filter == (if InForce(osd, es).Some? then Some(InForce(osd, es).value.f) else None)
            && s.emitUnknown == (InForce(osd, es).Some? && Has(InForce(osd, es).value.flags, EMIT_UNKNOWN))
    decreases |es|
  {
    if es != [] {
      HoldsWhatIsInForce(osd, es[..|es| - 1]);
      BegunStep(es);
    }
  }

  // ------------------------------------------------------------------
  // The device

  /** The control part of struct lfu_ring. */
  class Device {
    const osd: Osd
    var started: bool
    var filter: Option<Filter>
    var emitUnknown: bool

    constructor (osd: Osd)
      ensures this.osd == osd && Abs() == OPENED
    {
      this.osd := osd;
      started, filter, emitUnknown := false, None, false;
    }

    function Abs(): State
      reads this
    {
      State(started, filter, emitUnknown)
    }

    /** LFU_RING_IOC_SET_FILTER, under the mutex. */
    method SetFilter(rq: Request, memory: bool, readable: bool, scratch: bool) returns (rc: Status)
      modifies this
      ensures (Abs(), rc) == Step(osd, old(Abs()), Event.SetFilter(rq, memory, readable, scratch))
    {
      if started {
        return Busy;
      }
      if !memory {
        return NoMemory;
      }
      if !readable {
        return Fault;
      }
      if rq.magic != FILTER_MAGIC || rq.version != WIRE_VERSION || rq.size != FILTER_SIZE {
        return Invalid;
      }
      var valid := Validate(rq.f);
      if !valid {
        return Invalid;
      }
      if !(rq.f.needs <= osd.canSupply) {
        return NotSupported;
      }
      var used := AttrsUsedLoop(rq.f);
      MaskTestIsEachPred(rq.f, rq.f.n, osd.attrMask);
      if Has(used, Complement(osd.attrMask)) {
        return NotSupported;
      }
      if rq.f.needs != {} && !scratch {
        return NoMemory;
      }
      filter := Some(rq.f);
      emitUnknown := Has(rq.flags, EMIT_UNKNOWN);
      return Ok;
    }

    /** The head of lfu_ring_read, with lfu_ring_start. */
    method Start(want: nat, spawned: bool) returns (rc: Status)
      modifies this
      ensures (Abs(), rc) == Step(osd, old(Abs()), Read(want, spawned))
    {
      if want == 0 {
        return Invalid;
      }
      if started {
        return Ok;
      }
      if !spawned {
        return StartFailed;
      }
      started := true;
      return Ok;
    }
  }
}
