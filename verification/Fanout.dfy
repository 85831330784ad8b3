/** The fan-out harness of src/kernel/lfu_fanout.c: one enumerator feeds a bounded queue, N workers drain it, and two
    flags say when to leave.  Entries are named by their object number. */
module Fanout {
  /** `doneFirst` selects when a worker samples the end flag: false is the order in lfu_worker, after it has found
      the queue empty; true samples it before. */
  datatype Config = Config(workers: nat, capacity: nat, doneFirst: bool)

  datatype EPc =
    | ECheck                 // if (READ_ONCE(st.abort))
    | ERec                   // iops->rec()
    | EPush(e: nat)          // kfifo_in_spinlocked()
    | EWait(e: nat)          // wait_event(wq_prod, ...)
    | EAbort(e: nat)         // if (READ_ONCE(st.abort)) break
    | ENext                  // iops->next()
    | EDone                  // WRITE_ONCE(st.done, 1)
    | EEnd

  datatype WPc =
    | WPeek                  // the prescribed order: sample the end flag first
    | WPop(ended: bool)      // kfifo_out_spinlocked()
    | WBusy(e: nat)
    | WDone                  // READ_ONCE(st.done)
    | WAbort                 // READ_ONCE(st.abort)
    | WWait                  // wait_event(wq_cons, ...)
    | WExit

  /** Shared state and program counters; then history: what the iterator returned, what was handled in which order,
      and what was given up. */
  datatype State = State(
    queue: seq<nat>, done: bool, abort: bool, epc: EPc, wpcs: seq<WPc>,
    produced: seq<nat>, handled: seq<nat>, dropped: seq<nat>)

  datatype Action =
    | Enumerate
    | Found(e: nat)          // rec() returned an object
    | Skipped                // rec() returned an error
    | More                   // next() moved on
    | Ended                  // next() ended the walk
    | Work(w: nat)
    | Fails(w: nat)          // lu_env_init or kthread_run failed

  function Start(c: Config): WPc {
    if c.doneFirst then WPeek else WPop(false)
  }

  function Init(c: Config): State {
    State([], false, false, ECheck, seq(c.workers, i => Start(c)), [], [], [])
  }

  predicate Enabled(c: Config, s: State, a: Action)
    requires |s.wpcs| == c.workers
  {
    match a
    case Enumerate =>
      (match s.epc
       case ECheck => true
       case EPush(_) => true
       case EWait(_) => |s.queue| < c.capacity || s.abort
       case EAbort(_) => true
       case EDone => true
       case _ => false)
    case Found(_) => s.epc.ERec?
    case Skipped => s.epc.ERec?
    case More => s.epc.ENext?
    case Ended => s.epc.ENext?
    case Work(w) =>
      w < c.workers && !s.wpcs[w].WExit? && (s.wpcs[w].WWait? ==> s.queue != [] || s.done || s.abort)
    case Fails(w) => w < c.workers && s.wpcs[w] == Start(c)
  }

  function EnumerateStep(c: Config, s: State): State {
    match s.epc
    case ECheck => s.(epc := if s.abort then EDone else ERec)
    case EPush(e) => if |s.queue| < c.capacity then s.(queue := s.queue + [e], epc := ENext) else s.(epc := EWait(e))
    case EWait(e) => s.(epc := EAbort(e))
    case EAbort(e) => if s.abort then s.(epc := ENext, dropped := s.dropped + [e]) else s.(epc := EPush(e))
    case EDone => s.(done := true, epc := EEnd)
    case _ => s
  }

  function WorkStep(c: Config, s: State, w: nat): State
    requires w < |s.wpcs|
  {
    match s.wpcs[w]
    case WPeek => s.(wpcs := s.wpcs[w := WPop(s.done)])
    case WPop(ended) =>
      if s.queue != [] then s.(queue := s.queue[1..], wpcs := s.wpcs[w := WBusy(s.queue[0])])
      else s.(wpcs := s.wpcs[w := if !c.doneFirst then WDone else if ended then WExit else WAbort])
    case WBusy(e) => s.(handled := s.handled + [e], wpcs := s.wpcs[w := Start(c)])
    case WDone => s.(wpcs := s.wpcs[w := if s.done then WExit else WAbort])
    case WAbort => s.(wpcs := s.wpcs[w := if s.abort then WExit else WWait])
    case WWait => s.(wpcs := s.wpcs[w := Start(c)])
    case WExit => s
  }

  function Step(c: Config, s: State, a: Action): (t: State)
    requires |s.wpcs| == c.workers && Enabled(c, s, a)
    ensures |t.wpcs| == c.workers
  {
    match a
    case Enumerate => EnumerateStep(c, s)
    case Found(e) =>
      if c.workers > 0 then s.(produced := s.produced + [e], epc := EPush(e))
      else s.(produced := s.produced + [e], dropped := s.dropped + [e], epc := ENext)
    case Skipped => s.(epc := ENext)
    case More => s.(epc := ECheck)
    case Ended => s.(epc := EDone)
    case Work(w) => WorkStep(c, s, w)
    case Fails(w) => s.(abort := true, wpcs := s.wpcs[w := WExit])
  }

  ghost predicate Reaches(c: Config, acts: seq<Action>, s: State)
    decreases |acts|
  {
    if acts == [] then s == Init(c)
    else
      var before, a := acts[..|acts| - 1], acts[|acts| - 1];
      exists p :: Reaches(c, before, p) && |p.wpcs| == c.workers && Enabled(c, p, a) && s == Step(c, p, a)
  }

  // ------------------------------------------------------------------
  // Conservation, entry by entry

  function One(e: nat, x: nat): nat {
    if e == x then 1 else 0
  }

  /** How often x occurs among the first n. */
  function CountTo(es: seq<nat>, n: nat, x: nat): nat
    requires n <= |es|
  {
    if n == 0 then 0 else CountTo(es, n - 1, x) + One(es[n - 1], x)
  }

  function Count(es: seq<nat>, x: nat): nat {
    CountTo(es, |es|, x)
  }

  lemma {:induction false} CountFrame(es: seq<nat>, e: nat, n: nat, x: nat)
    requires n <= |es|
    ensures CountTo(es + [e], n, x) == CountTo(es, n, x)
    decreases n
  {
    if n > 0 {
      CountFrame(es, e, n - 1, x);
    }
  }

  lemma CountPush(es: seq<nat>, e: nat, x: nat)
    ensures Count(es + [e], x) == Count(es, x) + One(e, x)
  {
    CountFrame(es, e, |es|, x);
  }

  lemma {:induction false} CountShift(es: seq<nat>, n: nat, x: nat)
    requires 0 < n <= |es|
    ensures CountTo(es, n, x) == One(es[0], x) + CountTo(es[1..], n - 1, x)
    decreases n
  {
    if n > 1 {
      CountShift(es, n - 1, x);
    }
  }

  lemma CountPop(es: seq<nat>, x: nat)
    requires es != []
    ensures Count(es, x) == One(es[0], x) + Count(es[1..], x)
  {
    CountShift(es, |es|, x);
  }

  function Holding(p: WPc, x: nat): nat {
    if p.WBusy? then One(p.e, x) else 0
  }

  /** How often the workers have x in hand. */
  function InFlight(ps: seq<WPc>, x: nat): (n: nat) {
    if ps == [] then 0 else InFlight(ps[..|ps| - 1], x) + Holding(ps[|ps| - 1], x)
  }

  /** The one entry the enumerator has counted and not yet queued. */
  function Pending(p: EPc, x: nat): nat {
    match p
    case EPush(e) => One(e, x)
    case EWait(e) => One(e, x)
    case EAbort(e) => One(e, x)
    case _ => 0
  }

  lemma {:induction false} InFlightUpdate(ps: seq<WPc>, w: nat, p: WPc, x: nat)
    requires w < |ps|
    ensures InFlight(ps[w := p], x) == InFlight(ps, x) - Holding(ps[w], x) + Holding(p, x)
    decreases |ps|
  {
    var k := |ps| - 1;
    if w == k {
      assert ps[w := p][..k] == ps[..k];
    } else {
      InFlightUpdate(ps[..k], w, p, x);
      assert ps[w := p][..k] == ps[..k][w := p];
    }
  }

  /** Every occurrence of x is accounted for. */
  predicate Conserved(s: State, x: nat) {
    Count(s.produced, x) ==
    Count(s.handled, x) + Count(s.queue, x) + InFlight(s.wpcs, x) + Pending(s.epc, x) + Count(s.dropped, x)
  }

  predicate DropsExplained(c: Config, s: State) {
    s.dropped != [] ==> s.abort || c.workers == 0
  }

  /** A worker moves with empty hands. */
  lemma MoveKeeps(s: State, w: nat, p: WPc, x: nat)
    requires w < |s.wpcs| && !s.wpcs[w].WBusy? && !p.WBusy? && Conserved(s, x)
    ensures Conserved(s.(wpcs := s.wpcs[w := p]), x)
  {
    InFlightUpdate(s.wpcs, w, p, x);
  }

  lemma PopKeeps(s: State, w: nat, x: nat)
    requires w < |s.wpcs| && !s.wpcs[w].WBusy? && s.queue != [] && Conserved(s, x)
    ensures Conserved(s.(queue := s.queue[1..], wpcs := s.wpcs[w := WBusy(s.queue[0])]), x)
  {
    InFlightUpdate(s.wpcs, w, WBusy(s.queue[0]), x);
    CountPop(s.queue, x);
  }

  lemma HandleKeeps(s: State, w: nat, p: WPc, x: nat)
    requires w < |s.wpcs| && s.wpcs[w].WBusy? && !p.WBusy? && Conserved(s, x)
    ensures Conserved(s.(handled := s.handled + [s.wpcs[w].e], wpcs := s.wpcs[w := p]), x)
  {
    InFlightUpdate(s.wpcs, w, p, x);
    CountPush(s.handled, s.wpcs[w].e, x);
  }

  lemma PassKeeps(c: Config, s: State, w: nat, x: nat)
    requires |s.wpcs| == c.workers && Enabled(c, s, Work(w)) && Conserved(s, x)
    requires !s.wpcs[w].WBusy? && (s.wpcs[w].WPop? ==> s.queue == [])
    ensures Conserved(WorkStep(c, s, w), x)
  {
    var p := WorkStep(c, s, w).wpcs[w];
    assert WorkStep(c, s, w) == s.(wpcs := s.wpcs[w := p]);
    MoveKeeps(s, w, p, x);
  }

  lemma WorkKeeps(c: Config, s: State, w: nat, x: nat)
    requires |s.wpcs| == c.workers && Enabled(c, s, Work(w)) && Conserved(s, x)
    ensures Conserved(WorkStep(c, s, w), x)
  {
    match s.wpcs[w] {
      case WPop(_) =>
        if s.queue != [] {
          PopKeeps(s, w, x);
        } else {
          PassKeeps(c, s, w, x);
        }
      case WBusy(_) => HandleKeeps(s, w, Start(c), x);
      case _ => PassKeeps(c, s, w, x);
    }
  }

  lemma QueueKeeps(s: State, e: nat, x: nat)
    requires Pending(s.epc, x) == One(e, x) && Conserved(s, x)
    ensures Conserved(s.(queue := s.queue + [e], epc := ENext), x)
  {
    CountPush(s.queue, e, x);
  }

  lemma DropKeeps(s: State, e: nat, x: nat)
    requires Pending(s.epc, x) == One(e, x) && Conserved(s, x)
    ensures Conserved(s.(dropped := s.dropped + [e], epc := ENext), x)
  {
    CountPush(s.dropped, e, x);
  }

  lemma WaitKeeps(s: State, p: EPc, done: bool, x: nat)
    requires Pending(s.epc, x) == Pending(p, x) && Conserved(s, x)
    ensures Conserved(s.(epc := p, done := done), x)
  {
  }

  lemma EnumerateKeeps(c: Config, s: State, x: nat)
    requires Conserved(s, x)
    ensures Conserved(EnumerateStep(c, s), x)
  {
    if s.epc.EPush? && |s.queue| < c.capacity {
      QueueKeeps(s, s.epc.e, x);
    } else if s.epc.EAbort? && s.abort {
      DropKeeps(s, s.epc.e, x);
    } else {
      WaitKeeps(s, EnumerateStep(c, s).epc, EnumerateStep(c, s).done, x);
    }
  }

  lemma ProduceKeeps(s: State, e: nat, x: nat)
    requires Pending(s.epc, x) == 0 && Conserved(s, x)
    ensures Conserved(s.(produced := s.produced + [e], epc := EPush(e)), x)
  {
    CountPush(s.produced, e, x);
  }

  lemma FoundKeeps(c: Config, s: State, e: nat, x: nat)
    requires |s.wpcs| == c.workers && Enabled(c, s, Found(e)) && Conserved(s, x)
    ensures Conserved(Step(c, s, Found(e)), x)
  {
    ProduceKeeps(s, e, x);
    if c.workers == 0 {
      DropKeeps(s.(produced := s.produced + [e], epc := EPush(e)), e, x);
    }
  }

  lemma StepKeeps(c: Config, s: State, a: Action, x: nat)
    requires |s.wpcs| == c.workers && Enabled(c, s, a) && Conserved(s, x) && DropsExplained(c, s)
    ensures Conserved(Step(c, s, a), x) && DropsExplained(c, Step(c, s, a))
  {
    match a {
      case Enumerate => EnumerateKeeps(c, s, x);
      case Work(w) => WorkKeeps(c, s, w, x);
      case Fails(w) => MoveKeeps(s.(abort := true), w, WExit, x);
      case Found(e) => FoundKeeps(c, s, e, x);
      case _ => WaitKeeps(s, Step(c, s, a).epc, s.done, x);
    }
  }

  lemma {:induction false} NothingInFlight(ps: seq<WPc>, x: nat)
    requires forall w :: 0 <= w < |ps| ==> !ps[w].WBusy?
    ensures InFlight(ps, x) == 0
    decreases |ps|
  {
    if ps != [] {
      NothingInFlight(ps[..|ps| - 1], x);
    }
  }

  /** In every reachable state each entry the iterator returned is handled, queued, in a worker's hands, about to be
      queued, or given up, as often as it was returned; and entries are given up only on abort, or when there are no
      workers to give them to. */
  lemma {:induction false} EntriesConserved(c: Config, acts: seq<Action>, s: State, x: nat)
    requires Reaches(c, acts, s)
    ensures |s.wpcs| == c.workers && Conserved(s, x) && DropsExplained(c, s)
    decreases |acts|
  {
    if acts == [] {
      NothingInFlight(s.wpcs, x);
    } else {
      var k := |acts| - 1;
      var p :| Reaches(c, acts[..k], p) && |p.wpcs| == c.workers && Enabled(c, p, acts[k]) && s == Step(c, p, acts[k]);
      EntriesConserved(c, acts[..k], p, x);
      StepKeeps(c, p, acts[k], x);
    }
  }

  /** No entry is handled more often than the iterator returned it. */
  lemma HandledAtMostOnce(c: Config, acts: seq<Action>, s: State, x: nat)
    requires Reaches(c, acts, s)
    ensures Count(s.handled, x) <= Count(s.produced, x)
  {
    EntriesConserved(c, acts, s, x);
  }

  predicate Over(s: State) {
    s.epc.EEnd? && forall w :: 0 <= w < |s.wpcs| ==> s.wpcs[w].WExit?
  }

  /** When everyone has left without an abort, what was not handled is exactly what is left in the queue. */
  lemma LeftoversAreQueued(c: Config, acts: seq<Action>, s: State, x: nat)
    requires Reaches(c, acts, s) && Over(s) && c.workers > 0 && !s.abort
    ensures Count(s.produced, x) == Count(s.handled, x) + Count(s.queue, x)
  {
    EntriesConserved(c, acts, s, x);
    NothingInFlight(s.wpcs, x);
  }

  // ------------------------------------------------------------------
  // Whether anything is left

  /** With the end flag sampled first: a worker leaves only after the last push, and an empty queue. */
  predicate DrainInv(c: Config, s: State)
    requires |s.wpcs| == c.workers
  {
    && (s.done ==> s.epc.EEnd?)
    && (forall w :: 0 <= w < c.workers ==> !s.wpcs[w].WDone?)
    && (forall w :: 0 <= w < c.workers && s.wpcs[w] == WPop(true) ==> s.done)
    && (forall w :: 0 <= w < c.workers && s.wpcs[w].WExit? ==> s.abort || (s.done && s.queue == []))
  }

  lemma DrainEnumerate(c: Config, s: State)
    requires |s.wpcs| == c.workers && Enabled(c, s, Enumerate) && DrainInv(c, s)
    ensures DrainInv(c, EnumerateStep(c, s))
  {
  }

  lemma DrainWork(c: Config, s: State, w: nat)
    requires c.doneFirst && |s.wpcs| == c.workers && Enabled(c, s, Work(w)) && DrainInv(c, s)
    ensures DrainInv(c, WorkStep(c, s, w))
  {
  }

  lemma {:induction false} DrainHolds(c: Config, acts: seq<Action>, s: State)
    requires Reaches(c, acts, s) && c.doneFirst
    ensures |s.wpcs| == c.workers && DrainInv(c, s)
    decreases |acts|
  {
    if acts != [] {
      var k := |acts| - 1;
      var p :| Reaches(c, acts[..k], p) && |p.wpcs| == c.workers && Enabled(c, p, acts[k]) && s == Step(c, p, acts[k]);
      DrainHolds(c, acts[..k], p);
      match acts[k] {
        case Enumerate => DrainEnumerate(c, p);
        case Work(w) => DrainWork(c, p, w);
        case _ =>
      }
    }
  }

  /** Sampled before the queue is tried, the end flag makes the drain complete. */
  lemma DoneFirstLeavesNothing(c: Config, acts: seq<Action>, s: State, x: nat)
    requires Reaches(c, acts, s) && Over(s) && c.workers > 0 && !s.abort && c.doneFirst
    ensures s.queue == [] && Count(s.handled, x) == Count(s.produced, x)
  {
    DrainHolds(c, acts, s);
    assert s.wpcs[0].WExit?;
    LeftoversAreQueued(c, acts, s, x);
  }

  lemma Extend(c: Config, acts: seq<Action>, p: State, a: Action, s: State)
    requires Reaches(c, acts, p) && |p.wpcs| == c.workers && Enabled(c, p, a) && s == Step(c, p, a)
    ensures Reaches(c, acts + [a], s)
  {
    assert (acts + [a])[..|acts|] == acts;
  }

  /** The first n workers at one place, the others at another. */
  function Split(c: Config, n: nat, p: WPc, q: WPc): (ps: seq<WPc>)
    requires n <= c.workers
    ensures |ps| == c.workers
    ensures forall w :: 0 <= w < c.workers ==> ps[w] == if w < n then p else q
  {
    seq(c.workers, w => if w < n then p else q)
  }

  /** Every worker tries the queue and finds it empty ... */
  lemma {:induction false} AllTry(c: Config, n: nat) returns (acts: seq<Action>)
    requires !c.doneFirst && n <= c.workers
    ensures Reaches(c, acts, Init(c).(wpcs := Split(c, n, WDone, WPop(false))))
    decreases n
  {
    if n == 0 {
      acts := [];
      assert Init(c).wpcs == Split(c, 0, WDone, WPop(false));
    } else {
      acts := AllTry(c, n - 1);
      var p := Init(c).(wpcs := Split(c, n - 1, WDone, WPop(false)));
      assert p.wpcs[n - 1 := WDone] == Split(c, n, WDone, WPop(false));
      Extend(c, acts, p, Work(n - 1), Init(c).(wpcs := Split(c, n, WDone, WPop(false))));
      acts := acts + [Work(n - 1)];
    }
  }

  /** ... while the enumerator queues its last entry and sets the end flag ... */
  lemma LastPush(c: Config, e: nat) returns (acts: seq<Action>)
    requires !c.doneFirst && c.workers > 0 && c.capacity > 0
    ensures Reaches(c, acts, State([e], true, false, EEnd, Split(c, 0, WExit, WDone), [e], [], []))
  {
    acts := AllTry(c, c.workers);
    var s1 := Init(c).(wpcs := Split(c, c.workers, WDone, WPop(false)));
    assert s1.wpcs == Split(c, 0, WExit, WDone);
    var s2 := s1.(epc := ERec);
    Extend(c, acts, s1, Enumerate, s2);
    var s3 := s2.(epc := EPush(e), produced := [e]);
    Extend(c, acts + [Enumerate], s2, Found(e), s3);
    var s4 := s3.(queue := [e], epc := ENext);
    Extend(c, acts + [Enumerate] + [Found(e)], s3, Enumerate, s4);
    acts := acts + [Enumerate] + [Found(e)] + [Enumerate];
    var s5 := s4.(epc := EDone);
    Extend(c, acts, s4, Ended, s5);
    Extend(c, acts + [Ended], s5, Enumerate, s5.(done := true, epc := EEnd));
    acts := acts + [Ended] + [Enumerate];
  }

  /** ... and then they all read the flag and leave. */
  lemma {:induction false} AllLeave(c: Config, e: nat, n: nat) returns (acts: seq<Action>)
    requires !c.doneFirst && 0 < c.workers && n <= c.workers && c.capacity > 0
    ensures Reaches(c, acts, State([e], true, false, EEnd, Split(c, n, WExit, WDone), [e], [], []))
    decreases n
  {
    if n == 0 {
      acts := LastPush(c, e);
    } else {
      acts := AllLeave(c, e, n - 1);
      var p := State([e], true, false, EEnd, Split(c, n - 1, WExit, WDone), [e], [], []);
      assert p.wpcs[n - 1 := WExit] == Split(c, n, WExit, WDone);
      Extend(c, acts, p, Work(n - 1), p.(wpcs := Split(c, n, WExit, WDone)));
      acts := acts + [Work(n - 1)];
    }
  }

  /** In the code's order, for any number of workers, some run without abort leaves an entry behind. */
  lemma CodeOrderCanLeaveEntries(c: Config, e: nat)
    requires c.workers > 0 && c.capacity > 0 && !c.doneFirst
    ensures exists acts, s :: Reaches(c, acts, s) && Over(s) && !s.abort && s.queue == [e] && s.handled == []
  {
    var acts := AllLeave(c, e, c.workers);
    assert Over(State([e], true, false, EEnd, Split(c, c.workers, WExit, WDone), [e], [], []));
  }

  /** Every run without abort hands over everything. */
  ghost predicate AlwaysDrains(c: Config) {
    forall acts, s :: Reaches(c, acts, s) && Over(s) && !s.abort ==> s.queue == []
  }

  /** The drain is complete in every run exactly when the end flag is sampled first. */
  lemma DrainsExactlyWhen(c: Config)
    requires c.workers > 0 && c.capacity > 0
    ensures AlwaysDrains(c) <==> c.doneFirst
  {
    if c.doneFirst {
      forall acts, s | Reaches(c, acts, s) && Over(s) && !s.abort
        ensures s.queue == []
      {
        DoneFirstLeavesNothing(c, acts, s, 0);
      }
    } else {
      CodeOrderCanLeaveEntries(c, 7);
    }
  }
}
