/** Every read() on the ring returns: an explicit bound on the steps producer and reader can take between a call and
    its return, linear in the ring's capacity, whatever the interleaving. */
module RingLiveness {
  import opened Ring

  /** How much the producer can still do before it must stall or end: rounds through its loop, one per free slot. */
  function ProducerRank(c: Config, s: State): (n: nat)
    ensures n <= 31
  {
    match s.ppc
    case PWakeTest => 25
    case PWake => 24
    case PLoop => 23
    case PStopTest(_) => if Free(c, s) == 0 then 21 else 11
    case PTest(_) => if Free(c, s) == 0 then 20 else 10
    case PStall(_) => 19
    case PPre(_) => 18
    case PRecheck(_) => if s.prodQueued then 13 else 16
    case PAsleep(_) => if s.prodQueued then 12 else 15
    case PEnqueue(_) => 14
    case PFill(_) => 9
    case PFilling(_) => 8
    case PPublish(_) => 7
    case PErr(_) => 4
    case PDone => 3
    case PWakeAll => 2
    case PExit => 0
    case PNotStarted => 0
  }

  function ProducerLeft(c: Config, s: State): (n: int) {
    32 * Free(c, s) + ProducerRank(c, s)
  }

  /** There is something to return: a record, or the end. */
  predicate Ready(s: State) {
    s.tail < s.head || s.done
  }

  /** How far a reader that is looking has to go, to its copy, its return or its sleep. */
  function LookRank(s: State): (n: nat)
    requires Looking(s.rpc)
    ensures n <= 21
  {
    match s.rpc
    case RLoadAvail(_) => if Ready(s) then 6 else 20
    case RDoneFirst(_) => if Ready(s) then 6 else 20
    case RLoadDone(_, _) => if s.done then 1 else if s.tail < s.head then 8 else 19
    case RAvailSecond(_, ended) => if s.tail < s.head || ended then 1 else if s.done then 12 else 19
  }

  /** The same for one that is about to sleep, or asleep. */
  function ParkRank(s: State): (n: nat)
    requires Parking(s.rpc)
    ensures n <= 21
  {
    match s.rpc
    case RPreAvail(_) => if s.tail < s.head then 7 else if s.done then 8 else 18
    case RPreDone(_) => if s.done then 7 else if s.tail < s.head then 14 else 17
    case REnqueue(_) => if Ready(s) then 13 else 16
    case RChkAvail(_) => if s.tail < s.head then 12 else if s.done then 11 else if s.consQueued then 15 else 21
    case RChkDone(_) =>
      if s.done then 10
      else if s.consQueued then (if s.tail < s.head then 5 else 14)
      else if s.tail < s.head then 15 else 20
    case RAsleep(_) => if s.consQueued then 0 else if Ready(s) then 14 else 19
  }

  /** What is left of the copy and of the last two steps. */
  function TakeRank(s: State): (n: int)
    requires Taking(s.rpc)
  {
    match s.rpc
    case RCopy(run, out) => 1 + run - |out|
    case RStoreTail(_) => 0
    case RFreeTest(_) => 1
    case RWake(_) => 0
  }

  function ReaderRank(s: State): int {
    if Looking(s.rpc) then LookRank(s)
    else if Parking(s.rpc) then ParkRank(s)
    else if Taking(s.rpc) then TakeRank(s)
    else 0
  }

  /** Before the copy; copying; after tail has moved; back. */
  function Stage(s: State): (n: nat) {
    if Looking(s.rpc) || Parking(s.rpc) then 3
    else if s.rpc.RCopy? || s.rpc.RStoreTail? then 2
    else if s.rpc.RFreeTest? || s.rpc.RWake? then 1
    else 0
  }

  /** More than anything the two can do within one stage. */
  function StageWorth(c: Config): (n: nat) {
    1025 * c.recs + 1100
  }

  function StagesLeft(c: Config, stage: nat): (n: nat) {
    if stage == 0 then 0 else StageWorth(c) + StagesLeft(c, stage - 1)
  }

  lemma {:induction false} StagesGrow(c: Config, a: nat, b: nat)
    requires a < b
    ensures StagesLeft(c, a) + StageWorth(c) <= StagesLeft(c, b)
    decreases b
  {
    if a + 1 < b {
      StagesGrow(c, a, b - 1);
    }
  }

  function Potential(c: Config, s: State): (n: int) {
    StagesLeft(c, Stage(s)) + 32 * ProducerLeft(c, s) + ReaderRank(s)
  }

  /** The most a read can take, from its call to its return. */
  function CallBound(c: Config): nat {
    4100 * c.recs + 4400
  }

  lemma FourStages(c: Config)
    ensures StagesLeft(c, 4) == CallBound(c)
  {
    assert StagesLeft(c, 1) == StageWorth(c);
    assert StagesLeft(c, 2) == 2 * StageWorth(c);
    assert StagesLeft(c, 3) == 3 * StageWorth(c);
  }

  // ------------------------------------------------------------------
  // Every step uses some of it up

  lemma WaitUses(c: Config, s: State)
    requires Sized(c) && ControlInv(c, s) && ProducerCanMove(s) && Waiting(s.ppc) && !s.stop
    ensures ProducerLeft(c, WaitNext(c, s)) < ProducerLeft(c, s)
  {
  }

  lemma WriteUses(c: Config, s: State)
    requires Sized(c) && ControlInv(c, s) && Writing(s.ppc)
    ensures ProducerLeft(c, WriteNext(c, s)) < ProducerLeft(c, s)
  {
  }

  lemma EndUses(c: Config, s: State)
    requires Sized(c) && ControlInv(c, s) && Ending(s.ppc)
    ensures ProducerLeft(c, EndNext(s)) < ProducerLeft(c, s)
  {
  }

  /** The producer, its own steps and the objects that come its way. */
  predicate ProducerActs(a: Action) {
    a.Emit? || a.Finish? || a.ProducerStep?
  }

  lemma ProducerUses(c: Config, s: State, a: Action)
    requires Sized(c) && ControlInv(c, s) && Enabled(s, a) && CopyInBounds(c, s) && ProducerActs(a) && !s.stop
    ensures var t := Next(c, s, a);
            ProducerLeft(c, t) < ProducerLeft(c, s) && t.rpc == s.rpc && t.tail == s.tail && t.head >= s.head
  {
    if a.ProducerStep? {
      if Waiting(s.ppc) {
        WaitUses(c, s);
      } else if Writing(s.ppc) {
        WriteUses(c, s);
      } else {
        EndUses(c, s);
      }
    }
  }

  lemma ReaderRankBounds(c: Config, s: State)
    requires Sized(c) && ControlInv(c, s)
    ensures 0 <= ReaderRank(s)
    ensures !Taking(s.rpc) ==> ReaderRank(s) <= 21
    ensures Taking(s.rpc) ==> ReaderRank(s) <= c.recs + 1
  {
  }

  lemma ProducerLeftBounds(c: Config, s: State)
    requires Sized(c) && ControlInv(c, s)
    ensures 0 <= ProducerLeft(c, s) <= 32 * c.recs + 31
  {
  }

  lemma ProducerStepUses(c: Config, s: State, a: Action)
    requires Sized(c) && ControlInv(c, s) && Enabled(s, a) && CopyInBounds(c, s) && ProducerActs(a) && !s.stop
    requires ControlInv(c, Next(c, s, a))
    ensures Potential(c, Next(c, s, a)) < Potential(c, s)
  {
    var t := Next(c, s, a);
    ProducerUses(c, s, a);
    ReaderRankBounds(c, s);
    ReaderRankBounds(c, t);
  }

  lemma LookUses(c: Config, s: State)
    requires Sized(c) && ControlInv(c, s) && Looking(s.rpc)
    ensures var t := LookNext(c, s);
            t.prodQueued == s.prodQueued && t.head == s.head && t.tail == s.tail
    ensures var t := LookNext(c, s);
            t.rpc.RIdle? || t.rpc.RCopy? || (Stage(t) == 3 && ReaderRank(t) < ReaderRank(s))
  {
  }

  lemma ParkUses(c: Config, s: State)
    requires Sized(c) && ControlInv(c, s) && ReaderCanMove(s) && Parking(s.rpc)
    ensures var t := ParkNext(c, s);
            && t.prodQueued == s.prodQueued && t.head == s.head && t.tail == s.tail
            && Stage(t) == 3 && ReaderRank(t) < ReaderRank(s)
  {
  }

  lemma TakeUses(c: Config, s: State)
    requires Sized(c) && ControlInv(c, s) && Taking(s.rpc) && CopyInBounds(c, s)
    ensures var t := TakeNext(c, s);
            || t.rpc.RIdle?
            || Stage(t) < Stage(s)
            || (Stage(t) == Stage(s) && ReaderRank(t) < ReaderRank(s)
                && t.prodQueued == s.prodQueued && t.head == s.head && t.tail == s.tail)
  {
  }

  lemma StageDropUses(c: Config, s: State, t: State)
    requires Sized(c) && ControlInv(c, s) && ControlInv(c, t) && Stage(t) < Stage(s)
    ensures Potential(c, t) < Potential(c, s)
  {
    ReaderRankBounds(c, s);
    ReaderRankBounds(c, t);
    ProducerLeftBounds(c, s);
    ProducerLeftBounds(c, t);
    StagesGrow(c, Stage(t), Stage(s));
  }

  lemma SameStageUses(c: Config, s: State, t: State)
    requires Stage(t) == Stage(s) && ProducerLeft(c, t) == ProducerLeft(c, s) && ReaderRank(t) < ReaderRank(s)
    ensures Potential(c, t) < Potential(c, s)
  {
  }

  lemma FrameLeavesProducer(c: Config, s: State, t: State)
    requires t.ppc == s.ppc && t.prodQueued == s.prodQueued && t.head == s.head && t.tail == s.tail
    ensures ProducerLeft(c, t) == ProducerLeft(c, s)
  {
  }

  lemma ReaderStepUses(c: Config, s: State)
    requires Sized(c) && ControlInv(c, s) && ReaderCanMove(s) && CopyInBounds(c, s)
    requires ControlInv(c, ReaderNext(c, s)) && !ReaderNext(c, s).rpc.RIdle?
    ensures Potential(c, ReaderNext(c, s)) < Potential(c, s)
  {
    var t := ReaderNext(c, s);
    if Looking(s.rpc) {
      LookUses(c, s);
    } else if Parking(s.rpc) {
      ParkUses(c, s);
    } else {
      TakeUses(c, s);
    }
    if Stage(t) < Stage(s) {
      StageDropUses(c, s, t);
    } else {
      FrameLeavesProducer(c, s, t);
      SameStageUses(c, s, t);
    }
  }

  // ------------------------------------------------------------------
  // Runs within one call

  /** s is reached from p by performing acts, without the read() in progress returning. */
  ghost predicate During(c: Config, p: State, acts: seq<Action>, s: State)
    requires Sized(c)
    decreases |acts|
  {
    if acts == [] then s == p && !p.rpc.RIdle?
    else
      var k := |acts| - 1;
      exists q :: During(c, p, acts[..k], q) && IsStep(c, q, acts[k], s) && !s.rpc.RIdle?
  }

  lemma StepUses(c: Config, s: State, a: Action)
    requires Sized(c) && Inv(c, s) && Enabled(s, a) && CopyInBounds(c, s) && !s.rpc.RIdle?
    requires !Next(c, s, a).rpc.RIdle?
    ensures Inv(c, Next(c, s, a)) && Potential(c, Next(c, s, a)) < Potential(c, s)
  {
    StepKeepsInv(c, s, a);
    if ProducerActs(a) {
      ProducerStepUses(c, s, a);
    } else {
      ReaderStepUses(c, s);
    }
  }

  lemma DuringExtend(c: Config, p: State, acts: seq<Action>, q: State, a: Action, s: State)
    requires Sized(c) && During(c, p, acts, q) && IsStep(c, q, a, s) && !s.rpc.RIdle?
    ensures During(c, p, acts + [a], s)
  {
    assert (acts + [a])[..|acts|] == acts;
  }

  lemma {:induction false} DuringUses(c: Config, p: State, acts: seq<Action>, s: State)
    requires Sized(c) && Inv(c, p) && During(c, p, acts, s)
    ensures Inv(c, s) && !s.rpc.RIdle? && Potential(c, s) + |acts| <= Potential(c, p)
    decreases |acts|
  {
    if acts != [] {
      var k := |acts| - 1;
      var q :| During(c, p, acts[..k], q) && IsStep(c, q, acts[k], s) && !s.rpc.RIdle?;
      DuringUses(c, p, acts[..k], q);
      InvGivesInBounds(c, q);
      StepUses(c, q, acts[k]);
    }
  }

  lemma PotentialBounds(c: Config, s: State)
    requires Sized(c) && ControlInv(c, s)
    ensures 0 <= Potential(c, s) <= CallBound(c)
  {
    ReaderRankBounds(c, s);
    ProducerLeftBounds(c, s);
    StagesGrow(c, Stage(s), 4);
    FourStages(c);
  }

  /** From any reachable state with a read() in progress, producer and reader together can take no more than CallBound
      steps before it returns, whatever the interleaving.  As one of them can always move, it does return. */
  lemma EveryReadReturns(c: Config, before: seq<Action>, p: State, acts: seq<Action>, s: State)
    requires Sized(c) && Reaches(c, before, p) && During(c, p, acts, s)
    ensures |acts| <= CallBound(c)
    ensures ProducerCanMove(s) || ReaderCanMove(s)
  {
    RunsKeepInv(c, before, p);
    DuringUses(c, p, acts, s);
    PotentialBounds(c, p);
    PotentialBounds(c, s);
  }
}
