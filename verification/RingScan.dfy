/** The producer's walk over the otable iterator and the ring it feeds, as one transition system: every interleaving of
    the walk with the reader. */
module RingScan {
  import opened Records
  import opened Kernel
  import Ring
  import RingLiveness

  /** What the producer goes by. */
  datatype Scan = Scan(judge: Judge, emitUnknown: bool, it: Iterator)

  /** The ring, and the position the producer's walk has come to. */
  datatype State = State(ring: Ring.State, pos: nat)

  datatype Turn =
    | Advance                  // the producer deals with its position
    | Other(a: Ring.Action)    // anything else that happens on the ring

  /** What the producer does to the ring at a position: nothing, for an object it cannot read or that does not pass; or
      it emits, or ends the scan.  The error it ends with is load()'s, or that of an xattr the OSD cannot serve; how
      next() ended makes no difference. */
  function RingAct(sc: Scan, pos: nat): (r: Option<Ring.Action>)
    ensures r.Some? ==> r.value.Emit? || r.value.Finish?
  {
    var rc := Move(sc.it, pos);
    if rc != 0 then Some(Ring.Finish(if pos == 0 && rc < 0 then rc else 0))
    else
      match sc.it.table[pos]
      case Unreadable => None
      case At(s) =>
        if sc.judge(s).Unserved? then Some(Ring.Finish(EOPNOTSUPP))
        else
          var ws := Emits(sc.judge(s), sc.emitUnknown);
          if ws == [] then None else Some(Ring.Emit(ws[0]))
  }

  ghost predicate IsTurn(c: Ring.Config, sc: Scan, p: State, t: Turn, s: State)
    requires Ring.Sized(c)
  {
    match t
    case Other(a) => !a.Emit? && !a.Finish? && Ring.IsStep(c, p.ring, a, s.ring) && s.pos == p.pos
    case Advance =>
      && p.ring.ppc.PLoop? && !p.ring.stop
      && match RingAct(sc, p.pos)
         case None => s == p.(pos := p.pos + 1)
         case Some(a) => Ring.IsStep(c, p.ring, a, s.ring) && s.pos == p.pos + if a.Emit? then 1 else 0
  }

  /** s can be reached by taking these turns, from the freshly opened device. */
  ghost predicate Reaches(c: Ring.Config, sc: Scan, ts: seq<Turn>, s: State)
    requires Ring.Sized(c)
    decreases |ts|
  {
    if ts == [] then s == State(Ring.Init(c), 0)
    else
      var before, t := ts[..|ts| - 1], ts[|ts| - 1];
      exists p :: Reaches(c, sc, before, p) && IsTurn(c, sc, p, t, s)
  }

  // ------------------------------------------------------------------
  // What has been emitted

  lemma EmittedPush(acts: seq<Ring.Action>, a: Ring.Action)
    ensures Ring.Emitted(acts + [a]) == if a.Emit? then Ring.Emitted(acts) + [a.rec] else Ring.Emitted(acts)
  {
    assert (acts + [a])[..|acts|] == acts;
    assert Ring.Emitted(acts) + [] == Ring.Emitted(acts);
  }

  /** What the producer has let into the ring when its walk has come to a position. */
  function Upto(sc: Scan, pos: nat): (ws: seq<WireRec>)
    requires pos <= |sc.it.table|
  {
    Stream(sc.judge, sc.emitUnknown, Sources(sc.it.table[..pos]))
  }

  lemma UptoStep(sc: Scan, pos: nat)
    requires pos < |sc.it.table|
    requires sc.it.table[pos].At? ==> !sc.judge(sc.it.table[pos].s).Unserved?
    ensures var p := sc.it.table[pos];
            Upto(sc, pos + 1) ==
            if p.At? then Upto(sc, pos) + Emits(sc.judge(p.s), sc.emitUnknown) else Upto(sc, pos)
  {
    var p := sc.it.table[pos];
    assert sc.it.table[..pos] + [p] == sc.it.table[..pos + 1];
    SourcesPush(sc.it.table[..pos], p);
    if p.At? {
      StreamPush(sc.judge, sc.emitUnknown, Sources(sc.it.table[..pos]), p.s);
    }
  }

  /** Dealing with a position: the walk moves on, or the scan ends there. */
  lemma AdvanceEmits(sc: Scan, pos: nat)
    requires pos <= Reach(sc.it)
    ensures match RingAct(sc, pos)
            case None => pos < Reach(sc.it) && Upto(sc, pos + 1) == Upto(sc, pos)
            case Some(a) =>
              if a.Emit? then pos < Reach(sc.it) && Upto(sc, pos + 1) == Upto(sc, pos) + [a.rec]
              else a.rc == 0 ==> pos == Reach(sc.it)
  {
    ReachIsFirstStop(sc.it, pos);
    if pos < Reach(sc.it) {
      var p := sc.it.table[pos];
      if p.Unreadable? || !sc.judge(p.s).Unserved? {
        UptoStep(sc, pos);
        assert Upto(sc, pos) + [] == Upto(sc, pos);
      }
    }
  }

  /** Every joint run is a run of the ring in which the producer emits exactly the filtered stream of the positions it
      has passed. */
  lemma {:induction false} RunOfRing(c: Ring.Config, sc: Scan, ts: seq<Turn>, s: State) returns (acts: seq<Ring.Action>)
    requires Ring.Sized(c) && Reaches(c, sc, ts, s)
    ensures Ring.Reaches(c, acts, s.ring)
    ensures s.pos <= Reach(sc.it) && Ring.Emitted(acts) == Upto(sc, s.pos)
    decreases |ts|
  {
    if ts == [] {
      acts := [];
      assert sc.it.table[..0] == [];
    } else {
      var k := |ts| - 1;
      var p :| Reaches(c, sc, ts[..k], p) && IsTurn(c, sc, p, ts[k], s);
      acts := RunOfRing(c, sc, ts[..k], p);
      acts := ExtendRun(c, sc, acts, p, ts[k], s);
    }
  }

  lemma ExtendRun(c: Ring.Config, sc: Scan, acts: seq<Ring.Action>, p: State, t: Turn, s: State)
    returns (acts': seq<Ring.Action>)
    requires Ring.Sized(c) && Ring.Reaches(c, acts, p.ring) && IsTurn(c, sc, p, t, s)
    requires p.pos <= Reach(sc.it) && Ring.Emitted(acts) == Upto(sc, p.pos)
    ensures Ring.Reaches(c, acts', s.ring)
    ensures s.pos <= Reach(sc.it) && Ring.Emitted(acts') == Upto(sc, s.pos)
  {
    AdvanceEmits(sc, p.pos);
    var a := if t.Other? then Some(t.a) else RingAct(sc, p.pos);
    if a.None? {
      acts' := acts;
    } else {
      acts' := acts + [a.value];
      Ring.Extend(c, acts, p.ring, a.value);
      EmittedPush(acts, a.value);
    }
  }

  // ------------------------------------------------------------------
  // How the scan ended

  /** The producer has ended the scan, or is about to say so. */
  predicate Ended(r: Ring.State) {
    r.ppc.PErr? || r.ppc.PDone? || r.ppc.PWakeAll? || r.ppc.PExit?
  }

  function ErrorLeft(r: Ring.State): int {
    if r.ppc.PErr? then r.ppc.err else r.err
  }

  /** While the device is open, a scan has ended only where, and as, its walk did. */
  predicate EndInv(sc: Scan, s: State) {
    && (s.ring.stop ==> s.ring.closed)
    && (!s.ring.stop && Ended(s.ring) ==> RingAct(sc, s.pos) == Some(Ring.Finish(ErrorLeft(s.ring))))
  }

  /** r's error, stop and release flags are t's. */
  predicate SameFlags(r: Ring.State, t: Ring.State) {
    t.err == r.err && t.stop == r.stop && t.closed == r.closed
  }

  lemma WaitingEnds(c: Ring.Config, r: Ring.State)
    requires Ring.Waiting(r.ppc)
    ensures var t := Ring.WaitNext(c, r); SameFlags(r, t) && (Ended(t) ==> r.stop)
  {
  }

  lemma WritingEnds(c: Ring.Config, r: Ring.State)
    requires Ring.Sized(c) && |r.buf| == c.recs && Ring.Writing(r.ppc)
    ensures var t := Ring.WriteNext(c, r); SameFlags(r, t) && !Ended(t)
  {
  }

  lemma EndingEnds(r: Ring.State)
    requires Ring.Ending(r.ppc) && !r.ppc.PLoop?
    ensures var t := Ring.EndNext(r); t.stop == r.stop && t.closed == r.closed && ErrorLeft(t) == ErrorLeft(r)
  {
  }

  lemma ProducerKeepsEnd(c: Ring.Config, sc: Scan, p: State)
    requires Ring.Sized(c) && EndInv(sc, p) && Ring.Safe(c, p.ring) && Ring.Enabled(p.ring, Ring.ProducerStep)
    ensures EndInv(sc, p.(ring := Ring.ProducerNext(c, p.ring)))
  {
    if Ring.Waiting(p.ring.ppc) {
      WaitingEnds(c, p.ring);
    } else if Ring.Writing(p.ring.ppc) {
      WritingEnds(c, p.ring);
    } else if !p.ring.ppc.PLoop? {
      EndingEnds(p.ring);
    }
  }

  lemma LookingLeaves(c: Ring.Config, r: Ring.State)
    requires Ring.Sized(c) && r.tail <= r.head && Ring.Looking(r.rpc)
    ensures SameFlags(r, Ring.LookNext(c, r))
  {
  }

  lemma ParkingLeaves(c: Ring.Config, r: Ring.State)
    requires Ring.Parking(r.rpc)
    ensures SameFlags(r, Ring.ParkNext(c, r))
  {
  }

  lemma TakingLeaves(c: Ring.Config, r: Ring.State)
    requires Ring.Sized(c) && Ring.CopyInBounds(c, r) && Ring.Taking(r.rpc)
    ensures SameFlags(r, Ring.TakeNext(c, r))
  {
  }

  lemma ReaderLeavesProducer(c: Ring.Config, r: Ring.State)
    requires Ring.Sized(c) && Ring.Safe(c, r) && Ring.Enabled(r, Ring.ReaderStep)
    ensures SameFlags(r, Ring.ReaderNext(c, r)) && Ring.ReaderNext(c, r).ppc == r.ppc
  {
    if Ring.Looking(r.rpc) {
      LookingLeaves(c, r);
    } else if Ring.Parking(r.rpc) {
      ParkingLeaves(c, r);
    } else {
      TakingLeaves(c, r);
    }
  }

  lemma OtherKeepsEnd(c: Ring.Config, sc: Scan, p: State, a: Ring.Action)
    requires Ring.Sized(c) && EndInv(sc, p) && Ring.Safe(c, p.ring) && Ring.Enabled(p.ring, a)
    requires !a.Emit? && !a.Finish?
    ensures EndInv(sc, p.(ring := Ring.Next(c, p.ring, a)))
  {
    match a {
      case ProducerStep => ProducerKeepsEnd(c, sc, p);
      case ReaderStep => ReaderLeavesProducer(c, p.ring);
      case _ =>
    }
  }

  lemma TurnKeepsEnd(c: Ring.Config, sc: Scan, p: State, t: Turn, s: State)
    requires Ring.Sized(c) && EndInv(sc, p) && Ring.Safe(c, p.ring) && IsTurn(c, sc, p, t, s)
    ensures EndInv(sc, s)
  {
    if t.Other? {
      OtherKeepsEnd(c, sc, p, t.a);
    }
  }

  lemma {:induction false} RunsKeepEnd(c: Ring.Config, sc: Scan, ts: seq<Turn>, s: State)
    requires Ring.Sized(c) && Reaches(c, sc, ts, s)
    ensures EndInv(sc, s)
    decreases |ts|
  {
    if ts != [] {
      var k := |ts| - 1;
      var p :| Reaches(c, sc, ts[..k], p) && IsTurn(c, sc, p, ts[k], s);
      RunsKeepEnd(c, sc, ts[..k], p);
      var acts := RunOfRing(c, sc, ts[..k], p);
      Ring.RunsKeepInv(c, acts, p.ring);
      TurnKeepsEnd(c, sc, p, ts[k], s);
    }
  }

  /** At any moment what was handed to the reader is the front part of what passed the filter so far. */
  lemma DeliveredIsFront(c: Ring.Config, sc: Scan, ts: seq<Turn>, s: State)
    requires Ring.Sized(c) && Reaches(c, sc, ts, s) && !s.ring.closed
    ensures s.pos <= Reach(sc.it) && s.ring.delivered <= Upto(sc, s.pos)
  {
    var acts := RunOfRing(c, sc, ts, s);
    Ring.RunsKeepInv(c, acts, s.ring);
    Ring.NothingDropped(c, acts, s.ring);
  }

  /** An end of file that is complete, the first one with `done` sampled first or the second in either order. */
  predicate TrueEof(c: Ring.Config, r: Ring.State) {
    r.ret.Eof? && (c.doneFirst || r.eofs >= 2)
  }

  /** Such an end of file without an error means that the walk went as far as it could, and that everything that passed
      on the way was delivered. */
  lemma CleanEofDelivers(c: Ring.Config, sc: Scan, ts: seq<Turn>, s: State)
    requires Ring.Sized(c) && Reaches(c, sc, ts, s) && !s.ring.closed
    requires TrueEof(c, s.ring) && s.ring.ret == Ring.Eof(0)
    ensures s.ring.delivered == Upto(sc, Reach(sc.it)) && sc.it.fault != Some(0)
  {
    var acts := RunOfRing(c, sc, ts, s);
    RunsKeepEnd(c, sc, ts, s);
    Ring.RunsKeepInv(c, acts, s.ring);
    if c.doneFirst {
      Ring.DoneFirstEofComplete(c, acts, s.ring);
    } else {
      Ring.SecondEofComplete(c, acts, s.ring);
    }
    assert RingAct(sc, s.pos) == Some(Ring.Finish(0));
    AdvanceEmits(sc, s.pos);
  }

  /** And one with an error says which: load() failed, or the object the walk had come to could not be served. */
  lemma EofErrorExactlyWhen(c: Ring.Config, sc: Scan, ts: seq<Turn>, s: State)
    requires Ring.Sized(c) && Reaches(c, sc, ts, s) && !s.ring.closed && s.ring.ret.Eof?
    ensures RingAct(sc, s.pos) == Some(Ring.Finish(s.ring.ret.err))
    ensures s.ring.ret.err != 0 <==> sc.it.fault == Some(0) || s.pos < Reach(sc.it)
  {
    var acts := RunOfRing(c, sc, ts, s);
    RunsKeepEnd(c, sc, ts, s);
    Ring.RunsKeepInv(c, acts, s.ring);
    ReachIsFirstStop(sc.it, s.pos);
  }

  // ------------------------------------------------------------------
  // Reads return, the objects that do not pass counted too

  /** From p, with a read() in progress, these turns lead to s without it having returned. */
  ghost predicate During(c: Ring.Config, sc: Scan, p: State, ts: seq<Turn>, s: State)
    requires Ring.Sized(c)
    decreases |ts|
  {
    if ts == [] then s == p && !p.ring.rpc.RIdle?
    else
      var before, t := ts[..|ts| - 1], ts[|ts| - 1];
      exists q :: During(c, sc, p, before, q) && IsTurn(c, sc, q, t, s) && !s.ring.rpc.RIdle?
  }

  /** A joint run during a read is one of the ring, plus one turn for each position that does not concern the ring. */
  lemma {:induction false} DuringOnRing(c: Ring.Config, sc: Scan, p: State, ts: seq<Turn>, s: State)
    returns (acts: seq<Ring.Action>)
    requires Ring.Sized(c) && During(c, sc, p, ts, s) && p.pos <= Reach(sc.it)
    ensures RingLiveness.During(c, p.ring, acts, s.ring)
    ensures p.pos <= s.pos <= Reach(sc.it) && |ts| <= |acts| + (s.pos - p.pos)
    decreases |ts|
  {
    if ts == [] {
      acts := [];
    } else {
      var k := |ts| - 1;
      var q :| During(c, sc, p, ts[..k], q) && IsTurn(c, sc, q, ts[k], s) && !s.ring.rpc.RIdle?;
      acts := DuringOnRing(c, sc, p, ts[..k], q);
      AdvanceEmits(sc, q.pos);
      var a := if ts[k].Other? then Some(ts[k].a) else RingAct(sc, q.pos);
      if a.Some? {
        RingLiveness.DuringExtend(c, p.ring, acts, q.ring, a.value, s.ring);
        acts := acts + [a.value];
      }
    }
  }

  /** From any reachable state with a read() in progress, producer and reader together take a bounded number of turns
      before it returns, whatever the interleaving and however many objects do not pass; and one of them can always
      move. */
  lemma EveryReadReturns(c: Ring.Config, sc: Scan, before: seq<Turn>, p: State, ts: seq<Turn>, s: State)
    requires Ring.Sized(c) && Reaches(c, sc, before, p) && During(c, sc, p, ts, s)
    ensures |ts| <= RingLiveness.CallBound(c) + |sc.it.table|
    ensures Ring.ProducerCanMove(s.ring) || Ring.ReaderCanMove(s.ring)
  {
    var acts := RunOfRing(c, sc, before, p);
    var more := DuringOnRing(c, sc, p, ts, s);
    RingLiveness.EveryReadReturns(c, acts, p.ring, more, s.ring);
  }
}
