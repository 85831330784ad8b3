/** The stall-never-drop ring of src/kernel/lfu_ring.c as a transition system.

    One producer thread and one reader share head, tail, done, err and the slots.  Every step performs
    at most one access to a shared variable, the two threads interleave freely, and memory is
    sequentially consistent.  Sleeping is the kernel's wait_event: test, enqueue, test again, sleep;
    a wake_up takes the sleeper off its queue.  Writing a slot is not atomic: while the producer fills
    one it holds no record (Torn). */
module Ring {
  import opened Bits
  import opened Records

  type pos = x: int | x >= 1 witness 1

  datatype Slot = Torn | Full(rec: WireRec)

  /** Module parameters.  `doneFirst` selects the order of the reader's two loads: false is the order
      in lfu_ring_read, true the order the project later prescribes for it. */
  datatype Config = Config(recs: nat, batch: nat, doneFirst: bool)

  /** What lfu_ring_init accepts. */
  ghost predicate ValidConfig(c: Config) {
    IsPow2(c.recs) && c.recs < TWO32 && 0 < c.batch <= c.recs / 2
  }

  /** The part of it the protocol itself rests on. */
  predicate Sized(c: Config) {
    0 < c.batch <= c.recs / 2
  }

  datatype ProducerPc =
    | PNotStarted
    | PLoop                      // between two objects
    | PTest(rec: WireRec)        // while (lfu_ring_free(r) == 0)
    | PStall(rec: WireRec)       // wake_up(&r->wq_cons)
    | PPre(rec: WireRec)         // wait_event: first test of the condition
    | PEnqueue(rec: WireRec)
    | PRecheck(rec: WireRec)
    | PAsleep(rec: WireRec)
    | PStopTest(rec: WireRec)    // if (kthread_should_stop()) goto drained
    | PFill(rec: WireRec)        // lfu_fill_rec: start writing the slot at head
    | PFilling(rec: WireRec)     // the slot is half written
    | PPublish(rec: WireRec)     // smp_store_release(&r->head, r->head + 1)
    | PWakeTest                  // if (r->head - r->last_wake >= batch)
    | PWake
    | PErr(err: int)             // r->err = rc
    | PDone                      // WRITE_ONCE(r->done, 1)
    | PWakeAll
    | PExit

  datatype ReaderPc =
    | RIdle
    | RLoadAvail(want: pos)
    | RLoadDone(want: pos, seen: nat)        // seen: the head value the previous load returned
    | RDoneFirst(want: pos)
    | RAvailSecond(want: pos, ended: bool)
    | RPreAvail(want: pos)                   // wait_event_interruptible: first test, two loads
    | RPreDone(want: pos)
    | REnqueue(want: pos)
    | RChkAvail(want: pos)                   // second test, on the queue
    | RChkDone(want: pos)
    | RAsleep(want: pos)
    | RCopy(run: nat, out: seq<WireRec>)
    | RStoreTail(out: seq<WireRec>)
    | RFreeTest(out: seq<WireRec>)           // if (lfu_ring_free(r) >= batch)
    | RWake(out: seq<WireRec>)

  /** What the last read() call returned. */
  datatype Return = NoReturn | Records(count: nat) | Eof(err: int) | Interrupted | Fault

  datatype State = State(
    // shared memory
    buf: seq<Slot>, head: nat, tail: nat, done: bool, err: int, stop: bool,
    prodQueued: bool, consQueued: bool,
    // producer
    ppc: ProducerPc, lastWake: nat,
    // reader
    rpc: ReaderPc, ret: Return, closed: bool,
    // history: records published, records handed to the caller, reads that returned end of file
    produced: seq<WireRec>, delivered: seq<WireRec>, eofs: nat)

  datatype Action =
    | Emit(rec: WireRec)     // the next object passed the filter
    | Finish(rc: int)        // iops->next() ended the scan, or the scan failed
    | ProducerStep
    | Call(want: pos)        // read() with room for want records
    | ReaderStep
    | Signal                 // wait_event_interruptible returns early
    | CopyFault              // copy_to_user fails
    | Close                  // release(): kthread_stop()

  function Init(c: Config): State {
    State(seq(c.recs, i => Torn), 0, 0, false, 0, false, false, false,
          PNotStarted, 0, RIdle, NoReturn, false, [], [], 0)
  }

  /** The slot of r->buf a free-running counter points at; WrapHarmless ties it to the code's mask. */
  function SlotIndex(c: Config, x: nat): nat
    requires c.recs > 0
  {
    x % c.recs
  }

  /** Free-running 64-bit counters may wrap: as long as the true distance fits the ring, the masked
      index and the difference computed modulo 2^64 are the ones of the unbounded counters. */
  lemma WrapHarmless(c: Config, tail: nat, head: nat)
    requires ValidConfig(c)
    requires tail <= head <= tail + c.recs
    ensures And(head % TWO64, c.recs - 1) == SlotIndex(c, head)
    ensures (head % TWO64 - tail % TWO64) % TWO64 == head - tail
  {
    MaskedCounter(head, c.recs);
    WrapDistance(tail, head);
  }

  lemma WrapDistance(tail: nat, head: nat)
    requires tail <= head < tail + TWO64
    ensures (head % TWO64 - tail % TWO64) % TWO64 == head - tail
  {
  }

  function Free(c: Config, s: State): int {
    c.recs - (s.head - s.tail)
  }

  predicate ProducerCanMove(s: State) {
    match s.ppc
    case PNotStarted | PExit => false
    case PAsleep(_) => !s.prodQueued
    case _ => true
  }

  predicate ReaderCanMove(s: State) {
    !s.rpc.RIdle? && (s.rpc.RAsleep? ==> !s.consQueued)
  }

  predicate Enabled(s: State, a: Action) {
    match a
    case Emit(_) | Finish(_) => s.ppc.PLoop? && !s.stop
    case ProducerStep => ProducerCanMove(s) && (s.ppc.PLoop? ==> s.stop)
    case Call(_) => s.rpc.RIdle? && !s.closed
    case ReaderStep => ReaderCanMove(s)
    case Signal => s.rpc.RAsleep?
    case CopyFault => s.rpc.RCopy?
    case Close => s.rpc.RIdle? && !s.closed
  }

  predicate Waiting(pc: ProducerPc) {
    pc.PTest? || pc.PStall? || pc.PPre? || pc.PEnqueue? || pc.PRecheck? || pc.PAsleep? || pc.PStopTest?
  }

  predicate Writing(pc: ProducerPc) {
    pc.PFill? || pc.PFilling? || pc.PPublish? || pc.PWakeTest? || pc.PWake?
  }

  predicate Ending(pc: ProducerPc) {
    pc.PLoop? || pc.PErr? || pc.PDone? || pc.PWakeAll?
  }

  /** while (lfu_ring_free(r) == 0) { wake the reader; wait for room }. */
  function WaitNext(c: Config, s: State): (t: State)
    requires Waiting(s.ppc)
  {
    match s.ppc
    case PTest(r) => s.(ppc := if Free(c, s) == 0 then PStall(r) else PFill(r))
    case PStall(r) => s.(ppc := PPre(r), consQueued := false)
    case PPre(r) => s.(ppc := if Free(c, s) >= c.batch || s.stop then PStopTest(r) else PEnqueue(r))
    case PEnqueue(r) => s.(ppc := PRecheck(r), prodQueued := true)
    case PRecheck(r) =>
      if Free(c, s) >= c.batch || s.stop then s.(ppc := PStopTest(r), prodQueued := false) else s.(ppc := PAsleep(r))
    case PAsleep(r) => s.(ppc := PEnqueue(r))
    case PStopTest(r) => s.(ppc := if s.stop then PErr(0) else PTest(r))
  }

  /** Fill the slot at head, publish it, and wake the reader once per batch. */
  function WriteNext(c: Config, s: State): (t: State)
    requires Sized(c) && |s.buf| == c.recs && Writing(s.ppc)
  {
    match s.ppc
    case PFill(r) => s.(ppc := PFilling(r), buf := s.buf[SlotIndex(c, s.head) := Torn])
    case PFilling(r) => s.(ppc := PPublish(r), buf := s.buf[SlotIndex(c, s.head) := Full(r)])
    case PPublish(r) => s.(ppc := PWakeTest, head := s.head + 1, produced := s.produced + [r])
    case PWakeTest =>
      if s.head - s.lastWake >= c.batch then s.(ppc := PWake, lastWake := s.head) else s.(ppc := PLoop)
    case PWake => s.(ppc := PLoop, consQueued := false)
  }

  function EndNext(s: State): (t: State)
    requires Ending(s.ppc)
  {
    match s.ppc
    case PLoop => s.(ppc := PErr(0))   // asked to stop: rc still holds load()'s 0
    case PErr(e) => s.(ppc := PDone, err := e)
    case PDone => s.(ppc := PWakeAll, done := true)
    case PWakeAll => s.(ppc := PExit, consQueued := false)
  }

  function ProducerNext(c: Config, s: State): (t: State)
    requires Sized(c) && |s.buf| == c.recs
    requires ProducerCanMove(s)
  {
    if Waiting(s.ppc) then WaitNext(c, s)
    else if Writing(s.ppc) then WriteNext(c, s)
    else EndNext(s)
  }

  function LoopTop(c: Config, want: pos): ReaderPc {
    if c.doneFirst then RDoneFirst(want) else RLoadAvail(want)
  }

  /** avail > 0: min(avail, want), capped at the wrap point. */
  function StartCopy(c: Config, s: State, want: pos): (t: State)
    requires Sized(c) && s.tail < s.head
  {
    s.(rpc := RCopy(Min(Min(s.head - s.tail, want), c.recs - SlotIndex(c, s.tail)), []))
  }

  function AtEof(s: State): State {
    s.(rpc := RIdle, ret := Eof(s.err), eofs := s.eofs + 1)
  }

  predicate CopyInBounds(c: Config, s: State)
    requires Sized(c)
  {
    s.rpc.RCopy? ==> |s.rpc.out| < s.rpc.run && SlotIndex(c, s.tail) + s.rpc.run <= |s.buf| &&
                     s.buf[SlotIndex(c, s.tail) + |s.rpc.out|].Full?
  }

  predicate Looking(pc: ReaderPc) {
    pc.RLoadAvail? || pc.RLoadDone? || pc.RDoneFirst? || pc.RAvailSecond?
  }

  predicate Parking(pc: ReaderPc) {
    pc.RPreAvail? || pc.RPreDone? || pc.REnqueue? || pc.RChkAvail? || pc.RChkDone? || pc.RAsleep?
  }

  predicate Taking(pc: ReaderPc) {
    pc.RCopy? || pc.RStoreTail? || pc.RFreeTest? || pc.RWake?
  }

  /** The top of lfu_ring_read's loop: records, end of file, or wait. */
  function LookNext(c: Config, s: State): (t: State)
    requires Sized(c) && s.tail <= s.head && Looking(s.rpc)
    ensures t.ppc == s.ppc && t.produced == s.produced
  {
    match s.rpc
    case RLoadAvail(w) => if s.tail < s.head then StartCopy(c, s, w) else s.(rpc := RLoadDone(w, s.head))
    case RLoadDone(w, _) => if s.done then AtEof(s) else s.(rpc := RPreAvail(w))
    case RDoneFirst(w) => s.(rpc := RAvailSecond(w, s.done))
    case RAvailSecond(w, ended) =>
      if s.tail < s.head then StartCopy(c, s, w)
      else if ended then AtEof(s)
      else s.(rpc := RPreAvail(w))
  }

  /** wait_event_interruptible(r->wq_cons, avail > 0 || done). */
  function ParkNext(c: Config, s: State): (t: State)
    requires Parking(s.rpc)
    ensures t.ppc == s.ppc && t.produced == s.produced
  {
    match s.rpc
    case RPreAvail(w) => s.(rpc := if s.tail < s.head then LoopTop(c, w) else RPreDone(w))
    case RPreDone(w) => s.(rpc := if s.done then LoopTop(c, w) else REnqueue(w))
    case REnqueue(w) => s.(rpc := RChkAvail(w), consQueued := true)
    case RChkAvail(w) =>
      if s.tail < s.head then s.(rpc := LoopTop(c, w), consQueued := false) else s.(rpc := RChkDone(w))
    case RChkDone(w) =>
      if s.done then s.(rpc := LoopTop(c, w), consQueued := false) else s.(rpc := RAsleep(w))
    case RAsleep(w) => s.(rpc := REnqueue(w))
  }

  /** copy_to_user, record by record; then advance tail and wake a producer that has room again. */
  function TakeNext(c: Config, s: State): (t: State)
    requires Sized(c) && CopyInBounds(c, s) && Taking(s.rpc)
    ensures t.ppc == s.ppc && t.produced == s.produced
  {
    match s.rpc
    case RCopy(run, out) =>
      var next := out + [s.buf[SlotIndex(c, s.tail) + |out|].rec];
      s.(rpc := if |next| == run then RStoreTail(next) else RCopy(run, next))
    case RStoreTail(out) => s.(rpc := RFreeTest(out), tail := s.tail + |out|, delivered := s.delivered + out)
    case RFreeTest(out) =>
      if Free(c, s) >= c.batch then s.(rpc := RWake(out)) else s.(rpc := RIdle, ret := Records(|out|))
    case RWake(out) => s.(rpc := RIdle, ret := Records(|out|), prodQueued := false)
  }

  function ReaderNext(c: Config, s: State): (t: State)
    requires Sized(c) && s.tail <= s.head
    requires ReaderCanMove(s) && CopyInBounds(c, s)
  {
    if Looking(s.rpc) then LookNext(c, s)
    else if Parking(s.rpc) then ParkNext(c, s)
    else TakeNext(c, s)
  }

  function Next(c: Config, s: State, a: Action): (t: State)
    requires Sized(c) && |s.buf| == c.recs && s.tail <= s.head
    requires Enabled(s, a) && CopyInBounds(c, s)
  {
    match a
    case Emit(r) => s.(ppc := PTest(r))
    case Finish(rc) => s.(ppc := PErr(rc))
    case ProducerStep => ProducerNext(c, s)
    case Call(want) =>
      s.(rpc := LoopTop(c, want), ppc := if s.ppc.PNotStarted? then PLoop else s.ppc)
    case ReaderStep => ReaderNext(c, s)
    case Signal => s.(rpc := RIdle, ret := Interrupted, consQueued := false)
    case CopyFault => s.(rpc := RIdle, ret := Fault)
    case Close => s.(closed := true, stop := true, prodQueued := false)
  }

  // ------------------------------------------------------------------
  // Invariant, control half: counters and program counters only

  predicate ProducerInv(c: Config, s: State) {
    && s.tail <= s.head <= s.tail + c.recs
    && (s.ppc.PFill? || s.ppc.PFilling? || s.ppc.PPublish? ==> s.head < s.tail + c.recs)
    && s.lastWake <= s.head
    && s.head - s.lastWake <= c.batch
    && (!s.ppc.PWakeTest? ==> s.head - s.lastWake < c.batch)
    && (s.done <==> s.ppc.PWakeAll? || s.ppc.PExit?)
  }

  predicate ReaderInv(c: Config, s: State) {
    && (!s.rpc.RIdle? ==> !s.ppc.PNotStarted?)
    && (s.rpc.RCopy? ==> |s.rpc.out| < s.rpc.run <= s.head - s.tail)
    && (s.rpc.RStoreTail? ==> |s.rpc.out| <= s.head - s.tail)
    && (s.rpc.RLoadDone? ==> s.rpc.seen == s.tail)
    && (s.rpc.RDoneFirst? || s.rpc.RAvailSecond? ==> c.doneFirst)
    && (s.rpc.RLoadAvail? || s.rpc.RLoadDone? ==> !c.doneFirst)
  }

  /** Nobody sleeps through a wakeup. */
  predicate WakeInv(c: Config, s: State) {
    && (s.prodQueued ==> s.ppc.PRecheck? || s.ppc.PAsleep?)
    && (s.consQueued ==> s.rpc.RChkAvail? || s.rpc.RChkDone? || s.rpc.RAsleep?)
    && (s.ppc.PAsleep? && s.prodQueued ==>
          !s.stop && (Free(c, s) < c.batch || s.rpc.RFreeTest? || s.rpc.RWake?))
    && (s.consQueued && (s.rpc.RChkDone? || s.rpc.RAsleep?) ==> s.lastWake <= s.tail || s.ppc.PWake?)
    && (s.consQueued && s.rpc.RAsleep? ==> !s.done || s.ppc.PWakeAll?)
    && (s.stop <==> s.closed)
    && (s.closed ==> s.rpc.RIdle?)
  }

  /** What an end-of-file return tells the caller. */
  predicate EofInv(c: Config, s: State) {
    && (s.ret.Eof? ==> s.eofs > 0 && s.ret.err == s.err)
    && (s.eofs > 0 ==> s.done)
    && (s.rpc.RAvailSecond? && s.rpc.ended ==> s.done)
    && (c.doneFirst && s.eofs > 0 ==> s.tail == s.head)
    && (s.eofs > 0 && s.rpc.RLoadDone? ==> s.tail == s.head)
    && (s.eofs > 1 ==> s.tail == s.head)
  }

  predicate ControlInv(c: Config, s: State) {
    |s.buf| == c.recs && ProducerInv(c, s) && ReaderInv(c, s) && WakeInv(c, s) && EofInv(c, s)
  }

  lemma WaitKeepsControl(c: Config, s: State)
    requires Sized(c) && ControlInv(c, s) && ProducerCanMove(s) && Waiting(s.ppc)
    ensures ControlInv(c, WaitNext(c, s))
  {
  }

  lemma WriteKeepsControl(c: Config, s: State)
    requires Sized(c) && ControlInv(c, s) && Writing(s.ppc)
    ensures ControlInv(c, WriteNext(c, s))
  {
  }

  lemma EndKeepsControl(c: Config, s: State)
    requires Sized(c) && ControlInv(c, s) && Ending(s.ppc)
    ensures ControlInv(c, EndNext(s))
  {
  }

  lemma LookKeepsControl(c: Config, s: State)
    requires Sized(c) && ControlInv(c, s) && Looking(s.rpc)
    ensures ControlInv(c, LookNext(c, s))
  {
  }

  lemma ParkKeepsControl(c: Config, s: State)
    requires Sized(c) && ControlInv(c, s) && ReaderCanMove(s) && Parking(s.rpc)
    ensures ControlInv(c, ParkNext(c, s))
  {
  }

  lemma TakeKeepsControl(c: Config, s: State)
    requires Sized(c) && ControlInv(c, s) && Taking(s.rpc) && CopyInBounds(c, s)
    ensures ControlInv(c, TakeNext(c, s))
  {
  }

  lemma OthersKeepControl(c: Config, s: State, a: Action)
    requires Sized(c) && ControlInv(c, s) && Enabled(s, a) && CopyInBounds(c, s)
    requires !a.ProducerStep? && !a.ReaderStep?
    ensures ControlInv(c, Next(c, s, a))
  {
  }

  // ------------------------------------------------------------------
  // Invariant, data half: what the slots, the caller and the reader's copy hold

  ghost predicate DataInv(c: Config, s: State)
    requires Sized(c) && ControlInv(c, s)
  {
    && |s.produced| == s.head
    && s.delivered == s.produced[..s.tail]
    && (forall i {:trigger s.produced[i]} :: s.tail <= i < s.head ==> s.buf[i % c.recs] == Full(s.produced[i]))
    && (s.ppc.PPublish? ==> s.buf[s.head % c.recs] == Full(s.ppc.rec))
    && (s.rpc.RCopy? ==> s.tail % c.recs + s.rpc.run <= c.recs)
    && (s.rpc.RCopy? || s.rpc.RStoreTail? ==> s.rpc.out == s.produced[s.tail..s.tail + |s.rpc.out|])
  }

  ghost predicate Inv(c: Config, s: State)
    requires Sized(c)
  {
    ControlInv(c, s) && DataInv(c, s)
  }

  lemma InitInv(c: Config)
    requires Sized(c)
    ensures Inv(c, Init(c))
  {
  }

  lemma ModStep(t: nat, k: nat, n: nat)
    requires n >= 1 && t % n + k < n
    ensures (t + k) % n == t % n + k
  {
    assert t + k == (t / n) * n + (t % n + k);
    DivModUnique(t + k, n, t / n, t % n + k);
  }

  /** The slot the reader copies next holds the next undelivered record, never a half-written one. */
  lemma CopyReadsNext(c: Config, s: State)
    requires Sized(c) && Inv(c, s) && s.rpc.RCopy?
    ensures CopyInBounds(c, s)
    ensures s.buf[SlotIndex(c, s.tail) + |s.rpc.out|] == Full(s.produced[s.tail + |s.rpc.out|])
  {
    var i := s.tail + |s.rpc.out|;
    ModStep(s.tail, |s.rpc.out|, c.recs);
    assert s.buf[i % c.recs] == Full(s.produced[i]);
  }

  lemma InvGivesInBounds(c: Config, s: State)
    requires Sized(c) && Inv(c, s)
    ensures CopyInBounds(c, s)
  {
    if s.rpc.RCopy? {
      CopyReadsNext(c, s);
    }
  }

  /** A step that leaves the ring and the copy alone leaves the data half alone. */
  lemma FrameKeepsData(c: Config, s: State, t: State)
    requires Sized(c) && Inv(c, s) && ControlInv(c, t)
    requires s.buf == t.buf && s.head == t.head && s.tail == t.tail
    requires s.produced == t.produced && s.delivered == t.delivered
    requires t.ppc.PPublish? ==> s.ppc == t.ppc
    requires t.rpc.RCopy? ==> s.rpc == t.rpc || (t.rpc.out == [] && s.tail % c.recs + t.rpc.run <= c.recs)
    requires t.rpc.RStoreTail? ==> s.rpc == t.rpc
    ensures DataInv(c, t)
  {
  }

  /** Writing the slot at head touches no live slot. */
  lemma FillKeepsData(c: Config, s: State)
    requires Sized(c) && Inv(c, s) && (s.ppc.PFill? || s.ppc.PFilling?)
    requires ControlInv(c, WriteNext(c, s))
    ensures DataInv(c, WriteNext(c, s))
  {
    forall i | s.tail <= i < s.head
      ensures i % c.recs != s.head % c.recs
    {
      ModDistinct(i, s.head, c.recs);
    }
  }

  lemma PublishKeepsData(c: Config, s: State)
    requires Sized(c) && Inv(c, s) && s.ppc.PPublish?
    requires ControlInv(c, WriteNext(c, s))
    ensures DataInv(c, WriteNext(c, s))
  {
    var t := WriteNext(c, s);
    forall i | s.tail <= i < t.head
      ensures t.buf[i % c.recs] == Full(t.produced[i])
    {
      if i < s.head {
        assert t.produced[i] == s.produced[i];
      }
    }
  }

  lemma CopyKeepsData(c: Config, s: State)
    requires Sized(c) && Inv(c, s) && s.rpc.RCopy? && CopyInBounds(c, s)
    requires ControlInv(c, TakeNext(c, s))
    ensures DataInv(c, TakeNext(c, s))
  {
    CopyReadsNext(c, s);
    var i := s.tail + |s.rpc.out|;
    assert s.produced[s.tail..i] + [s.produced[i]] == s.produced[s.tail..i + 1];
  }

  lemma StoreTailKeepsData(c: Config, s: State)
    requires Sized(c) && Inv(c, s) && s.rpc.RStoreTail?
    requires ControlInv(c, TakeNext(c, s))
    ensures DataInv(c, TakeNext(c, s))
  {
    var k := s.tail + |s.rpc.out|;
    assert s.produced[..s.tail] + s.produced[s.tail..k] == s.produced[..k];
  }

  lemma WaitKeepsInv(c: Config, s: State)
    requires Sized(c) && Inv(c, s) && ProducerCanMove(s) && Waiting(s.ppc)
    ensures Inv(c, WaitNext(c, s))
  {
    WaitKeepsControl(c, s);
    FrameKeepsData(c, s, WaitNext(c, s));
  }

  lemma WriteKeepsInv(c: Config, s: State)
    requires Sized(c) && Inv(c, s) && Writing(s.ppc)
    ensures Inv(c, WriteNext(c, s))
  {
    WriteKeepsControl(c, s);
    if s.ppc.PFill? || s.ppc.PFilling? {
      FillKeepsData(c, s);
    } else if s.ppc.PPublish? {
      PublishKeepsData(c, s);
    } else {
      FrameKeepsData(c, s, WriteNext(c, s));
    }
  }

  lemma EndKeepsInv(c: Config, s: State)
    requires Sized(c) && Inv(c, s) && Ending(s.ppc)
    ensures Inv(c, EndNext(s))
  {
    EndKeepsControl(c, s);
    FrameKeepsData(c, s, EndNext(s));
  }

  lemma LookKeepsInv(c: Config, s: State)
    requires Sized(c) && Inv(c, s) && Looking(s.rpc)
    ensures Inv(c, LookNext(c, s))
  {
    LookKeepsControl(c, s);
    FrameKeepsData(c, s, LookNext(c, s));
  }

  lemma ParkKeepsInv(c: Config, s: State)
    requires Sized(c) && Inv(c, s) && ReaderCanMove(s) && Parking(s.rpc)
    ensures Inv(c, ParkNext(c, s))
  {
    ParkKeepsControl(c, s);
    FrameKeepsData(c, s, ParkNext(c, s));
  }

  lemma TakeKeepsInv(c: Config, s: State)
    requires Sized(c) && Inv(c, s) && Taking(s.rpc) && CopyInBounds(c, s)
    ensures Inv(c, TakeNext(c, s))
  {
    TakeKeepsControl(c, s);
    if s.rpc.RCopy? {
      CopyKeepsData(c, s);
    } else if s.rpc.RStoreTail? {
      StoreTailKeepsData(c, s);
    } else {
      FrameKeepsData(c, s, TakeNext(c, s));
    }
  }

  /** Every step of either thread keeps the invariant, and every slot access is in bounds. */
  lemma StepKeepsInv(c: Config, s: State, a: Action)
    requires Sized(c) && Inv(c, s) && Enabled(s, a)
    ensures CopyInBounds(c, s)
    ensures Inv(c, Next(c, s, a))
  {
    InvGivesInBounds(c, s);
    match a {
      case ProducerStep =>
        if Waiting(s.ppc) {
          WaitKeepsInv(c, s);
        } else if Writing(s.ppc) {
          WriteKeepsInv(c, s);
        } else {
          EndKeepsInv(c, s);
        }
      case ReaderStep =>
        if Looking(s.rpc) {
          LookKeepsInv(c, s);
        } else if Parking(s.rpc) {
          ParkKeepsInv(c, s);
        } else {
          TakeKeepsInv(c, s);
        }
      case _ =>
        OthersKeepControl(c, s, a);
        FrameKeepsData(c, s, Next(c, s, a));
    }
  }

  // ------------------------------------------------------------------
  // Runs

  /** No access outside the ring, no half-written record read, no counter underflow. */
  predicate Safe(c: Config, s: State)
    requires Sized(c)
  {
    |s.buf| == c.recs && s.tail <= s.head && CopyInBounds(c, s)
  }

  /** One step of the system.  From an unsafe state anything may follow. */
  ghost predicate IsStep(c: Config, s: State, a: Action, t: State)
    requires Sized(c)
  {
    Enabled(s, a) && (Safe(c, s) ==> t == Next(c, s, a))
  }

  /** s can be reached by performing acts, in that order, from the freshly opened device. */
  ghost predicate Reaches(c: Config, acts: seq<Action>, s: State)
    requires Sized(c)
    decreases |acts|
  {
    if acts == [] then s == Init(c)
    else
      var before, a := acts[..|acts| - 1], acts[|acts| - 1];
      exists p :: Reaches(c, before, p) && IsStep(c, p, a, s)
  }

  lemma {:induction false} RunsKeepInv(c: Config, acts: seq<Action>, s: State)
    requires Sized(c) && Reaches(c, acts, s)
    ensures Inv(c, s) && Safe(c, s)
    decreases |acts|
  {
    if acts == [] {
      InitInv(c);
    } else {
      var k := |acts| - 1;
      var p :| Reaches(c, acts[..k], p) && IsStep(c, p, acts[k], s);
      RunsKeepInv(c, acts[..k], p);
      StepKeepsInv(c, p, acts[k]);
    }
    InvGivesInBounds(c, s);
  }

  /** The live part of the ring, read slot by slot through the masked index. */
  function LiveSlots(c: Config, buf: seq<Slot>, tail: nat, head: nat): (r: seq<Slot>)
    requires |buf| == c.recs > 0 && tail <= head
    ensures |r| == head - tail
  {
    seq(head - tail, i requires 0 <= i < head - tail => buf[SlotIndex(c, tail + i)])
  }

  function AsSlots(rs: seq<WireRec>): (r: seq<Slot>)
    ensures |r| == |rs|
  {
    seq(|rs|, i requires 0 <= i < |rs| => Full(rs[i]))
  }

  /** In every interleaving the counters bracket the ring and never underflow, and what the caller has
      been given, followed by the live slots, is exactly what was published: nothing dropped,
      duplicated, reordered or torn. */
  lemma FifoExact(c: Config, acts: seq<Action>, s: State)
    requires Sized(c) && Reaches(c, acts, s)
    ensures Safe(c, s)
    ensures s.tail <= s.head <= s.tail + c.recs
    ensures AsSlots(s.delivered) + LiveSlots(c, s.buf, s.tail, s.head) == AsSlots(s.produced)
  {
    RunsKeepInv(c, acts, s);
    LiveIsUndelivered(c, s);
    assert s.produced[..s.tail] + s.produced[s.tail..] == s.produced;
    AsSlotsConcat(s.produced[..s.tail], s.produced[s.tail..]);
  }

  lemma LiveIsUndelivered(c: Config, s: State)
    requires Sized(c) && Inv(c, s)
    ensures LiveSlots(c, s.buf, s.tail, s.head) == AsSlots(s.produced[s.tail..])
  {
    var live, rest := LiveSlots(c, s.buf, s.tail, s.head), AsSlots(s.produced[s.tail..]);
    forall i | 0 <= i < |live|
      ensures live[i] == rest[i]
    {
      LiveSlotAt(c, s, s.tail + i);
    }
  }

  lemma LiveSlotAt(c: Config, s: State, j: nat)
    requires Sized(c) && Inv(c, s) && s.tail <= j < s.head
    ensures s.buf[SlotIndex(c, j)] == Full(s.produced[j])
  {
  }

  lemma AsSlotsConcat(a: seq<WireRec>, b: seq<WireRec>)
    ensures AsSlots(a + b) == AsSlots(a) + AsSlots(b)
  {
  }

  /** The records the filter let through, in order. */
  function Emitted(acts: seq<Action>): (r: seq<WireRec>) {
    if acts == [] then []
    else
      var a := acts[|acts| - 1];
      Emitted(acts[..|acts| - 1]) + (if a.Emit? then [a.rec] else [])
  }

  /** The record the producer holds but has not published. */
  function Pending(s: State): seq<WireRec> {
    match s.ppc
    case PTest(r) => [r]
    case PStall(r) => [r]
    case PPre(r) => [r]
    case PEnqueue(r) => [r]
    case PRecheck(r) => [r]
    case PAsleep(r) => [r]
    case PStopTest(r) => [r]
    case PFill(r) => [r]
    case PFilling(r) => [r]
    case PPublish(r) => [r]
    case _ => []
  }

  /** Published records plus the one in hand. */
  function Accepted(s: State): seq<WireRec> {
    s.produced + Pending(s)
  }

  lemma WaitAccepts(c: Config, p: State)
    requires Waiting(p.ppc) && !p.stop
    ensures Accepted(WaitNext(c, p)) == Accepted(p)
  {
  }

  lemma WriteAccepts(c: Config, p: State)
    requires Sized(c) && |p.buf| == c.recs && Writing(p.ppc)
    ensures Accepted(WriteNext(c, p)) == Accepted(p)
  {
  }

  lemma EndAccepts(p: State)
    requires Ending(p.ppc)
    ensures Accepted(EndNext(p)) == Accepted(p)
  {
  }

  lemma StepAccepts(c: Config, p: State, a: Action)
    requires Sized(c) && Safe(c, p) && Enabled(p, a) && !p.stop
    ensures Accepted(Next(c, p, a)) == Accepted(p) + (if a.Emit? then [a.rec] else [])
  {
    match a {
      case ProducerStep =>
        if Waiting(p.ppc) {
          WaitAccepts(c, p);
        } else if Writing(p.ppc) {
          WriteAccepts(c, p);
        } else {
          EndAccepts(p);
        }
      case _ =>
    }
  }

  /** Stall, never drop: while the device is open, every record the filter let through has been
      published or is the one in the producer's hands. */
  lemma {:induction false} NothingDropped(c: Config, acts: seq<Action>, s: State)
    requires Sized(c) && Reaches(c, acts, s) && !s.closed
    ensures Emitted(acts) == Accepted(s)
    decreases |acts|
  {
    if acts != [] {
      var k := |acts| - 1;
      var p :| Reaches(c, acts[..k], p) && IsStep(c, p, acts[k], s);
      RunsKeepInv(c, acts[..k], p);
      NothingDropped(c, acts[..k], p);
      assert !p.closed;
      StepAccepts(c, p, acts[k]);
    }
  }

  // ------------------------------------------------------------------
  // Wakeups

  /** No reachable state strands a read() in progress: producer and reader are never both asleep with
      no wakeup on its way.  After release() the producer always gets to its end. */
  lemma NoDeadlock(c: Config, acts: seq<Action>, s: State)
    requires Sized(c) && Reaches(c, acts, s)
    ensures !s.rpc.RIdle? ==> ProducerCanMove(s) || ReaderCanMove(s)
    ensures s.closed ==> ProducerCanMove(s) || s.ppc.PExit? || s.ppc.PNotStarted?
  {
    RunsKeepInv(c, acts, s);
  }

  /** A producer asleep with no wakeup on its way has left more than a batch of records to read, so
      the next read() returns some without waiting; once the reader has drained enough for a batch to
      fit, the producer is awake or about to be woken. */
  lemma StalledProducerLeavesWork(c: Config, acts: seq<Action>, s: State)
    requires Sized(c) && Reaches(c, acts, s)
    requires s.ppc.PAsleep? && !ProducerCanMove(s)
    ensures !s.rpc.RFreeTest? && !s.rpc.RWake? ==> s.head - s.tail > c.recs - c.batch >= c.batch
    ensures Free(c, s) >= c.batch ==> (s.rpc.RFreeTest? || s.rpc.RWake?)
    ensures s.rpc.RFreeTest? && Free(c, s) >= c.batch ==>
              ProducerCanMove(TakeNext(c, TakeNext(c, s)))
  {
    RunsKeepInv(c, acts, s);
  }

  /** A reader asleep with no wakeup on its way is behind by less than a batch, and the scan goes on. */
  lemma SleepingReaderMissesLessThanABatch(c: Config, acts: seq<Action>, s: State)
    requires Sized(c) && Reaches(c, acts, s)
    requires s.rpc.RAsleep? && !ReaderCanMove(s) && !s.ppc.PWakeTest? && !s.ppc.PWake? && !s.ppc.PWakeAll?
    ensures s.head - s.tail < c.batch
    ensures !s.done && ProducerCanMove(s)
  {
    RunsKeepInv(c, acts, s);
  }

  // ------------------------------------------------------------------
  // End of file

  /** With done loaded before head, end of file means everything was delivered, and the error reported
      is the one the producer ended with. */
  lemma DoneFirstEofComplete(c: Config, acts: seq<Action>, s: State)
    requires Sized(c) && c.doneFirst && Reaches(c, acts, s) && s.ret.Eof? && !s.closed
    ensures s.delivered == s.produced == Emitted(acts)
    ensures s.ret.err == s.err
  {
    RunsKeepInv(c, acts, s);
    NothingDropped(c, acts, s);
  }

  /** In the order the code has, the first end of file may come early, but it never lies twice: once a
      read has returned end of file, a second one means everything was delivered. */
  lemma SecondEofComplete(c: Config, acts: seq<Action>, s: State)
    requires Sized(c) && Reaches(c, acts, s) && s.eofs >= 2 && !s.closed
    ensures s.delivered == s.produced == Emitted(acts)
  {
    RunsKeepInv(c, acts, s);
    NothingDropped(c, acts, s);
  }

  /** In the order the code has, the read about to return end of file is complete exactly when the
      producer published nothing between the reader's two loads. */
  lemma EofCompleteExactlyWhen(c: Config, acts: seq<Action>, s: State)
    requires Sized(c) && Reaches(c, acts, s) && s.rpc.RLoadDone? && s.done
    ensures Safe(c, s)
    ensures var t := ReaderNext(c, s);
            t.ret == Eof(s.err) && (t.delivered == t.produced <==> s.head == s.rpc.seen)
  {
    RunsKeepInv(c, acts, s);
  }

  lemma Extend(c: Config, acts: seq<Action>, p: State, a: Action)
    requires Sized(c) && Reaches(c, acts, p) && Enabled(p, a)
    ensures Safe(c, p)
    ensures Reaches(c, acts + [a], Next(c, p, a))
  {
    RunsKeepInv(c, acts, p);
    var all := acts + [a];
    assert all[..|all| - 1] == acts;
    assert IsStep(c, p, all[|all| - 1], Next(c, p, a));
  }

  /** The producer, left alone with room in the ring, publishes a record. */
  lemma PublishOne(c: Config, acts: seq<Action>, p: State, r: WireRec) returns (acts': seq<Action>, s: State)
    requires Sized(c) && Reaches(c, acts, p) && p.ppc.PLoop? && !p.stop && Free(c, p) > 0
    ensures Reaches(c, acts', s) && s.ppc.PLoop? && !s.stop && s.rpc == p.rpc && s.closed == p.closed
    ensures s.produced == p.produced + [r] && s.delivered == p.delivered && s.eofs == p.eofs
  {
    acts', s := acts + [Emit(r)], p.(ppc := PTest(r));
    Extend(c, acts, p, Emit(r));
    acts', s := ProducerExtend(c, acts', s);
    acts', s := FillAndPublish(c, acts', s);
    acts', s := WakeOrNot(c, acts', s);
  }

  lemma WakeStep(c: Config, acts: seq<Action>, p: State) returns (acts': seq<Action>, s: State)
    requires Sized(c) && Reaches(c, acts, p) && (p.ppc.PWakeTest? || p.ppc.PWake?)
    ensures Reaches(c, acts', s) && (s.ppc.PLoop? || (p.ppc.PWakeTest? && s.ppc.PWake?))
    ensures s.stop == p.stop && s.rpc == p.rpc && s.closed == p.closed
    ensures s.produced == p.produced && s.delivered == p.delivered && s.eofs == p.eofs
  {
    acts', s := ProducerExtend(c, acts, p);
  }

  lemma WakeOrNot(c: Config, acts: seq<Action>, p: State) returns (acts': seq<Action>, s: State)
    requires Sized(c) && Reaches(c, acts, p) && p.ppc.PWakeTest?
    ensures Reaches(c, acts', s) && s.ppc.PLoop? && s.stop == p.stop && s.rpc == p.rpc && s.closed == p.closed
    ensures s.produced == p.produced && s.delivered == p.delivered && s.eofs == p.eofs
  {
    acts', s := WakeStep(c, acts, p);
    if s.ppc.PWake? {
      acts', s := WakeStep(c, acts', s);
    }
  }

  lemma FillAndPublish(c: Config, acts: seq<Action>, p: State) returns (acts': seq<Action>, s: State)
    requires Sized(c) && Reaches(c, acts, p) && p.ppc.PFill?
    ensures Reaches(c, acts', s) && s.ppc.PWakeTest? && s.stop == p.stop && s.rpc == p.rpc && s.closed == p.closed
    ensures s.produced == p.produced + [p.ppc.rec] && s.delivered == p.delivered && s.eofs == p.eofs
  {
    acts', s := ProducerExtend(c, acts, p);
    acts', s := ProducerExtend(c, acts', s);
    acts', s := ProducerExtend(c, acts', s);
  }

  lemma ProducerExtend(c: Config, acts: seq<Action>, p: State) returns (acts': seq<Action>, s: State)
    requires Sized(c) && Reaches(c, acts, p) && Enabled(p, ProducerStep)
    ensures Safe(c, p) && Reaches(c, acts', s) && s == ProducerNext(c, p)
  {
    Extend(c, acts, p, ProducerStep);
    acts', s := acts + [ProducerStep], ProducerNext(c, p);
  }

  lemma ReaderExtend(c: Config, acts: seq<Action>, p: State) returns (acts': seq<Action>, s: State)
    requires Sized(c) && Reaches(c, acts, p) && Enabled(p, ReaderStep)
    ensures Safe(c, p) && Reaches(c, acts', s) && s == ReaderNext(c, p)
  {
    Extend(c, acts, p, ReaderStep);
    acts', s := acts + [ReaderStep], ReaderNext(c, p);
  }

  /** The producer, left alone, ends the scan. */
  lemma EndScan(c: Config, acts: seq<Action>, p: State, rc: int) returns (acts': seq<Action>, s: State)
    requires Sized(c) && Reaches(c, acts, p) && p.ppc.PLoop? && !p.stop
    ensures Reaches(c, acts', s) && s.done && s.err == rc && s.rpc == p.rpc && s.closed == p.closed
    ensures s.produced == p.produced && s.delivered == p.delivered && s.eofs == p.eofs
  {
    acts', s := acts + [Finish(rc)], p.(ppc := PErr(rc));
    Extend(c, acts, p, Finish(rc));
    acts', s := ProducerExtend(c, acts', s);
    acts', s := ProducerExtend(c, acts', s);
  }

  /** In the order the code has, completeness fails for every configuration: an interleaving returns a
      clean end of file with a record still in the ring. */
  lemma EofCanLeaveRecords(c: Config, r: WireRec) returns (acts: seq<Action>, s: State)
    requires Sized(c) && !c.doneFirst
    ensures Reaches(c, acts, s) && !s.closed
    ensures s.ret == Eof(0) && s.delivered == [] && s.produced == [r]
  {
    acts, s := [], Init(c);
    Extend(c, acts, s, Call(1));
    acts, s := acts + [Call(1)], Next(c, s, Call(1));
    acts, s := ReaderExtend(c, acts, s);
    acts, s := PublishOne(c, acts, s, r);
    acts, s := EndScan(c, acts, s, 0);
    acts, s := ReaderExtend(c, acts, s);
  }

  /** On every run that ends in end of file, before the device is closed, everything published was delivered. */
  ghost predicate EofAlwaysComplete(c: Config)
    requires Sized(c)
  {
    forall acts, s :: Reaches(c, acts, s) && s.ret.Eof? && !s.closed ==> s.delivered == s.produced
  }

  /** That holds exactly when `done` is sampled before `head`. */
  lemma EofAlwaysCompleteExactlyWhen(c: Config, r: WireRec)
    requires Sized(c)
    ensures EofAlwaysComplete(c) <==> c.doneFirst
  {
    if c.doneFirst {
      forall acts, s | Reaches(c, acts, s) && s.ret.Eof? && !s.closed
        ensures s.delivered == s.produced
      {
        DoneFirstEofComplete(c, acts, s);
      }
    } else {
      var acts, s := EofCanLeaveRecords(c, r);
    }
  }
}
