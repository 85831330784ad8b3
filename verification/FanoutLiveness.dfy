/** The fan-out harness always comes to an end: as long as someone is left somebody can move, and no schedule runs for
    longer than the number of positions the iterator returned allows.  A thread in wait_event can go on when its
    condition holds: what makes one true is followed by a wake_up, at the latest the one after the end flag. */
module FanoutLiveness {
  import opened Fanout

  // ------------------------------------------------------------------
  // Somebody can always move

  /** Nobody leaves before the end or an abort; entries are queued only where there are workers. */
  predicate LiveInv(c: Config, s: State) {
    && |s.wpcs| == c.workers
    && (s.done <==> s.epc.EEnd?)
    && (s.epc.EPush? || s.epc.EWait? || s.epc.EAbort? ==> c.workers > 0)
    && (forall w :: 0 <= w < c.workers && s.wpcs[w].WExit? ==> s.done || s.abort)
    && (forall w :: 0 <= w < c.workers && s.wpcs[w] == WPop(true) ==> s.done)
  }

  lemma WorkKeepsLive(c: Config, s: State, w: nat)
    requires LiveInv(c, s) && Enabled(c, s, Work(w))
    ensures LiveInv(c, WorkStep(c, s, w))
  {
  }

  lemma StepKeepsLive(c: Config, s: State, a: Action)
    requires LiveInv(c, s) && Enabled(c, s, a)
    ensures LiveInv(c, Step(c, s, a))
  {
    if a.Work? {
      WorkKeepsLive(c, s, a.w);
    }
  }

  lemma {:induction false} RunsKeepLive(c: Config, acts: seq<Action>, s: State)
    requires Reaches(c, acts, s)
    ensures LiveInv(c, s)
    decreases |acts|
  {
    if acts != [] {
      var k := |acts| - 1;
      var p :| Reaches(c, acts[..k], p) && |p.wpcs| == c.workers && Enabled(c, p, acts[k]) && s == Step(c, p, acts[k]);
      RunsKeepLive(c, acts[..k], p);
      StepKeepsLive(c, p, acts[k]);
    }
  }

  /** As long as the enumerator or a worker is left, one of them can go on without anything failing. */
  lemma NeverStuck(c: Config, acts: seq<Action>, s: State)
    requires Reaches(c, acts, s) && c.capacity > 0 && !Over(s)
    ensures |s.wpcs| == c.workers
    ensures exists a :: Enabled(c, s, a) && !a.Fails?
  {
    RunsKeepLive(c, acts, s);
    var a: Action;
    if s.epc.EEnd? {
      var w :| 0 <= w < |s.wpcs| && !s.wpcs[w].WExit?;
      a := Work(w);
    } else if s.epc.EWait? && !Enabled(c, s, Enumerate) {
      a := Work(0);
    } else {
      a := if s.epc.ERec? then Skipped else if s.epc.ENext? then Ended else Enumerate;
    }
    assert Enabled(c, s, a);
  }

  // ------------------------------------------------------------------
  // And not forever

  /** What a worker's next steps hang on: whether the queue holds anything, and the two flags. */
  datatype Signs = Signs(open: bool, done: bool, abort: bool)

  function SignsOf(s: State): Signs {
    Signs(s.queue != [], s.done, s.abort)
  }

  /** How many steps a worker can take before it has to wait or leave, or takes an entry. */
  function Weight(c: Config, g: Signs, p: WPc): (n: nat)
    ensures n <= 11
  {
    match p
    case WExit => 0
    case WBusy(_) => 11
    case WPeek => if g.abort then 5 else if g.done then 7 else if g.open then 6 else 5
    case WPop(ended) =>
      if g.abort then 4
      else if g.done then (if !c.doneFirst then 6 else if ended then 5 else 10)
      else if g.open then 5 else 4
    case WDone => if g.abort then 3 else if g.done then 5 else if g.open then 9 else 3
    case WAbort => if g.abort then 2 else if g.done then 9 else if g.open then 8 else 2
    case WWait => if g.abort then 6 else if g.done then 8 else if g.open then 7 else 1
  }

  function Weights(c: Config, g: Signs, ps: seq<WPc>): (n: nat) {
    if ps == [] then 0 else Weights(c, g, ps[..|ps| - 1]) + Weight(c, g, ps[|ps| - 1])
  }

  lemma {:induction false} WeightsUpdate(c: Config, g: Signs, ps: seq<WPc>, w: nat, p: WPc)
    requires w < |ps|
    ensures Weights(c, g, ps[w := p]) == Weights(c, g, ps) - Weight(c, g, ps[w]) + Weight(c, g, p)
    decreases |ps|
  {
    var k := |ps| - 1;
    if w == k {
      assert ps[w := p][..k] == ps[..k];
    } else {
      WeightsUpdate(c, g, ps[..k], w, p);
      assert ps[w := p][..k] == ps[..k][w := p];
    }
  }

  /** By how much a change of the signs can raise a worker's weight: an entry queued, the end flag, an abort. */
  function Raise(g: Signs, h: Signs): nat {
    (if !g.open && h.open then 6 else 0) + (if !g.done && h.done then 7 else 0) + (if !g.abort && h.abort then 5 else 0)
  }

  lemma SignsRaise(c: Config, g: Signs, h: Signs, p: WPc)
    requires (g.done ==> h.done) && (g.abort ==> h.abort)
    ensures Weight(c, h, p) <= Weight(c, g, p) + Raise(g, h)
  {
  }

  lemma {:induction false} SignsRaiseAll(c: Config, g: Signs, h: Signs, ps: seq<WPc>)
    requires (g.done ==> h.done) && (g.abort ==> h.abort)
    ensures Weights(c, h, ps) <= Weights(c, g, ps) + Raise(g, h) * |ps|
    decreases |ps|
  {
    if ps != [] {
      var k := |ps| - 1;
      SignsRaiseAll(c, g, h, ps[..k]);
      SignsRaise(c, g, h, ps[k]);
      Distribute(Raise(g, h), k);
    }
  }

  lemma Distribute(a: nat, k: nat)
    ensures a * (k + 1) == a * k + a
  {
  }

  /** The same for the enumerator; what it has in hand, when it has something, is worth an entry queued and everybody
      woken for it. */
  function EnumeratorWeight(c: Config, s: State): nat {
    var hand := 15 + 6 * c.workers;
    var room := |s.queue| < c.capacity;
    match s.epc
    case EEnd => 0
    case EDone => 1
    case ERec => 2
    case ECheck => 3
    case ENext => 4
    case EPush(_) => if room then hand else if s.abort then hand + 3 else hand + 1
    case EAbort(_) => if room || s.abort then hand + 1 else hand + 2
    case EWait(_) => if room || s.abort then hand + 2 else hand
  }

  /** What the flags, not yet set, can still set off. */
  function FlagsLeft(c: Config, s: State): nat {
    (if s.done then 0 else 7 * c.workers) + (if s.abort then 0 else 5 * c.workers + 3)
  }

  function Potential(c: Config, s: State): nat {
    Weights(c, SignsOf(s), s.wpcs) + 10 * |s.queue| + EnumeratorWeight(c, s) + FlagsLeft(c, s)
  }

  /** One worker comes closer to waiting or leaving, with the signs as they are. */
  lemma LighterUses(c: Config, s: State, w: nat, p: WPc)
    requires w < |s.wpcs| && Weight(c, SignsOf(s), p) < Weight(c, SignsOf(s), s.wpcs[w])
    ensures Potential(c, s.(wpcs := s.wpcs[w := p])) < Potential(c, s)
  {
    WeightsUpdate(c, SignsOf(s), s.wpcs, w, p);
  }

  lemma MoveIsLighter(c: Config, s: State, w: nat)
    requires LiveInv(c, s) && Enabled(c, s, Work(w))
    requires !s.wpcs[w].WBusy? && (s.wpcs[w].WPop? ==> s.queue == [])
    ensures var p := WorkStep(c, s, w).wpcs[w];
            && WorkStep(c, s, w) == s.(wpcs := s.wpcs[w := p])
            && Weight(c, SignsOf(s), p) < Weight(c, SignsOf(s), s.wpcs[w])
  {
  }

  lemma MoveUses(c: Config, s: State, w: nat)
    requires LiveInv(c, s) && Enabled(c, s, Work(w))
    requires !s.wpcs[w].WBusy? && (s.wpcs[w].WPop? ==> s.queue == [])
    ensures Potential(c, WorkStep(c, s, w)) < Potential(c, s)
  {
    MoveIsLighter(c, s, w);
    LighterUses(c, s, w, WorkStep(c, s, w).wpcs[w]);
  }

  lemma HandleUses(c: Config, s: State, w: nat)
    requires LiveInv(c, s) && Enabled(c, s, Work(w)) && s.wpcs[w].WBusy?
    ensures Potential(c, WorkStep(c, s, w)) < Potential(c, s)
  {
    WeightsUpdate(c, SignsOf(s), s.wpcs, w, Start(c));
  }

  /** An entry taken leaves room: that is what the enumerator may have waited for. */
  lemma PopMakesRoom(c: Config, s: State, ps: seq<WPc>)
    requires s.queue != []
    ensures EnumeratorWeight(c, s.(queue := s.queue[1..], wpcs := ps)) <= EnumeratorWeight(c, s) + 2
  {
  }

  lemma PopWeights(c: Config, s: State, w: nat, ps: seq<WPc>)
    requires w < |s.wpcs| && s.wpcs[w].WPop? && s.queue != [] && ps == s.wpcs[w := WBusy(s.queue[0])]
    ensures Weights(c, SignsOf(s.(queue := s.queue[1..])), ps) <= Weights(c, SignsOf(s), s.wpcs) + 7
  {
    var t := s.(queue := s.queue[1..]);
    WeightsUpdate(c, SignsOf(s), s.wpcs, w, WBusy(s.queue[0]));
    SignsRaiseAll(c, SignsOf(s), SignsOf(t), ps);
    assert Raise(SignsOf(s), SignsOf(t)) == 0;
  }

  lemma PopUses(c: Config, s: State, w: nat)
    requires LiveInv(c, s) && Enabled(c, s, Work(w)) && s.wpcs[w].WPop? && s.queue != []
    ensures Potential(c, WorkStep(c, s, w)) < Potential(c, s)
  {
    PopWeights(c, s, w, s.wpcs[w := WBusy(s.queue[0])]);
    PopMakesRoom(c, s, s.wpcs[w := WBusy(s.queue[0])]);
  }

  lemma WorkUses(c: Config, s: State, w: nat)
    requires LiveInv(c, s) && Enabled(c, s, Work(w))
    ensures Potential(c, WorkStep(c, s, w)) < Potential(c, s)
  {
    match s.wpcs[w] {
      case WPop(_) =>
        if s.queue != [] {
          PopUses(c, s, w);
        } else {
          MoveUses(c, s, w);
        }
      case WBusy(_) => HandleUses(c, s, w);
      case _ => MoveUses(c, s, w);
    }
  }

  lemma PushUses(c: Config, s: State)
    requires LiveInv(c, s) && s.epc.EPush? && |s.queue| < c.capacity
    ensures Potential(c, EnumerateStep(c, s)) < Potential(c, s)
  {
    var t := EnumerateStep(c, s);
    SignsRaiseAll(c, SignsOf(s), SignsOf(t), s.wpcs);
    assert Raise(SignsOf(s), SignsOf(t)) <= 6;
    AtMost(Raise(SignsOf(s), SignsOf(t)), 6, c.workers);
  }

  lemma AtMost(a: nat, b: nat, k: nat)
    requires a <= b
    ensures a * k <= b * k
  {
  }

  lemma EndUses(c: Config, s: State)
    requires LiveInv(c, s) && s.epc.EDone?
    ensures Potential(c, EnumerateStep(c, s)) < Potential(c, s)
  {
    var t := EnumerateStep(c, s);
    SignsRaiseAll(c, SignsOf(s), SignsOf(t), s.wpcs);
  }

  lemma EnumerateUses(c: Config, s: State)
    requires LiveInv(c, s) && Enabled(c, s, Enumerate)
    ensures Potential(c, EnumerateStep(c, s)) < Potential(c, s)
  {
    if s.epc.EPush? && |s.queue| < c.capacity {
      PushUses(c, s);
    } else if s.epc.EDone? {
      EndUses(c, s);
    }
  }

  lemma FailUses(c: Config, s: State, w: nat)
    requires LiveInv(c, s) && Enabled(c, s, Fails(w))
    ensures Potential(c, Step(c, s, Fails(w))) < Potential(c, s)
  {
    var t := Step(c, s, Fails(w));
    WeightsUpdate(c, SignsOf(s), s.wpcs, w, WExit);
    SignsRaiseAll(c, SignsOf(s), SignsOf(t), t.wpcs);
    assert Raise(SignsOf(s), SignsOf(t)) == if s.abort then 0 else 5;
  }

  /** What one more position of the iterator can set off. */
  function PerPosition(c: Config): nat {
    17 + 6 * c.workers
  }

  /** How many positions the iterator returned. */
  function Positions(acts: seq<Action>): (n: nat) {
    if acts == [] then 0
    else
      var a := acts[|acts| - 1];
      Positions(acts[..|acts| - 1]) + if a.Found? || a.Skipped? then 1 else 0
  }

  lemma StepUses(c: Config, s: State, a: Action)
    requires LiveInv(c, s) && Enabled(c, s, a)
    ensures Potential(c, Step(c, s, a)) + 1 <= Potential(c, s) + if a.Found? || a.Skipped? then PerPosition(c) else 0
  {
    match a {
      case Enumerate => EnumerateUses(c, s);
      case Work(w) => WorkUses(c, s, w);
      case Fails(w) => FailUses(c, s, w);
      case _ =>
    }
  }

  lemma {:induction false} StartWeights(c: Config, n: nat)
    ensures Weights(c, Signs(false, false, false), seq(n, i => Start(c))) <= 5 * n
    decreases n
  {
    if n > 0 {
      StartWeights(c, n - 1);
      assert seq(n, i => Start(c))[..n - 1] == seq(n - 1, i => Start(c));
    }
  }

  lemma {:induction false} RunsUse(c: Config, acts: seq<Action>, s: State)
    requires Reaches(c, acts, s)
    ensures |acts| + Potential(c, s) <= 17 * c.workers + 6 + PerPosition(c) * Positions(acts)
    decreases |acts|
  {
    if acts == [] {
      StartWeights(c, c.workers);
    } else {
      var k := |acts| - 1;
      var p :| Reaches(c, acts[..k], p) && |p.wpcs| == c.workers && Enabled(c, p, acts[k]) && s == Step(c, p, acts[k]);
      RunsUse(c, acts[..k], p);
      RunsKeepLive(c, acts[..k], p);
      StepUses(c, p, acts[k]);
      Distribute(PerPosition(c), Positions(acts[..k]));
    }
  }

  /** No schedule, failures included, takes more steps than this for the positions the iterator returned. */
  lemma RunsAreBounded(c: Config, acts: seq<Action>, s: State)
    requires Reaches(c, acts, s)
    ensures |acts| <= 17 * c.workers + 6 + (17 + 6 * c.workers) * Positions(acts)
  {
    RunsUse(c, acts, s);
  }
}
