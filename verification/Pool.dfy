/** The chunked parallel scan of src/lfu_core.c: workers draw chunk indices from a shared cursor under a mutex until
    someone has seen the end.  Every interleaving of the workers' steps is a run. */
module Pool {
  import opened Bags
  import opened Chunks

  /** What the workers share: the backend's scan_chunk, as the ids a chunk hands over and whether it then reports
      `done`; how many workers were started; and whether --limit can stop one. */
  datatype Config = Config(chunk: nat -> seq<nat>, last: nat -> bool, workers: nat, limited: bool)

  datatype Pc =
    | Starting
    | Idle                      // about to ask for a chunk
    | Scanning(c: nat)
    | Closing(failed: bool)     // about to call lfu_set_done
    | Exited

  /** The shared cursor and flags, each worker's place, and what each has been handed.  The rest is history: who
      took each chunk, what has come out of it, whether and which worker quit early, and a chunk that reported
      `done`. */
  datatype State = State(
    cursor: nat, done: bool, error: bool,
    pcs: seq<Pc>, handed: seq<seq<nat>>,
    owner: seq<nat>, got: seq<seq<nat>>, cut: bool, culprit: nat, end: nat)

  datatype Action =
    | Ready(w: nat)             // worker_init succeeded
    | InitFails(w: nat)
    | Take(w: nat)              // lfu_next_chunk
    | Hand(w: nat)              // scan_chunk hands over one object
    | Finish(w: nat)            // scan_chunk returns 0
    | Fail(w: nat)              // scan_chunk returns an error
    | Stop(w: nat)              // --limit reached
    | Close(w: nat)             // lfu_set_done

  function Init(c: Config): State {
    State(0, false, false, seq(c.workers, i => Starting), seq(c.workers, i => []), [], [], false, 0, 0)
  }

  predicate Shaped(c: Config, s: State) {
    && |s.pcs| == c.workers && |s.handed| == c.workers && |s.owner| == s.cursor && |s.got| == s.cursor
    && forall w :: 0 <= w < c.workers && s.pcs[w].Scanning? ==> s.pcs[w].c < s.cursor
  }

  predicate Enabled(c: Config, s: State, a: Action)
    requires Shaped(c, s)
  {
    a.w < c.workers &&
    match a
    case Ready(w) => s.pcs[w].Starting?
    case InitFails(w) => s.pcs[w].Starting?
    case Take(w) => s.pcs[w].Idle?
    case Hand(w) => s.pcs[w].Scanning? && |s.got[s.pcs[w].c]| < |c.chunk(s.pcs[w].c)|
    case Finish(w) => s.pcs[w].Scanning? && |s.got[s.pcs[w].c]| >= |c.chunk(s.pcs[w].c)|
    case Fail(w) => s.pcs[w].Scanning?
    case Stop(w) => s.pcs[w].Scanning? && c.limited
    case Close(w) => s.pcs[w].Closing?
  }

  function Step(c: Config, s: State, a: Action): State
    requires Shaped(c, s) && Enabled(c, s, a)
  {
    match a
    case Ready(w) => s.(pcs := s.pcs[w := Idle])
    case InitFails(w) => s.(pcs := s.pcs[w := Closing(true)], cut := true, culprit := w)
    case Take(w) =>
      if s.done then s.(pcs := s.pcs[w := Exited])
      else s.(cursor := s.cursor + 1, pcs := s.pcs[w := Scanning(s.cursor)],
              owner := s.owner + [w], got := s.got + [[]])
    case Hand(w) =>
      var k := s.pcs[w].c;
      var x := c.chunk(k)[|s.got[k]|];
      s.(handed := s.handed[w := s.handed[w] + [x]], got := s.got[k := s.got[k] + [x]])
    case Finish(w) =>
      var k := s.pcs[w].c;
      if c.last(k) then s.(pcs := s.pcs[w := Closing(false)], end := k) else s.(pcs := s.pcs[w := Idle])
    case Fail(w) => s.(pcs := s.pcs[w := Closing(true)], cut := true, culprit := w)
    case Stop(w) => s.(pcs := s.pcs[w := Closing(false)], cut := true, culprit := w)
    case Close(w) => s.(done := true, error := s.error || s.pcs[w].failed, pcs := s.pcs[w := Exited])
  }

  // ------------------------------------------------------------------
  // Every step keeps

  /** Each chunk drawn belongs to the one worker that drew it; it is being scanned, or has been handed over whole,
      unless some worker quit early. */
  predicate ChunksInv(c: Config, s: State)
    requires Shaped(c, s)
  {
    && (forall k :: 0 <= k < s.cursor ==> s.owner[k] < c.workers && s.got[k] <= c.chunk(k))
    && (forall w :: 0 <= w < c.workers && s.pcs[w].Scanning? ==> s.owner[s.pcs[w].c] == w)
    && (forall k :: 0 <= k < s.cursor ==> s.cut || s.got[k] == c.chunk(k) || s.pcs[s.owner[k]] == Scanning(k))
  }

  /** Nobody leaves before the end was seen, unless some worker quit early; and an early quit without a limit is an
      error, reported or about to be. */
  predicate FlagsInv(c: Config, s: State)
    requires Shaped(c, s)
  {
    && (forall w :: 0 <= w < c.workers && s.pcs[w].Exited? ==> s.done)
    && (forall w :: 0 <= w < c.workers && s.pcs[w].Closing? ==> s.cut || (s.end < s.cursor && c.last(s.end)))
    && (s.done ==> s.cut || (s.end < s.cursor && c.last(s.end)))
    && (s.error ==> s.cut)
    && (forall w :: 0 <= w < c.workers && s.pcs[w] == Closing(true) ==> s.cut)
    && (s.cut && !c.limited ==> s.error || (s.culprit < c.workers && s.pcs[s.culprit] == Closing(true)))
  }

  ghost predicate Inv(c: Config, s: State) {
    Shaped(c, s) && ChunksInv(c, s) && FlagsInv(c, s) && Bag(s.handed) == Bag(s.got)
  }

  /** How far along a worker is. */
  function Weight(p: Pc): (n: nat)
    ensures n <= 3
  {
    match p
    case Starting => 0
    case Idle => 1
    case Scanning(_) => 0
    case Closing(_) => 2
    case Exited => 3
  }

  /** Steps that only move a worker along. */
  lemma MoveProgresses(c: Config, s: State, a: Action)
    requires Shaped(c, s) && Enabled(c, s, a) && !a.Hand? && !a.Take?
    ensures var t := Step(c, s, a);
            && t.cursor == s.cursor && t.got == s.got && |t.pcs| == |s.pcs| && t.pcs == s.pcs[a.w := t.pcs[a.w]]
            && Weight(t.pcs[a.w]) > Weight(s.pcs[a.w])
  {
  }

  lemma TakeKeepsChunks(c: Config, s: State, w: nat)
    requires Shaped(c, s) && ChunksInv(c, s) && Enabled(c, s, Take(w))
    ensures Shaped(c, Step(c, s, Take(w))) && ChunksInv(c, Step(c, s, Take(w)))
  {
  }

  lemma HandKeepsChunks(c: Config, s: State, w: nat)
    requires Shaped(c, s) && ChunksInv(c, s) && Enabled(c, s, Hand(w))
    ensures Shaped(c, Step(c, s, Hand(w))) && ChunksInv(c, Step(c, s, Hand(w)))
  {
    var k := s.pcs[w].c;
    var t := Step(c, s, Hand(w));
    assert t.got[k] <= c.chunk(k);
  }

  /** A worker may leave a chunk that is whole, or any chunk once the scan counts as cut short. */
  lemma MoveKeepsChunks(c: Config, s: State, w: nat, p: Pc)
    requires Shaped(c, s) && ChunksInv(c, s) && w < c.workers && !p.Scanning?
    requires s.pcs[w].Scanning? ==> s.cut || s.got[s.pcs[w].c] == c.chunk(s.pcs[w].c)
    ensures var t := s.(pcs := s.pcs[w := p]); Shaped(c, t) && ChunksInv(c, t)
  {
  }

  lemma OthersKeepChunks(c: Config, s: State, a: Action)
    requires Shaped(c, s) && ChunksInv(c, s) && Enabled(c, s, a) && !a.Take? && !a.Hand?
    ensures Shaped(c, Step(c, s, a)) && ChunksInv(c, Step(c, s, a))
  {
    MoveProgresses(c, s, a);
    MoveKeepsChunks(c, s.(cut := Step(c, s, a).cut), a.w, Step(c, s, a).pcs[a.w]);
  }

  lemma StepKeepsChunks(c: Config, s: State, a: Action)
    requires Shaped(c, s) && ChunksInv(c, s) && Enabled(c, s, a)
    ensures Shaped(c, Step(c, s, a)) && ChunksInv(c, Step(c, s, a))
  {
    match a {
      case Take(w) => TakeKeepsChunks(c, s, w);
      case Hand(w) => HandKeepsChunks(c, s, w);
      case _ => OthersKeepChunks(c, s, a);
    }
  }

  lemma TakeKeepsFlags(c: Config, s: State, w: nat)
    requires Shaped(c, s) && FlagsInv(c, s) && Enabled(c, s, Take(w))
    ensures Shaped(c, Step(c, s, Take(w))) && FlagsInv(c, Step(c, s, Take(w)))
  {
  }

  lemma FinishKeepsFlags(c: Config, s: State, w: nat)
    requires Shaped(c, s) && FlagsInv(c, s) && Enabled(c, s, Finish(w))
    ensures Shaped(c, Step(c, s, Finish(w))) && FlagsInv(c, Step(c, s, Finish(w)))
  {
  }

  lemma CloseKeepsFlags(c: Config, s: State, w: nat)
    requires Shaped(c, s) && FlagsInv(c, s) && Enabled(c, s, Close(w))
    ensures Shaped(c, Step(c, s, Close(w))) && FlagsInv(c, Step(c, s, Close(w)))
  {
  }

  /** A worker that quits early, with an error unless it is the limit. */
  lemma QuitKeepsFlags(c: Config, s: State, a: Action)
    requires Shaped(c, s) && FlagsInv(c, s) && Enabled(c, s, a) && (a.InitFails? || a.Fail? || a.Stop?)
    ensures Shaped(c, Step(c, s, a)) && FlagsInv(c, Step(c, s, a))
  {
  }

  lemma StepKeepsFlags(c: Config, s: State, a: Action)
    requires Shaped(c, s) && FlagsInv(c, s) && Enabled(c, s, a)
    ensures Shaped(c, Step(c, s, a)) && FlagsInv(c, Step(c, s, a))
  {
    match a {
      case Take(w) => TakeKeepsFlags(c, s, w);
      case Finish(w) => FinishKeepsFlags(c, s, w);
      case Close(w) => CloseKeepsFlags(c, s, w);
      case Ready(_) =>
      case Hand(_) =>
      case _ => QuitKeepsFlags(c, s, a);
    }
  }

  lemma StepKeepsBags(c: Config, s: State, a: Action)
    requires Shaped(c, s) && Enabled(c, s, a) && Bag(s.handed) == Bag(s.got)
    ensures Bag(Step(c, s, a).handed) == Bag(Step(c, s, a).got)
  {
    if a.Hand? {
      var k := s.pcs[a.w].c;
      BagPush(s.handed, a.w, c.chunk(k)[|s.got[k]|]);
      BagPush(s.got, k, c.chunk(k)[|s.got[k]|]);
    } else if a.Take? {
      BagOpen(s.got);
    }
  }

  lemma StepKeepsInv(c: Config, s: State, a: Action)
    requires Inv(c, s) && Enabled(c, s, a)
    ensures Inv(c, Step(c, s, a))
  {
    StepKeepsChunks(c, s, a);
    StepKeepsFlags(c, s, a);
    StepKeepsBags(c, s, a);
  }

  // ------------------------------------------------------------------
  // Runs

  /** s can be reached by performing acts, in that order, from the start of the scan. */
  ghost predicate Reaches(c: Config, acts: seq<Action>, s: State)
    decreases |acts|
  {
    if acts == [] then s == Init(c)
    else
      var before, a := acts[..|acts| - 1], acts[|acts| - 1];
      exists p :: Reaches(c, before, p) && Shaped(c, p) && Enabled(c, p, a) && s == Step(c, p, a)
  }

  lemma {:induction false} RunsKeepInv(c: Config, acts: seq<Action>, s: State)
    requires Reaches(c, acts, s)
    ensures Inv(c, s)
    decreases |acts|
  {
    if acts == [] {
      BagOfNone(s.handed);
    } else {
      var k := |acts| - 1;
      var p :| Reaches(c, acts[..k], p) && Shaped(c, p) && Enabled(c, p, acts[k]) && s == Step(c, p, acts[k]);
      RunsKeepInv(c, acts[..k], p);
      StepKeepsInv(c, p, acts[k]);
    }
  }

  /** All threads have been joined. */
  predicate Joined(s: State) {
    forall w :: 0 <= w < |s.pcs| ==> s.pcs[w].Exited?
  }

  /** The first n chunks, end to end. */
  function Drawn(chunk: nat -> seq<nat>, n: nat): (r: seq<nat>) {
    if n == 0 then [] else Drawn(chunk, n - 1) + chunk(n - 1)
  }

  lemma {:induction false} WholeChunks(chunk: nat -> seq<nat>, got: seq<seq<nat>>)
    requires forall k :: 0 <= k < |got| ==> got[k] == chunk(k)
    ensures Bag(got) == multiset(Drawn(chunk, |got|))
    decreases |got|
  {
    if got != [] {
      WholeChunks(chunk, got[..|got| - 1]);
    }
  }

  lemma {:induction false} PartChunks(chunk: nat -> seq<nat>, got: seq<seq<nat>>)
    requires forall k :: 0 <= k < |got| ==> got[k] <= chunk(k)
    ensures Bag(got) <= multiset(Drawn(chunk, |got|)) && Total(got) <= |Drawn(chunk, |got|)|
    decreases |got|
  {
    if got != [] {
      var k := |got| - 1;
      PartChunks(chunk, got[..k]);
      assert chunk(k) == got[k] + chunk(k)[|got[k]|..];
    }
  }

  /** What a backend owes the pool: its chunks, end to end, are a prefix of the target's ids, and all of them once
      some drawn chunk has reported `done`. */
  ghost predicate Tiles(c: Config, ids: seq<nat>) {
    && (forall n: nat :: Drawn(c.chunk, n) <= ids)
    && (forall k: nat, n: nat :: c.last(k) && k < n ==> Drawn(c.chunk, n) == ids)
  }

  /** In every reachable state, failures and limits included, the workers together have been handed no object
      more often than the target holds it. */
  lemma HandedAtMostOnce(c: Config, ids: seq<nat>, acts: seq<Action>, s: State)
    requires Reaches(c, acts, s) && Tiles(c, ids)
    ensures Bag(s.handed) <= multiset(ids)
  {
    RunsKeepInv(c, acts, s);
    PartChunks(c.chunk, s.got);
    PrefixBag(Drawn(c.chunk, s.cursor), ids);
  }

  /** A scan that ends without error or limit, with at least one worker, has handed every object to exactly one
      worker exactly once: for every schedule and any number of workers. */
  lemma HandedExactlyOnce(c: Config, ids: seq<nat>, acts: seq<Action>, s: State)
    requires Reaches(c, acts, s) && Tiles(c, ids) && Joined(s)
    requires c.workers > 0 && !c.limited && !s.error
    ensures Bag(s.handed) == multiset(ids)
  {
    RunsKeepInv(c, acts, s);
    assert s.pcs[0].Exited?;
    assert !s.cut && s.end < s.cursor && c.last(s.end);
    forall k | 0 <= k < |s.got|
      ensures s.got[k] == c.chunk(k)
    {
      assert s.pcs[s.owner[k]].Exited?;
    }
    WholeChunks(c.chunk, s.got);
  }

  // ------------------------------------------------------------------
  // Every run ends

  function Weights(ps: seq<Pc>): (n: nat)
    ensures n <= 3 * |ps|
  {
    if ps == [] then 0 else Weights(ps[..|ps| - 1]) + Weight(ps[|ps| - 1])
  }

  lemma {:induction false} WeightsUpdate(ps: seq<Pc>, w: nat, p: Pc)
    requires w < |ps|
    ensures Weights(ps[w := p]) == Weights(ps) - Weight(ps[w]) + Weight(p)
    decreases |ps|
  {
    var k := |ps| - 1;
    if w == k {
      assert ps[w := p][..k] == ps[..k];
    } else {
      WeightsUpdate(ps[..k], w, p);
      assert ps[w := p][..k] == ps[..k][w := p];
    }
  }

  function Progress(s: State): nat {
    2 * s.cursor + Total(s.got) + Weights(s.pcs)
  }

  lemma TakeProgresses(c: Config, s: State, w: nat)
    requires Shaped(c, s) && Enabled(c, s, Take(w))
    ensures Progress(Step(c, s, Take(w))) >= Progress(s) + 1
  {
    BagOpen(s.got);
    WeightsUpdate(s.pcs, w, Exited);
    WeightsUpdate(s.pcs, w, Scanning(s.cursor));
  }

  lemma StepProgresses(c: Config, s: State, a: Action)
    requires Shaped(c, s) && Enabled(c, s, a)
    ensures Progress(Step(c, s, a)) >= Progress(s) + 1
  {
    match a {
      case Hand(w) =>
        var k := s.pcs[w].c;
        BagPush(s.got, k, c.chunk(k)[|s.got[k]|]);
      case Take(w) => TakeProgresses(c, s, w);
      case _ =>
        MoveProgresses(c, s, a);
        WeightsUpdate(s.pcs, a.w, Step(c, s, a).pcs[a.w]);
    }
  }

  /** From chunk L on, every chunk reports `done`. */
  ghost predicate EndsBy(c: Config, L: nat) {
    forall k: nat :: k >= L ==> c.last(k)
  }

  /** A worker that drew a chunk beyond L never asks for another. */
  predicate TailInv(c: Config, s: State, L: nat)
    requires Shaped(c, s)
  {
    && (forall k :: 0 <= k < s.cursor ==> s.owner[k] < c.workers)
    && (forall k :: L <= k < s.cursor ==> !s.pcs[s.owner[k]].Starting? && !s.pcs[s.owner[k]].Idle?)
    && (forall k :: L <= k < s.cursor && s.pcs[s.owner[k]].Scanning? ==> s.pcs[s.owner[k]].c == k)
    && (forall j, k :: L <= j < k < s.cursor ==> s.owner[j] != s.owner[k])
  }

  lemma TakeKeepsTail(c: Config, s: State, w: nat, L: nat)
    requires Shaped(c, s) && Enabled(c, s, Take(w)) && TailInv(c, s, L)
    ensures Shaped(c, Step(c, s, Take(w))) && TailInv(c, Step(c, s, Take(w)), L)
  {
    if s.done {
      assert Step(c, s, Take(w)).owner == s.owner;
    }
  }

  lemma MoveKeepsTail(c: Config, s: State, w: nat, p: Pc, L: nat)
    requires Shaped(c, s) && w < c.workers && TailInv(c, s, L) && !p.Scanning? && !p.Starting?
    requires p.Idle? ==> s.pcs[w].Starting? || (s.pcs[w].Scanning? && s.pcs[w].c < L)
    ensures var t := s.(pcs := s.pcs[w := p]); Shaped(c, t) && TailInv(c, t, L)
  {
  }

  lemma StepKeepsTail(c: Config, s: State, a: Action, L: nat)
    requires Shaped(c, s) && Enabled(c, s, a) && TailInv(c, s, L) && EndsBy(c, L)
    ensures Shaped(c, Step(c, s, a)) && TailInv(c, Step(c, s, a), L)
  {
    match a {
      case Hand(w) =>
      case Take(w) => TakeKeepsTail(c, s, w, L);
      case _ =>
        MoveProgresses(c, s, a);
        MoveKeepsTail(c, s, a.w, Step(c, s, a).pcs[a.w], L);
    }
  }

  lemma TailIsShort(c: Config, s: State, L: nat)
    requires Shaped(c, s) && TailInv(c, s, L)
    ensures s.cursor <= L + c.workers
  {
    if s.cursor > L {
      Pigeonhole(s.owner[L..], c.workers);
    }
  }

  lemma {:induction false} RunsProgress(c: Config, acts: seq<Action>, s: State, L: nat)
    requires Reaches(c, acts, s) && EndsBy(c, L)
    ensures Shaped(c, s) && TailInv(c, s, L) && |acts| <= Progress(s)
    decreases |acts|
  {
    if acts != [] {
      var k := |acts| - 1;
      var p :| Reaches(c, acts[..k], p) && Shaped(c, p) && Enabled(c, p, acts[k]) && s == Step(c, p, acts[k]);
      RunsProgress(c, acts[..k], p, L);
      StepProgresses(c, p, acts[k]);
      StepKeepsTail(c, p, acts[k], L);
    }
  }

  /** No schedule runs forever. */
  lemma RunsAreBounded(c: Config, ids: seq<nat>, acts: seq<Action>, s: State, L: nat)
    requires Reaches(c, acts, s) && Tiles(c, ids) && EndsBy(c, L)
    ensures |acts| <= 2 * L + |ids| + 5 * c.workers
  {
    RunsKeepInv(c, acts, s);
    RunsProgress(c, acts, s, L);
    TailIsShort(c, s, L);
    PartChunks(c.chunk, s.got);
  }

  /** As long as some thread is left to join, some thread can go on without failing. */
  lemma NeverStuck(c: Config, acts: seq<Action>, s: State)
    requires Reaches(c, acts, s) && !Joined(s)
    ensures Shaped(c, s)
    ensures exists a :: Enabled(c, s, a) && !a.InitFails? && !a.Fail? && !a.Stop?
  {
    RunsKeepInv(c, acts, s);
    var w :| 0 <= w < |s.pcs| && !s.pcs[w].Exited?;
    var a := if s.pcs[w].Starting? then Ready(w)
             else if s.pcs[w].Idle? then Take(w)
             else if s.pcs[w].Closing? then Close(w)
             else if Enabled(c, s, Hand(w)) then Hand(w)
             else Finish(w);
    assert Enabled(c, s, a);
  }

  // ------------------------------------------------------------------
  // The backends

  function Over(g: Geometry, ids: seq<nat>, workers: nat, limited: bool): Config
    requires Target(g, ids)
  {
    Config(k => Chunk(g, ids, k), (k: nat) => Last(g, ids, k), workers, limited)
  }

  lemma {:induction false} DrawnIsFirst(g: Geometry, ids: seq<nat>, c: Config, n: nat)
    requires Target(g, ids) && c == Over(g, ids, c.workers, c.limited)
    ensures Drawn(c.chunk, n) == FirstChunks(g, ids, n)
    decreases n
  {
    if n > 0 {
      DrawnIsFirst(g, ids, c, n - 1);
    }
  }

  /** Both backends, and the kernel harness, meet the pool's terms. */
  lemma BackendTiles(g: Geometry, ids: seq<nat>, c: Config)
    requires Target(g, ids) && c == Over(g, ids, c.workers, c.limited)
    ensures Tiles(c, ids)
    ensures EndsBy(c, if ids == [] then 0 else ids[|ids| - 1])
  {
    forall n: nat
      ensures Drawn(c.chunk, n) <= ids
    {
      DrawnIsFirst(g, ids, c, n);
      ChunksTile(g, ids, n);
    }
    forall k: nat, n: nat | c.last(k) && k < n
      ensures Drawn(c.chunk, n) == ids
    {
      DrawnIsFirst(g, ids, c, n);
      LastCovers(g, ids, k, n);
    }
    forall k: nat | k >= if ids == [] then 0 else ids[|ids| - 1]
      ensures c.last(k)
    {
      LastComes(g, ids, k);
    }
  }

  /** lfu_scan on a target: a return of 0 without --limit means every id was handed to exactly one worker exactly
      once, exactly when a worker was started or there was nothing to scan. */
  lemma ScanCompleteExactlyWhen(g: Geometry, ids: seq<nat>, workers: nat, acts: seq<Action>, s: State)
    requires Target(g, ids) && Reaches(Over(g, ids, workers, false), acts, s) && Joined(s) && !s.error
    ensures Bag(s.handed) == multiset(ids) <==> workers > 0 || ids == []
  {
    var c := Over(g, ids, workers, false);
    BackendTiles(g, ids, c);
    if workers > 0 {
      HandedExactlyOnce(c, ids, acts, s);
    } else {
      RunsKeepInv(c, acts, s);
      assert s.handed == [];
      if ids != [] {
        assert ids[0] in multiset(ids);
      }
    }
  }

  /** When no worker thread could be started the scan returns 0 at once, having scanned nothing. */
  lemma NoWorkersScansNothing(g: Geometry, ids: seq<nat>)
    requires Target(g, ids)
    ensures var c := Over(g, ids, 0, false);
            Reaches(c, [], Init(c)) && Joined(Init(c)) && !Init(c).error && Bag(Init(c).handed) == multiset{}
  {
  }

  // ------------------------------------------------------------------
  // The shared work record, and a worker on its own

  /** struct lfu_work: what the mutex protects. */
  class Work {
    var cursor: nat
    var done: bool
    var error: bool

    constructor ()
      ensures cursor == 0 && !done && !error
    {
      cursor, done, error := 0, false, false;
    }

    /** lfu_next_chunk. */
    method NextChunk() returns (got: bool, idx: nat)
      modifies this
      ensures got == !old(done) && done == old(done) && error == old(error)
      ensures got ==> idx == old(cursor) && cursor == old(cursor) + 1
      ensures !got ==> cursor == old(cursor)
    {
      got, idx := false, 0;
      if !done {
        got, idx, cursor := true, cursor, cursor + 1;
      }
    }

    /** lfu_set_done. */
    method SetDone(failed: bool)
      modifies this
      ensures done && cursor == old(cursor) && error == (old(error) || failed)
    {
      done, error := true, error || failed;
    }
  }

  /** lfu_scan with one worker and no limit: the ids in order, each once. */
  method ScanAlone(g: Geometry, ids: seq<nat>) returns (visited: seq<nat>, error: bool)
    requires Target(g, ids)
    ensures visited == ids && !error
  {
    var w := new Work();
    ghost var bound := if ids == [] then 0 else ids[|ids| - 1];
    visited := [];
    while true
      invariant !w.error && w.cursor <= bound + 1
      invariant visited == FirstChunks(g, ids, w.cursor)
      invariant w.done ==> visited == ids
      invariant w.cursor == bound + 1 ==> w.done
      decreases bound + 1 - w.cursor, !w.done
    {
      var got, idx := w.NextChunk();
      if !got {
        return visited, w.error;
      }
      var found, done := ScanChunk(g, ids, idx);
      visited := visited + found;
      if idx == bound {
        LastComes(g, ids, idx);
      }
      if done {
        LastCovers(g, ids, idx, idx + 1);
        w.SetDone(false);
        return visited, w.error;
      }
    }
  }
}
