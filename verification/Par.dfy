/** The parallel enumeration harness of src/kernel/lfu_par.c: workers check two flags, draw a chunk with an atomic
    increment, walk it with a private iterator, and add four sums to four shared counters, one atomic add each.
    Whatever the interleaving, the counters come out as one iterator over the whole table would leave them. */
module Par {
  import opened Bits
  import opened Records
  import opened Chunks
  import Pool

  // ------------------------------------------------------------------
  // The hashes

  const K_SEQ: nat := 0x9E3779B97F4A7C15
  const K_OID: nat := 0x2545F4914F6CDD1D
  const K_MODE: nat := 0x100000001B3
  const K_NLINK: nat := 0x85EBCA77C2B2AE63
  const K_GID: nat := 0xC2B2AE3D27D4EB4F
  const K_SIZE: nat := 0x165667B19E3779F9
  const K_BLOCKS: nat := 0x27D4EB2F165667C5

  /** What rec() fills: the FID, and the attributes when LA_MODE says they are there. */
  datatype Entry = Entry(fid: Fid, modeValid: bool, mode: u32, nlink: u32, uid: u32, gid: u32, size: u64, blocks: u64,
                         atime: int, mtime: int, ctime: int)

  function FidHash(f: Fid): u64 {
    (f.seq_ * K_SEQ + f.oid * K_OID + f.ver) % TWO64
  }

  function AttrHash(e: Entry): u64 {
    (e.mode * K_MODE + e.nlink * K_NLINK + e.uid * K_SEQ + e.gid * K_GID + e.size * K_SIZE + e.blocks * K_BLOCKS
     + e.atime % TWO64 + (e.mtime % TWO64) * 3 + (e.ctime % TWO64) * 7) % TWO64
  }

  predicate AttrOk(e: Entry) {
    e.modeValid && e.mode != 0
  }

  /** The four counters: objects, attr_ok, fidsum, attrsum. */
  const COUNTERS: nat := 4

  type Weigh = (nat, nat) -> nat

  /** What an object adds to counter k. */
  function EntryWeight(k: nat, e: Entry, recattr: bool): (n: nat)
    ensures n < TWO64
  {
    if k == 0 then 1
    else if k == 2 then FidHash(e.fid)
    else if !recattr || !AttrOk(e) then 0
    else if k == 1 then 1
    else AttrHash(e)
  }

  function WeightOf(table: nat -> Entry, recattr: bool): Weigh {
    (k: nat, id: nat) => EntryWeight(k, table(id), recattr)
  }

  function Sum(weigh: Weigh, k: nat, ids: seq<nat>): (n: nat) {
    if ids == [] then 0 else Sum(weigh, k, ids[..|ids| - 1]) + weigh(k, ids[|ids| - 1])
  }

  lemma {:induction false} SumAppend(weigh: Weigh, k: nat, a: seq<nat>, b: seq<nat>)
    ensures Sum(weigh, k, a + b) == Sum(weigh, k, a) + Sum(weigh, k, b)
    decreases |b|
  {
    if b == [] {
      assert a + b == a;
    } else {
      var m := |b| - 1;
      SumAppend(weigh, k, a, b[..m]);
      assert (a + b)[..|a + b| - 1] == a + b[..m];
    }
  }

  lemma SumStep(weigh: Weigh, k: nat, ids: seq<nat>, n: nat)
    requires n < |ids|
    ensures Sum(weigh, k, ids[..n + 1]) == Sum(weigh, k, ids[..n]) + weigh(k, ids[n])
  {
    assert ids[..n + 1][..n] == ids[..n];
  }

  lemma AddMod(a: nat, b: nat)
    ensures (a % TWO64 + b) % TWO64 == (a + b) % TWO64
  {
    var q := a / TWO64;
    assert a == q * TWO64 + a % TWO64;
    DropMultiple(a % TWO64 + b, q);
  }

  lemma SumMod(weigh: Weigh, k: nat, ids: seq<nat>, n: nat)
    requires n < |ids|
    ensures (Sum(weigh, k, ids[..n]) % TWO64 + weigh(k, ids[n])) % TWO64 == Sum(weigh, k, ids[..n + 1]) % TWO64
  {
    SumStep(weigh, k, ids, n);
    AddMod(Sum(weigh, k, ids[..n]), weigh(k, ids[n]));
  }

  /** The four local 64-bit sums after some ids. */
  predicate SumsAre(weigh: Weigh, ids: seq<nat>, n: nat, aok: nat, sum: nat, asum: nat) {
    && n == Sum(weigh, 0, ids) % TWO64 && aok == Sum(weigh, 1, ids) % TWO64
    && sum == Sum(weigh, 2, ids) % TWO64 && asum == Sum(weigh, 3, ids) % TWO64
  }

  lemma WeightsOf(table: nat -> Entry, recattr: bool, id: nat)
    ensures var w, e := WeightOf(table, recattr), table(id);
            && w(0, id) == 1 && w(2, id) == FidHash(e.fid)
            && w(1, id) == (if recattr && AttrOk(e) then 1 else 0)
            && w(3, id) == (if recattr && AttrOk(e) then AttrHash(e) else 0)
  {
  }

  lemma SumsStep(weigh: Weigh, ids: seq<nat>, i: nat, n: nat, aok: nat, sum: nat, asum: nat)
    requires i < |ids| && SumsAre(weigh, ids[..i], n, aok, sum, asum)
    ensures SumsAre(weigh, ids[..i + 1], (n + weigh(0, ids[i])) % TWO64, (aok + weigh(1, ids[i])) % TWO64,
                    (sum + weigh(2, ids[i])) % TWO64, (asum + weigh(3, ids[i])) % TWO64)
    ensures aok < TWO64 && asum < TWO64
  {
    SumMod(weigh, 0, ids, i);
    SumMod(weigh, 1, ids, i);
    SumMod(weigh, 2, ids, i);
    SumMod(weigh, 3, ids, i);
  }

  lemma AddNothing(n: nat)
    requires n < TWO64
    ensures (n + 0) % TWO64 == n
  {
  }

  lemma EntryStep(table: nat -> Entry, recattr: bool, ids: seq<nat>, i: nat, n: nat, aok: nat, sum: nat, asum: nat)
    requires i < |ids| && SumsAre(WeightOf(table, recattr), ids[..i], n, aok, sum, asum)
    ensures var e := table(ids[i]);
            var ok := recattr && AttrOk(e);
            SumsAre(WeightOf(table, recattr), ids[..i + 1], (n + 1) % TWO64, if ok then (aok + 1) % TWO64 else aok,
                    (sum + FidHash(e.fid)) % TWO64, if ok then (asum + AttrHash(e)) % TWO64 else asum)
  {
    SumsStep(WeightOf(table, recattr), ids, i, n, aok, sum, asum);
    WeightsOf(table, recattr, ids[i]);
    AddNothing(aok);
    AddNothing(asum);
  }

  /** The body of lfu_par_scan_range over the ids it visits: objects, readable attributes, and the two hash sums. */
  method LocalSums(table: nat -> Entry, recattr: bool, visited: seq<nat>) returns (sums: seq<nat>)
    ensures |sums| == COUNTERS
    ensures forall k :: 0 <= k < COUNTERS ==> sums[k] == Sum(WeightOf(table, recattr), k, visited) % TWO64
  {
    var n: nat, aok: nat, sum: nat, asum: nat := 0, 0, 0, 0;
    var i := 0;
    while i < |visited|
      invariant 0 <= i <= |visited| && SumsAre(WeightOf(table, recattr), visited[..i], n, aok, sum, asum)
    {
      EntryStep(table, recattr, visited, i, n, aok, sum, asum);
      var e := table(visited[i]);
      n, sum := (n + 1) % TWO64, (sum + FidHash(e.fid)) % TWO64;
      if recattr && AttrOk(e) {
        aok, asum := (aok + 1) % TWO64, (asum + AttrHash(e)) % TWO64;
      }
      i := i + 1;
    }
    assert visited[..|visited|] == visited;
    return [n, aok, sum, asum];
  }

  // ------------------------------------------------------------------
  // The protocol

  datatype Config = Config(chunk: nat -> seq<nat>, last: nat -> bool, weigh: Weigh, workers: nat)

  datatype Pc =
    | Starting
    | AtDone                                            // about to read st.done
    | AtErr                                             // about to read st.err
    | AtTake                                            // about to increment the cursor
    | Walking(c: nat)
    | Adding(c: nat, k: nat, upto: nat, failed: bool)   // about to add the k-th sum, over the first `upto` ids
    | Marking                                           // about to set st.done
    | ErrRead                                           // about to read st.err before reporting
    | ErrWrite
    | Exited(began: bool)

  /** Shared variables and program counters; then history: who drew each chunk, how many of its sums have been added,
      whether and by whom a chunk was cut short, and a chunk after which the end was seen. */
  datatype State = State(
    cursor: nat, done: bool, err: bool, counters: seq<nat>, pcs: seq<Pc>,
    owner: seq<nat>, stage: seq<nat>, cut: bool, culprit: nat, end: nat)

  datatype Action =
    | Begin(w: nat)
    | EnvFails(w: nat)            // lu_env_init failed: the worker leaves without touching the shared state
    | ReadDone(w: nat)
    | ReadErr(w: nat)
    | Take(w: nat)
    | Walk(w: nat)                // the chunk was walked to its end
    | WalkFails(w: nat, upto: nat)
    | Add(w: nat)
    | Mark(w: nat)
    | CheckErr(w: nat)
    | WriteErr(w: nat)
    | SpawnFails                  // kthread_run failed for some further worker

  function Init(c: Config): State {
    State(0, false, false, [0, 0, 0, 0], seq(c.workers, i => Starting), [], [], false, 0, 0)
  }

  predicate HasChunk(p: Pc, k: nat) {
    (p.Walking? && p.c == k) || (p.Adding? && p.c == k)
  }

  predicate Shaped(c: Config, s: State) {
    && |s.counters| == COUNTERS && |s.pcs| == c.workers && |s.owner| == s.cursor && |s.stage| == s.cursor
    && forall w :: 0 <= w < c.workers && (s.pcs[w].Walking? || s.pcs[w].Adding?) ==> PlaceOk(c, s, s.pcs[w])
  }

  predicate PlaceOk(c: Config, s: State, p: Pc)
    requires p.Walking? || p.Adding?
  {
    p.c < s.cursor && (p.Adding? ==> p.k < COUNTERS && p.upto <= |c.chunk(p.c)|)
  }

  predicate Enabled(c: Config, s: State, a: Action)
    requires Shaped(c, s)
  {
    if a.SpawnFails? then true else
    a.w < c.workers &&
    match a
    case Begin(w) => s.pcs[w].Starting?
    case EnvFails(w) => s.pcs[w].Starting?
    case ReadDone(w) => s.pcs[w].AtDone?
    case ReadErr(w) => s.pcs[w].AtErr?
    case Take(w) => s.pcs[w].AtTake?
    case Walk(w) => s.pcs[w].Walking?
    case WalkFails(w, upto) => s.pcs[w].Walking? && upto <= |c.chunk(s.pcs[w].c)|
    case Add(w) => s.pcs[w].Adding?
    case Mark(w) => s.pcs[w].Marking?
    case CheckErr(w) => s.pcs[w].ErrRead?
    case WriteErr(w) => s.pcs[w].ErrWrite?
  }

  /** Where a worker goes when its four sums are in. */
  function AfterAdds(c: Config, p: Pc): (q: Pc)
    requires p.Adding?
  {
    if p.failed then ErrRead else if c.last(p.c) then Marking else AtDone
  }

  /** atomic64_add of the k-th local sum. */
  function AddStep(c: Config, s: State, w: nat): State
    requires Shaped(c, s) && w < c.workers && s.pcs[w].Adding?
  {
    var p := s.pcs[w];
    var local := Sum(c.weigh, p.k, c.chunk(p.c)[..p.upto]) % TWO64;
    s.(counters := s.counters[p.k := (s.counters[p.k] + local) % TWO64],
       stage := s.stage[p.c := p.k + 1],
       pcs := s.pcs[w := if p.k + 1 < COUNTERS then p.(k := p.k + 1) else AfterAdds(c, p)],
       end := if p.k + 1 == COUNTERS && !p.failed && c.last(p.c) then p.c else s.end)
  }

  function Step(c: Config, s: State, a: Action): State
    requires Shaped(c, s) && Enabled(c, s, a)
  {
    match a
    case SpawnFails => s.(err := true)
    case Begin(w) => s.(pcs := s.pcs[w := AtDone])
    case EnvFails(w) => s.(pcs := s.pcs[w := Exited(false)])
    case ReadDone(w) => s.(pcs := s.pcs[w := if s.done then Exited(true) else AtErr])
    case ReadErr(w) => s.(pcs := s.pcs[w := if s.err then Exited(true) else AtTake])
    case Take(w) =>
      s.(cursor := s.cursor + 1, pcs := s.pcs[w := Walking(s.cursor)], owner := s.owner + [w], stage := s.stage + [0])
    case Walk(w) => s.(pcs := s.pcs[w := Adding(s.pcs[w].c, 0, |c.chunk(s.pcs[w].c)|, false)])
    case WalkFails(w, upto) => s.(pcs := s.pcs[w := Adding(s.pcs[w].c, 0, upto, true)], cut := true, culprit := w)
    case Add(w) => AddStep(c, s, w)
    case Mark(w) => s.(done := true, pcs := s.pcs[w := Exited(true)])
    case CheckErr(w) => s.(pcs := s.pcs[w := if s.err then Exited(true) else ErrWrite])
    case WriteErr(w) => s.(err := true, pcs := s.pcs[w := Exited(true)])
  }

  // ------------------------------------------------------------------
  // Every step keeps

  /** Each chunk belongs to the worker that drew it, which is still at it unless all four sums are in. */
  predicate OwnInv(c: Config, s: State)
    requires Shaped(c, s)
  {
    && (forall k :: 0 <= k < s.cursor ==> s.owner[k] < c.workers)
    && (forall w :: 0 <= w < c.workers && s.pcs[w].Walking? ==> s.owner[s.pcs[w].c] == w && s.stage[s.pcs[w].c] == 0)
    && (forall w :: 0 <= w < c.workers && s.pcs[w].Adding? ==>
          s.owner[s.pcs[w].c] == w && s.stage[s.pcs[w].c] == s.pcs[w].k)
    && (forall k :: 0 <= k < s.cursor ==> s.stage[k] == COUNTERS || HasChunk(s.pcs[s.owner[k]], k))
  }

  predicate Failing(p: Pc) {
    p.ErrRead? || p.ErrWrite? || (p.Adding? && p.failed)
  }

  predicate EndSeen(c: Config, s: State) {
    s.end < s.cursor && c.last(s.end)
  }

  /** Workers leave for a reason, and a chunk cut short is an error, reported or about to be. */
  predicate FlagsInv(c: Config, s: State)
    requires Shaped(c, s)
  {
    && (forall w :: 0 <= w < c.workers && s.pcs[w] == Exited(true) ==> s.done || s.err)
    && (forall w :: 0 <= w < c.workers && s.pcs[w].Marking? ==> EndSeen(c, s))
    && (s.done ==> EndSeen(c, s))
    && (s.cut ==> s.err || (s.culprit < c.workers && Failing(s.pcs[s.culprit])))
    && (forall w :: 0 <= w < c.workers && s.pcs[w].Adding? && !s.cut ==>
          !s.pcs[w].failed && s.pcs[w].upto == |c.chunk(s.pcs[w].c)|)
  }

  /** The k-th sums of the chunks that have got that far. */
  function Added(c: Config, k: nat, stage: seq<nat>): (n: nat) {
    if stage == [] then 0
    else
      var m := |stage| - 1;
      Added(c, k, stage[..m]) + if stage[m] > k then Sum(c.weigh, k, c.chunk(m)) else 0
  }

  /** Every counter is what the stages say. */
  predicate CountersAre(c: Config, counters: seq<nat>, stage: seq<nat>) {
    forall k :: 0 <= k < |counters| ==> counters[k] == Added(c, k, stage) % TWO64
  }

  /** No counter has lost or doubled a sum. */
  predicate CountInv(c: Config, s: State)
    requires |s.counters| == COUNTERS
  {
    !s.cut ==> CountersAre(c, s.counters, s.stage)
  }

  predicate Inv(c: Config, s: State) {
    Shaped(c, s) && OwnInv(c, s) && FlagsInv(c, s) && CountInv(c, s)
  }

  /** Steps that touch neither the chunks nor the counters. */
  predicate Quiet(a: Action) {
    !a.Take? && !a.Walk? && !a.WalkFails? && !a.Add?
  }

  predicate EmptyHanded(p: Pc) {
    !p.Walking? && !p.Adding?
  }

  lemma MoveKeepsOwn(c: Config, s: State, w: nat, p: Pc)
    requires Shaped(c, s) && OwnInv(c, s) && w < c.workers && EmptyHanded(s.pcs[w]) && EmptyHanded(p)
    ensures var t := s.(pcs := s.pcs[w := p]); Shaped(c, t) && OwnInv(c, t)
  {
  }

  lemma QuietMoves(c: Config, s: State, a: Action)
    requires Shaped(c, s) && Enabled(c, s, a) && Quiet(a) && !a.SpawnFails?
    ensures var t := Step(c, s, a);
            && |t.pcs| == |s.pcs| && t == s.(pcs := s.pcs[a.w := t.pcs[a.w]], done := t.done, err := t.err)
            && EmptyHanded(s.pcs[a.w]) && EmptyHanded(t.pcs[a.w])
  {
  }

  lemma QuietKeepsOwn(c: Config, s: State, a: Action)
    requires Shaped(c, s) && OwnInv(c, s) && Enabled(c, s, a) && Quiet(a)
    ensures Shaped(c, Step(c, s, a)) && OwnInv(c, Step(c, s, a))
  {
    if !a.SpawnFails? {
      QuietMoves(c, s, a);
      MoveKeepsOwn(c, s, a.w, Step(c, s, a).pcs[a.w]);
    }
  }

  lemma TakeKeepsOwn(c: Config, s: State, w: nat)
    requires Shaped(c, s) && OwnInv(c, s) && Enabled(c, s, Take(w))
    ensures Shaped(c, Step(c, s, Take(w))) && OwnInv(c, Step(c, s, Take(w)))
  {
  }

  lemma WalkKeepsOwn(c: Config, s: State, w: nat, upto: nat, failed: bool)
    requires Shaped(c, s) && OwnInv(c, s) && w < c.workers && s.pcs[w].Walking? && upto <= |c.chunk(s.pcs[w].c)|
    ensures var t := s.(pcs := s.pcs[w := Adding(s.pcs[w].c, 0, upto, failed)]);
            Shaped(c, t) && OwnInv(c, t)
  {
  }

  lemma AddKeepsOwn(c: Config, s: State, w: nat)
    requires Shaped(c, s) && OwnInv(c, s) && Enabled(c, s, Add(w))
    ensures Shaped(c, AddStep(c, s, w)) && OwnInv(c, AddStep(c, s, w))
  {
    var t := AddStep(c, s, w);
    forall k | 0 <= k < t.cursor
      ensures t.stage[k] == COUNTERS || HasChunk(t.pcs[t.owner[k]], k)
    {
      if k != s.pcs[w].c && s.owner[k] == w {
        assert !HasChunk(s.pcs[w], k);
      }
    }
  }

  lemma StepKeepsOwn(c: Config, s: State, a: Action)
    requires Shaped(c, s) && OwnInv(c, s) && Enabled(c, s, a)
    ensures Shaped(c, Step(c, s, a)) && OwnInv(c, Step(c, s, a))
  {
    match a {
      case Take(w) => TakeKeepsOwn(c, s, w);
      case Walk(w) => WalkKeepsOwn(c, s, w, |c.chunk(s.pcs[w].c)|, false);
      case WalkFails(w, upto) => WalkKeepsOwn(c, s, w, upto, true);
      case Add(w) => AddKeepsOwn(c, s, w);
      case _ => QuietKeepsOwn(c, s, a);
    }
  }

  lemma QuietKeepsFlags(c: Config, s: State, a: Action)
    requires Shaped(c, s) && FlagsInv(c, s) && Enabled(c, s, a) && Quiet(a)
    ensures Shaped(c, Step(c, s, a)) ==> FlagsInv(c, Step(c, s, a))
  {
  }

  lemma ChunkKeepsFlags(c: Config, s: State, a: Action)
    requires Shaped(c, s) && FlagsInv(c, s) && Enabled(c, s, a) && (a.Take? || a.Walk? || a.WalkFails?)
    ensures Shaped(c, Step(c, s, a)) ==> FlagsInv(c, Step(c, s, a))
  {
  }

  lemma AddKeepsFlags(c: Config, s: State, w: nat)
    requires Shaped(c, s) && FlagsInv(c, s) && Enabled(c, s, Add(w))
    ensures Shaped(c, AddStep(c, s, w)) ==> FlagsInv(c, AddStep(c, s, w))
  {
  }

  lemma StepKeepsFlags(c: Config, s: State, a: Action)
    requires Shaped(c, s) && FlagsInv(c, s) && Enabled(c, s, a)
    ensures Shaped(c, Step(c, s, a)) ==> FlagsInv(c, Step(c, s, a))
  {
    if Quiet(a) {
      QuietKeepsFlags(c, s, a);
    } else if a.Add? {
      AddKeepsFlags(c, s, a.w);
    } else {
      ChunkKeepsFlags(c, s, a);
    }
  }

  lemma {:induction false} AddedBump(c: Config, k: nat, stage: seq<nat>, i: nat)
    requires i < |stage|
    ensures Added(c, k, stage[i := stage[i] + 1]) ==
            Added(c, k, stage) + if stage[i] == k then Sum(c.weigh, k, c.chunk(i)) else 0
    decreases |stage|
  {
    var m := |stage| - 1;
    var next := stage[i := stage[i] + 1];
    if i == m {
      assert next[..m] == stage[..m];
    } else {
      AddedBump(c, k, stage[..m], i);
      assert next[..m] == stage[..m][i := stage[..m][i] + 1];
    }
  }

  lemma AddedOpen(c: Config, k: nat, stage: seq<nat>)
    ensures Added(c, k, stage + [0]) == Added(c, k, stage)
  {
    assert (stage + [0])[..|stage|] == stage;
  }

  lemma AddBoth(a: nat, b: nat)
    ensures (a % TWO64 + b % TWO64) % TWO64 == (a + b) % TWO64
  {
    AddMod(b, a % TWO64);
    AddMod(a, b);
  }

  lemma CounterBump(c: Config, k: nat, stage: seq<nat>, i: nat, counter: nat)
    requires i < |stage| && counter == Added(c, k, stage) % TWO64
    ensures (if stage[i] == k then (counter + Sum(c.weigh, k, c.chunk(i)) % TWO64) % TWO64 else counter) ==
            Added(c, k, stage[i := stage[i] + 1]) % TWO64
  {
    AddedBump(c, k, stage, i);
    AddBoth(Added(c, k, stage), Sum(c.weigh, k, c.chunk(i)));
  }

  /** The j-th sum of chunk i is added: every counter is still what the stages say. */
  lemma AddBumps(c: Config, k: nat, counters: seq<nat>, stage: seq<nat>, i: nat, j: nat)
    requires k < |counters| && j < |counters| && i < |stage| && stage[i] == j
    requires counters[k] == Added(c, k, stage) % TWO64
    ensures counters[j := (counters[j] + Sum(c.weigh, j, c.chunk(i)) % TWO64) % TWO64][k] ==
            Added(c, k, stage[i := j + 1]) % TWO64
  {
    CounterBump(c, k, stage, i, counters[k]);
  }

  lemma AddBumpsAll(c: Config, counters: seq<nat>, stage: seq<nat>, i: nat, j: nat)
    requires j < |counters| && i < |stage| && stage[i] == j && CountersAre(c, counters, stage)
    ensures var next := counters[j := (counters[j] + Sum(c.weigh, j, c.chunk(i)) % TWO64) % TWO64];
            CountersAre(c, next, stage[i := j + 1])
  {
    var next := counters[j := (counters[j] + Sum(c.weigh, j, c.chunk(i)) % TWO64) % TWO64];
    forall k | 0 <= k < |next|
      ensures next[k] == Added(c, k, stage[i := j + 1]) % TWO64
    {
      AddBumps(c, k, counters, stage, i, j);
    }
  }

  lemma AddCounts(c: Config, s: State, w: nat, p: Pc)
    requires Shaped(c, s) && w < c.workers && p.Adding? && s.pcs[w] == p && PlaceOk(c, s, p)
    requires s.stage[p.c] == p.k && p.upto == |c.chunk(p.c)| && CountersAre(c, s.counters, s.stage)
    ensures CountersAre(c, AddStep(c, s, w).counters, AddStep(c, s, w).stage)
  {
    assert c.chunk(p.c)[..p.upto] == c.chunk(p.c);
    AddBumpsAll(c, s.counters, s.stage, p.c, p.k);
  }

  lemma AddKeepsCount(c: Config, s: State, w: nat)
    requires Inv(c, s) && Enabled(c, s, Add(w))
    ensures CountInv(c, AddStep(c, s, w))
  {
    if !s.cut {
      AddCounts(c, s, w, s.pcs[w]);
    }
  }

  lemma StepKeepsInv(c: Config, s: State, a: Action)
    requires Inv(c, s) && Enabled(c, s, a)
    ensures Inv(c, Step(c, s, a))
  {
    StepKeepsOwn(c, s, a);
    StepKeepsFlags(c, s, a);
    if a.Add? {
      AddKeepsCount(c, s, a.w);
    } else if a.Take? {
      forall k | 0 <= k < COUNTERS
        ensures Added(c, k, s.stage + [0]) == Added(c, k, s.stage)
      {
        AddedOpen(c, k, s.stage);
      }
    }
  }

  // ------------------------------------------------------------------
  // Runs

  ghost predicate Reaches(c: Config, acts: seq<Action>, s: State)
    decreases |acts|
  {
    if acts == [] then s == Init(c)
    else
      var before, a := acts[..|acts| - 1], acts[|acts| - 1];
      exists p :: Reaches(c, before, p) && Shaped(c, p) && Enabled(c, p, a) && s == Step(c, p, a)
  }

  lemma {:induction false} RunsKeepInv(c: Config, acts: seq<Action>, s: State)
    requires Reaches(c, acts, s)
    ensures Inv(c, s)
    decreases |acts|
  {
    if acts != [] {
      var k := |acts| - 1;
      var p :| Reaches(c, acts[..k], p) && Shaped(c, p) && Enabled(c, p, acts[k]) && s == Step(c, p, acts[k]);
      RunsKeepInv(c, acts[..k], p);
      StepKeepsInv(c, p, acts[k]);
    }
  }

  predicate Joined(s: State) {
    forall w :: 0 <= w < |s.pcs| ==> s.pcs[w].Exited?
  }

  /** Some worker got as far as its loop. */
  predicate SomeBegan(s: State) {
    exists w :: 0 <= w < |s.pcs| && s.pcs[w] == Exited(true)
  }

  lemma {:induction false} AllAdded(c: Config, k: nat, stage: seq<nat>)
    requires k < COUNTERS && forall i :: 0 <= i < |stage| ==> stage[i] == COUNTERS
    ensures Added(c, k, stage) == Sum(c.weigh, k, Pool.Drawn(c.chunk, |stage|))
    decreases |stage|
  {
    if stage != [] {
      var m := |stage| - 1;
      AllAdded(c, k, stage[..m]);
      SumAppend(c.weigh, k, Pool.Drawn(c.chunk, m), c.chunk(m));
    }
  }

  /** All the counters of a run that ended without error: the sums over every object drawn, once each. */
  lemma CountersExact(c: Config, acts: seq<Action>, s: State)
    requires Reaches(c, acts, s) && Joined(s) && SomeBegan(s) && !s.err
    ensures EndSeen(c, s) && |s.counters| == COUNTERS
    ensures forall k :: 0 <= k < COUNTERS ==> s.counters[k] == Sum(c.weigh, k, Pool.Drawn(c.chunk, s.cursor)) % TWO64
  {
    RunsKeepInv(c, acts, s);
    forall i | 0 <= i < s.cursor
      ensures s.stage[i] == COUNTERS
    {
      assert s.pcs[s.owner[i]].Exited?;
    }
    forall k | 0 <= k < COUNTERS
      ensures s.counters[k] == Sum(c.weigh, k, Pool.Drawn(c.chunk, s.cursor)) % TWO64
    {
      AllAdded(c, k, s.stage);
    }
  }

  function Over(ids: seq<nat>, chunk: nat, weigh: Weigh, workers: nat): Config
    requires Target(Geometry.Par(chunk), ids)
  {
    Config(k => Chunk(Geometry.Par(chunk), ids, k), (k: nat) => Last(Geometry.Par(chunk), ids, k), weigh, workers)
  }

  /** The counters after the unpatched singleton iterator has walked the whole table. */
  function Baseline(weigh: Weigh, ids: seq<nat>): seq<nat> {
    seq(COUNTERS, (k: nat) => Sum(weigh, k, ids) % TWO64)
  }

  /** The baseline worker: one iterator, the whole table. */
  method WholeTable(table: nat -> Entry, recattr: bool, ids: seq<nat>) returns (sums: seq<nat>)
    requires Increasing(ids) && forall i :: 0 <= i < |ids| ==> 1 <= ids[i] < TWO64 - 1
    ensures sums == Baseline(WeightOf(table, recattr), ids)
  {
    var visited, _ := ScanRange(ids, 0, TWO64 - 1);
    BelowUnique(ids, 1, 0);
    BelowUnique(ids, TWO64 - 1, |ids|);
    assert visited == ids;
    sums := LocalSums(table, recattr, visited);
  }

  /** Same table, same counters: any thread count, any chunk size, any interleaving gives exactly what one iterator
      over the whole table gives, provided no error was reported and some worker got as far as its loop. */
  lemma SameCountersAsBaseline(ids: seq<nat>, chunk: nat, weigh: Weigh, workers: nat, acts: seq<Action>, s: State)
    requires Target(Geometry.Par(chunk), ids)
    requires Reaches(Over(ids, chunk, weigh, workers), acts, s) && Joined(s) && !s.err && SomeBegan(s)
    ensures s.counters == Baseline(weigh, ids)
  {
    var c := Over(ids, chunk, weigh, workers);
    CountersExact(c, acts, s);
    var g := Geometry.Par(chunk);
    var p := Pool.Over(g, ids, workers, false);
    Pool.BackendTiles(g, ids, p);
    SameDrawn(c.chunk, p.chunk, s.cursor);
    assert p.last(s.end);
    assert Pool.Drawn(c.chunk, s.cursor) == ids;
  }

  lemma {:induction false} SameDrawn(a: nat -> seq<nat>, b: nat -> seq<nat>, n: nat)
    requires forall k: nat :: a(k) == b(k)
    ensures Pool.Drawn(a, n) == Pool.Drawn(b, n)
    decreases n
  {
    if n > 0 {
      SameDrawn(a, b, n - 1);
    }
  }

  // ------------------------------------------------------------------
  // The checksum

  function FidSum(table: nat -> Entry, ids: seq<nat>): (n: nat) {
    if ids == [] then 0 else FidSum(table, ids[..|ids| - 1]) + FidHash(table(ids[|ids| - 1]).fid)
  }

  /** The ids whose attributes were read. */
  function Readable(table: nat -> Entry, ids: seq<nat>): (r: seq<nat>) {
    if ids == [] then []
    else
      var id := ids[|ids| - 1];
      Readable(table, ids[..|ids| - 1]) + if AttrOk(table(id)) then [id] else []
  }

  function AttrSum(table: nat -> Entry, ids: seq<nat>): (n: nat) {
    if ids == [] then 0 else AttrSum(table, ids[..|ids| - 1]) + AttrHash(table(ids[|ids| - 1]))
  }

  lemma AttrSumStep(table: nat -> Entry, ids: seq<nat>, id: nat)
    ensures AttrSum(table, ids + [id]) == AttrSum(table, ids) + AttrHash(table(id))
  {
    assert (ids + [id])[..|ids|] == ids;
  }

  lemma {:induction false} SumsMean(table: nat -> Entry, recattr: bool, ids: seq<nat>)
    ensures var w, ok := WeightOf(table, recattr), if recattr then Readable(table, ids) else [];
            && Sum(w, 0, ids) == |ids| && Sum(w, 2, ids) == FidSum(table, ids)
            && Sum(w, 1, ids) == |ok| && Sum(w, 3, ids) == AttrSum(table, ok)
    decreases |ids|
  {
    if ids != [] {
      var k := |ids| - 1;
      SumsMean(table, recattr, ids[..k]);
      WeightsOf(table, recattr, ids[k]);
      if recattr && AttrOk(table(ids[k])) {
        AttrSumStep(table, Readable(table, ids[..k]), ids[k]);
      } else {
        assert Readable(table, ids[..k]) + [] == Readable(table, ids[..k]);
      }
    }
  }

  /** What an error-free run reports, over a table with the harness's own hashes: how many objects, how many with
      attributes, and the sums of their FID and attribute hashes, all modulo 2^64. */
  lemma ReportedChecksums(ids: seq<nat>, chunk: nat, table: nat -> Entry, recattr: bool, workers: nat,
                          acts: seq<Action>, s: State)
    requires Target(Geometry.Par(chunk), ids)
    requires Reaches(Over(ids, chunk, WeightOf(table, recattr), workers), acts, s)
    requires Joined(s) && !s.err && SomeBegan(s)
    ensures var ok := if recattr then Readable(table, ids) else [];
            s.counters == [|ids| % TWO64, |ok| % TWO64, FidSum(table, ids) % TWO64, AttrSum(table, ok) % TWO64]
  {
    SameCountersAsBaseline(ids, chunk, WeightOf(table, recattr), workers, acts, s);
    SumsMean(table, recattr, ids);
  }

  /** No worker has got as far as its loop. */
  predicate Untouched(s: State) {
    forall w :: 0 <= w < |s.pcs| ==> s.pcs[w].Starting? || s.pcs[w] == Exited(false)
  }

  lemma UntouchedBefore(c: Config, s: State, a: Action)
    requires Shaped(c, s) && Enabled(c, s, a) && Untouched(Step(c, s, a))
    ensures Untouched(s) && Step(c, s, a).counters == s.counters
  {
    var t := Step(c, s, a);
    if !a.SpawnFails? {
      assert t.pcs[a.w].Starting? || t.pcs[a.w] == Exited(false);
      forall w | 0 <= w < |s.pcs| && w != a.w
        ensures s.pcs[w] == t.pcs[w]
      {
      }
    }
  }

  lemma {:induction false} UntouchedRuns(c: Config, acts: seq<Action>, s: State)
    requires Reaches(c, acts, s) && Untouched(s)
    ensures s.counters == [0, 0, 0, 0]
    decreases |acts|
  {
    if acts != [] {
      var k := |acts| - 1;
      var p :| Reaches(c, acts[..k], p) && Shaped(c, p) && Enabled(c, p, acts[k]) && s == Step(c, p, acts[k]);
      UntouchedBefore(c, p, acts[k]);
      UntouchedRuns(c, acts[..k], p);
    }
  }

  /** An error-free run leaves the baseline's counters exactly when some worker got as far as its loop, or the
      baseline's are all zero. */
  lemma SameCountersExactlyWhen(ids: seq<nat>, chunk: nat, weigh: Weigh, workers: nat, acts: seq<Action>, s: State)
    requires Target(Geometry.Par(chunk), ids)
    requires Reaches(Over(ids, chunk, weigh, workers), acts, s) && Joined(s) && !s.err
    ensures s.counters == Baseline(weigh, ids) <==> SomeBegan(s) || Baseline(weigh, ids) == [0, 0, 0, 0]
  {
    if SomeBegan(s) {
      SameCountersAsBaseline(ids, chunk, weigh, workers, acts, s);
    } else {
      UntouchedRuns(Over(ids, chunk, weigh, workers), acts, s);
    }
  }

  /** A worker that cannot set up its environment leaves no error behind: a run of one such worker reports success
      and an empty table. */
  lemma FailedSetupGoesUnreported(c: Config)
    requires c.workers == 1
    ensures exists s :: Reaches(c, [EnvFails(0)], s) && Joined(s) && !s.err && s.counters == [0, 0, 0, 0]
  {
    var s := Step(c, Init(c), EnvFails(0));
    assert [EnvFails(0)][..0] == [];
    assert Reaches(c, [], Init(c));
    assert Reaches(c, [EnvFails(0)], s);
  }
}
