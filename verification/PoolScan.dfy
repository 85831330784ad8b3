/** The worker pool and what its workers print and count: whatever the schedule, together they print the lines and count
    the statistics of a single worker that walks the whole target. */
module PoolScan {
  import opened Bags
  import opened Bits
  import opened Records
  import opened Filter
  import opened Chunks
  import opened Core
  import Dev = Device
  import Linkea
  import Pool

  /** The entries behind these ids. */
  function Entries<T>(table: nat -> T, ids: seq<nat>): (xs: seq<T>)
    ensures |xs| == |ids|
  {
    if ids == [] then [] else Entries(table, ids[..|ids| - 1]) + [table(ids[|ids| - 1])]
  }

  /** What the entry behind an id adds. */
  function Behind<T, E(==)>(f: T -> multiset<E>, table: nat -> T): nat -> multiset<E> {
    (id: nat) => f(table(id))
  }

  lemma {:induction false} EntriesTallied<T, E>(f: T -> multiset<E>, table: nat -> T, ids: seq<nat>)
    ensures Tallied(f, Entries(table, ids)) == Tallied(Behind(f, table), ids)
    decreases |ids|
  {
    if ids != [] {
      var k := |ids| - 1;
      EntriesTallied(f, table, ids[..k]);
      TalliedPush(f, Entries(table, ids[..k]), table(ids[k]));
    }
  }

  /** The line an element gives, as a bag. */
  function LineBag<T>(show: T -> Option<Line>): T -> multiset<Line> {
    x => multiset(Maybe(show(x)))
  }

  lemma {:induction false} LinesTallied<T>(show: T -> Option<Line>, xs: seq<T>)
    ensures multiset(Collect(show, xs)) == Tallied(LineBag(show), xs)
    decreases |xs|
  {
    if xs != [] {
      LinesTallied(show, xs[..|xs| - 1]);
    }
  }

  /** What one worker leaves: the lines and the counters of the entries it was handed. */
  predicate Leaves<T>(show: T -> Option<Line>, count: T -> Stats, table: nat -> T, ids: seq<nat>,
                      out: seq<Line>, st: Stats)
  {
    out == Collect(show, Entries(table, ids)) && st == Tallied(count, Entries(table, ids))
  }

  /** What the workers with these hands leave together. */
  predicate LeaveTogether<T>(show: T -> Option<Line>, count: T -> Stats, table: nat -> T, handed: seq<seq<nat>>,
                             out: multiset<Line>, st: Stats)
  {
    && out == TalliedParts(Behind(LineBag(show), table), handed)
    && st == TalliedParts(Behind(count, table), handed)
  }

  lemma OneMoreWorker<T>(show: T -> Option<Line>, count: T -> Stats, table: nat -> T, handed: seq<seq<nat>>, w: nat,
                         out: multiset<Line>, st: Stats, more: seq<Line>, counted: Stats)
    requires w < |handed| && LeaveTogether(show, count, table, handed[..w], out, st)
    requires Leaves(show, count, table, handed[w], more, counted)
    ensures LeaveTogether(show, count, table, handed[..w + 1], out + multiset(more), st + counted)
  {
    LinesTallied(show, Entries(table, handed[w]));
    EntriesTallied(LineBag(show), table, handed[w]);
    EntriesTallied(count, table, handed[w]);
    PartsStep(Behind(LineBag(show), table), handed, w);
    PartsStep(Behind(count, table), handed, w);
  }

  /** A single worker that walks these ids in order. */
  predicate Alone<T>(show: T -> Option<Line>, count: T -> Stats, table: nat -> T, ids: seq<nat>,
                     out: multiset<Line>, st: Stats)
  {
    out == multiset(Collect(show, Entries(table, ids))) && st == Tallied(count, Entries(table, ids))
  }

  /** Hands that together hold exactly these ids leave what a single worker does. */
  lemma TogetherIsAlone<T>(show: T -> Option<Line>, count: T -> Stats, table: nat -> T, handed: seq<seq<nat>>,
                           ids: seq<nat>, out: multiset<Line>, st: Stats)
    requires LeaveTogether(show, count, table, handed, out, st) && Bag(handed) == multiset(ids)
    ensures Alone(show, count, table, ids, out, st)
  {
    DealtOut(Behind(LineBag(show), table), handed, ids);
    DealtOut(Behind(count, table), handed, ids);
    LinesTallied(show, Entries(table, ids));
    EntriesTallied(LineBag(show), table, ids);
    EntriesTallied(count, table, ids);
  }

  /** A scan of either backend that ended without error or limit. */
  ghost predicate Ended(g: Geometry, ids: seq<nat>, workers: nat, acts: seq<Pool.Action>, s: Pool.State) {
    Target(g, ids) && Pool.Reaches(Pool.Over(g, ids, workers, false), acts, s) && Pool.Joined(s) && !s.error
  }

  /** On any schedule the workers print and count what a single worker does, exactly when one was started or there was
      nothing to scan; every entry seen is counted once. */
  lemma AnyScheduleAlike<T>(show: T -> Option<Line>, count: T -> Stats, table: nat -> T, g: Geometry, ids: seq<nat>,
                            workers: nat, acts: seq<Pool.Action>, s: Pool.State, out: multiset<Line>, st: Stats)
    requires Ended(g, ids, workers, acts, s) && LeaveTogether(show, count, table, s.handed, out, st)
    requires Tallied(count, Entries(table, ids))[Seen] == |ids|
    ensures Alone(show, count, table, ids, out, st) <==> workers > 0 || ids == []
  {
    Pool.ScanCompleteExactlyWhen(g, ids, workers, acts, s);
    if workers > 0 || ids == [] {
      TogetherIsAlone(show, count, table, s.handed, ids, out, st);
    } else {
      Pool.RunsKeepInv(Pool.Over(g, ids, workers, false), acts, s);
      assert s.handed == [];
    }
  }

  // ------------------------------------------------------------------
  // The two backends

  /** One worker's context after it was handed these ids. */
  method LdiskfsWorker(o: Opts, now: int, glob: Linkea.Glob, host: Linkea.Endian, firstIno: nat,
                       table: nat -> Dev.Inode, ids: seq<nat>)
    returns (out: seq<Line>, st: Stats)
    requires Valid(o.filter) && now < TWO64 && o.limit == 0
    ensures Leaves(Dev.ShowInode(o, firstIno, now, glob), Dev.CountInode(o, firstIno, now, glob), table, ids, out, st)
    ensures Balanced(o, st, false)
  {
    var cx := new Context(o, Core.Device, now, glob);
    Dev.ScanInodes(cx, firstIno, Entries(table, ids), host);
    ghost var lines := Collect(Dev.ShowInode(o, firstIno, now, glob), Entries(table, ids));
    assert [] + lines == lines;
    return cx.out, cx.st;
  }

  /** All of them, and the totals. */
  method LdiskfsWorkers(o: Opts, now: int, glob: Linkea.Glob, host: Linkea.Endian, firstIno: nat,
                        table: nat -> Dev.Inode, handed: seq<seq<nat>>) returns (out: multiset<Line>, st: Stats)
    requires Valid(o.filter) && now < TWO64 && o.limit == 0
    ensures var show, count := Dev.ShowInode(o, firstIno, now, glob), Dev.CountInode(o, firstIno, now, glob);
            LeaveTogether(show, count, table, handed, out, st)
    ensures Balanced(o, st, false)
  {
    ghost var show, count := Dev.ShowInode(o, firstIno, now, glob), Dev.CountInode(o, firstIno, now, glob);
    out, st := multiset{}, multiset{};
    var w := 0;
    while w < |handed|
      invariant 0 <= w <= |handed| && LeaveTogether(show, count, table, handed[..w], out, st) && Balanced(o, st, false)
    {
      var more, counted := LdiskfsWorker(o, now, glob, host, firstIno, table, handed[w]);
      OneMoreWorker(show, count, table, handed, w, out, st, more, counted);
      MergeBalances(o, st, counted, false);
      out, st := out + multiset(more), st + counted;
      w := w + 1;
    }
    assert handed[..w] == handed;
  }

  /** lfu_scan on ldiskfs, after any run of the pool that ended without error: on every schedule the workers print and
      count what a single worker does, exactly when one was started or there was nothing to scan. */
  method ScanLdiskfs(o: Opts, now: int, glob: Linkea.Glob, host: Linkea.Endian, firstIno: nat, table: nat -> Dev.Inode,
                     g: Geometry, ids: seq<nat>, workers: nat, ghost acts: seq<Pool.Action>, s: Pool.State)
    returns (out: multiset<Line>, st: Stats)
    requires Valid(o.filter) && now < TWO64 && o.limit == 0 && Ended(g, ids, workers, acts, s)
    ensures workers > 0 || ids == [] <==>
            Alone(Dev.ShowInode(o, firstIno, now, glob), Dev.CountInode(o, firstIno, now, glob), table, ids, out, st)
    ensures Balanced(o, st, false)
  {
    out, st := LdiskfsWorkers(o, now, glob, host, firstIno, table, s.handed);
    Dev.InodesBalance(o, firstIno, Entries(table, ids), now, glob);
    ghost var show, count := Dev.ShowInode(o, firstIno, now, glob), Dev.CountInode(o, firstIno, now, glob);
    AnyScheduleAlike(show, count, table, g, ids, workers, acts, s, out, st);
  }

  /** One worker's context after it was handed these ids. */
  method ZfsWorker(o: Opts, now: int, glob: Linkea.Glob, host: Linkea.Endian, table: nat -> Dev.Dnode, ids: seq<nat>)
    returns (out: seq<Line>, st: Stats)
    requires Valid(o.filter) && now < TWO64 && o.limit == 0
    ensures Leaves(Dev.ShowDnode(o, now, glob), Dev.CountDnode(o, now, glob), table, ids, out, st)
    ensures Balanced(o, st, true)
  {
    var cx := new Context(o, Core.Device, now, glob);
    Dev.ScanDnodes(cx, Entries(table, ids), host);
    ghost var lines := Collect(Dev.ShowDnode(o, now, glob), Entries(table, ids));
    assert [] + lines == lines;
    return cx.out, cx.st;
  }

  /** All of them, and the totals. */
  method ZfsWorkers(o: Opts, now: int, glob: Linkea.Glob, host: Linkea.Endian, table: nat -> Dev.Dnode,
                    handed: seq<seq<nat>>) returns (out: multiset<Line>, st: Stats)
    requires Valid(o.filter) && now < TWO64 && o.limit == 0
    ensures LeaveTogether(Dev.ShowDnode(o, now, glob), Dev.CountDnode(o, now, glob), table, handed, out, st)
    ensures Balanced(o, st, true)
  {
    ghost var show, count := Dev.ShowDnode(o, now, glob), Dev.CountDnode(o, now, glob);
    out, st := multiset{}, multiset{};
    var w := 0;
    while w < |handed|
      invariant 0 <= w <= |handed| && LeaveTogether(show, count, table, handed[..w], out, st) && Balanced(o, st, true)
    {
      var more, counted := ZfsWorker(o, now, glob, host, table, handed[w]);
      OneMoreWorker(show, count, table, handed, w, out, st, more, counted);
      MergeBalances(o, st, counted, true);
      out, st := out + multiset(more), st + counted;
      w := w + 1;
    }
    assert handed[..w] == handed;
  }

  /** The same on ZFS. */
  method ScanZfs(o: Opts, now: int, glob: Linkea.Glob, host: Linkea.Endian, table: nat -> Dev.Dnode,
                 g: Geometry, ids: seq<nat>, workers: nat, ghost acts: seq<Pool.Action>, s: Pool.State)
    returns (out: multiset<Line>, st: Stats)
    requires Valid(o.filter) && now < TWO64 && o.limit == 0 && Ended(g, ids, workers, acts, s)
    ensures workers > 0 || ids == [] <==>
            Alone(Dev.ShowDnode(o, now, glob), Dev.CountDnode(o, now, glob), table, ids, out, st)
    ensures Balanced(o, st, true)
  {
    out, st := ZfsWorkers(o, now, glob, host, table, s.handed);
    Dev.DnodesBalance(o, Entries(table, ids), now, glob);
    ghost var show, count := Dev.ShowDnode(o, now, glob), Dev.CountDnode(o, now, glob);
    AnyScheduleAlike(show, count, table, g, ids, workers, acts, s, out, st);
  }
}
