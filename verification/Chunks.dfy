/** How a chunk index maps onto a backend's id space (the scan_chunk operations of src/lfu_scan_zfs.c and
    src/lfu_scan_ldiskfs.c), over an iterator that can only say which object comes next. */
module Chunks {
  import opened Records

  const LFU_CHUNK: nat := 65536

  /** The ids of a target in iteration order. */
  predicate Increasing(ids: seq<nat>) {
    forall i, j :: 0 <= i < j < |ids| ==> ids[i] < ids[j]
  }

  /** How many of the first n ids lie below x. */
  function BelowAmong(ids: seq<nat>, x: nat, n: nat): (k: nat)
    requires Increasing(ids) && n <= |ids|
    ensures k <= n
    ensures forall i :: 0 <= i < k ==> ids[i] < x
    ensures forall i :: k <= i < n ==> ids[i] >= x
  {
    if n == 0 then 0 else if ids[n - 1] < x then n else BelowAmong(ids, x, n - 1)
  }

  /** How many ids lie below x. */
  function Below(ids: seq<nat>, x: nat): (k: nat)
    requires Increasing(ids)
    ensures k <= |ids|
    ensures forall i :: 0 <= i < k ==> ids[i] < x
    ensures forall i :: k <= i < |ids| ==> ids[i] >= x
  {
    BelowAmong(ids, x, |ids|)
  }

  lemma BelowUnique(ids: seq<nat>, x: nat, k: nat)
    requires Increasing(ids) && k <= |ids|
    requires k > 0 ==> ids[k - 1] < x
    requires k < |ids| ==> ids[k] >= x
    ensures Below(ids, x) == k
  {
  }

  lemma BelowMonotone(ids: seq<nat>, x: nat, y: nat)
    requires Increasing(ids) && x <= y
    ensures Below(ids, x) <= Below(ids, y)
  {
    var b := Below(ids, y);
    assert b < |ids| ==> ids[b] >= y;
  }

  /** The ids in [lo, hi). */
  function Slice(ids: seq<nat>, lo: nat, hi: nat): (r: seq<nat>)
    requires Increasing(ids) && lo <= hi
    ensures forall i :: 0 <= i < |r| ==> lo <= r[i] < hi
  {
    BelowMonotone(ids, lo, hi);
    ids[Below(ids, lo)..Below(ids, hi)]
  }

  /** dmu_object_next, or the next position of an otable iterator: the first id beyond `pos`. */
  function Next(ids: seq<nat>, pos: nat): (r: Option<nat>)
    requires Increasing(ids)
    ensures r.None? <==> forall i :: 0 <= i < |ids| ==> ids[i] <= pos
  {
    var k := Below(ids, pos + 1);
    if k == |ids| then None else Some(ids[k])
  }

  function Max(a: nat, b: nat): nat {
    if a < b then b else a
  }

  /** The chunk loop: everything between `from` and `end`, and whether that proved there is nothing beyond. */
  method ScanRange(ids: seq<nat>, from: nat, end: nat) returns (visited: seq<nat>, done: bool)
    requires Increasing(ids)
    ensures visited == Slice(ids, from + 1, Max(from + 1, end))
    ensures done <==> forall i :: 0 <= i < |ids| ==> ids[i] < Max(from + 1, end)
  {
    visited, done := [], false;
    ghost var top := Max(from + 1, end);
    var pos: nat := from;
    ghost var first := Below(ids, from + 1);
    ghost var k := first;
    BelowMonotone(ids, from + 1, top);
    while true
      invariant from <= pos && first <= k <= Below(ids, top) && k == Below(ids, pos + 1)
      invariant visited == ids[first..k]
      decreases Below(ids, top) - k
    {
      var next := Next(ids, pos);
      if next.None? {
        done := true;
        return;
      }
      pos := next.value;
      if pos >= end {
        return;
      }
      visited := visited + [pos];
      BelowUnique(ids, pos + 1, k + 1);
      k := k + 1;
    }
  }

  // ------------------------------------------------------------------
  // The two geometries

  /** What a backend knows about its id space. */
  datatype Geometry =
    | Zfs
    | Ldiskfs(ipg: nat, groupsPerChunk: nat, groups: nat, inodes: nat)
    | Par(chunk: nat)

  /** A target as the backend opened it. */
  predicate Target(g: Geometry, ids: seq<nat>) {
    && Increasing(ids)
    && (forall i :: 0 <= i < |ids| ==> ids[i] >= 1)
    && (g.Ldiskfs? ==> && g.ipg > 0 && g.groupsPerChunk == GroupsPerChunk(g.ipg)
                       && g.inodes <= g.groups * g.ipg && forall i :: 0 <= i < |ids| ==> ids[i] <= g.inodes)
    && (g.Par? ==> g.chunk > 0)
  }

  /** About 64K inodes' worth of block groups. */
  function GroupsPerChunk(ipg: nat): (r: nat)
    ensures r >= 1
    ensures ipg > 0 ==> (r - 1) * ipg < 65536 <= r * ipg || r == 1
  {
    if ipg == 0 then 1
    else
      var n := (65536 + ipg - 1) / ipg;
      CeilBounds(65536, ipg);
      if n < 1 then 1 else n
  }

  lemma CeilBounds(n: nat, d: nat)
    requires d > 0
    ensures var q := (n + d - 1) / d; q * d >= n && (q - 1) * d < n
  {
    var m := n + d - 1;
    assert m == d * (m / d) + m % d;
  }

  /** Ids per chunk. */
  function Width(g: Geometry): (w: nat)
  {
    match g
    case Zfs => LFU_CHUNK
    case Ldiskfs(ipg, gpc, _, _) => gpc * ipg
    case Par(chunk) => chunk
  }

  /** Where chunk c begins: inode numbers count from 1 within their groups. */
  function Edge(g: Geometry, c: nat): (e: nat) {
    if c == 0 then (if g.Ldiskfs? then 1 else 0) else Edge(g, c - 1) + Width(g)
  }

  lemma {:induction false} EdgeIsProduct(g: Geometry, c: nat)
    ensures Edge(g, c) == Edge(g, 0) + c * Width(g)
    decreases c
  {
    if c > 0 {
      EdgeIsProduct(g, c - 1);
      assert c * Width(g) == (c - 1) * Width(g) + Width(g);
    }
  }

  lemma {:induction false} EdgesGrow(g: Geometry, a: nat, b: nat)
    requires a <= b
    ensures Edge(g, a) <= Edge(g, b)
    decreases b
  {
    if a < b {
      EdgesGrow(g, a, b - 1);
    }
  }

  lemma WidthPositive(g: Geometry, ids: seq<nat>)
    requires Target(g, ids)
    ensures Width(g) > 0
  {
    if g.Ldiskfs? {
      MulPositive(g.groupsPerChunk, g.ipg);
    }
  }

  lemma MulPositive(a: nat, b: nat)
    requires a > 0 && b > 0
    ensures a * b >= a && a * b >= b
  {
  }

  /** The inode range of a chunk, as the code computes it from its block groups. */
  lemma GroupsOfChunk(ipg: nat, gpc: nat, groups: nat, inodes: nat, c: nat)
    ensures var g := Ldiskfs(ipg, gpc, groups, inodes);
            Edge(g, c) == (c * gpc) * ipg + 1 && Edge(g, c + 1) == (c * gpc + gpc) * ipg + 1
  {
    var g := Ldiskfs(ipg, gpc, groups, inodes);
    EdgeIsProduct(g, c);
    MulAssoc(c, gpc, ipg);
    assert (c * gpc + gpc) * ipg == (c * gpc) * ipg + gpc * ipg;
  }

  /** The ids chunk c is responsible for. */
  function Chunk(g: Geometry, ids: seq<nat>, c: nat): (r: seq<nat>)
    requires Increasing(ids)
  {
    Slice(ids, Edge(g, c), Edge(g, c + 1))
  }

  /** No id lies at or beyond chunk c + 1. */
  predicate NothingBeyond(g: Geometry, ids: seq<nat>, c: nat) {
    forall i :: 0 <= i < |ids| ==> ids[i] < Edge(g, c + 1)
  }

  /** When the backend reports `done` after chunk c. */
  predicate Last(g: Geometry, ids: seq<nat>, c: nat) {
    NothingBeyond(g, ids, c) ||
    (g.Ldiskfs? && (c * g.groupsPerChunk >= g.groups || Edge(g, c + 1) > g.inodes + 1))
  }

  lemma MulMonotone(a: nat, b: nat, m: nat)
    requires a <= b
    ensures a * m <= b * m
  {
  }

  lemma MulAssoc(a: nat, b: nat, m: nat)
    ensures (a * b) * m == a * (b * m)
  {
  }

  lemma PastLastGroup(g: Geometry, ids: seq<nat>, c: nat)
    requires g.Ldiskfs? && Target(g, ids) && c * g.groupsPerChunk >= g.groups
    ensures Edge(g, c) > g.inodes
  {
    GroupsOfChunk(g.ipg, g.groupsPerChunk, g.groups, g.inodes, c);
    MulMonotone(g.groups, c * g.groupsPerChunk, g.ipg);
  }

  /** `done` is never reported early, on any geometry. */
  lemma LastIsSound(g: Geometry, ids: seq<nat>, c: nat)
    requires Target(g, ids) && Last(g, ids, c)
    ensures NothingBeyond(g, ids, c)
  {
    if g.Ldiskfs? && c * g.groupsPerChunk >= g.groups {
      PastLastGroup(g, ids, c);
    }
  }

  /** From the largest id on, every chunk index reports `done`. */
  lemma LastComes(g: Geometry, ids: seq<nat>, c: nat)
    requires Target(g, ids) && (ids != [] ==> ids[|ids| - 1] <= c)
    ensures Last(g, ids, c)
  {
    WidthPositive(g, ids);
    EdgeIsProduct(g, c + 1);
    MulPositive(c + 1, Width(g));
  }

  // ------------------------------------------------------------------
  // Partition

  /** The first n chunks, end to end. */
  function FirstChunks(g: Geometry, ids: seq<nat>, n: nat): (r: seq<nat>)
    requires Increasing(ids)
  {
    if n == 0 then [] else FirstChunks(g, ids, n - 1) + Chunk(g, ids, n - 1)
  }

  lemma NothingBelowFirst(g: Geometry, ids: seq<nat>)
    requires Increasing(ids) && forall i :: 0 <= i < |ids| ==> ids[i] >= 1
    ensures Below(ids, Edge(g, 0)) == 0
  {
    BelowUnique(ids, Edge(g, 0), 0);
  }

  lemma SliceExtends(g: Geometry, ids: seq<nat>, c: nat)
    requires Increasing(ids)
    ensures ids[..Below(ids, Edge(g, c))] + Chunk(g, ids, c) == ids[..Below(ids, Edge(g, c + 1))]
  {
    BelowMonotone(ids, Edge(g, c), Edge(g, c + 1));
  }

  /** The chunks tile the id space: no id is skipped and none appears in two chunks. */
  lemma {:induction false} ChunksTile(g: Geometry, ids: seq<nat>, n: nat)
    requires Increasing(ids) && forall i :: 0 <= i < |ids| ==> ids[i] >= 1
    ensures FirstChunks(g, ids, n) == ids[..Below(ids, Edge(g, n))]
    decreases n
  {
    if n == 0 {
      NothingBelowFirst(g, ids);
    } else {
      var m := n - 1;
      ChunksTile(g, ids, m);
      SliceExtends(g, ids, m);
      assert FirstChunks(g, ids, n) == FirstChunks(g, ids, m) + Chunk(g, ids, m);
    }
  }

  /** Once some chunk has reported `done`, the chunks up to it are the whole target, and later ones are empty. */
  lemma LastCovers(g: Geometry, ids: seq<nat>, c: nat, n: nat)
    requires Target(g, ids) && Last(g, ids, c) && c < n
    ensures FirstChunks(g, ids, n) == ids
  {
    LastIsSound(g, ids, c);
    ChunksTile(g, ids, n);
    EdgesGrow(g, c + 1, n);
  }

  // ------------------------------------------------------------------
  // scan_chunk

  /** lfu_zfs_scan_chunk, over the ids alone. */
  method ZfsScanChunk(ids: seq<nat>, idx: nat) returns (visited: seq<nat>, done: bool)
    requires Target(Zfs, ids)
    ensures visited == Chunk(Zfs, ids, idx)
    ensures done <==> Last(Zfs, ids, idx)
  {
    var start := idx * LFU_CHUNK;
    var end := start + LFU_CHUNK;
    EdgeIsProduct(Zfs, idx);
    visited, done := ScanRange(ids, if start > 0 then start - 1 else 0, end);
    if start == 0 {
      BelowUnique(ids, 1, 0);
      BelowUnique(ids, 0, 0);
    }
  }

  /** lfu_par_scan_range, over the ids alone. */
  method ParScanRange(ids: seq<nat>, chunk: nat, c: nat) returns (visited: seq<nat>, done: bool)
    requires Target(Par(chunk), ids)
    ensures visited == Chunk(Par(chunk), ids, c)
    ensures done <==> Last(Par(chunk), ids, c)
  {
    var start := c * chunk;
    EdgeIsProduct(Par(chunk), c);
    visited, done := ScanRange(ids, if start > 0 then start - 1 else 0, start + chunk);
    if start == 0 {
      BelowUnique(ids, 1, 0);
      BelowUnique(ids, 0, 0);
    }
  }

  lemma ClampedSlice(ids: seq<nat>, lo: nat, hi: nat, top: nat)
    requires Increasing(ids) && lo <= top <= hi && forall i :: 0 <= i < |ids| ==> ids[i] < top
    ensures Slice(ids, lo, hi) == Slice(ids, lo, top)
  {
    BelowUnique(ids, hi, |ids|);
    BelowUnique(ids, top, |ids|);
  }

  /** lfu_ldiskfs_scan_chunk, over the inode numbers alone. */
  method LdiskfsScanChunk(g: Geometry, ids: seq<nat>, idx: nat) returns (visited: seq<nat>, done: bool)
    requires g.Ldiskfs? && Target(g, ids)
    ensures visited == Chunk(g, ids, idx)
    ensures done <==> Last(g, ids, idx)
  {
    var g0 := idx * g.groupsPerChunk;
    GroupsOfChunk(g.ipg, g.groupsPerChunk, g.groups, g.inodes, idx);
    if g0 >= g.groups {
      PastLastGroup(g, ids, idx);
      EmptySlice(ids, Edge(g, idx), Edge(g, idx + 1));
      return [], true;
    }
    var end := (g0 + g.groupsPerChunk) * g.ipg;
    var early := end > g.inodes;
    if early {
      end := g.inodes;
    }
    visited, done := ScanRange(ids, g0 * g.ipg, end + 1);
    if early {
      done := true;
      ClampedSlice(ids, Edge(g, idx), Edge(g, idx + 1), Max(Edge(g, idx), end + 1));
    }
  }

  lemma EmptySlice(ids: seq<nat>, lo: nat, hi: nat)
    requires Increasing(ids) && lo <= hi && forall i :: 0 <= i < |ids| ==> ids[i] < lo
    ensures Slice(ids, lo, hi) == []
  {
    BelowUnique(ids, lo, |ids|);
    BelowUnique(ids, hi, |ids|);
  }

  /** ops->scan_chunk. */
  method ScanChunk(g: Geometry, ids: seq<nat>, idx: nat) returns (visited: seq<nat>, done: bool)
    requires Target(g, ids)
    ensures visited == Chunk(g, ids, idx)
    ensures done <==> Last(g, ids, idx)
  {
    match g {
      case Zfs => visited, done := ZfsScanChunk(ids, idx);
      case Ldiskfs(_, _, _, _) => visited, done := LdiskfsScanChunk(g, ids, idx);
      case Par(chunk) => visited, done := ParScanRange(ids, chunk, idx);
    }
  }
}
