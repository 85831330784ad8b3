/** The per-object loops of the two device backends (src/lfu_scan_ldiskfs.c, src/lfu_scan_zfs.c) over what
    libext2fs and the DMU hand them. */
module Device {
  import opened Bags
  import opened Bits
  import opened Records
  import opened Filter
  import opened Eval
  import opened Core
  import Linkea

  datatype Lma = Lma(fid: Fid, compat: u32, incompat: u32)

  /** One object as the target stores it. */
  datatype Object = Object(
    id: u64, mode: u16, nlink: u32, uid: u32, gid: u32, projid: u32, flags: u32, size: u64, blocks: u64,
    atime: u32, mtime: u32, ctime: u32, crtime: u32, extBlock: bool, lma: Option<Lma>, eas: Eas)

  const NO_FID := Fid(0, 0, 0)

  /** What the inode or dnode alone gives. */
  function Tier0Rec(x: Object): Rec {
    Rec(NO_FID, 0, 0, x.id, x.mode, x.nlink, x.uid, x.gid, x.projid, x.flags, x.size, x.blocks,
        x.atime, x.mtime, x.ctime, x.crtime, x.extBlock, EMPTY_TIER1, false, false)
  }

  /** The same once trusted.lma has been read. */
  function FullRec(x: Object): Rec {
    match x.lma
    case None => Tier0Rec(x)
    case Some(l) => Tier0Rec(x).(fid := l.fid, lmaCompat := l.compat, lmaIncompat := l.incompat)
  }

  /** What a device scan prints for one object. */
  function DeviceLine(o: Opts, x: Object, now: int, glob: Linkea.Glob): Option<Line>
    requires Valid(o.filter) && now < TWO64
  {
    if !Tier0Passes(o.filter, Tier0Rec(x), now) then None
    else ObjectLine(o, Core.Device, FullRec(x), x.lma.Some?, Fetch(o.filter.needs, x.eas), now, glob)
  }

  /** What it counts for one. */
  function DeviceStats(o: Opts, x: Object, now: int, glob: Linkea.Glob): Stats
    requires Valid(o.filter) && now < TWO64
  {
    if !Tier0Passes(o.filter, Tier0Rec(x), now) then multiset{Filtered}
    else ObjectStats(o, Core.Device, FullRec(x), x.lma.Some?, Fetch(o.filter.needs, x.eas), now, glob)
  }

  function ShowObject(o: Opts, now: int, glob: Linkea.Glob): Object -> Option<Line>
    requires Valid(o.filter) && now < TWO64
  {
    x => DeviceLine(o, x, now, glob)
  }

  /** One entry of the inode table. */
  datatype Inode = Inode(ino: nat, inBitmap: bool, dtime: nat, plausible: bool, obj: Object)

  predicate InUse(firstIno: nat, i: Inode) {
    i.ino >= firstIno && i.inBitmap && i.dtime == 0 && i.plausible
  }

  /** What the scan prints for one table entry. */
  function InodeLine(o: Opts, firstIno: nat, i: Inode, now: int, glob: Linkea.Glob): Option<Line>
    requires Valid(o.filter) && now < TWO64
  {
    if InUse(firstIno, i) then DeviceLine(o, i.obj, now, glob) else None
  }

  function ShowInode(o: Opts, firstIno: nat, now: int, glob: Linkea.Glob): Inode -> Option<Line>
    requires Valid(o.filter) && now < TWO64
  {
    i => InodeLine(o, firstIno, i, now, glob)
  }

  /** What the scan counts for one table entry. */
  function InodeStats(o: Opts, firstIno: nat, i: Inode, now: int, glob: Linkea.Glob): Stats
    requires Valid(o.filter) && now < TWO64
  {
    if i.ino < firstIno then multiset{Seen}
    else if !i.inBitmap then multiset{Seen, FreeIno}
    else if i.dtime != 0 then multiset{Seen, Deleted}
    else if !i.plausible then multiset{Seen, ValidateBad}
    else multiset{Seen, UsedInode} + DeviceStats(o, i.obj, now, glob)
  }

  function CountInode(o: Opts, firstIno: nat, now: int, glob: Linkea.Glob): Inode -> Stats
    requires Valid(o.filter) && now < TWO64
  {
    i => InodeStats(o, firstIno, i, now, glob)
  }

  /** The body of the loops after the skip ladder: prefilter, read the xattrs, hand over. */
  method OneObject(cx: Context, x: Object, host: Linkea.Endian)
    requires cx.Ok() && !cx.stop && cx.mode.Device?
    modifies cx
    ensures cx.Ok()
    ensures cx.out == old(cx.out) + Maybe(DeviceLine(cx.o, x, cx.now, cx.glob))
    ensures cx.st == old(cx.st) + DeviceStats(cx.o, x, cx.now, cx.glob)
  {
    var kept := cx.Prefilter(Tier0Rec(x));
    if kept {
      cx.Object(FullRec(x), x.lma.Some?, Fetch(cx.o.filter.needs, x.eas), host);
    }
  }

  /** Counters of the walk alone. */
  predicate OfWalk(st: Stats) {
    forall c :: c in st ==> !c.Of? && !c.Emission? && !c.Filtered1? && !c.Unsure?
  }

  method Count(cx: Context, w: Stats)
    requires cx.Ok() && OfWalk(w)
    modifies cx`st
    ensures cx.Ok() && cx.st == old(cx.st) + w
  {
    assert forall c: Class :: w[Of(c)] == 0;
    assert w[Emission] == 0 && w[Filtered1] == 0 && w[Unsure] == 0;
    cx.st := cx.st + w;
  }

  /** An object is rejected at tier 0 or classified, and adds nothing else to the walk. */
  lemma EitherOr(o: Opts, x: Object, now: int, glob: Linkea.Glob)
    requires Valid(o.filter) && now < TWO64
    ensures var d := DeviceStats(o, x, now, glob);
            && d[Filtered] + Classified(d) == 1
            && d[Seen] == 0 && d[UsedInode] == 0 && d[NonZnode] == 0 && d[SaFail] == 0
  {
    if Tier0Passes(o.filter, Tier0Rec(x), now) {
      var rec, eas := FullRec(x), Fetch(o.filter.needs, x.eas);
      StatsByClass(o, Core.Device, Classify(rec.fid, rec.lmaCompat, rec.lmaIncompat, x.lma.Some?),
                   ObjectVerdict(o, Core.Device, Decoded(o, rec, eas), eas, now, glob));
    }
  }

  lemma InodeBalances(o: Opts, firstIno: nat, i: Inode, now: int, glob: Linkea.Glob)
    requires Valid(o.filter) && now < TWO64
    ensures LdiskfsBalanced(InodeStats(o, firstIno, i, now, glob))
    ensures InodeStats(o, firstIno, i, now, glob)[Seen] == 1
  {
    EitherOr(o, i.obj, now, glob);
  }

  lemma MergeLdiskfs(a: Stats, b: Stats)
    requires LdiskfsBalanced(a) && LdiskfsBalanced(b)
    ensures LdiskfsBalanced(a + b)
  {
  }

  lemma {:induction false} InodesBalance(o: Opts, firstIno: nat, tab: seq<Inode>, now: int, glob: Linkea.Glob)
    requires Valid(o.filter) && now < TWO64
    ensures var st := Tallied(CountInode(o, firstIno, now, glob), tab); LdiskfsBalanced(st) && st[Seen] == |tab|
    decreases |tab|
  {
    if tab != [] {
      var k := |tab| - 1;
      InodesBalance(o, firstIno, tab[..k], now, glob);
      InodeBalances(o, firstIno, tab[k], now, glob);
      MergeLdiskfs(Tallied(CountInode(o, firstIno, now, glob), tab[..k]), InodeStats(o, firstIno, tab[k], now, glob));
    }
  }

  lemma StaysLdiskfs(o: Opts, firstIno: nat, tab: seq<Inode>, k: nat, st0: Stats, st: Stats, now: int,
                     glob: Linkea.Glob)
    requires Valid(o.filter) && now < TWO64 && k <= |tab| && LdiskfsBalanced(st0)
    requires st == st0 + Tallied(CountInode(o, firstIno, now, glob), tab[..k])
    ensures LdiskfsBalanced(st)
  {
    InodesBalance(o, firstIno, tab[..k], now, glob);
    MergeLdiskfs(st0, Tallied(CountInode(o, firstIno, now, glob), tab[..k]));
  }

  /** An inode in use. */
  method UsedOne(cx: Context, x: Object, host: Linkea.Endian)
    requires cx.Ok() && !cx.stop && cx.mode.Device?
    modifies cx
    ensures cx.Ok()
    ensures cx.out == old(cx.out) + Maybe(DeviceLine(cx.o, x, cx.now, cx.glob))
    ensures cx.st == old(cx.st) + (multiset{Seen, UsedInode} + DeviceStats(cx.o, x, cx.now, cx.glob))
  {
    CountsAssociate(cx.st, multiset{Seen, UsedInode}, DeviceStats(cx.o, x, cx.now, cx.glob));
    Count(cx, multiset{Seen, UsedInode});
    OneObject(cx, x, host);
  }

  /** One turn of the inode loop: the skip ladder and its counters. */
  method OneInode(cx: Context, firstIno: nat, i: Inode, host: Linkea.Endian)
    requires cx.Ok() && !cx.stop && cx.mode.Device?
    modifies cx
    ensures cx.Ok()
    ensures cx.out == old(cx.out) + Maybe(InodeLine(cx.o, firstIno, i, cx.now, cx.glob))
    ensures cx.st == old(cx.st) + InodeStats(cx.o, firstIno, i, cx.now, cx.glob)
  {
    if i.ino < firstIno {
      Count(cx, multiset{Seen});
    } else if !i.inBitmap {
      Count(cx, multiset{Seen, FreeIno});
    } else if i.dtime != 0 {
      Count(cx, multiset{Seen, Deleted});
    } else if !i.plausible {
      Count(cx, multiset{Seen, ValidateBad});
    } else {
      UsedOne(cx, i.obj, host);
    }
  }

  /** The inode loop of lfu_ldiskfs_scan_chunk. */
  method ScanInodes(cx: Context, firstIno: nat, tab: seq<Inode>, host: Linkea.Endian)
    requires cx.Ok() && cx.mode.Device? && !cx.stop && LdiskfsBalanced(cx.st)
    modifies cx
    ensures cx.Ok() && LdiskfsBalanced(cx.st)
    ensures Printed(old(cx.out), Collect(ShowInode(cx.o, firstIno, cx.now, cx.glob), tab), cx.out, cx.stop)
    ensures !cx.stop ==> cx.st == old(cx.st) + Tallied(CountInode(cx.o, firstIno, cx.now, cx.glob), tab)
  {
    ghost var show, count := ShowInode(cx.o, firstIno, cx.now, cx.glob), CountInode(cx.o, firstIno, cx.now, cx.glob);
    var k := 0;
    AlongStart(show, count, tab, cx.out, cx.st);
    while k < |tab| && !cx.stop
      invariant 0 <= k <= |tab| && cx.Ok()
      invariant Along(show, count, tab, k, old(cx.out), old(cx.st), cx.out, cx.st)
    {
      ghost var out, st := cx.out, cx.st;
      OneInode(cx, firstIno, tab[k], host);
      AlongStep(show, count, tab, k, old(cx.out), old(cx.st), out, st, cx.out, cx.st);
      k := k + 1;
    }
    AlongEnd(show, count, tab, k, old(cx.out), old(cx.st), cx.out, cx.st, cx.stop);
    StaysLdiskfs(cx.o, firstIno, tab, k, old(cx.st), cx.st, cx.now, cx.glob);
  }

  /** The objects of a table that exist. */
  function InUseObjects(firstIno: nat, tab: seq<Inode>): (xs: seq<Object>) {
    if tab == [] then []
    else
      var i := tab[|tab| - 1];
      InUseObjects(firstIno, tab[..|tab| - 1]) + if InUse(firstIno, i) then [i.obj] else []
  }

  /** A table prints what its objects print. */
  lemma {:induction false} InodesAreObjects(o: Opts, firstIno: nat, tab: seq<Inode>, now: int, glob: Linkea.Glob)
    requires Valid(o.filter) && now < TWO64
    ensures Collect(ShowInode(o, firstIno, now, glob), tab) ==
            Collect(ShowObject(o, now, glob), InUseObjects(firstIno, tab))
    decreases |tab|
  {
    if tab != [] {
      var k := |tab| - 1;
      InodesAreObjects(o, firstIno, tab[..k], now, glob);
      OneMore(o, firstIno, tab[k], InUseObjects(firstIno, tab[..k]), now, glob);
    }
  }

  lemma OneMore(o: Opts, firstIno: nat, i: Inode, xs: seq<Object>, now: int, glob: Linkea.Glob)
    requires Valid(o.filter) && now < TWO64
    ensures Collect(ShowObject(o, now, glob), xs + if InUse(firstIno, i) then [i.obj] else []) ==
            Collect(ShowObject(o, now, glob), xs) + Maybe(ShowInode(o, firstIno, now, glob)(i))
  {
    if InUse(firstIno, i) {
      assert (xs + [i.obj])[..|xs|] == xs;
    } else {
      assert xs + [] == xs;
    }
  }

  /** A worker's chunks one after the other, as a limited scan walks them. */
  method ScanInodeChunks(cx: Context, firstIno: nat, tabs: seq<seq<Inode>>, host: Linkea.Endian)
    requires cx.Ok() && cx.mode.Device? && !cx.stop && LdiskfsBalanced(cx.st)
    modifies cx
    ensures cx.Ok() && LdiskfsBalanced(cx.st)
    ensures Printed(old(cx.out), Collect(ShowObject(cx.o, cx.now, cx.glob), InUseObjects(firstIno, Flat(tabs))),
                    cx.out, cx.stop)
  {
    ghost var show := ShowInode(cx.o, firstIno, cx.now, cx.glob);
    var k := 0;
    while k < |tabs| && !cx.stop
      invariant 0 <= k <= |tabs| && cx.Ok() && LdiskfsBalanced(cx.st)
      invariant Printed(old(cx.out), Collect(show, Flat(tabs[..k])), cx.out, cx.stop)
    {
      ghost var before := cx.out;
      ScanInodes(cx, firstIno, tabs[k], host);
      PrintedStep(show, tabs, k, old(cx.out), before, cx.out, cx.stop);
      k := k + 1;
    }
    PrintedChunks(show, tabs, k, old(cx.out), cx.out, cx.stop);
    InodesAreObjects(cx.o, firstIno, Flat(tabs), cx.now, cx.glob);
  }

  // ------------------------------------------------------------------
  // ZFS

  /** What lfu_zfs_read_obj meets: not a znode (-1), an SA read failure before the record is complete (-2),
      or a znode, whose xattrs may then be missing or unreadable. */
  datatype Dnode =
    | NotZnode
    | SaFailure
    | Znode(obj: Object, dxattr: Dxattr)

  datatype Dxattr = Values | Absent | Broken

  /** An object without SA xattrs has no LMA and nothing to filter on. */
  function WithoutXattrs(x: Object): Object {
    x.(lma := None, eas := NO_EAS)
  }

  function DnodeLine(o: Opts, d: Dnode, now: int, glob: Linkea.Glob): Option<Line>
    requires Valid(o.filter) && now < TWO64
  {
    match d
    case Znode(x, Values) => DeviceLine(o, x, now, glob)
    case Znode(x, Absent) => DeviceLine(o, WithoutXattrs(x), now, glob)
    case _ => None
  }

  function DnodeStats(o: Opts, d: Dnode, now: int, glob: Linkea.Glob): Stats
    requires Valid(o.filter) && now < TWO64
  {
    match d
    case NotZnode => multiset{Seen, NonZnode}
    case SaFailure => multiset{Seen, SaFail}
    case Znode(x, Broken) => multiset{Seen} + if Tier0Passes(o.filter, Tier0Rec(x), now) then multiset{SaFail}
                                              else multiset{Filtered}
    case Znode(x, dxattr) =>
      multiset{Seen} + DeviceStats(o, if dxattr.Absent? then WithoutXattrs(x) else x, now, glob)
  }

  function CountDnode(o: Opts, now: int, glob: Linkea.Glob): Dnode -> Stats
    requires Valid(o.filter) && now < TWO64
  {
    d => DnodeStats(o, d, now, glob)
  }

  function ShowDnode(o: Opts, now: int, glob: Linkea.Glob): Dnode -> Option<Line>
    requires Valid(o.filter) && now < TWO64
  {
    d => DnodeLine(o, d, now, glob)
  }

  lemma DnodeBalances(o: Opts, d: Dnode, now: int, glob: Linkea.Glob)
    requires Valid(o.filter) && now < TWO64
    ensures ZfsBalanced(DnodeStats(o, d, now, glob)) && DnodeStats(o, d, now, glob)[Seen] == 1
  {
    if d.Znode? {
      EitherOr(o, if d.dxattr.Absent? then WithoutXattrs(d.obj) else d.obj, now, glob);
    }
  }

  lemma MergeZfs(a: Stats, b: Stats)
    requires ZfsBalanced(a) && ZfsBalanced(b)
    ensures ZfsBalanced(a + b)
  {
  }

  lemma {:induction false} DnodesBalance(o: Opts, ds: seq<Dnode>, now: int, glob: Linkea.Glob)
    requires Valid(o.filter) && now < TWO64
    ensures var st := Tallied(CountDnode(o, now, glob), ds); ZfsBalanced(st) && st[Seen] == |ds|
    decreases |ds|
  {
    if ds != [] {
      var k := |ds| - 1;
      DnodesBalance(o, ds[..k], now, glob);
      DnodeBalances(o, ds[k], now, glob);
      MergeZfs(Tallied(CountDnode(o, now, glob), ds[..k]), DnodeStats(o, ds[k], now, glob));
    }
  }

  lemma StaysZfs(o: Opts, ds: seq<Dnode>, k: nat, st0: Stats, st: Stats, now: int, glob: Linkea.Glob)
    requires Valid(o.filter) && now < TWO64 && k <= |ds| && ZfsBalanced(st0)
    requires st == st0 + Tallied(CountDnode(o, now, glob), ds[..k])
    ensures ZfsBalanced(st)
  {
    DnodesBalance(o, ds[..k], now, glob);
    MergeZfs(st0, Tallied(CountDnode(o, now, glob), ds[..k]));
  }

  /** A znode whose xattrs cannot be read. */
  method BrokenZnode(cx: Context, x: Object)
    requires cx.Ok() && cx.mode.Device?
    modifies cx`st
    ensures cx.Ok()
    ensures cx.st == old(cx.st) + DnodeStats(cx.o, Znode(x, Broken), cx.now, cx.glob)
  {
    Count(cx, multiset{Seen});
    var keep := cx.Prefilter(Tier0Rec(x));
    if keep {
      Count(cx, multiset{SaFail});
    }
  }

  /** A znode whose xattrs are in hand, or which has none. */
  method GoodZnode(cx: Context, x: Object, dxattr: Dxattr, host: Linkea.Endian)
    requires cx.Ok() && !cx.stop && cx.mode.Device? && !dxattr.Broken?
    modifies cx
    ensures cx.Ok()
    ensures cx.out == old(cx.out) + Maybe(DnodeLine(cx.o, Znode(x, dxattr), cx.now, cx.glob))
    ensures cx.st == old(cx.st) + DnodeStats(cx.o, Znode(x, dxattr), cx.now, cx.glob)
  {
    var y := if dxattr.Absent? then WithoutXattrs(x) else x;
    CountsAssociate(cx.st, multiset{Seen}, DeviceStats(cx.o, y, cx.now, cx.glob));
    Count(cx, multiset{Seen});
    OneObject(cx, y, host);
  }

  /** One turn of the object loop, with the return-code contract of lfu_zfs_read_obj. */
  method OneDnode(cx: Context, d: Dnode, host: Linkea.Endian)
    requires cx.Ok() && !cx.stop && cx.mode.Device?
    modifies cx
    ensures cx.Ok()
    ensures cx.out == old(cx.out) + Maybe(DnodeLine(cx.o, d, cx.now, cx.glob))
    ensures cx.st == old(cx.st) + DnodeStats(cx.o, d, cx.now, cx.glob)
  {
    match d {
      case NotZnode => Count(cx, multiset{Seen, NonZnode});
      case SaFailure => Count(cx, multiset{Seen, SaFail});
      case Znode(x, Broken) => BrokenZnode(cx, x);
      case Znode(x, dxattr) => GoodZnode(cx, x, dxattr, host);
    }
  }

  /** The object loop of lfu_zfs_scan_chunk. */
  method ScanDnodes(cx: Context, ds: seq<Dnode>, host: Linkea.Endian)
    requires cx.Ok() && cx.mode.Device? && !cx.stop && ZfsBalanced(cx.st)
    modifies cx
    ensures cx.Ok() && ZfsBalanced(cx.st)
    ensures Printed(old(cx.out), Collect(ShowDnode(cx.o, cx.now, cx.glob), ds), cx.out, cx.stop)
    ensures !cx.stop ==> cx.st == old(cx.st) + Tallied(CountDnode(cx.o, cx.now, cx.glob), ds)
  {
    ghost var show, count := ShowDnode(cx.o, cx.now, cx.glob), CountDnode(cx.o, cx.now, cx.glob);
    var k := 0;
    AlongStart(show, count, ds, cx.out, cx.st);
    while k < |ds| && !cx.stop
      invariant 0 <= k <= |ds| && cx.Ok()
      invariant Along(show, count, ds, k, old(cx.out), old(cx.st), cx.out, cx.st)
    {
      ghost var out, st := cx.out, cx.st;
      OneDnode(cx, ds[k], host);
      AlongStep(show, count, ds, k, old(cx.out), old(cx.st), out, st, cx.out, cx.st);
      k := k + 1;
    }
    AlongEnd(show, count, ds, k, old(cx.out), old(cx.st), cx.out, cx.st, cx.stop);
    StaysZfs(cx.o, ds, k, old(cx.st), cx.st, cx.now, cx.glob);
  }

  /** What the scan has of a dnode: its object, with or without xattrs, or nothing. */
  function ReadObject(d: Dnode): (r: seq<Object>) {
    match d
    case Znode(x, Values) => [x]
    case Znode(x, Absent) => [WithoutXattrs(x)]
    case _ => []
  }

  function ReadObjects(ds: seq<Dnode>): (xs: seq<Object>) {
    if ds == [] then [] else ReadObjects(ds[..|ds| - 1]) + ReadObject(ds[|ds| - 1])
  }

  lemma OneDnodeMore(o: Opts, d: Dnode, xs: seq<Object>, now: int, glob: Linkea.Glob)
    requires Valid(o.filter) && now < TWO64
    ensures Collect(ShowObject(o, now, glob), xs + ReadObject(d)) ==
            Collect(ShowObject(o, now, glob), xs) + Maybe(ShowDnode(o, now, glob)(d))
  {
    var r := ReadObject(d);
    if r == [] {
      assert xs + r == xs;
    } else {
      assert r == [r[0]] && (xs + r)[..|xs|] == xs;
    }
  }

  /** The dnodes print what their objects print. */
  lemma {:induction false} DnodesAreObjects(o: Opts, ds: seq<Dnode>, now: int, glob: Linkea.Glob)
    requires Valid(o.filter) && now < TWO64
    ensures Collect(ShowDnode(o, now, glob), ds) == Collect(ShowObject(o, now, glob), ReadObjects(ds))
    decreases |ds|
  {
    if ds != [] {
      var k := |ds| - 1;
      DnodesAreObjects(o, ds[..k], now, glob);
      OneDnodeMore(o, ds[k], ReadObjects(ds[..k]), now, glob);
    }
  }

  method ScanDnodeChunks(cx: Context, dss: seq<seq<Dnode>>, host: Linkea.Endian)
    requires cx.Ok() && cx.mode.Device? && !cx.stop && ZfsBalanced(cx.st)
    modifies cx
    ensures cx.Ok() && ZfsBalanced(cx.st)
    ensures Printed(old(cx.out), Collect(ShowObject(cx.o, cx.now, cx.glob), ReadObjects(Flat(dss))), cx.out, cx.stop)
  {
    ghost var show := ShowDnode(cx.o, cx.now, cx.glob);
    var k := 0;
    while k < |dss| && !cx.stop
      invariant 0 <= k <= |dss| && cx.Ok() && ZfsBalanced(cx.st)
      invariant Printed(old(cx.out), Collect(show, Flat(dss[..k])), cx.out, cx.stop)
    {
      ghost var before := cx.out;
      ScanDnodes(cx, dss[k], host);
      PrintedStep(show, dss, k, old(cx.out), before, cx.out, cx.stop);
      k := k + 1;
    }
    PrintedChunks(show, dss, k, old(cx.out), cx.out, cx.stop);
    DnodesAreObjects(cx.o, Flat(dss), cx.now, cx.glob);
  }
}
