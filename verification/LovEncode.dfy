/** An encoder for trusted.lov, and what the decoders and the --ost walker read back from what it wrote. */
module LovEncode {
  import opened Bits
  import opened Records
  import opened Lov
  import opened Seqs

  // ------------------------------------------------------------------
  // Words

  function Put16(v: u16): (r: seq<byte>)
    ensures |r| == 2
  {
    [v % 0x100, v / 0x100]
  }

  function Put32(v: u32): (r: seq<byte>)
    ensures |r| == 4
  {
    [v % 0x100, (v / 0x100) % 0x100, (v / 0x1_0000) % 0x100, v / 0x100_0000]
  }

  function Zeros(n: nat): (r: seq<byte>)
    ensures |r| == n
  {
    seq(n, i => 0)
  }

  lemma Reads16(s: seq<byte>, o: nat, v: u16)
    requires StandsAt(s, o, Put16(v))
    ensures Le16(s, o) == v
  {
    var t := Put16(v);
    assert s[o + 0] == t[0] && s[o + 1] == t[1];
  }

  lemma Bytes32(v: u32)
    ensures v == v % 0x100 + 0x100 * ((v / 0x100) % 0x100) +
                 0x1_0000 * ((v / 0x1_0000) % 0x100) + 0x100_0000 * (v / 0x100_0000)
  {
    assert v / 0x1_0000 == (v / 0x100) / 0x100;
    assert v / 0x100_0000 == (v / 0x1_0000) / 0x100;
  }

  lemma Reads32(s: seq<byte>, o: nat, v: u32)
    requires StandsAt(s, o, Put32(v))
    ensures Le32(s, o) == v
  {
    Bytes32(v);
    var t := Put32(v);
    assert s[o + 0] == t[0] && s[o + 1] == t[1] && s[o + 2] == t[2] && s[o + 3] == t[3];
  }

  // ------------------------------------------------------------------
  // One component

  /** A plain component: a v3 one carries a pool name of 15 bytes. */
  datatype Plain = Plain(pool: Option<seq<byte>>, pattern: u32, size: u32, osts: seq<u32>)

  predicate Writable(p: Plain) {
    |p.osts| <= 65535 && (p.pool.Some? ==> |p.pool.value| == POOL_BYTES - 1)
  }

  function Magic(p: Plain): u32 {
    if p.pool.Some? then MAGIC_V3 else MAGIC_V1
  }

  /** struct lov_mds_md_v1 up to and including the layout generation. */
  function PutHead(p: Plain): (r: seq<byte>)
    requires Writable(p)
    ensures |r| == MD_V1_SIZE
  {
    (Put32(Magic(p)) + Put32(p.pattern) + Zeros(16)) + (Put32(p.size) + Put16(|p.osts|) + Zeros(2))
  }

  function PutPool(p: Plain): (r: seq<byte>)
    requires Writable(p)
    ensures |r| == if p.pool.Some? then POOL_BYTES else 0
  {
    if p.pool.Some? then p.pool.value + [0] else []
  }

  function PutObjects(osts: seq<u32>): (r: seq<byte>)
    ensures |r| == OST_DATA_SIZE * |osts|
  {
    if osts == [] then [] else PutObject(osts[0]) + PutObjects(osts[1..])
  }

  function PutPlain(p: Plain): (r: seq<byte>)
    requires Writable(p)
  {
    (PutHead(p) + PutPool(p)) + PutObjects(p.osts)
  }

  lemma HeadStands(p: Plain)
    requires Writable(p)
    ensures var h := PutHead(p);
            && StandsAt(h, 0, Put32(Magic(p))) && StandsAt(h, 4, Put32(p.pattern)) && StandsAt(h, 24, Put32(p.size))
            && StandsAt(h, 28, Put16(|p.osts|))
  {
  }

  lemma HeadReads(p: Plain)
    requires Writable(p)
    ensures var c := PutPlain(p);
            && |c| == MD_V1_SIZE + |PutPool(p)| + OST_DATA_SIZE * |p.osts|
            && Le32(c, 0) == Magic(p) && Le32(c, 4) == p.pattern && Le32(c, 24) == p.size && Le16(c, 28) == |p.osts|
  {
    var c, h := PutPlain(p), PutHead(p);
    HeadStands(p);
    StandsPieces(h + PutPool(p), PutObjects(p.osts));
    StandsPieces(h, PutPool(p));
    StandsInside(c, 0, h + PutPool(p), 0, h);
    StandsInside(c, 0, h, 0, Put32(Magic(p)));
    StandsInside(c, 0, h, 4, Put32(p.pattern));
    StandsInside(c, 0, h, 24, Put32(p.size));
    StandsInside(c, 0, h, 28, Put16(|p.osts|));
    Reads32(c, 0, Magic(p));
    Reads32(c, 4, p.pattern);
    Reads32(c, 24, p.size);
    Reads16(c, 28, |p.osts|);
  }

  function PutObject(ost: u32): (r: seq<byte>)
    ensures |r| == OST_DATA_SIZE
  {
    Zeros(20) + Put32(ost)
  }

  lemma OneObject(ost: u32)
    ensures StandsAt(PutObject(ost), 20, Put32(ost))
  {
    StandsPieces(Zeros(20), Put32(ost));
  }

  lemma {:induction false} ObjectStands(osts: seq<u32>, i: nat)
    requires i < |osts|
    ensures StandsAt(PutObjects(osts), i * OST_DATA_SIZE, PutObject(osts[i]))
    decreases i
  {
    var first, rest := PutObject(osts[0]), PutObjects(osts[1..]);
    if i == 0 {
      StandsPieces(first, rest);
    } else {
      ObjectStands(osts[1..], i - 1);
      StandsTail(first, rest, (i - 1) * OST_DATA_SIZE, PutObject(osts[i]));
    }
  }

  lemma ObjectReads(p: Plain, i: nat)
    requires Writable(p) && i < |p.osts|
    ensures var c := PutPlain(p);
            var o := MD_V1_SIZE + |PutPool(p)| + i * OST_DATA_SIZE + 20;
            o + 4 <= |c| && Le32(c, o) == p.osts[i]
  {
    var c, pre := PutPlain(p), PutHead(p) + PutPool(p);
    StandsPieces(pre, PutObjects(p.osts));
    ObjectStands(p.osts, i);
    StandsInside(c, |pre|, PutObjects(p.osts), i * OST_DATA_SIZE, PutObject(p.osts[i]));
    OneObject(p.osts[i]);
    StandsInside(c, |pre| + i * OST_DATA_SIZE, PutObject(p.osts[i]), 20, Put32(p.osts[i]));
    Reads32(c, |pre| + (i * OST_DATA_SIZE + 20), p.osts[i]);
  }

  lemma AllPresent(p: Plain)
    requires Writable(p)
    ensures Recognized(PutPlain(p)) && Pattern(PutPlain(p)) == p.pattern
    ensures Header(PutPlain(p)) == MD_V1_SIZE + |PutPool(p)| && Present(PutPlain(p)) == |p.osts|
  {
    HeadReads(p);
  }

  /** A component reads back as written: pattern, stripe size, pool, and its objects in order. */
  lemma PlainReadBack(p: Plain)
    requires Writable(p)
    ensures var c := PutPlain(p);
            && PartOf(c) == Data(p.pattern, p.size, |p.osts|, if p.pool.Some? then Some(p.pool.value + [0]) else None)
            && Stripes(c) == (if Has(p.pattern, PATTERN_MDT) then 0 else |p.osts|)
            && Objects(c) == (if Has(p.pattern, PATTERN_MDT) || Has(p.pattern, PATTERN_RELEASED) then [] else p.osts)
  {
    HeadReads(p);
    AllPresent(p);
    if p.pool.Some? {
      PoolReads(p);
    }
    if !Has(p.pattern, PATTERN_MDT) && !Has(p.pattern, PATTERN_RELEASED) {
      ObjectsRead(p);
    }
  }

  lemma PoolStands(p: Plain)
    requires Writable(p)
    ensures StandsAt(PutPlain(p), MD_V1_SIZE, PutPool(p))
  {
    var pre := PutHead(p) + PutPool(p);
    StandsPieces(pre, PutObjects(p.osts));
    StandsPieces(PutHead(p), PutPool(p));
    StandsInside(PutPlain(p), 0, pre, MD_V1_SIZE, PutPool(p));
  }

  /** A prefix of what stands at o, cut out again. */
  lemma SliceAt(s: seq<byte>, o: nat, t: seq<byte>, u: seq<byte>)
    requires StandsAt(s, o, t) && u <= t
    ensures s[o..o + |u|] == u
  {
  }

  lemma PoolReads(p: Plain)
    requires Writable(p) && p.pool.Some?
    ensures |PutPlain(p)| >= MD_V3_SIZE && PoolName(PutPlain(p)) == p.pool.value + [0]
  {
    PoolStands(p);
    SliceAt(PutPlain(p), MD_V1_SIZE, PutPool(p), p.pool.value);
  }

  lemma ObjectsRead(p: Plain)
    requires Writable(p)
    ensures Recognized(PutPlain(p)) && ObjectTable(PutPlain(p), Header(PutPlain(p)), Present(PutPlain(p))) == p.osts
  {
    AllPresent(p);
    var c := PutPlain(p);
    var os := ObjectTable(c, Header(c), Present(c));
    forall i | 0 <= i < |os|
      ensures os[i] == p.osts[i]
    {
      ObjectReads(p, i);
    }
  }

  // ------------------------------------------------------------------
  // Composite layouts

  /** A component table entry: only where the component lies and how long it is matter here. */
  function PutEntry(off: u32, size: u32): (r: seq<byte>)
    ensures |r| == COMP_ENTRY_SIZE
  {
    Zeros(24) + (Put32(off) + Put32(size)) + Zeros(16)
  }

  lemma EntryStands(off: u32, size: u32)
    ensures StandsAt(PutEntry(off, size), 24, Put32(off)) && StandsAt(PutEntry(off, size), 28, Put32(size))
  {
  }

  function TotalLength(cs: seq<seq<byte>>): (n: nat) {
    if cs == [] then 0 else |cs[0]| + TotalLength(cs[1..])
  }

  /** Where component i begins, counted from the first. */
  function Offset(cs: seq<seq<byte>>, i: nat): (n: nat)
    requires i < |cs|
    ensures n + |cs[i]| <= TotalLength(cs)
  {
    if i == 0 then 0 else |cs[0]| + Offset(cs[1..], i - 1)
  }

  function PutTable(cs: seq<seq<byte>>, off: nat): (r: seq<byte>)
    requires off + TotalLength(cs) < TWO32
    ensures |r| == COMP_ENTRY_SIZE * |cs|
  {
    if cs == [] then [] else PutEntry(off, |cs[0]|) + PutTable(cs[1..], off + |cs[0]|)
  }

  function PutBlobs(cs: seq<seq<byte>>): (r: seq<byte>)
    ensures |r| == TotalLength(cs)
  {
    if cs == [] then [] else cs[0] + PutBlobs(cs[1..])
  }

  lemma {:induction false} TableStands(cs: seq<seq<byte>>, off: nat, i: nat)
    requires off + TotalLength(cs) < TWO32 && i < |cs|
    ensures StandsAt(PutTable(cs, off), i * COMP_ENTRY_SIZE, PutEntry(off + Offset(cs, i), |cs[i]|))
    decreases i
  {
    var first, rest := PutEntry(off, |cs[0]|), PutTable(cs[1..], off + |cs[0]|);
    if i == 0 {
      StandsPieces(first, rest);
    } else {
      TableStands(cs[1..], off + |cs[0]|, i - 1);
      StandsTail(first, rest, (i - 1) * COMP_ENTRY_SIZE, PutEntry(off + Offset(cs, i), |cs[i]|));
    }
  }

  lemma {:induction false} BlobStands(cs: seq<seq<byte>>, i: nat)
    requires i < |cs|
    ensures StandsAt(PutBlobs(cs), Offset(cs, i), cs[i])
    decreases i
  {
    if i == 0 {
      StandsPieces(cs[0], PutBlobs(cs[1..]));
    } else {
      BlobStands(cs[1..], i - 1);
      StandsTail(cs[0], PutBlobs(cs[1..]), Offset(cs[1..], i - 1), cs[i]);
    }
  }

  /** What fits a composite value: at most 65535 components, none empty, all within 4 GiB. */
  predicate Layable(cs: seq<seq<byte>>) {
    && |cs| <= 65535 && COMP_MD_SIZE + COMP_ENTRY_SIZE * |cs| + TotalLength(cs) < TWO32
    && forall i :: 0 <= i < |cs| ==> |cs[i]| > 0
  }

  function PutCompHead(count: u16, mirrors: u16): (r: seq<byte>)
    ensures |r| == COMP_MD_SIZE
  {
    (Put32(MAGIC_COMP_V1) + Zeros(10)) + (Put16(count) + Put16(mirrors) + Zeros(14))
  }

  lemma CompHeadStands(count: u16, mirrors: u16)
    ensures var h := PutCompHead(count, mirrors);
            StandsAt(h, 0, Put32(MAGIC_COMP_V1)) && StandsAt(h, 14, Put16(count)) && StandsAt(h, 16, Put16(mirrors))
  {
  }

  function TableEnd(cs: seq<seq<byte>>): nat {
    COMP_MD_SIZE + COMP_ENTRY_SIZE * |cs|
  }

  function PutComposite(cs: seq<seq<byte>>, mirrors: u16): (r: seq<byte>)
    requires Layable(cs)
    ensures |r| == TableEnd(cs) + TotalLength(cs)
  {
    PutCompHead(|cs|, mirrors) + (PutTable(cs, TableEnd(cs)) + PutBlobs(cs))
  }

  lemma CompositeStands(cs: seq<seq<byte>>, mirrors: u16)
    requires Layable(cs)
    ensures var b := PutComposite(cs, mirrors);
            && StandsAt(b, 0, PutCompHead(|cs|, mirrors)) && StandsAt(b, COMP_MD_SIZE, PutTable(cs, TableEnd(cs)))
            && StandsAt(b, TableEnd(cs), PutBlobs(cs))
  {
    StandsThree(PutCompHead(|cs|, mirrors), PutTable(cs, TableEnd(cs)), PutBlobs(cs));
  }

  lemma CompHeadReads(cs: seq<seq<byte>>, mirrors: u16)
    requires Layable(cs)
    ensures var b := PutComposite(cs, mirrors);
            Le32(b, 0) == MAGIC_COMP_V1 && Le16(b, 14) == |cs| && Le16(b, 16) == mirrors
  {
    var b, h := PutComposite(cs, mirrors), PutCompHead(|cs|, mirrors);
    CompositeStands(cs, mirrors);
    CompHeadStands(|cs|, mirrors);
    StandsInside(b, 0, h, 0, Put32(MAGIC_COMP_V1));
    StandsInside(b, 0, h, 14, Put16(|cs|));
    StandsInside(b, 0, h, 16, Put16(mirrors));
    Reads32(b, 0, MAGIC_COMP_V1);
    Reads16(b, 14, |cs|);
    Reads16(b, 16, mirrors);
  }

  /** An entry, wherever it stands, gives the offset and size put into it. */
  lemma EntryReads(b: seq<byte>, e: nat, off: u32, size: u32)
    requires StandsAt(b, e, PutEntry(off, size))
    ensures e + COMP_ENTRY_SIZE <= |b| && Le32(b, e + 24) == off && Le32(b, e + 28) == size
  {
    EntryStands(off, size);
    StandsInside(b, e, PutEntry(off, size), 24, Put32(off));
    StandsInside(b, e, PutEntry(off, size), 28, Put32(size));
    Reads32(b, e + 24, off);
    Reads32(b, e + 28, size);
  }

  lemma EntryPlaced(cs: seq<seq<byte>>, mirrors: u16, i: nat)
    requires Layable(cs) && i < |cs|
    ensures StandsAt(PutComposite(cs, mirrors), COMP_MD_SIZE + i * COMP_ENTRY_SIZE,
               PutEntry(TableEnd(cs) + Offset(cs, i), |cs[i]|))
  {
    CompositeStands(cs, mirrors);
    TableStands(cs, TableEnd(cs), i);
    StandsInside(PutComposite(cs, mirrors), COMP_MD_SIZE, PutTable(cs, TableEnd(cs)), i * COMP_ENTRY_SIZE,
             PutEntry(TableEnd(cs) + Offset(cs, i), |cs[i]|));
  }

  lemma BlobPlaced(cs: seq<seq<byte>>, mirrors: u16, i: nat)
    requires Layable(cs) && i < |cs|
    ensures StandsAt(PutComposite(cs, mirrors), TableEnd(cs) + Offset(cs, i), cs[i])
  {
    CompositeStands(cs, mirrors);
    BlobStands(cs, i);
    StandsInside(PutComposite(cs, mirrors), TableEnd(cs), PutBlobs(cs), Offset(cs, i), cs[i]);
  }

  /** An entry and the component it points at. */
  lemma ComponentAt(b: seq<byte>, i: nat, off: u32, c: seq<byte>)
    requires 0 < |c| < TWO32 && StandsAt(b, off, c)
    requires StandsAt(b, COMP_MD_SIZE + i * COMP_ENTRY_SIZE, PutEntry(off, |c|))
    ensures COMP_MD_SIZE + (i + 1) * COMP_ENTRY_SIZE <= |b| && EntryComponent(b, i) == Some(c)
  {
    EntryReads(b, COMP_MD_SIZE + i * COMP_ENTRY_SIZE, off, |c|);
    SliceAt(b, off, c, c);
  }

  lemma ComponentReads(cs: seq<seq<byte>>, mirrors: u16, i: nat)
    requires Layable(cs) && i < |cs|
    ensures var b := PutComposite(cs, mirrors);
            COMP_MD_SIZE + (i + 1) * COMP_ENTRY_SIZE <= |b| && EntryComponent(b, i) == Some(cs[i])
  {
    EntryPlaced(cs, mirrors, i);
    BlobPlaced(cs, mirrors, i);
    ComponentAt(PutComposite(cs, mirrors), i, TableEnd(cs) + Offset(cs, i), cs[i]);
  }

  lemma {:induction false} TableReads(cs: seq<seq<byte>>, mirrors: u16, i: nat)
    requires Layable(cs) && i <= |cs|
    ensures TableFrom(PutComposite(cs, mirrors), i, |cs|) == cs[i..]
    decreases |cs| - i
  {
    if i < |cs| {
      ComponentReads(cs, mirrors, i);
      TableReads(cs, mirrors, i + 1);
    }
  }

  /** A composite layout reads back as the components that were written, in order. */
  lemma CompositeReadBack(cs: seq<seq<byte>>, mirrors: u16)
    requires Layable(cs)
    ensures Components(PutComposite(cs, mirrors)) == cs
  {
    CompHeadReads(cs, mirrors);
    TableReads(cs, mirrors, 0);
  }

  // ------------------------------------------------------------------
  // Whole layouts

  function PutAll(ps: seq<Plain>): (cs: seq<seq<byte>>)
    requires forall i :: 0 <= i < |ps| ==> Writable(ps[i])
    ensures |cs| == |ps|
  {
    if ps == [] then [] else [PutPlain(ps[0])] + PutAll(ps[1..])
  }

  /** The objects of the components that hold any: not those on the MDT, not released ones. */
  function Written(ps: seq<Plain>): (os: seq<u32>) {
    if ps == [] then []
    else
      var none := Has(ps[0].pattern, PATTERN_MDT) || Has(ps[0].pattern, PATTERN_RELEASED);
      (if none then [] else ps[0].osts) + Written(ps[1..])
  }

  lemma {:induction false} ObjectsOfAll(ps: seq<Plain>)
    requires forall i :: 0 <= i < |ps| ==> Writable(ps[i])
    ensures AllObjects(PutAll(ps)) == Written(ps)
    decreases |ps|
  {
    if ps != [] {
      ObjectsOfAll(ps[1..]);
      PlainReadBack(ps[0]);
      assert PutAll(ps)[1..] == PutAll(ps[1..]);
    }
  }

  /** Whatever plain components are laid out, the walker finds exactly the objects that were written, in order. */
  lemma LayoutReadBack(ps: seq<Plain>, mirrors: u16)
    requires (forall i :: 0 <= i < |ps| ==> Writable(ps[i])) && Layable(PutAll(ps))
    ensures AllObjects(Components(PutComposite(PutAll(ps), mirrors))) == Written(ps)
  {
    CompositeReadBack(PutAll(ps), mirrors);
    ObjectsOfAll(ps);
  }
}
