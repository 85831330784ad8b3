/** trusted.lov, trusted.som and trusted.lmv on arbitrary bytes: the decoders of src/lfu_filter_eval.c and
    the object walker behind --ost, against one reading of the layout as a list of components. */
module Lov {
  import opened Bits
  import opened Records

  const MAGIC_V1: u32 := 0x0BD1_0BD0
  const MAGIC_V3: u32 := 0x0BD3_0BD0
  const MAGIC_SPECIFIC: u32 := 0x0BD5_0BD0
  const MAGIC_COMP_V1: u32 := 0x0BD6_0BD0
  const MAGIC_FOREIGN: u32 := 0x0BD7_0BD0

  const PATTERN_RAID0: u32 := 0x001
  const PATTERN_MDT: u32 := 0x100
  const PATTERN_OVERSTRIPING: u32 := 0x200
  const PATTERN_FOREIGN: u32 := 0x400
  const PATTERN_RELEASED: u32 := 0x8000_0000

  const LMV_MAGIC_V1: u32 := 0x0CD2_0CD0
  const LMV_MAGIC_STRIPE: u32 := 0x0CD4_0CD0

  // on-disk sizes
  const SOM_SIZE: nat := 24
  const MD_V1_SIZE: nat := 32
  const MD_V3_SIZE: nat := 48
  const OST_DATA_SIZE: nat := 24
  const COMP_MD_SIZE: nat := 32
  const COMP_ENTRY_SIZE: nat := 48
  const LMV_SIZE: nat := 56

  function Le16(b: seq<byte>, o: nat): (v: u16)
    requires o + 2 <= |b|
  {
    b[o] as int + 0x100 * b[o + 1] as int
  }

  function Le32(b: seq<byte>, o: nat): (v: u32)
    requires o + 4 <= |b|
  {
    b[o] as int + 0x100 * b[o + 1] as int + 0x1_0000 * b[o + 2] as int + 0x100_0000 * b[o + 3] as int
  }

  function Le64(b: seq<byte>, o: nat): (v: u64)
    requires o + 8 <= |b|
  {
    Le32(b, o) + TWO32 * Le32(b, o + 4)
  }

  // ------------------------------------------------------------------
  // What the bytes mean

  /** Where entry i of a composite layout says its component lies, if it lies inside the value. */
  function EntryComponent(b: seq<byte>, i: nat): Option<seq<byte>>
    requires COMP_MD_SIZE + (i + 1) * COMP_ENTRY_SIZE <= |b|
  {
    var e := COMP_MD_SIZE + i * COMP_ENTRY_SIZE;
    var off, size := Le32(b, e + 24), Le32(b, e + 28);
    if off >= |b| || size == 0 || off + size > |b| then None else Some(b[off..off + size])
  }

  /** The components entries i..n point at, up to the first entry that does not fit. */
  function TableFrom(b: seq<byte>, i: nat, n: nat): (cs: seq<seq<byte>>)
    ensures |cs| <= if i <= n then n - i else 0
    decreases n - i
  {
    if i >= n || COMP_MD_SIZE + (i + 1) * COMP_ENTRY_SIZE > |b| then []
    else
      match EntryComponent(b, i)
      case None => TableFrom(b, i + 1, n)
      case Some(c) => [c] + TableFrom(b, i + 1, n)
  }

  /** A layout as the list of its components, each given by its bytes. */
  function Components(b: seq<byte>): (cs: seq<seq<byte>>)
    ensures |cs| <= 65535
  {
    if |b| < 4 then []
    else if Le32(b, 0) != MAGIC_COMP_V1 then [b]
    else if |b| < COMP_MD_SIZE then []
    else TableFrom(b, 0, Le16(b, 14))
  }

  /** A plain v1 or v3 component with its whole header present. */
  predicate Recognized(c: seq<byte>) {
    && |c| >= MD_V1_SIZE
    && (Le32(c, 0) == MAGIC_V1 || (|c| >= MD_V3_SIZE && (Le32(c, 0) == MAGIC_V3 || Le32(c, 0) == MAGIC_SPECIFIC)))
  }

  function Header(c: seq<byte>): (h: nat)
    requires Recognized(c)
    ensures MD_V1_SIZE <= h <= |c|
  {
    if Le32(c, 0) == MAGIC_V1 then MD_V1_SIZE else MD_V3_SIZE
  }

  function Pattern(c: seq<byte>): u32
    requires Recognized(c)
  {
    Le32(c, 4)
  }

  predicate Released(c: seq<byte>) {
    Recognized(c) && Has(Pattern(c), PATTERN_RELEASED)
  }

  predicate OnMdt(c: seq<byte>) {
    Recognized(c) && Has(Pattern(c), PATTERN_MDT)
  }

  /** How many of `count` object entries behind a header of `hdr` bytes are present. */
  function Fitting(len: nat, hdr: nat, count: u16): (n: nat)
    ensures n <= count
    ensures n > 0 ==> hdr + n * OST_DATA_SIZE <= len
    ensures n < count ==> hdr + (n + 1) * OST_DATA_SIZE > len
  {
    if len < hdr then 0
    else
      var fit := (len - hdr) / OST_DATA_SIZE;
      if count <= fit then count else fit
  }

  /** The OST indices of the first n object entries. */
  function ObjectTable(c: seq<byte>, hdr: nat, n: nat): (os: seq<u32>)
    requires n > 0 ==> hdr + n * OST_DATA_SIZE <= |c|
    ensures |os| == n
  {
    seq(n, s requires 0 <= s < n => Le32(c, hdr + s * OST_DATA_SIZE + 20))
  }

  /** How many object entries are both declared and present. */
  function Present(c: seq<byte>): (n: nat)
    requires Recognized(c)
    ensures n <= 65535
  {
    Fitting(|c|, Header(c), Le16(c, 28))
  }

  /** The stripes a component contributes: a released one keeps the count its header declares. */
  function Stripes(c: seq<byte>): (n: nat)
    ensures n <= 65535
  {
    if !Recognized(c) || OnMdt(c) then 0
    else if Released(c) then Le16(c, 28)
    else Present(c)
  }

  /** The OST indices of the objects a component holds. */
  function Objects(c: seq<byte>): (os: seq<u32>) {
    if !Recognized(c) || OnMdt(c) || Released(c) then []
    else ObjectTable(c, Header(c), Present(c))
  }

  function SumStripes(cs: seq<seq<byte>>): (n: nat)
    ensures n <= 65535 * |cs|
  {
    if cs == [] then 0 else Stripes(cs[0]) + SumStripes(cs[1..])
  }

  function AllObjects(cs: seq<seq<byte>>): (os: seq<u32>) {
    if cs == [] then [] else Objects(cs[0]) + AllObjects(cs[1..])
  }

  // ------------------------------------------------------------------
  // The decoders

  function DecodeSom(t1: Tier1, ea: Ea): (r: Tier1) {
    if ea.None? || |ea.value| < SOM_SIZE then t1
    else t1.(somValid := Le16(ea.value, 0), somSize := Le64(ea.value, 8), somBlocks := Le64(ea.value, 16),
             haveSom := true)
  }

  function DecodeLmv(t1: Tier1, ea: Ea): (r: Tier1) {
    if ea.None? || |ea.value| < LMV_SIZE then t1
    else
      var magic := Le32(ea.value, 0);
      if magic != LMV_MAGIC_V1 && magic != LMV_MAGIC_STRIPE then t1
      else t1.(lmvCount := Le32(ea.value, 4), lmvHash := Le32(ea.value, 12), haveLmv := true)
  }

  function PoolName(c: seq<byte>): (p: seq<byte>)
    requires |c| >= MD_V3_SIZE
    ensures |p| == POOL_BYTES
  {
    c[32..47] + [0]
  }

  /** What one component adds to the decoded layout. */
  datatype Part =
    | Nothing
    | Foreign
    | Data(pattern: u32, size: u32, count: u16, pool: Option<seq<byte>>)

  function PartOf(c: seq<byte>): (r: Part)
    ensures r.Data? && r.pool.Some? ==> |r.pool.value| == POOL_BYTES
  {
    if |c| < MD_V1_SIZE then Nothing
    else
      var magic, pattern, size, count := Le32(c, 0), Le32(c, 4), Le32(c, 24), Le16(c, 28);
      if magic == MAGIC_FOREIGN then Foreign
      else if !Recognized(c) then Nothing
      else
        var hdr := Header(c);
        var kept: u16 := if |c| < hdr + count * OST_DATA_SIZE && !Has(pattern, PATTERN_RELEASED)
                         then (|c| - hdr) / OST_DATA_SIZE else count;
        Data(pattern, size, kept, if magic == MAGIC_V1 then None else Some(PoolName(c)))
  }

  function Fold(t1: Tier1, part: Part): (r: Tier1)
    requires |t1.pool| == POOL_BYTES
    requires part.Data? && part.pool.Some? ==> |part.pool.value| == POOL_BYTES
    ensures |r.pool| == POOL_BYTES
  {
    match part
    case Nothing => t1
    case Foreign => t1.(pattern := Or32(t1.pattern, PATTERN_FOREIGN), lovMagic := MAGIC_FOREIGN)
    case Data(pattern, size, count, pool) =>
      t1.(pool := if pool.Some? && t1.pool[0] == 0 then pool.value else t1.pool,
          pattern := Or32(t1.pattern, pattern),
          stripeSize := if t1.stripeSize == 0 then size else t1.stripeSize,
          stripeCount := if Has(pattern, PATTERN_MDT) then t1.stripeCount else (t1.stripeCount + count) % TWO32)
  }

  /** lfu_decode_lov_one: fold one component into the accumulator. */
  function DecodeOne(t1: Tier1, c: seq<byte>): (r: Tier1)
    requires |t1.pool| == POOL_BYTES
    ensures |r.pool| == POOL_BYTES
  {
    Fold(t1, PartOf(c))
  }

  function DecodeAll(t1: Tier1, cs: seq<seq<byte>>): (r: Tier1)
    requires |t1.pool| == POOL_BYTES
    ensures |r.pool| == POOL_BYTES
    decreases |cs|
  {
    if cs == [] then t1 else DecodeAll(DecodeOne(t1, cs[0]), cs[1..])
  }

  /** What the decoder records before it looks at any component. */
  function DecodeHead(t1: Tier1, b: seq<byte>): (r: Tier1)
    requires |b| >= 4
    ensures r.pool == t1.pool
  {
    var h := t1.(lovMagic := Le32(b, 0), haveLov := true);
    if Le32(b, 0) != MAGIC_COMP_V1 then h.(compCount := 1, mirrorCount := 1)
    else if |b| < COMP_MD_SIZE then h
    else h.(compCount := Le16(b, 14), mirrorCount := Le16(b, 16) + 1)
  }

  function DecodeLov(t1: Tier1, ea: Ea): (r: Tier1)
    requires |t1.pool| == POOL_BYTES
    ensures |r.pool| == POOL_BYTES
  {
    if ea.None? || |ea.value| < 4 then t1
    else DecodeAll(DecodeHead(t1, ea.value), Components(ea.value))
  }

  /** lfu_ea_decode. */
  function EaDecode(eas: Eas): (t1: Tier1)
    ensures |t1.pool| == POOL_BYTES
  {
    DecodeLmv(DecodeLov(DecodeSom(EMPTY_TIER1, eas.som), eas.lov), eas.lmv).(haveLink := eas.link.Some?)
  }

  lemma DecodeAllSingle(t1: Tier1, c: seq<byte>)
    requires |t1.pool| == POOL_BYTES
    ensures DecodeAll(t1, [c]) == DecodeOne(t1, c)
  {
    var cs := [c];
    assert cs[1..] == [];
  }

  /** lfu_decode_lov as the loop it is; every load is inside the value. */
  method DecodeLovLoop(t1: Tier1, ea: Ea) returns (r: Tier1)
    requires |t1.pool| == POOL_BYTES
    ensures r == DecodeLov(t1, ea)
  {
    r := t1;
    if ea.None? || |ea.value| < 4 {
      return;
    }
    var b := ea.value;
    var magic := Le32(b, 0);
    r := r.(lovMagic := magic, haveLov := true);
    if magic != MAGIC_COMP_V1 {
      r := r.(compCount := 1, mirrorCount := 1);
      DecodeAllSingle(r, b);
      r := DecodeOne(r, b);
      return;
    }
    if |b| < COMP_MD_SIZE {
      return;
    }
    var nent: int, nmirror: int := Le16(b, 14), Le16(b, 16);
    r := r.(compCount := nent, mirrorCount := nmirror + 1);
    r := DecodeTable(r, b, nent);
  }

  lemma DecodeTableStep(t1: Tier1, b: seq<byte>, i: nat, n: nat)
    requires |t1.pool| == POOL_BYTES && i < n && COMP_MD_SIZE + (i + 1) * COMP_ENTRY_SIZE <= |b|
    ensures DecodeAll(t1, TableFrom(b, i, n)) ==
            DecodeAll(if EntryComponent(b, i).Some? then DecodeOne(t1, EntryComponent(b, i).value) else t1,
                      TableFrom(b, i + 1, n))
  {
    var rest := TableFrom(b, i + 1, n);
    if EntryComponent(b, i).Some? {
      var c := EntryComponent(b, i).value;
      assert ([c] + rest)[1..] == rest;
    }
  }

  /** The entry loop of a composite layout. */
  method DecodeTable(t1: Tier1, b: seq<byte>, nent: nat) returns (r: Tier1)
    requires |t1.pool| == POOL_BYTES
    ensures r == DecodeAll(t1, TableFrom(b, 0, nent))
  {
    r := t1;
    var i := 0;
    ghost var goal := DecodeAll(t1, TableFrom(b, 0, nent));
    while i < nent
      invariant 0 <= i <= nent
      invariant |r.pool| == POOL_BYTES
      invariant DecodeAll(r, TableFrom(b, i, nent)) == goal
    {
      if COMP_MD_SIZE + (i + 1) * COMP_ENTRY_SIZE > |b| {
        return;
      }
      DecodeTableStep(r, b, i, nent);
      var c := EntryComponent(b, i);
      if c.Some? {
        r := DecodeOne(r, c.value);
      }
      i := i + 1;
    }
  }

  // ------------------------------------------------------------------
  // Properties

  lemma {:induction false} DecodeAllCounts(t1: Tier1, cs: seq<seq<byte>>)
    requires |t1.pool| == POOL_BYTES && t1.stripeCount + 65535 * |cs| < TWO32
    ensures DecodeAll(t1, cs).stripeCount == t1.stripeCount + SumStripes(cs)
    decreases |cs|
  {
    if cs != [] {
      DecodeOneCounts(t1, cs[0]);
      DecodeAllCounts(DecodeOne(t1, cs[0]), cs[1..]);
    }
  }

  lemma DecodeOneCounts(t1: Tier1, c: seq<byte>)
    requires |t1.pool| == POOL_BYTES && t1.stripeCount + 65535 < TWO32
    ensures DecodeOne(t1, c).stripeCount == t1.stripeCount + Stripes(c)
  {
    if Recognized(c) {
      KeptIsStripes(c);
    }
  }

  lemma KeptIsStripes(c: seq<byte>)
    requires Recognized(c)
    ensures PartOf(c).Data? && PartOf(c).pattern == Pattern(c)
    ensures PartOf(c).count == (if Released(c) then Le16(c, 28) else Present(c))
  {
    var hdr, count: nat := Header(c), Le16(c, 28);
    assert |c| < hdr + count * OST_DATA_SIZE <==> (|c| - hdr) / OST_DATA_SIZE < count;
  }

  /** On every value the decoded stripe count is the sum over the components and never wraps 32 bits. */
  lemma StripeCountExact(eas: Eas)
    requires eas.lov.Some?
    ensures EaDecode(eas).stripeCount == SumStripes(Components(eas.lov.value)) <= 65535 * 65535
    ensures EaDecode(eas).haveLov == (|eas.lov.value| >= 4)
  {
    var t1 := DecodeSom(EMPTY_TIER1, eas.som);
    if |eas.lov.value| >= 4 {
      DecodeAllCounts(DecodeHead(t1, eas.lov.value), Components(eas.lov.value));
      DecodeAllFrame(DecodeHead(t1, eas.lov.value), Components(eas.lov.value));
    }
  }

  /** Folding components in touches only the layout fields. */
  lemma {:induction false} DecodeAllFrame(t1: Tier1, cs: seq<seq<byte>>)
    requires |t1.pool| == POOL_BYTES
    ensures var r := DecodeAll(t1, cs);
            r == t1.(lovMagic := r.lovMagic, pattern := r.pattern, stripeCount := r.stripeCount,
                     stripeSize := r.stripeSize, pool := r.pool)
    decreases |cs|
  {
    if cs != [] {
      DecodeAllFrame(DecodeOne(t1, cs[0]), cs[1..]);
    }
  }

  lemma {:induction false} ObjectsAreStripes(cs: seq<seq<byte>>)
    requires forall c :: c in cs ==> !Released(c)
    ensures |AllObjects(cs)| == SumStripes(cs)
  {
    if cs != [] {
      assert cs[0] in cs && forall c :: c in cs[1..] ==> c in cs;
      ObjectsAreStripes(cs[1..]);
    }
  }

  /** The decoder and the walker agree: with no released component there are exactly as many objects to
      visit as stripes decoded. */
  lemma DecoderAndWalkerAgree(eas: Eas)
    requires eas.lov.Some? && forall c :: c in Components(eas.lov.value) ==> !Released(c)
    ensures |AllObjects(Components(eas.lov.value))| == EaDecode(eas).stripeCount
  {
    StripeCountExact(eas);
    ObjectsAreStripes(Components(eas.lov.value));
  }
}
