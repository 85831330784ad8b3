/** The records that travel through the scanner: what the evaluator sees, what the decoders fill in,
    and what crosses the kernel boundary (lfu_filter.h, lfu_ring.h, lfu_lustre.h). */
module Records {
  import opened Bits

  datatype Option<+T> = None | Some(value: T)

  // lma_incompat flags that records carry
  const LMAI_ORPHAN: u32 := 0x10
  const LMAI_ENCRYPT: u32 := 0x20

  datatype Fid = Fid(seq_: u64, oid: u32, ver: u32)

  /** The xattrs a compiled filter can demand (the bits of lfu_needs). */
  datatype Need = Som | Lov | Lmv | Link

  /** One xattr value: absent (a NULL buffer), or its bytes. */
  type Ea = Option<seq<byte>>

  datatype Eas = Eas(som: Ea, lov: Ea, lmv: Ea, link: Ea, external: bool)

  const NO_EAS := Eas(None, None, None, None, false)

  /** Only the demanded values: what a backend fetches for a given mask. */
  function Fetch(needs: set<Need>, eas: Eas): (r: Eas) {
    Eas(if Som in needs then eas.som else None,
        if Lov in needs then eas.lov else None,
        if Lmv in needs then eas.lmv else None,
        if Link in needs then eas.link else None,
        eas.external)
  }

  const POOL_BYTES: nat := 16    // LOV_MAXPOOLNAME + 1
  const NO_POOL: seq<byte> := [0, 0, 0, 0, 0, 0, 0, 0, 0, 0, 0, 0, 0, 0, 0, 0]

  datatype Tier1 = Tier1(
    haveSom: bool, somValid: u16, somSize: u64, somBlocks: u64,
    haveLov: bool, lovMagic: u32, pattern: u32, stripeCount: u32, stripeSize: u32,
    compCount: u32, mirrorCount: u32, pool: seq<byte>,
    haveLmv: bool, lmvCount: u32, lmvHash: u32,
    haveLink: bool)

  const EMPTY_TIER1 := Tier1(false, 0, 0, 0, false, 0, 0, 0, 0, 0, 0, NO_POOL, false, 0, 0, false)

  datatype Rec = Rec(
    fid: Fid, lmaCompat: u32, lmaIncompat: u32, id: u64,
    mode: u16, nlink: u32, uid: u32, gid: u32, projid: u32, flags: u32,
    size: u64, blocks: u64, atime: u32, mtime: u32, ctime: u32, crtime: u32,
    hasExtEa: bool, t1: Tier1, t1Valid: bool, unknown: bool)

  /** struct lfu_wire_rec; the LFU_WR_* bits of wr_lfu are spelled as booleans. */
  datatype WireRec = WireRec(
    oid: u64, fid: Fid, size: u64, blocks: u64,
    atime: int, mtime: int, ctime: int, btime: int,
    mode: u32, nlink: u32, uid: u32, gid: u32, projid: u32, flags: u32,
    lmaCompat: u32, lmaIncompat: u32,
    unknown: bool, haveSom: bool, haveLov: bool, haveLmv: bool, xaExternal: bool,
    somValid: u16, somSize: u64, somBlocks: u64,
    stripeCount: u32, stripeSize: u32, pool: seq<byte>,
    lmvCount: u32, lmvHash: u32)
}
