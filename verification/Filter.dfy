/** The compiled filter (lfu_filter.h): a fixed array of fixed-size predicates, and the check an untrusted
    one has to pass before it is evaluated. */
module Filter {
  import opened Bits
  import opened Records
  import opened CStrings

  // enum lfu_field: tier 0 below F_SIZE, tier 1 from there on
  const F_ATIME: int := 0
  const F_MTIME: int := 1
  const F_CTIME: int := 2
  const F_BTIME: int := 3
  const F_UID: int := 4
  const F_GID: int := 5
  const F_TYPE: int := 6
  const F_PERM: int := 7
  const F_LINKS: int := 8
  const F_PROJID: int := 9
  const F_ATTRS: int := 10
  const F_DEV_BLOCKS: int := 11
  const F_SIZE: int := 12
  const F_BLOCKS: int := 13
  const F_STRIPE_COUNT: int := 14
  const F_STRIPE_SIZE: int := 15
  const F_OST: int := 16
  const F_POOL: int := 17
  const F_LAYOUT: int := 18
  const F_MIRROR_COUNT: int := 19
  const F_COMP_COUNT: int := 20
  const F_MDT_COUNT: int := 21
  const F_MDT_HASH: int := 22
  const F_NAME: int := 23
  const F_MAX: int := 24

  // enum lfu_op
  const OP_EQ: int := 0
  const OP_GT: int := 1
  const OP_LT: int := 2
  const OP_ALL: int := 3
  const OP_ANY: int := 4
  const OP_LIST: int := 5
  const OP_STR: int := 6
  const OP_MAX: int := 7

  const MAX_LIST: nat := 64
  const STR_MAX: nat := 64
  const MAX_PRED: nat := 32

  const ATTR_ALL: u32 := 0x874    // Compressed, Immutable, Append, NoDump, Encrypted

  datatype PredData = PredData(
    field: byte, op: byte, neg: byte, val: u64, val2: u64, list: seq<u32>, nlist: int, str: seq<byte>)

  function NoIndices(): (r: seq<u32>)
    ensures |r| == MAX_LIST
  {
    seq(MAX_LIST, i => 0)
  }

  function NoText(): (r: seq<byte>)
    ensures |r| == STR_MAX
  {
    seq(STR_MAX, i => 0)
  }

  const BLANK := PredData(0, 0, 0, 0, 0, NoIndices(), 0, NoText())

  type Pred = p: PredData | |p.list| == MAX_LIST && |p.str| == STR_MAX witness BLANK

  datatype FilterData = FilterData(p: seq<Pred>, n: int, needs: set<Need>, negPending: int)

  function NoPreds(): (r: seq<Pred>)
    ensures |r| == MAX_PRED
  {
    seq(MAX_PRED, i => PredData(0, 0, 0, 0, 0, NoIndices(), 0, NoText()))
  }

  const EMPTY_FILTER := FilterData(NoPreds(), 0, {}, 0)

  type Filter = f: FilterData | |f.p| == MAX_PRED witness EMPTY_FILTER

  function Tier(field: int): int {
    if field >= F_SIZE then 1 else 0
  }

  predicate ValidPred(p: Pred) {
    p.field < F_MAX && p.op < OP_MAX && p.neg <= 1 && 0 <= p.nlist <= MAX_LIST && Terminated(p.str)
  }

  predicate Valid(f: Filter) {
    0 <= f.n <= MAX_PRED && f.negPending == 0 && forall i :: 0 <= i < f.n ==> ValidPred(f.p[i])
  }

  /** lfu_filter_validate. */
  method Validate(f: Filter) returns (ok: bool)
    ensures ok <==> Valid(f)
  {
    if f.n < 0 || f.n > MAX_PRED || f.negPending != 0 {
      return false;
    }
    var i := 0;
    while i < f.n
      invariant 0 <= i <= f.n
      invariant forall k :: 0 <= k < i ==> ValidPred(f.p[k])
    {
      var p := f.p[i];
      if p.field >= F_MAX || p.op >= OP_MAX {
        return false;
      }
      if p.neg > 1 {
        return false;
      }
      if p.nlist < 0 || p.nlist > MAX_LIST {
        return false;
      }
      var terminated := HasNul(p.str);
      if !terminated {
        return false;
      }
      i := i + 1;
    }
    return true;
  }

  /** memchr(s, 0, sizeof(s)) != NULL. */
  method HasNul(s: seq<byte>) returns (found: bool)
    ensures found <==> Terminated(s)
  {
    var i := 0;
    while i < |s|
      invariant 0 <= i <= |s|
      invariant FirstNul(s, 0) == FirstNul(s, i)
    {
      if s[i] == 0 {
        return true;
      }
      i := i + 1;
    }
    return false;
  }

  /** The predicates in force. */
  function Active(f: Filter): (ps: seq<Pred>)
    requires 0 <= f.n <= MAX_PRED
    ensures |ps| == f.n
  {
    f.p[..f.n]
  }

  /** What a field demands beyond the inode. */
  function FieldNeeds(field: int): (r: set<Need>) {
    if field == F_SIZE || field == F_BLOCKS then {Som, Lov}
    else if F_STRIPE_COUNT <= field <= F_COMP_COUNT then {Lov}
    else if field == F_MDT_COUNT || field == F_MDT_HASH then {Lmv}
    else if field == F_NAME then {Link}
    else {}
  }

  function NeedsOf(ps: seq<Pred>): (r: set<Need>) {
    if ps == [] then {} else NeedsOf(ps[..|ps| - 1]) + FieldNeeds(ps[|ps| - 1].field)
  }

  /** The demand mask says exactly what the predicates need. */
  predicate Compiled(f: Filter) {
    Valid(f) && f.needs == NeedsOf(Active(f))
  }

  lemma {:induction false} NeedsOfCovers(ps: seq<Pred>, i: nat)
    requires i < |ps|
    ensures FieldNeeds(ps[i].field) <= NeedsOf(ps)
    decreases |ps|
  {
    var k := |ps| - 1;
    if i < k {
      NeedsOfCovers(ps[..k], i);
      assert ps[..k][i] == ps[i];
    }
  }

  lemma {:induction false} NeedsOfEmpty(ps: seq<Pred>)
    requires forall i :: 0 <= i < |ps| ==> ps[i].field < F_MAX
    ensures NeedsOf(ps) == {} <==> forall i :: 0 <= i < |ps| ==> Tier(ps[i].field) == 0
    decreases |ps|
  {
    if ps != [] {
      var k := |ps| - 1;
      NeedsOfEmpty(ps[..k]);
      assert forall i :: 0 <= i < k ==> ps[..k][i] == ps[i];
      NonEmptyNeeds(ps[k].field);
    }
  }

  lemma NonEmptyNeeds(field: int)
    requires 0 <= field < F_MAX
    ensures FieldNeeds(field) == {} <==> Tier(field) == 0
  {
    if Tier(field) == 1 {
      assert Lov in FieldNeeds(field) || Lmv in FieldNeeds(field) || Link in FieldNeeds(field);
    }
  }

  /** A compiled filter demands no xattr exactly when it has no tier-1 predicate. */
  lemma NeedsEmptyIffTier0(f: Filter)
    requires Compiled(f)
    ensures f.needs == {} <==> forall i :: 0 <= i < f.n ==> Tier(f.p[i].field) == 0
  {
    NeedsOfEmpty(Active(f));
  }

  /** --attrs predicates as the compiler makes them: required and excluded bits among the five names. */
  predicate AttrsCompiled(p: Pred) {
    p.field == F_ATTRS ==> p.op == OP_ALL && AttrBits(p.val) && AttrBits(p.val2)
  }

  predicate AttrBits(m: u64) {
    And(m, ATTR_ALL) == m
  }

  predicate AllAttrsCompiled(f: Filter)
    requires Valid(f)
  {
    forall i :: 0 <= i < f.n ==> AttrsCompiled(f.p[i])
  }
}
