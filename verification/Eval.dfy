/** The per-object evaluator of src/lfu_filter_eval.c: tier 0 on the record, tier 1 once the demanded xattrs
    are in hand, with the third outcome. */
module Eval {
  import opened Bits
  import opened Records
  import opened Filter
  import opened CStrings
  import opened Lov
  import Linkea
  import Seqs

  datatype Verdict = NoMatch | Match | Unknown

  const S_IFMT: nat := 0xF000
  const S_IFREG: nat := 0x8000
  const SOM_STRICT_OR_LAZY: nat := 0x5
  const LMV_HASH_TYPE_MASK: nat := 0xFFFF

  // ------------------------------------------------------------------
  // One predicate

  /** lfu_cmp. */
  function Cmp(p: Pred, value: u64): bool
    requires ValidPred(p)
  {
    if p.op == OP_GT then value > p.val
    else if p.op == OP_LT then value < p.val
    else if p.op == OP_EQ then
      if p.val2 != 0 then value <= p.val && (value + p.val2) % TWO64 > p.val else value == p.val
    else if p.op == OP_ALL then And(value, p.val) == p.val && And(value, p.val2) == 0
    else if p.op == OP_ANY then And(value, p.val) != 0
    else if p.op == OP_LIST then exists i :: 0 <= i < p.nlist && p.list[i] == value
    else false
  }

  /** lfu_cmp with its loop over the index list. */
  method CmpLoop(p: Pred, value: u64) returns (hit: bool)
    requires ValidPred(p)
    ensures hit == Cmp(p, value)
  {
    if p.op != OP_LIST {
      return Cmp(p, value);
    }
    var i := 0;
    while i < p.nlist
      invariant 0 <= i <= p.nlist
      invariant forall k :: 0 <= k < i ==> p.list[k] != value
    {
      if p.list[i] == value {
        return true;
      }
      i := i + 1;
    }
    return false;
  }

  /** lfu_cmp_age: ages, not timestamps. */
  function CmpAge(p: Pred, now: int, stamp: u32): bool
    requires ValidPred(p) && now < TWO64
  {
    var age: u64 := if now > stamp then now - stamp else 0;
    if p.op == OP_EQ then age >= p.val && age < (p.val + p.val2) % TWO64 else Cmp(p, age)
  }

  function Blocks512(blocks: u64): u64 {
    (blocks * 512) % TWO64
  }

  /** What a tier-0 predicate says of a record, before `!`. */
  function Tier0Hit(p: Pred, rec: Rec, now: int): bool
    requires ValidPred(p) && Tier(p.field) == 0 && now < TWO64
  {
    if p.field == F_ATIME then CmpAge(p, now, rec.atime)
    else if p.field == F_MTIME then CmpAge(p, now, rec.mtime)
    else if p.field == F_CTIME then CmpAge(p, now, rec.ctime)
    else if p.field == F_BTIME then CmpAge(p, now, rec.crtime)
    else if p.field == F_UID then Cmp(p, rec.uid)
    else if p.field == F_GID then Cmp(p, rec.gid)
    else if p.field == F_TYPE then And(rec.mode, S_IFMT) == p.val
    else if p.field == F_PERM then Cmp(p, And(rec.mode, 0xFFF))
    else if p.field == F_LINKS then Cmp(p, rec.nlink)
    else if p.field == F_PROJID then Cmp(p, rec.projid)
    else if p.field == F_ATTRS then Cmp(p, rec.flags)
    else Cmp(p, Blocks512(rec.blocks))
  }

  /** lfu_resolve_size: the size or block count in bytes, or nothing for a striped file without a usable SOM. */
  function ResolveSize(rec: Rec, t1: Tier1, wantBlocks: bool): Option<u64> {
    if And(rec.mode, S_IFMT) != S_IFREG
       || (t1.haveLov && Has(t1.pattern, PATTERN_RELEASED))
       || !(t1.haveLov && t1.stripeCount > 0)
    then Some(if wantBlocks then Blocks512(rec.blocks) else rec.size)
    else if t1.haveSom && Has(t1.somValid, SOM_STRICT_OR_LAZY)
    then Some(if wantBlocks then Blocks512(t1.somBlocks) else t1.somSize)
    else None
  }

  /** Some object of the layout lies on an OST the predicate lists. */
  predicate OnOst(ea: Ea, p: Pred)
    requires ValidPred(p)
  {
    ea.Some? && AnyListed(AllObjects(Components(ea.value)), p)
  }

  predicate AnyListed(os: seq<u32>, p: Pred)
    requires ValidPred(p)
  {
    exists i :: 0 <= i < |os| && Cmp(p, os[i])
  }

  predicate NameMatches(ea: Ea, p: Pred, glob: Linkea.Glob) {
    ea.Some? && Linkea.AnyMatch(Linkea.LinkNames(ea.value), CString(p.str), glob)
  }

  function Of(hit: bool): Verdict {
    if hit then Match else NoMatch
  }

  /** What a tier-1 predicate says of a record, before `!`. */
  function Tier1Value(p: Pred, rec: Rec, t1: Tier1, eas: Eas, glob: Linkea.Glob): Verdict
    requires ValidPred(p) && Tier(p.field) == 1
  {
    if p.field == F_SIZE || p.field == F_BLOCKS then
      match ResolveSize(rec, t1, p.field == F_BLOCKS)
      case None => Unknown
      case Some(v) => Of(Cmp(p, v))
    else if p.field == F_STRIPE_COUNT then Of(t1.haveLov && Cmp(p, t1.stripeCount))
    else if p.field == F_STRIPE_SIZE then Of(t1.haveLov && Cmp(p, t1.stripeSize))
    else if p.field == F_MIRROR_COUNT then Of(t1.haveLov && Cmp(p, t1.mirrorCount))
    else if p.field == F_COMP_COUNT then Of(t1.haveLov && Cmp(p, t1.compCount))
    else if p.field == F_LAYOUT then Of(t1.haveLov && Cmp(p, t1.pattern))
    else if p.field == F_POOL then Of(t1.haveLov && glob(CString(p.str), CString(t1.pool)))
    else if p.field == F_OST then Of(OnOst(eas.lov, p))
    else if p.field == F_MDT_COUNT then Of(t1.haveLmv && Cmp(p, t1.lmvCount))
    else if p.field == F_MDT_HASH then Of(t1.haveLmv && Cmp(p, And(t1.lmvHash, LMV_HASH_TYPE_MASK)))
    else Of(NameMatches(eas.link, p, glob))
  }

  /** `!` swaps yes and no and leaves unknown alone. */
  function Negate(neg: bool, v: Verdict): Verdict {
    if !neg || v.Unknown? then v else if v.Match? then NoMatch else Match
  }

  /** What the evaluator needs to know about one object. */
  datatype Input = Input(rec: Rec, t1: Tier1, eas: Eas, now: int, glob: Linkea.Glob)

  /** The value of one predicate, tier 0 or tier 1, `!` included. */
  function Value(p: Pred, o: Input): Verdict
    requires ValidPred(p) && o.now < TWO64
  {
    Negate(p.neg == 1,
           if Tier(p.field) == 0 then Of(Tier0Hit(p, o.rec, o.now))
           else Tier1Value(p, o.rec, o.t1, o.eas, o.glob))
  }

  // ------------------------------------------------------------------
  // The specification: Kleene's strong conjunction over all predicates

  predicate ValidPreds(ps: seq<Pred>) {
    forall i :: 0 <= i < |ps| ==> ValidPred(ps[i])
  }

  predicate SomeValue(ps: seq<Pred>, o: Input, v: Verdict)
    requires ValidPreds(ps) && o.now < TWO64
  {
    exists i :: 0 <= i < |ps| && Value(ps[i], o) == v
  }

  /** No beats unknown beats yes. */
  function Conjunction(ps: seq<Pred>, o: Input): (v: Verdict)
    requires ValidPreds(ps) && o.now < TWO64
  {
    if SomeValue(ps, o, NoMatch) then NoMatch
    else if SomeValue(ps, o, Unknown) then Unknown
    else Match
  }

  // ------------------------------------------------------------------
  // The code: two passes with early exits

  lemma AnyListedSplit(a: seq<u32>, b: seq<u32>, p: Pred)
    requires ValidPred(p)
    ensures AnyListed(a + b, p) <==> AnyListed(a, p) || AnyListed(b, p)
  {
    if AnyListed(a, p) {
      var i :| 0 <= i < |a| && Cmp(p, a[i]);
      assert Cmp(p, (a + b)[i]);
    }
    if AnyListed(b, p) {
      var i :| 0 <= i < |b| && Cmp(p, b[i]);
      assert Cmp(p, (a + b)[|a| + i]);
    }
  }

  /** The object loop of lfu_lov_on_ost on one component; `visits` counts the objects compared. */
  method WalkComponent(c: seq<byte>, p: Pred) returns (hit: bool, visits: nat)
    requires ValidPred(p)
    ensures hit <==> AnyListed(Objects(c), p)
    ensures !hit ==> visits == |Objects(c)|
  {
    hit, visits := false, 0;
    if |c| < MD_V1_SIZE {
      return;
    }
    var magic, pattern, count := Le32(c, 0), Le32(c, 4), Le16(c, 28);
    var hdr;
    if magic == MAGIC_V1 {
      hdr := MD_V1_SIZE;
    } else if magic == MAGIC_V3 || magic == MAGIC_SPECIFIC {
      hdr := MD_V3_SIZE;
    } else {
      return;
    }
    HasOr(pattern, PATTERN_MDT, PATTERN_RELEASED);
    if Has(pattern, Or(PATTERN_MDT, PATTERN_RELEASED)) {
      return;
    }
    hit, visits := WalkObjects(c, hdr, count, p);
  }

  method WalkObjects(c: seq<byte>, hdr: nat, count: u16, p: Pred) returns (hit: bool, visits: nat)
    requires ValidPred(p)
    ensures hit <==> AnyListed(ObjectTable(c, hdr, Fitting(|c|, hdr, count)), p)
    ensures !hit ==> visits == Fitting(|c|, hdr, count)
  {
    hit, visits := false, 0;
    ghost var os := ObjectTable(c, hdr, Fitting(|c|, hdr, count));
    while visits < count
      invariant 0 <= visits <= |os|
      invariant forall k :: 0 <= k < visits ==> !Cmp(p, os[k])
      decreases count - visits
    {
      var o := hdr + visits * OST_DATA_SIZE;
      if o + OST_DATA_SIZE > |c| {
        break;
      }
      assert os[visits] == Le32(c, o + 20);
      if Cmp(p, Le32(c, o + 20)) {
        hit := true;
        return;
      }
      visits := visits + 1;
    }
  }

  /** lfu_lov_on_ost: every load is inside the value, an object on a listed OST is found exactly when the
      layout holds one, and a walk that finds none has visited every object. */
  method WalkOst(ea: Ea, p: Pred) returns (hit: bool, visits: nat)
    requires ValidPred(p)
    ensures hit <==> OnOst(ea, p)
    ensures !hit && ea.Some? ==> visits == |AllObjects(Components(ea.value))|
  {
    hit, visits := false, 0;
    if ea.None? || |ea.value| < 4 {
      return;
    }
    var b := ea.value;
    if Le32(b, 0) != MAGIC_COMP_V1 {
      AllObjectsSingle(b);
      hit, visits := WalkComponent(b, p);
      return;
    }
    if |b| < COMP_MD_SIZE {
      return;
    }
    hit, visits := WalkTable(b, Le16(b, 14), p);
  }

  /** Entry i lies inside the value. */
  predicate EntryFits(b: seq<byte>, i: nat) {
    COMP_MD_SIZE + (i + 1) * COMP_ENTRY_SIZE <= |b|
  }

  function EntryObjects(b: seq<byte>, i: nat): (os: seq<u32>)
    requires EntryFits(b, i)
  {
    if EntryComponent(b, i).Some? then Objects(EntryComponent(b, i).value) else []
  }

  /** The objects of the first i entries. */
  function UpTo(b: seq<byte>, i: nat): (os: seq<u32>)
    requires i > 0 ==> EntryFits(b, i - 1)
    decreases i
  {
    if i == 0 then [] else UpTo(b, i - 1) + EntryObjects(b, i - 1)
  }

  lemma {:induction false} UpToIsTable(b: seq<byte>, i: nat, n: nat)
    requires i <= n && (i > 0 ==> EntryFits(b, i - 1))
    ensures UpTo(b, i) + AllObjects(TableFrom(b, i, n)) == AllObjects(TableFrom(b, 0, n))
    decreases i
  {
    if i == 0 {
      assert [] + AllObjects(TableFrom(b, 0, n)) == AllObjects(TableFrom(b, 0, n));
    } else {
      UpToIsTable(b, i - 1, n);
      AllObjectsStep(b, i - 1, n);
      Seqs.Reassociate(UpTo(b, i - 1), EntryObjects(b, i - 1), AllObjects(TableFrom(b, i, n)));
    }
  }

  /** The entry loop over a composite layout. */
  method WalkTable(b: seq<byte>, nent: nat, p: Pred) returns (hit: bool, visits: nat)
    requires ValidPred(p)
    ensures hit <==> AnyListed(AllObjects(TableFrom(b, 0, nent)), p)
    ensures !hit ==> visits == |AllObjects(TableFrom(b, 0, nent))|
  {
    var upto: nat;
    hit, visits, upto := WalkEntries(b, nent, p);
    UpToIsTable(b, upto, nent);
    AnyListedSplit(UpTo(b, upto), AllObjects(TableFrom(b, upto, nent)), p);
  }

  /** The loop proper: up to a hit, the last entry, or the first that does not fit. */
  method WalkEntries(b: seq<byte>, nent: nat, p: Pred) returns (hit: bool, visits: nat, upto: nat)
    requires ValidPred(p)
    ensures upto <= nent && (upto > 0 ==> EntryFits(b, upto - 1))
    ensures hit <==> AnyListed(UpTo(b, upto), p)
    ensures !hit ==> visits == |UpTo(b, upto)| && (upto == nent || !EntryFits(b, upto))
  {
    hit, visits, upto := false, 0, 0;
    while upto < nent
      invariant 0 <= upto <= nent && (upto > 0 ==> EntryFits(b, upto - 1))
      invariant !hit && !AnyListed(UpTo(b, upto), p) && visits == |UpTo(b, upto)|
    {
      if !EntryFits(b, upto) {
        return;
      }
      hit, visits := WalkNext(b, upto, p, visits);
      upto := upto + 1;
      if hit {
        return;
      }
    }
  }

  /** One more entry. */
  method WalkNext(b: seq<byte>, i: nat, p: Pred, before: nat) returns (hit: bool, visits: nat)
    requires ValidPred(p) && EntryFits(b, i) && (i > 0 ==> EntryFits(b, i - 1))
    requires !AnyListed(UpTo(b, i), p) && before == |UpTo(b, i)|
    ensures hit <==> AnyListed(UpTo(b, i + 1), p)
    ensures !hit ==> visits == |UpTo(b, i + 1)|
  {
    var n;
    hit, n := WalkEntry(b, i, p);
    AnyListedSplit(UpTo(b, i), EntryObjects(b, i), p);
    visits := before + n;
  }

  method WalkEntry(b: seq<byte>, i: nat, p: Pred) returns (hit: bool, visits: nat)
    requires ValidPred(p) && EntryFits(b, i)
    ensures hit <==> AnyListed(EntryObjects(b, i), p)
    ensures !hit ==> visits == |EntryObjects(b, i)|
  {
    hit, visits := false, 0;
    var c := EntryComponent(b, i);
    if c.Some? {
      hit, visits := WalkComponent(c.value, p);
    }
  }

  lemma AllObjectsSingle(c: seq<byte>)
    ensures AllObjects([c]) == Objects(c)
  {
    var cs := [c];
    assert cs[1..] == [];
    assert Objects(c) + [] == Objects(c);
  }

  lemma AllObjectsStep(b: seq<byte>, i: nat, n: nat)
    requires i < n && COMP_MD_SIZE + (i + 1) * COMP_ENTRY_SIZE <= |b|
    ensures AllObjects(TableFrom(b, i, n)) ==
            (if EntryComponent(b, i).Some? then Objects(EntryComponent(b, i).value) else []) +
            AllObjects(TableFrom(b, i + 1, n))
  {
    var rest := TableFrom(b, i + 1, n);
    if EntryComponent(b, i).Some? {
      assert ([EntryComponent(b, i).value] + rest)[1..] == rest;
    }
  }

  /** The switch of lfu_filter_tier1. */
  method Tier1Test(p: Pred, o: Input, host: Linkea.Endian) returns (v: Verdict)
    requires ValidPred(p) && Tier(p.field) == 1
    ensures v == Tier1Value(p, o.rec, o.t1, o.eas, o.glob)
  {
    if p.field == F_OST {
      var hit, _ := WalkOst(o.eas.lov, p);
      return Of(hit);
    }
    if p.field == F_NAME {
      var hit, _ := Linkea.LinkeaName(host, o.eas.link, CString(p.str), o.glob);
      return Of(hit);
    }
    return Tier1Value(p, o.rec, o.t1, o.eas, o.glob);
  }

  /** lfu_filter_tier0. */
  method Tier0(f: Filter, rec: Rec, now: int) returns (ok: bool)
    requires Valid(f) && now < TWO64
    ensures ok <==> Tier0Passes(f, rec, now)
  {
    var i := 0;
    while i < f.n
      invariant 0 <= i <= f.n
      invariant forall k :: 0 <= k < i && Tier(f.p[k].field) == 0 ==> Passes0(f.p[k], rec, now)
    {
      var p := f.p[i];
      if Tier(p.field) == 0 {
        var hit := Tier0Hit(p, rec, now);
        if p.neg != 0 {
          hit := !hit;
        }
        if !hit {
          return false;
        }
      }
      i := i + 1;
    }
    return true;
  }

  predicate Passes0(p: Pred, rec: Rec, now: int)
    requires ValidPred(p) && Tier(p.field) == 0 && now < TWO64
  {
    Tier0Hit(p, rec, now) != (p.neg == 1)
  }

  predicate Tier0Passes(f: Filter, rec: Rec, now: int)
    requires Valid(f) && now < TWO64
  {
    forall k :: 0 <= k < f.n && Tier(f.p[k].field) == 0 ==> Passes0(f.p[k], rec, now)
  }

  predicate SomeTier1(f: Filter, o: Input, n: int, v: Verdict)
    requires Valid(f) && o.now < TWO64 && 0 <= n <= f.n
  {
    exists k :: 0 <= k < n && Tier(f.p[k].field) == 1 && Value(f.p[k], o) == v
  }

  /** The tier-1 predicates, conjoined. */
  function Tier1Outcome(f: Filter, o: Input): (v: Verdict)
    requires Valid(f) && o.now < TWO64
  {
    if SomeTier1(f, o, f.n, NoMatch) then NoMatch
    else if SomeTier1(f, o, f.n, Unknown) then Unknown
    else Match
  }

  /** lfu_filter_tier1. */
  method Tier1Pass(f: Filter, o: Input, host: Linkea.Endian) returns (v: Verdict)
    requires Valid(f) && o.now < TWO64
    ensures v == Tier1Outcome(f, o)
  {
    var unknown := false;
    var i := 0;
    while i < f.n
      invariant 0 <= i <= f.n
      invariant !SomeTier1(f, o, i, NoMatch)
      invariant unknown <==> SomeTier1(f, o, i, Unknown)
    {
      var p := f.p[i];
      if Tier(p.field) == 1 {
        var got := Tier1Test(p, o, host);
        if got.Unknown? {
          unknown := true;
        } else {
          var hit := got.Match?;
          if p.neg != 0 {
            hit := !hit;
          }
          if !hit {
            return NoMatch;
          }
        }
      }
      i := i + 1;
    }
    return if unknown then Unknown else Match;
  }

  /** Tier 0, then tier 1, as every caller chains them. */
  function TwoPass(f: Filter, o: Input): (v: Verdict)
    requires Valid(f) && o.now < TWO64
  {
    if !Tier0Passes(f, o.rec, o.now) then NoMatch else Tier1Outcome(f, o)
  }

  /** The two passes with their early exits compute the Kleene conjunction of all predicates. */
  lemma TwoPassIsConjunction(f: Filter, o: Input)
    requires Valid(f) && o.now < TWO64
    ensures TwoPass(f, o) == Conjunction(Active(f), o)
  {
    if Tier0Passes(f, o.rec, o.now) {
      OnlyTier1Matters(f, o, NoMatch);
      OnlyTier1Matters(f, o, Unknown);
    } else {
      var k :| 0 <= k < f.n && Tier(f.p[k].field) == 0 && !Passes0(f.p[k], o.rec, o.now);
      assert Value(Active(f)[k], o) == NoMatch;
    }
  }

  lemma OnlyTier1Matters(f: Filter, o: Input, v: Verdict)
    requires Valid(f) && o.now < TWO64 && Tier0Passes(f, o.rec, o.now) && v != Match
    ensures SomeValue(Active(f), o, v) <==> SomeTier1(f, o, f.n, v)
  {
    var ps := Active(f);
    forall k | 0 <= k < f.n && Tier(f.p[k].field) == 0
      ensures Value(f.p[k], o) == Match
    {
      assert Passes0(f.p[k], o.rec, o.now);
    }
    if SomeValue(ps, o, v) {
      var k :| 0 <= k < |ps| && Value(ps[k], o) == v;
      assert f.p[k] == ps[k];
    }
    if SomeTier1(f, o, f.n, v) {
      var k :| 0 <= k < f.n && Tier(f.p[k].field) == 1 && Value(f.p[k], o) == v;
      assert Value(ps[k], o) == v;
    }
  }

  /** The outcome depends on which predicates there are, not on their order or repetition. */
  lemma OrderAndRepetitionIrrelevant(f: Filter, g: Filter, o: Input)
    requires Valid(f) && Valid(g) && o.now < TWO64
    requires forall p: Pred :: p in Active(f) <==> p in Active(g)
    ensures TwoPass(f, o) == TwoPass(g, o)
  {
    TwoPassIsConjunction(f, o);
    TwoPassIsConjunction(g, o);
    SamePredsSameValues(Active(f), Active(g), o);
    SamePredsSameValues(Active(g), Active(f), o);
  }

  lemma SamePredsSameValues(ps: seq<Pred>, qs: seq<Pred>, o: Input)
    requires ValidPreds(ps) && ValidPreds(qs) && o.now < TWO64
    requires forall p: Pred :: p in ps ==> p in qs
    ensures forall v :: SomeValue(ps, o, v) ==> SomeValue(qs, o, v)
  {
    forall v | SomeValue(ps, o, v)
      ensures SomeValue(qs, o, v)
    {
      var i :| 0 <= i < |ps| && Value(ps[i], o) == v;
      assert ps[i] in ps;
      var j :| 0 <= j < |qs| && qs[j] == ps[i];
      assert Value(qs[j], o) == v;
    }
  }

  // ------------------------------------------------------------------
  // The demand mask

  predicate AgreeOn(needs: set<Need>, a: Eas, b: Eas) {
    && (Som in needs ==> a.som == b.som)
    && (Lov in needs ==> a.lov == b.lov)
    && (Lmv in needs ==> a.lmv == b.lmv)
    && (Link in needs ==> a.link == b.link)
  }

  /** An object as a caller presents it: its record, its xattrs and the time of the scan. */
  function ObjectInput(rec: Rec, eas: Eas, now: int, glob: Linkea.Glob): Input {
    Input(rec, EaDecode(eas), eas, now, glob)
  }

  /** The layout half of the decoded values comes from trusted.lov alone. */
  lemma LovFieldsOnly(a: Eas, b: Eas)
    requires a.lov == b.lov
    ensures SameLayout(EaDecode(a), EaDecode(b))
  {
    if a.lov.Some? && |a.lov.value| >= 4 {
      var cs := Components(a.lov.value);
      DecodeAllIndependent(DecodeHead(DecodeSom(EMPTY_TIER1, a.som), a.lov.value),
                           DecodeHead(DecodeSom(EMPTY_TIER1, b.som), b.lov.value), cs);
    }
  }

  predicate SameLayout(x: Tier1, y: Tier1) {
    && x.haveLov == y.haveLov && x.pattern == y.pattern && x.stripeCount == y.stripeCount
    && x.stripeSize == y.stripeSize && x.compCount == y.compCount && x.mirrorCount == y.mirrorCount
    && x.pool == y.pool
  }

  lemma FoldIndependent(x: Tier1, y: Tier1, part: Part)
    requires |x.pool| == POOL_BYTES && SameLayout(x, y)
    requires part.Data? && part.pool.Some? ==> |part.pool.value| == POOL_BYTES
    ensures SameLayout(Fold(x, part), Fold(y, part))
  {
  }

  lemma {:induction false} DecodeAllIndependent(x: Tier1, y: Tier1, cs: seq<seq<byte>>)
    requires |x.pool| == POOL_BYTES && SameLayout(x, y)
    ensures SameLayout(DecodeAll(x, cs), DecodeAll(y, cs))
    decreases |cs|
  {
    if cs != [] {
      FoldIndependent(x, y, PartOf(cs[0]));
      DecodeAllIndependent(DecodeOne(x, cs[0]), DecodeOne(y, cs[0]), cs[1..]);
    }
  }

  /** Decoding a layout leaves the size-on-MDT values alone. */
  lemma SomFieldsOnly(eas: Eas)
    ensures var x, s := EaDecode(eas), DecodeSom(EMPTY_TIER1, eas.som);
            x.haveSom == s.haveSom && x.somValid == s.somValid && x.somSize == s.somSize && x.somBlocks == s.somBlocks
  {
    if eas.lov.Some? && |eas.lov.value| >= 4 {
      DecodeAllFrame(DecodeHead(DecodeSom(EMPTY_TIER1, eas.som), eas.lov.value), Components(eas.lov.value));
    }
  }

  lemma LmvFieldsOnly(eas: Eas)
    ensures var x, l := EaDecode(eas), DecodeLmv(EMPTY_TIER1, eas.lmv);
            x.haveLmv == l.haveLmv && x.lmvCount == l.lmvCount && x.lmvHash == l.lmvHash
  {
    if eas.lov.Some? && |eas.lov.value| >= 4 {
      DecodeAllFrame(DecodeHead(DecodeSom(EMPTY_TIER1, eas.som), eas.lov.value), Components(eas.lov.value));
    }
  }

  /** A predicate looks at no xattr its field does not demand. */
  lemma ValueNeedsOnly(p: Pred, rec: Rec, a: Eas, b: Eas, now: int, glob: Linkea.Glob)
    requires ValidPred(p) && now < TWO64 && AgreeOn(FieldNeeds(p.field), a, b)
    ensures Value(p, ObjectInput(rec, a, now, glob)) == Value(p, ObjectInput(rec, b, now, glob))
  {
    SomFieldsOnly(a);
    SomFieldsOnly(b);
    LmvFieldsOnly(a);
    LmvFieldsOnly(b);
    if a.lov == b.lov {
      LovFieldsOnly(a, b);
    }
  }

  /** For a compiled filter the verdict depends only on the xattrs in its demand mask. */
  lemma DemandMaskSuffices(f: Filter, rec: Rec, a: Eas, b: Eas, now: int, glob: Linkea.Glob)
    requires Compiled(f) && now < TWO64 && AgreeOn(f.needs, a, b)
    ensures TwoPass(f, ObjectInput(rec, a, now, glob)) == TwoPass(f, ObjectInput(rec, b, now, glob))
  {
    var ps, oa, ob := Active(f), ObjectInput(rec, a, now, glob), ObjectInput(rec, b, now, glob);
    TwoPassIsConjunction(f, oa);
    TwoPassIsConjunction(f, ob);
    forall i | 0 <= i < |ps|
      ensures Value(ps[i], oa) == Value(ps[i], ob)
    {
      NeedsOfCovers(ps, i);
      ValueNeedsOnly(ps[i], rec, a, b, now, glob);
    }
  }

  /** When the mask is empty, tier 0 already decides. */
  lemma SkipTier1Sound(f: Filter, o: Input)
    requires Compiled(f) && o.now < TWO64 && f.needs == {}
    ensures TwoPass(f, o) == Of(Tier0Passes(f, o.rec, o.now))
  {
    NeedsEmptyIffTier0(f);
  }
}
