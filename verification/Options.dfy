/** The option arguments of src/lfu_filter.c: what text each filter option accepts, and the predicate it drafts. */
module Options {
  import opened Bits
  import opened Records
  import opened Filter
  import opened CStrings
  import opened Text
  import opened Quantities
  import Lov

  datatype Opt =
    | Not
    | Atime | Mtime | Ctime | Btime
    | Links | StripeCount | MirrorCount | CompCount | MdtCount
    | Size | Blocks | DevBlocks | StripeSize
    | Uid | Gid | Projid
    | Type | Perm | Attrs | Ost | Pool | Name | Layout | MdtHash
    | Other                     // not a filter option

  /** What an option call amounts to, before it touches the filter.  Most options parse first and then claim a slot;
      --ost, --pool and --name claim the slot first and give it back when the text is refused. */
  datatype Draft =
    | Bang
    | NotOurs
    | Refused
    | Dies                      // a division by zero in the size parser
    | Ready(p: Pred)
    | Tentative(p: Pred, ok: bool)

  // ------------------------------------------------------------------
  // Numbers

  function Plain(field: byte, op: byte, val: u64, val2: u64): (p: Pred) {
    PredData(field, op, 0, val, val2, NoIndices(), 0, NoText())
  }

  /** lfu_parse_sign: `+` more than, `-` less than. */
  function SignOp(arg: Text): (op: byte)
    ensures op < OP_MAX
  {
    if At(arg, 0) == 43 then OP_GT else if At(arg, 0) == 45 then OP_LT else OP_EQ
  }

  function AfterSign(arg: Text): Text {
    if At(arg, 0) == 43 || At(arg, 0) == 45 then arg[1..] else arg
  }

  /** lfu_parse_u64. */
  function ParseU64(arg: Text): Option<u64> {
    var n := StrToUll(arg, 0, 0);
    if n.end == 0 || n.end != |arg| || n.range then None else Some(n.value)
  }

  function TimeDraft(field: byte, arg: Text): Draft {
    match ParseTime(AfterSign(arg))
    case None => Refused
    case Some(t) => Ready(Plain(field, SignOp(arg), t.secs, t.margin))
  }

  function CountDraft(field: byte, arg: Text): Draft {
    match ParseU64(AfterSign(arg))
    case None => Refused
    case Some(n) => Ready(Plain(field, SignOp(arg), n, 0))
  }

  const UNITS: u64 := 512

  /** The equality margin of a quantity, whatever unit it was written in. */
  function Margin(field: byte): u64 {
    if field == F_STRIPE_SIZE then 1 else UNITS
  }

  /** A stripe size too small to be one is taken as KiB. */
  function StripeBytes(field: byte, n: u64): u64 {
    if field == F_STRIPE_SIZE && n < 4096 then n * 1024 else n
  }

  function SizeDraft(field: byte, arg: Text): Draft {
    match ParseSize(AfterSign(arg), Margin(field))
    case Bad => Refused
    case DividesByZero => Dies
    case Value(n) =>
      Ready(Plain(field, SignOp(arg), StripeBytes(field, n), if SignOp(arg) == OP_EQ then Margin(field) else 0))
  }

  /** A number, or a name the local databases resolve. */
  function IdDraft(field: byte, arg: Text, resolve: Text -> Option<u32>): Draft {
    match ParseU64(arg)
    case Some(n) => Ready(Plain(field, OP_EQ, n, 0))
    case None =>
      match resolve(arg)
      case Some(id) => Ready(Plain(field, OP_EQ, id, 0))
      case None => Refused
  }

  // ------------------------------------------------------------------
  // Names

  /** A name, perhaps with a one-letter form, and what it stands for. */
  datatype Row = Row(name: seq<char>, letter: Option<char>, bits: u32)

  function Code(c: char): byte {
    if c as int < 256 then c as int else 0
  }

  predicate Is(arg: Text, name: seq<char>) {
    |arg| == |name| && forall i :: 0 <= i < |arg| ==> arg[i] == Code(name[i])
  }

  /** strcasecmp. */
  predicate IsButCase(arg: Text, name: seq<char>) {
    |arg| == |name| && forall i :: 0 <= i < |arg| ==> Lower(arg[i]) == Lower(Code(name[i]))
  }

  predicate Named(r: Row, arg: Text, anyCase: bool) {
    || (r.letter.Some? && Is(arg, [r.letter.value]))
    || (if anyCase then IsButCase(arg, r.name) else Is(arg, r.name))
  }

  /** The first row a text names, exactly or up to case. */
  function Lookup(rows: seq<Row>, arg: Text, anyCase: bool): (r: Option<u32>)
    ensures r.Some? ==> exists i :: 0 <= i < |rows| && rows[i].bits == r.value
    decreases |rows|
  {
    if rows == [] then None
    else if Named(rows[0], arg, anyCase) then Some(rows[0].bits)
    else Lookup(rows[1..], arg, anyCase)
  }

  const TYPES := [
    Row("file", Some('f'), 0x8000), Row("dir", Some('d'), 0x4000), Row("link", Some('l'), 0xA000),
    Row("block", Some('b'), 0x6000),
    Row("char", Some('c'), 0x2000), Row("pipe", Some('p'), 0x1000), Row("sock", Some('s'), 0xC000)]

  const ATTRS := [
    Row("Compressed", Some('c'), 0x4), Row("Immutable", Some('i'), 0x10), Row("Append_Only", Some('a'), 0x20),
    Row("No_Dump", Some('d'), 0x40), Row("Encrypted", Some('E'), 0x800)]

  function TypeDraft(arg: Text): Draft {
    match Lookup(TYPES, arg, false)
    case None => Refused
    case Some(mode) => Ready(Plain(F_TYPE, OP_EQ, mode, 0))
  }

  function PermOp(arg: Text): (op: byte)
    ensures op < OP_MAX
  {
    if At(arg, 0) == 45 then OP_ALL else if At(arg, 0) == 47 then OP_ANY else OP_EQ
  }

  /** lfu_parse_perm: octal, at most 07777. */
  function PermDraft(arg: Text): Draft {
    var digits := if PermOp(arg) == OP_EQ then arg else arg[1..];
    var n := StrToUll(digits, 0, 8);
    if n.end == 0 || n.end != |digits| || n.range || n.value > 0xFFF then Refused
    else Ready(Plain(F_PERM, PermOp(arg), n.value, 0))
  }

  datatype Masks = Masks(want: u64, nowant: u64)

  /** One --attrs name, `^` for one that must be absent. */
  function AddAttr(m: Masks, tok: Text): Option<Masks> {
    var exclude := At(tok, 0) == 94;
    match Lookup(ATTRS, if exclude then tok[1..] else tok, true)
    case None => None
    case Some(bit) =>
      Some(if exclude then m.(nowant := Or64(m.nowant, bit)) else m.(want := Or64(m.want, bit)))
  }

  function AddAttrs(m: Masks, toks: seq<Text>): Option<Masks>
    decreases |toks|
  {
    if toks == [] then Some(m)
    else
      match AddAttr(m, toks[0])
      case None => None
      case Some(next) => AddAttrs(next, toks[1..])
  }

  /** lfu_parse_attrs. */
  function AttrsDraft(arg: Text): Draft {
    if |arg| >= 128 then Refused
    else
      match AddAttrs(Masks(0, 0), Tokens(arg, 0))
      case None => Refused
      case Some(m) =>
        if m.want == 0 && m.nowant == 0 then Refused else Ready(Plain(F_ATTRS, OP_ALL, m.want, m.nowant))
  }

  const LAYOUTS := [
    Row("released", None, Lov.PATTERN_RELEASED), Row("raid0", None, Lov.PATTERN_RAID0),
    Row("mdt", None, Lov.PATTERN_MDT), Row("foreign", None, Lov.PATTERN_FOREIGN),
    Row("overstriped", None, Lov.PATTERN_OVERSTRIPING)]

  function AddLayouts(pat: u64, toks: seq<Text>): Option<u64>
    decreases |toks|
  {
    if toks == [] then Some(pat)
    else
      match Lookup(LAYOUTS, toks[0], false)
      case None => None
      case Some(bits) => AddLayouts(Or64(pat, bits), toks[1..])
  }

  /** lfu_parse_layout. */
  function LayoutDraft(arg: Text): Draft {
    if |arg| >= 64 then Refused
    else
      match AddLayouts(0, Tokens(arg, 0))
      case None => Refused
      case Some(pat) => if pat == 0 then Refused else Ready(Plain(F_LAYOUT, OP_ANY, pat, 0))
  }

  const HASHES := [Row("all_char", None, 1), Row("fnv_1a_64", None, 2), Row("crush", None, 3), Row("crush2", None, 4)]

  function HashDraft(arg: Text): Draft {
    match Lookup(HASHES, arg, false)
    case Some(h) => Ready(Plain(F_MDT_HASH, OP_EQ, h, 0))
    case None =>
      match ParseU64(arg)
      case Some(n) => Ready(Plain(F_MDT_HASH, OP_EQ, n, 0))
      case None => Refused
  }

  // ------------------------------------------------------------------
  // Index lists

  /** Where strchr(tok, '-') points, or the end. */
  function Dash(tok: Text, i: nat): (j: nat)
    requires i <= |tok|
    ensures i <= j <= |tok|
    decreases |tok| - i
  {
    if i < |tok| && tok[i] != 45 then Dash(tok, i + 1) else i
  }

  datatype Span = Span(lo: u64, hi: u64)

  /** N, or N-M with N <= M. */
  function ParseSpan(tok: Text): Option<Span> {
    var lo := StrToUll(tok, 0, 0);
    if lo.end == 0 || lo.range then None
    else if lo.end == Dash(tok, 0) && lo.end < |tok| then
      var hi := StrToUll(tok, lo.end + 1, 0);
      if hi.end == lo.end + 1 || hi.end != |tok| || hi.value < lo.value then None else Some(Span(lo.value, hi.value))
    else if lo.end == |tok| then Some(Span(lo.value, lo.value))
    else None
  }

  /** The indices written so far, and whether the text is still acceptable. */
  datatype Listed = Listed(list: seq<u32>, ok: bool)

  function AddSpan(list: seq<u32>, lo: nat, hi: u64): (r: Listed)
    requires |list| <= MAX_LIST
    ensures list <= r.list && |r.list| <= MAX_LIST
    decreases MAX_LIST - |list|
  {
    if lo > hi then Listed(list, true)
    else if |list| == MAX_LIST || lo >= TWO32 then Listed(list, false)
    else AddSpan(list + [lo], lo + 1, hi)
  }

  function AddSpans(list: seq<u32>, toks: seq<Text>): (r: Listed)
    requires |list| <= MAX_LIST
    ensures list <= r.list && |r.list| <= MAX_LIST
    decreases |toks|
  {
    if toks == [] then Listed(list, true)
    else
      match ParseSpan(toks[0])
      case None => Listed(list, false)
      case Some(s) =>
        var r := AddSpan(list, s.lo, s.hi);
        if r.ok then AddSpans(r.list, toks[1..]) else r
  }

  /** lfu_parse_index_list. */
  function IndexList(arg: Text): (r: Listed)
    ensures |r.list| <= MAX_LIST
  {
    if |arg| >= 512 then Listed([], false)
    else
      var r := AddSpans([], Tokens(arg, 0));
      if r.list == [] then Listed([], false) else r
  }

  /** The indices lo, lo + 1, ... hi. */
  function Range(lo: nat, hi: nat): (r: seq<u32>)
    requires hi < TWO32
    ensures lo <= hi ==> |r| == hi - lo + 1
    ensures lo > hi ==> r == []
    ensures forall i :: 0 <= i < |r| ==> r[i] == lo + i
    decreases hi + 1 - lo
  {
    if lo > hi then [] else [lo] + Range(lo + 1, hi)
  }

  /** A span is written out whole, or refused because it does not fit the list or 32 bits. */
  lemma {:induction false} SpanIsWritten(list: seq<u32>, lo: nat, hi: u64)
    requires |list| <= MAX_LIST && lo <= TWO64
    ensures AddSpan(list, lo, hi).ok <==> lo > hi || (hi < TWO32 && |list| + (hi - lo + 1) <= MAX_LIST)
    ensures AddSpan(list, lo, hi).ok && lo <= hi ==> AddSpan(list, lo, hi).list == list + Range(lo, hi)
    decreases MAX_LIST - |list|
  {
    if lo <= hi && |list| < MAX_LIST && lo < TWO32 {
      SpanIsWritten(list + [lo], lo + 1, hi);
      if lo < hi && AddSpan(list, lo, hi).ok {
        assert list + [lo] + Range(lo + 1, hi) == list + Range(lo, hi);
      }
    }
  }

  /** The loops of lfu_parse_index_list. */
  method IndexListLoop(arg: Text) returns (list: seq<u32>, ok: bool)
    ensures Listed(list, ok) == IndexList(arg)
  {
    if |arg| >= 512 {
      return [], false;
    }
    var toks := Tokens(arg, 0);
    list := [];
    var t := 0;
    while t < |toks|
      invariant 0 <= t <= |toks| && |list| <= MAX_LIST
      invariant AddSpans([], toks) == AddSpans(list, toks[t..])
    {
      assert toks[t..][1..] == toks[t + 1..];
      var span := ParseSpan(toks[t]);
      if span.None? {
        return list, false;
      }
      ok, list := SpanLoop(list, span.value.lo, span.value.hi);
      if !ok {
        return list, false;
      }
      t := t + 1;
    }
    return list, list != [];
  }

  method SpanLoop(start: seq<u32>, lo: u64, hi: u64) returns (ok: bool, list: seq<u32>)
    requires |start| <= MAX_LIST
    ensures Listed(list, ok) == AddSpan(start, lo, hi)
  {
    list := start;
    var v: nat := lo;
    while v <= hi
      invariant |list| <= MAX_LIST && AddSpan(start, lo, hi) == AddSpan(list, v, hi)
      decreases MAX_LIST - |list|
    {
      if |list| == MAX_LIST || v >= TWO32 {
        return false, list;
      }
      list := list + [v];
      v := v + 1;
    }
    return true, list;
  }

  function ListDraft(arg: Text): Draft {
    var r := IndexList(arg);
    Tentative(PredData(F_OST, OP_LIST, 0, 0, 0, r.list + seq(MAX_LIST - |r.list|, i => 0), |r.list|, NoText()),
              r.ok)
  }

  /** A pattern that fits its buffer with the terminator. */
  function PatternDraft(field: byte, arg: Text): Draft {
    if |arg| >= STR_MAX then Tentative(Plain(field, OP_STR, 0, 0), false)
    else Tentative(Plain(field, OP_STR, 0, 0).(str := arg + seq(STR_MAX - |arg|, i => 0)), true)
  }

  // ------------------------------------------------------------------
  // All options

  /** getpwnam and getgrnam. */
  datatype Names = Names(users: Text -> Option<u32>, groups: Text -> Option<u32>)

  function DraftOf(opt: Opt, arg: Text, names: Names): (d: Draft) {
    match opt
    case Not => Bang
    case Atime => TimeDraft(F_ATIME, arg)
    case Mtime => TimeDraft(F_MTIME, arg)
    case Ctime => TimeDraft(F_CTIME, arg)
    case Btime => TimeDraft(F_BTIME, arg)
    case Links => CountDraft(F_LINKS, arg)
    case StripeCount => CountDraft(F_STRIPE_COUNT, arg)
    case MirrorCount => CountDraft(F_MIRROR_COUNT, arg)
    case CompCount => CountDraft(F_COMP_COUNT, arg)
    case MdtCount => CountDraft(F_MDT_COUNT, arg)
    case Size => SizeDraft(F_SIZE, arg)
    case Blocks => SizeDraft(F_BLOCKS, arg)
    case DevBlocks => SizeDraft(F_DEV_BLOCKS, arg)
    case StripeSize => SizeDraft(F_STRIPE_SIZE, arg)
    case Uid => IdDraft(F_UID, arg, names.users)
    case Gid => IdDraft(F_GID, arg, names.groups)
    case Projid => IdDraft(F_PROJID, arg, (t: Text) => None)
    case Type => TypeDraft(arg)
    case Perm => PermDraft(arg)
    case Attrs => AttrsDraft(arg)
    case Ost => ListDraft(arg)
    case Pool => PatternDraft(F_POOL, arg)
    case Name => PatternDraft(F_NAME, arg)
    case Layout => LayoutDraft(arg)
    case MdtHash => HashDraft(arg)
    case Other => NotOurs
  }

  /** A predicate as the compiler may leave it in the filter, but for its negation. */
  predicate Sound(p: Pred) {
    ValidPred(p) && p.neg == 0 && AttrsCompiled(p)
  }

  predicate GoodDraft(d: Draft) {
    (d.Ready? ==> Sound(d.p)) && (d.Tentative? ==> d.p.field < F_MAX && (d.ok ==> Sound(d.p)))
  }

  lemma {:induction false} ZeroTerminates(s: Text, n: nat, i: nat)
    requires n > 0 && i <= |s|
    ensures FirstNul(s + seq(n, k => 0), i) < |s| + n
    decreases |s| - i
  {
    var t := s + seq(n, k => 0);
    if i < |s| && t[i] != 0 {
      ZeroTerminates(s, n, i + 1);
    } else if i == |s| {
      assert t[i] == 0;
    }
  }

  lemma PlainIsSound(field: byte, op: byte, val: u64, val2: u64)
    requires field < F_MAX && field != F_ATTRS && op < OP_MAX
    ensures Sound(Plain(field, op, val, val2))
  {
    ZeroTerminates([], STR_MAX, 0);
    assert [] + seq(STR_MAX, k => 0) == Plain(field, op, val, val2).str;
  }

  lemma PatternIsGood(field: byte, arg: Text)
    requires field < F_MAX && field != F_ATTRS
    ensures GoodDraft(PatternDraft(field, arg))
  {
    if |arg| < STR_MAX {
      ZeroTerminates(arg, STR_MAX - |arg|, 0);
    }
  }

  lemma ListIsGood(arg: Text)
    ensures GoodDraft(ListDraft(arg))
  {
    PlainIsSound(F_OST, OP_LIST, 0, 0);
  }

  /** Bit k of the mask, counted from the bottom. */
  lemma {:induction false} SingleBit(k: nat, mask: nat)
    ensures And(Pow2(k), mask) == Pow2(k) <==> (mask / Pow2(k)) % 2 == 1
    decreases k
  {
    if k > 0 {
      SingleBit(k - 1, mask / 2);
      HalvesDivide(mask, Pow2(k - 1));
    }
  }

  lemma HalvesDivide(a: nat, m: nat)
    requires m > 0
    ensures a / (2 * m) == (a / 2) / m
  {
    var q := (a / 2) / m;
    var r := (a / 2) % m;
    assert a / 2 == q * m + r;
    DivModUnique(a, 2 * m, q, 2 * r + a % 2);
  }

  lemma AttrBitAt(k: nat, bit: u32)
    requires bit == Pow2(k) && (ATTR_ALL / bit) % 2 == 1
    ensures AttrBits(bit)
  {
    SingleBit(k, ATTR_ALL);
  }

  lemma SmallPowers()
    ensures Pow2(2) == 0x4 && Pow2(4) == 0x10 && Pow2(5) == 0x20 && Pow2(6) == 0x40 && Pow2(11) == 0x800
  {
  }

  lemma AttrBit(bit: u32)
    requires bit == 0x4 || bit == 0x10 || bit == 0x20 || bit == 0x40 || bit == 0x800
    ensures AttrBits(bit)
  {
    SmallPowers();
    var k := if bit == 0x4 then 2 else if bit == 0x10 then 4 else if bit == 0x20 then 5
             else if bit == 0x40 then 6 else 11;
    AttrBitAt(k, bit);
  }

  lemma AttrUnion(a: u64, bit: u32)
    requires AttrBits(a) && AttrBits(bit)
    ensures AttrBits(Or64(a, bit))
  {
    AndOverOr(a, bit, ATTR_ALL);
  }

  lemma {:induction false} AttrsStayInside(m: Masks, toks: seq<Text>)
    requires AttrBits(m.want) && AttrBits(m.nowant)
    ensures var r := AddAttrs(m, toks);
            r.Some? ==> AttrBits(r.value.want) && AttrBits(r.value.nowant)
    decreases |toks|
  {
    if toks != [] && AddAttr(m, toks[0]).Some? {
      AttrStaysInside(m, toks[0]);
      AttrsStayInside(AddAttr(m, toks[0]).value, toks[1..]);
    }
  }

  lemma AttrStaysInside(m: Masks, tok: Text)
    requires AttrBits(m.want) && AttrBits(m.nowant) && AddAttr(m, tok).Some?
    ensures AttrBits(AddAttr(m, tok).value.want) && AttrBits(AddAttr(m, tok).value.nowant)
  {
    var name := if At(tok, 0) == 94 then tok[1..] else tok;
    var bit := Lookup(ATTRS, name, true).value;
    AttrBit(bit);
    AttrUnion(m.want, bit);
    AttrUnion(m.nowant, bit);
  }

  lemma AttrsIsGood(arg: Text)
    ensures GoodDraft(AttrsDraft(arg))
  {
    if AttrsDraft(arg).Ready? {
      AttrsStayInside(Masks(0, 0), Tokens(arg, 0));
      PlainIsSound(F_PERM, OP_ALL, 0, 0);
    }
  }

  lemma TimeIsGood(field: byte, arg: Text)
    requires field < F_ATTRS
    ensures GoodDraft(TimeDraft(field, arg))
  {
    if TimeDraft(field, arg).Ready? {
      var t := ParseTime(AfterSign(arg)).value;
      PlainIsSound(field, SignOp(arg), t.secs, t.margin);
    }
  }

  lemma CountIsGood(field: byte, arg: Text)
    requires field < F_MAX && field != F_ATTRS
    ensures GoodDraft(CountDraft(field, arg))
  {
    if CountDraft(field, arg).Ready? {
      PlainIsSound(field, SignOp(arg), ParseU64(AfterSign(arg)).value, 0);
    }
  }

  lemma SizeIsGood(field: byte, arg: Text)
    requires field < F_MAX && field != F_ATTRS
    ensures GoodDraft(SizeDraft(field, arg))
  {
    var d := SizeDraft(field, arg);
    if d.Ready? {
      PlainIsSound(field, SignOp(arg), d.p.val, d.p.val2);
    }
  }

  lemma IdIsGood(field: byte, arg: Text, resolve: Text -> Option<u32>)
    requires field < F_ATTRS
    ensures GoodDraft(IdDraft(field, arg, resolve))
  {
    var d := IdDraft(field, arg, resolve);
    if d.Ready? {
      PlainIsSound(field, OP_EQ, d.p.val, 0);
    }
  }

  lemma NamedIsGood(arg: Text)
    ensures GoodDraft(TypeDraft(arg)) && GoodDraft(PermDraft(arg))
    ensures GoodDraft(LayoutDraft(arg)) && GoodDraft(HashDraft(arg))
  {
    if TypeDraft(arg).Ready? {
      PlainIsSound(F_TYPE, OP_EQ, TypeDraft(arg).p.val, 0);
    }
    if PermDraft(arg).Ready? {
      PlainIsSound(F_PERM, PermOp(arg), PermDraft(arg).p.val, 0);
    }
    if LayoutDraft(arg).Ready? {
      PlainIsSound(F_LAYOUT, OP_ANY, LayoutDraft(arg).p.val, 0);
    }
    if HashDraft(arg).Ready? {
      PlainIsSound(F_MDT_HASH, OP_EQ, HashDraft(arg).p.val, 0);
    }
  }

  /** Whatever the option and its text, a predicate that goes into the filter passes lfu_filter_validate, is not yet
      negated, and tests no attribute bit outside the five names. */
  lemma DraftIsGood(opt: Opt, arg: Text, names: Names)
    ensures GoodDraft(DraftOf(opt, arg, names))
  {
    match opt {
      case Atime => TimeIsGood(F_ATIME, arg);
      case Mtime => TimeIsGood(F_MTIME, arg);
      case Ctime => TimeIsGood(F_CTIME, arg);
      case Btime => TimeIsGood(F_BTIME, arg);
      case Links => CountIsGood(F_LINKS, arg);
      case StripeCount => CountIsGood(F_STRIPE_COUNT, arg);
      case MirrorCount => CountIsGood(F_MIRROR_COUNT, arg);
      case CompCount => CountIsGood(F_COMP_COUNT, arg);
      case MdtCount => CountIsGood(F_MDT_COUNT, arg);
      case Size => SizeIsGood(F_SIZE, arg);
      case Blocks => SizeIsGood(F_BLOCKS, arg);
      case DevBlocks => SizeIsGood(F_DEV_BLOCKS, arg);
      case StripeSize => SizeIsGood(F_STRIPE_SIZE, arg);
      case Uid => IdIsGood(F_UID, arg, names.users);
      case Gid => IdIsGood(F_GID, arg, names.groups);
      case Projid => IdIsGood(F_PROJID, arg, (t: Text) => None);
      case Attrs => AttrsIsGood(arg);
      case Ost => ListIsGood(arg);
      case Pool => PatternIsGood(F_POOL, arg);
      case Name => PatternIsGood(F_NAME, arg);
      case Not =>
      case Other =>
      case _ => NamedIsGood(arg);
    }
  }
}
