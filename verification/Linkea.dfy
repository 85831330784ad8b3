/** trusted.link on arbitrary bytes: lfu_linkea_name of src/lfu_filter_eval.c.

    The header is in the writing host's byte order, recognised by its magic; each entry's length is
    big-endian.  An entry is a 2-byte length, a 16-byte parent FID and the name. */
module Linkea {
  import opened Bits
  import opened Records
  import opened Seqs
  import opened CStrings

  const HEADER_SIZE: nat := 24
  const ENTRY_SIZE: nat := 18
  const NAME_BYTES: nat := 256
  const LINK_EA_MAGIC: u32 := 0x11EA_F1DF

  datatype Endian = Little | Big

  /** The pattern matcher: a deterministic predicate on two NUL-free strings. */
  type Glob = (seq<byte>, seq<byte>) -> bool

  /** A word stored in n bytes, in the given order. */
  function Word(e: Endian, b: seq<byte>): (v: nat)
    ensures v < Pow256(|b|)
    decreases |b|
  {
    if b == [] then 0
    else match e
      case Little => b[0] as int + 256 * Word(e, b[1..])
      case Big => b[|b| - 1] as int + 256 * Word(e, b[..|b| - 1])
  }

  function Pow256(n: nat): (r: nat)
    ensures r >= 1
  {
    if n == 0 then 1 else 256 * Pow256(n - 1)
  }

  function Reverse(b: seq<byte>): (r: seq<byte>)
    ensures |r| == |b|
    ensures forall i :: 0 <= i < |b| ==> r[i] == b[|b| - 1 - i]
  {
    seq(|b|, i requires 0 <= i < |b| => b[|b| - 1 - i])
  }

  function Other(e: Endian): Endian {
    if e.Little? then Big else Little
  }

  /** __builtin_bswapN: the same bytes read in the other order. */
  lemma {:induction false} SwapIsOther(e: Endian, b: seq<byte>)
    ensures Word(Other(e), b) == Word(e, Reverse(b))
    decreases |b|
  {
    if b != [] {
      var k := |b| - 1;
      if e.Little? {
        SwapIsOther(e, b[..k]);
        assert Reverse(b)[1..] == Reverse(b[..k]);
      } else {
        SwapIsOther(e, b[1..]);
        assert Reverse(b)[..k] == Reverse(b[1..]);
      }
    }
  }

  // ------------------------------------------------------------------
  // What the bytes mean

  /** The byte order the header was written in, if its magic says so. */
  function HeaderOrder(b: seq<byte>): (e: Option<Endian>)
    requires |b| >= HEADER_SIZE
  {
    if Word(Little, b[..4]) == LINK_EA_MAGIC then Some(Little)
    else if Word(Big, b[..4]) == LINK_EA_MAGIC then Some(Big)
    else None
  }

  function RecLen(b: seq<byte>, off: nat): (n: nat)
    requires off + 2 <= |b|
    ensures n < 65536
  {
    b[off] as int * 256 + b[off + 1] as int
  }

  predicate WellFormedAt(b: seq<byte>, off: nat, end: nat)
    requires end <= |b|
  {
    off + ENTRY_SIZE <= end && RecLen(b, off) > ENTRY_SIZE && off + RecLen(b, off) <= end
  }

  /** The name as lfu_glob sees it: at most 255 bytes, up to an embedded NUL. */
  function NameAt(b: seq<byte>, off: nat): (name: seq<byte>)
    requires off + ENTRY_SIZE <= |b| && RecLen(b, off) > ENTRY_SIZE && off + RecLen(b, off) <= |b|
    ensures |name| < NAME_BYTES
  {
    var full := b[off + ENTRY_SIZE..off + RecLen(b, off)];
    CString(if |full| >= NAME_BYTES then full[..NAME_BYTES - 1] else full)
  }

  /** The names of the well-formed prefix: at most n entries, stopping at the first that does not fit. */
  function Names(b: seq<byte>, off: nat, end: nat, n: nat): (names: seq<seq<byte>>)
    requires end <= |b|
    ensures |names| <= n
    ensures off <= end ==> |names| * (ENTRY_SIZE + 1) <= end - off
    ensures off > end ==> names == []
    decreases n
  {
    if n == 0 || !WellFormedAt(b, off, end) then []
    else [NameAt(b, off)] + Names(b, off + RecLen(b, off), end, n - 1)
  }

  /** Every name the value holds. */
  function LinkNames(b: seq<byte>): (names: seq<seq<byte>>)
    ensures |names| * (ENTRY_SIZE + 1) <= |b|
  {
    if |b| < HEADER_SIZE then []
    else
      match HeaderOrder(b)
      case None => []
      case Some(e) => Names(b, HEADER_SIZE, Min(Word(e, b[8..16]), |b|), Word(e, b[4..8]))
  }

  // ------------------------------------------------------------------
  // The parser

  predicate AnyMatch(names: seq<seq<byte>>, pattern: seq<byte>, glob: Glob) {
    exists i :: 0 <= i < |names| && glob(pattern, names[i])
  }

  lemma AnyMatchCons(name: seq<byte>, rest: seq<seq<byte>>, pattern: seq<byte>, glob: Glob)
    ensures AnyMatch([name] + rest, pattern, glob) <==> glob(pattern, name) || AnyMatch(rest, pattern, glob)
  {
    var all := [name] + rest;
    if glob(pattern, name) {
      assert glob(pattern, all[0]);
    }
    if AnyMatch(rest, pattern, glob) {
      var i :| 0 <= i < |rest| && glob(pattern, rest[i]);
      assert glob(pattern, all[i + 1]);
    }
  }

  /** These are the names from off on, entry by entry. */
  predicate NamesFrom(b: seq<byte>, off: nat, end: nat, n: nat, names: seq<seq<byte>>)
    requires end <= |b|
    decreases n
  {
    if n == 0 || !WellFormedAt(b, off, end) then names == []
    else names != [] && names[0] == NameAt(b, off) && NamesFrom(b, off + RecLen(b, off), end, n - 1, names[1..])
  }

  lemma FromStep(b: seq<byte>, off: nat, end: nat, n: nat, x: seq<byte>, rest: seq<seq<byte>>)
    requires end <= |b| && n > 0 && WellFormedAt(b, off, end) && x == NameAt(b, off)
    requires NamesFrom(b, off + RecLen(b, off), end, n - 1, rest)
    ensures NamesFrom(b, off, end, n, [x] + rest)
  {
    assert ([x] + rest)[1..] == rest;
  }

  lemma {:induction false} NamesAreFrom(b: seq<byte>, off: nat, end: nat, n: nat, names: seq<seq<byte>>)
    requires end <= |b| && names == Names(b, off, end, n)
    ensures NamesFrom(b, off, end, n, names)
    decreases n
  {
    if n > 0 && WellFormedAt(b, off, end) {
      var rest := Names(b, off + RecLen(b, off), end, n - 1);
      NamesAreFrom(b, off + RecLen(b, off), end, n - 1, rest);
      FromStep(b, off, end, n, NameAt(b, off), rest);
    }
  }

  lemma AnyMatchHead(names: seq<seq<byte>>, pattern: seq<byte>, glob: Glob)
    requires names != []
    ensures AnyMatch(names, pattern, glob) <==> glob(pattern, names[0]) || AnyMatch(names[1..], pattern, glob)
  {
    assert [names[0]] + names[1..] == names;
    AnyMatchCons(names[0], names[1..], pattern, glob);
  }

  /** The loop over entries.  Every access is in bounds on every byte string.  `rounds` counts every time the body is
      entered, the round that hits or gives up included. */
  method FindName(b: seq<byte>, end: nat, reccount: nat, pattern: seq<byte>, glob: Glob)
    returns (hit: bool, rounds: nat)
    requires HEADER_SIZE <= |b| && end <= |b|
    ensures hit <==> AnyMatch(Names(b, HEADER_SIZE, end, reccount), pattern, glob)
    ensures rounds <= reccount && rounds <= |Names(b, HEADER_SIZE, end, reccount)| + 1
  {
    hit, rounds := false, 0;
    var off: nat := HEADER_SIZE;
    ghost var all := Names(b, HEADER_SIZE, end, reccount);
    ghost var left := all;
    NamesAreFrom(b, off, end, reccount, all);
    while rounds < reccount
      invariant 0 <= rounds <= reccount && NamesFrom(b, off, end, reccount - rounds, left)
      invariant rounds + |left| == |all|
      invariant AnyMatch(all, pattern, glob) <==> AnyMatch(left, pattern, glob)
      decreases reccount - rounds
    {
      rounds := rounds + 1;
      if !WellFormedAt(b, off, end) {
        return;
      }
      AnyMatchHead(left, pattern, glob);
      if glob(pattern, NameAt(b, off)) {
        hit := true;
        return;
      }
      off, left := off + RecLen(b, off), left[1..];
    }
  }

  /** What a host of either order makes of the header. */
  lemma HostReading(host: Endian, b: seq<byte>)
    requires |b| >= HEADER_SIZE
    ensures Word(host, b[..4]) == LINK_EA_MAGIC ==>
              LinkNames(b) == Names(b, HEADER_SIZE, Min(Word(host, b[8..16]), |b|), Word(host, b[4..8]))
    ensures Word(host, b[..4]) != LINK_EA_MAGIC && Word(host, Reverse(b[..4])) == LINK_EA_MAGIC ==>
              LinkNames(b) == Names(b, HEADER_SIZE, Min(Word(host, Reverse(b[8..16])), |b|),
                                    Word(host, Reverse(b[4..8])))
    ensures Word(host, b[..4]) != LINK_EA_MAGIC && Word(host, Reverse(b[..4])) != LINK_EA_MAGIC ==>
              LinkNames(b) == []
  {
    MagicIsOneWay(b[..4]);
    SwapIsOther(host, b[..4]);
    SwapIsOther(host, b[4..8]);
    SwapIsOther(host, b[8..16]);
  }

  /** Names of at least a byte each behind the header leave room for one more round. */
  lemma RoomForOneMore(names: nat, len: nat)
    requires names * (ENTRY_SIZE + 1) <= len - HEADER_SIZE
    ensures names + 1 <= len / (ENTRY_SIZE + 1)
  {
  }

  /** lfu_linkea_name on a host of the given byte order: it finds a name exactly when some entry of the
      well-formed prefix matches, whichever order the host and the header are in, and enters its loop at most len/19
      times, because the header takes up more room than the one round that may find no entry. */
  method LinkeaName(host: Endian, ea: Ea, pattern: seq<byte>, glob: Glob) returns (hit: bool, rounds: nat)
    ensures hit <==> ea.Some? && AnyMatch(LinkNames(ea.value), pattern, glob)
    ensures rounds <= (if ea.Some? then |ea.value| / (ENTRY_SIZE + 1) else 0)
  {
    hit, rounds := false, 0;
    if ea.None? || |ea.value| < HEADER_SIZE {
      return;
    }
    var b := ea.value;
    var magic, reccount, lehLen := Word(host, b[..4]), Word(host, b[4..8]), Word(host, b[8..16]);
    HostReading(host, b);
    if magic != LINK_EA_MAGIC {
      if Word(host, Reverse(b[..4])) != LINK_EA_MAGIC {
        return;
      }
      reccount, lehLen := Word(host, Reverse(b[4..8])), Word(host, Reverse(b[8..16]));
    }
    var end: nat := Min(lehLen, |b|);
    ghost var names := Names(b, HEADER_SIZE, end, reccount);
    hit, rounds := FindName(b, end, reccount, pattern, glob);
    RoomForOneMore(|names|, |b|);
  }

  /** The magic is not a palindrome: no header is valid in both orders. */
  lemma MagicIsOneWay(m: seq<byte>)
    requires |m| == 4
    ensures !(Word(Little, m) == LINK_EA_MAGIC && Word(Big, m) == LINK_EA_MAGIC)
  {
    Word4(m);
  }

  lemma Word4(m: seq<byte>)
    requires |m| == 4
    ensures Word(Little, m) == m[0] as int + 0x100 * m[1] as int + 0x1_0000 * m[2] as int + 0x100_0000 * m[3] as int
    ensures Word(Big, m) == m[3] as int + 0x100 * m[2] as int + 0x1_0000 * m[1] as int + 0x100_0000 * m[0] as int
  {
    assert m[1..][1..] == m[2..] && m[2..][1..] == m[3..] && m[3..][1..] == [];
    assert m[..3][..2] == m[..2] && m[..2][..1] == m[..1] && m[..1][..0] == [];
    assert Word(Little, m[3..]) == m[3] as int;
    assert Word(Little, m[2..]) == m[2] as int + 256 * Word(Little, m[3..]);
    assert Word(Little, m[1..]) == m[1] as int + 256 * Word(Little, m[2..]);
    assert Word(Big, m[..1]) == m[0] as int;
    assert Word(Big, m[..2]) == m[1] as int + 256 * Word(Big, m[..1]);
    assert Word(Big, m[..3]) == m[2] as int + 256 * Word(Big, m[..2]);
  }

  // ------------------------------------------------------------------
  // Byte order

  /** The same value written by a host of the other byte order. */
  function SwapHeader(b: seq<byte>): (r: seq<byte>)
    requires |b| >= HEADER_SIZE
    ensures |r| == |b|
  {
    Reverse(b[..4]) + Reverse(b[4..8]) + Reverse(b[8..16]) + b[16..]
  }

  /** Names beyond the header depend only on the bytes beyond the header. */
  lemma {:induction false} NamesFrame(b: seq<byte>, b': seq<byte>, off: nat, end: nat, n: nat)
    requires |b| == |b'| && end <= |b| && 16 <= off
    requires forall i :: 16 <= i < |b| ==> b[i] == b'[i]
    ensures Names(b, off, end, n) == Names(b', off, end, n)
    decreases n
  {
    if n != 0 && off + ENTRY_SIZE <= end {
      assert RecLen(b, off) == RecLen(b', off);
      if WellFormedAt(b, off, end) {
        var next := off + RecLen(b, off);
        assert NameAt(b, off) == NameAt(b', off) by {
          assert b[off + ENTRY_SIZE..next] == b'[off + ENTRY_SIZE..next];
        }
        NamesFrame(b, b', next, end, n - 1);
      }
    }
  }

  /** The answer does not depend on which host wrote the header. */
  lemma SwapInvariant(b: seq<byte>)
    requires |b| >= HEADER_SIZE
    ensures LinkNames(SwapHeader(b)) == LinkNames(b)
  {
    var r := SwapHeader(b);
    assert r[..4] == Reverse(b[..4]) && r[4..8] == Reverse(b[4..8]) && r[8..16] == Reverse(b[8..16]);
    assert r[16..] == b[16..];
    MagicIsOneWay(b[..4]);
    SwapIsOther(Little, b[..4]);
    SwapIsOther(Big, b[..4]);
    match HeaderOrder(b) {
      case None =>
      case Some(e) =>
        SwapIsOther(Other(e), b[4..8]);
        SwapIsOther(Other(e), b[8..16]);
        NamesFrame(b, r, HEADER_SIZE, Min(Word(e, b[8..16]), |b|), Word(e, b[4..8]));
    }
  }

  // ------------------------------------------------------------------
  // Round trip

  datatype Entry = Entry(parent: seq<byte>, name: seq<byte>)

  /** An entry as the MDT writes them: a 16-byte FID and a legal file name. */
  predicate ValidEntry(e: Entry) {
    |e.parent| == 16 && 1 <= |e.name| < NAME_BYTES && NulFree(e.name)
  }

  predicate AllValid(es: seq<Entry>) {
    forall i :: 0 <= i < |es| ==> ValidEntry(es[i])
  }

  function PutWord(e: Endian, v: nat, n: nat): (b: seq<byte>)
    ensures |b| == n
    decreases n
  {
    if n == 0 then []
    else match e
      case Little => [v % 256] + PutWord(e, v / 256, n - 1)
      case Big => PutWord(e, v / 256, n - 1) + [v % 256]
  }

  lemma {:induction false} WordRoundTrip(e: Endian, v: nat, n: nat)
    requires v < Pow256(n)
    ensures Word(e, PutWord(e, v, n)) == v
    decreases n
  {
    if n != 0 {
      WordRoundTrip(e, v / 256, n - 1);
      var b := PutWord(e, v, n);
      if e.Little? {
        assert b[1..] == PutWord(e, v / 256, n - 1);
      } else {
        assert b[..n - 1] == PutWord(e, v / 256, n - 1);
      }
    }
  }

  function PutEntry(e: Entry): (b: seq<byte>)
    requires ValidEntry(e)
    ensures |b| == ENTRY_SIZE + |e.name|
  {
    var n := ENTRY_SIZE + |e.name|;
    [n / 256, n % 256] + e.parent + e.name
  }

  function PutEntries(es: seq<Entry>): (b: seq<byte>)
    requires AllValid(es)
  {
    if es == [] then [] else PutEntry(es[0]) + PutEntries(es[1..])
  }

  function EntryNames(es: seq<Entry>): (names: seq<seq<byte>>)
    ensures |names| == |es|
  {
    if es == [] then [] else [es[0].name] + EntryNames(es[1..])
  }

  /** A whole value as a host of order e writes it; `tail` is leh_overflow_time and the padding. */
  function PutLinkea(e: Endian, es: seq<Entry>, tail: seq<byte>): (b: seq<byte>)
    requires |tail| == 8 && AllValid(es)
  {
    PutWord(e, LINK_EA_MAGIC, 4) + PutWord(e, |es|, 4) + PutWord(e, HEADER_SIZE + |PutEntries(es)|, 8) +
    tail + PutEntries(es)
  }

  lemma EntryReadBack(b: seq<byte>, off: nat, e: Entry)
    requires ValidEntry(e) && off + ENTRY_SIZE + |e.name| <= |b|
    requires b[off..off + ENTRY_SIZE + |e.name|] == PutEntry(e)
    ensures RecLen(b, off) == ENTRY_SIZE + |e.name|
    ensures NameAt(b, off) == e.name
  {
    var p, n := PutEntry(e), ENTRY_SIZE + |e.name|;
    assert b[off] == b[off..off + n][0] == p[0];
    assert b[off + 1] == b[off..off + n][1] == p[1];
    assert b[off + ENTRY_SIZE..off + n] == b[off..off + n][ENTRY_SIZE..] == p[ENTRY_SIZE..] == e.name;
    CStringUnchanged(e.name);
  }

  /** An entry of this name lies at off. */
  predicate EntryAt(b: seq<byte>, off: nat, name: seq<byte>) {
    WellFormedAt(b, off, |b|) && RecLen(b, off) == ENTRY_SIZE + |name| && NameAt(b, off) == name
  }

  /** Entries of these names lie end to end from off on. */
  predicate EntriesAt(b: seq<byte>, off: nat, names: seq<seq<byte>>)
    decreases |names|
  {
    names == [] || (EntryAt(b, off, names[0]) && EntriesAt(b, off + ENTRY_SIZE + |names[0]|, names[1..]))
  }

  lemma HeadStands(b: seq<byte>, off: nat, e: Entry, tail: seq<byte>)
    requires ValidEntry(e) && off <= |b| && b[off..] == PutEntry(e) + tail
    ensures EntryAt(b, off, e.name)
    ensures off + ENTRY_SIZE + |e.name| <= |b| && b[off + ENTRY_SIZE + |e.name|..] == tail
  {
    SuffixSplit(b, off, PutEntry(e), tail);
    EntryReadBack(b, off, e);
  }

  lemma {:induction false} EntriesStand(b: seq<byte>, off: nat, es: seq<Entry>)
    requires off <= |b| && AllValid(es) && b[off..] == PutEntries(es)
    ensures EntriesAt(b, off, EntryNames(es))
    decreases |es|
  {
    if es != [] {
      HeadStands(b, off, es[0], PutEntries(es[1..]));
      EntriesStand(b, off + ENTRY_SIZE + |es[0].name|, es[1..]);
      assert EntryNames(es)[1..] == EntryNames(es[1..]);
    }
  }

  lemma {:induction false} EntriesReadBack(b: seq<byte>, off: nat, names: seq<seq<byte>>)
    requires EntriesAt(b, off, names)
    ensures Names(b, off, |b|, |names|) == names
    decreases |names|
  {
    if names != [] {
      EntriesReadBack(b, off + ENTRY_SIZE + |names[0]|, names[1..]);
    }
  }

  /** Where the header fields lie. */
  lemma HeaderFields(a: seq<byte>, c: seq<byte>, d: seq<byte>, tail: seq<byte>, rest: seq<byte>)
    requires |a| == 4 && |c| == 4 && |d| == 8 && |tail| == 8
    ensures var b := a + c + d + tail + rest;
            |b| == HEADER_SIZE + |rest| && b[..4] == a && b[4..8] == c && b[8..16] == d && b[HEADER_SIZE..] == rest
  {
  }

  /** Every name written is found, and nothing else, whichever host wrote the value. */
  lemma NamesRoundTrip(e: Endian, es: seq<Entry>, tail: seq<byte>)
    requires |tail| == 8 && AllValid(es)
    requires |es| < Pow256(4) && HEADER_SIZE + |PutEntries(es)| < Pow256(8)
    ensures LinkNames(PutLinkea(e, es, tail)) == EntryNames(es)
  {
    var rest := PutEntries(es);
    var b, len := PutLinkea(e, es, tail), HEADER_SIZE + |rest|;
    HeaderFields(PutWord(e, LINK_EA_MAGIC, 4), PutWord(e, |es|, 4), PutWord(e, len, 8), tail, rest);
    MagicFits();
    WordRoundTrip(e, LINK_EA_MAGIC, 4);
    WordRoundTrip(e, |es|, 4);
    WordRoundTrip(e, len, 8);
    HostReading(e, b);
    EntriesStand(b, HEADER_SIZE, es);
    EntriesReadBack(b, HEADER_SIZE, EntryNames(es));
  }

  lemma MagicFits()
    ensures LINK_EA_MAGIC < Pow256(4)
  {
    assert Pow256(2) == 0x1_0000;
  }
}
