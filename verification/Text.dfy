/** Command-line text as the option parsers of src/lfu_filter.c see it: C strings, strtoull, strtok. */
module Text {
  import opened Bits
  import opened Seqs

  /** The bytes of a C string, without its terminator. */
  type Text = seq<byte>

  /** The character at i, the terminator included. */
  function At(s: Text, i: nat): byte {
    if i < |s| then s[i] else 0
  }

  predicate IsSpace(c: byte) {
    c == 32 || 9 <= c <= 13
  }

  /** The value of a digit in bases up to 36, or 36. */
  function DigitOf(c: byte): (d: nat)
    ensures d <= 36
  {
    if 48 <= c <= 57 then c - 48
    else if 97 <= c <= 122 then c - 87
    else if 65 <= c <= 90 then c - 55
    else 36
  }

  function SkipSpaces(s: Text, i: nat): (j: nat)
    requires i <= |s|
    ensures i <= j <= |s|
    decreases |s| - i
  {
    if i < |s| && IsSpace(s[i]) then SkipSpaces(s, i + 1) else i
  }

  /** The end of the run of digits that starts at i. */
  function RunEnd(s: Text, i: nat, base: nat): (j: nat)
    requires i <= |s| && base <= 36
    ensures i <= j <= |s|
    decreases |s| - i
  {
    if i < |s| && DigitOf(s[i]) < base then RunEnd(s, i + 1, base) else i
  }

  /** The number written in s[i..j]. */
  function Number(s: Text, i: nat, j: nat, base: nat): (n: nat)
    requires i <= j <= |s|
    decreases j
  {
    if i == j then 0 else Number(s, i, j - 1, base) * base + DigitOf(s[j - 1])
  }

  /** What strtoull leaves: the value, where it stopped, and whether it set errno to ERANGE. */
  datatype Scan = Scan(value: u64, end: nat, range: bool)

  /** An optional sign. */
  function SignEnd(s: Text, i: nat): (j: nat)
    requires i <= |s|
    ensures i <= j <= |s|
  {
    if At(s, i) == 43 || At(s, i) == 45 then i + 1 else i
  }

  predicate HexPrefix(s: Text, i: nat) {
    At(s, i) == 48 && (At(s, i + 1) == 120 || At(s, i + 1) == 88) && DigitOf(At(s, i + 2)) < 16
  }

  /** strtoull(s + start, &end, base), for base 0, 8 or 10. */
  function StrToUll(s: Text, start: nat, base: nat): (r: Scan)
    requires start <= |s| && base <= 10
    ensures start <= r.end <= |s|
  {
    var sign := SkipSpaces(s, start);
    var first := SignEnd(s, sign);
    var hex := base == 0 && HexPrefix(s, first);
    var b := if hex then 16 else if base != 0 then base else if At(s, first) == 48 then 8 else 10;
    var i := if hex then first + 2 else first;
    var j := RunEnd(s, i, b);
    if j == i then Scan(0, start, false)
    else
      var n := Number(s, i, j, b);
      if n >= TWO64 then Scan(TWO64 - 1, j, true)
      else Scan(if At(s, sign) == 45 then (TWO64 - n) % TWO64 else n, j, false)
  }

  // ------------------------------------------------------------------
  // Decimal numbers read back

  function Decimal(n: nat): (r: Text)
    ensures |r| > 0
    ensures forall k :: 0 <= k < |r| ==> 48 <= r[k] <= 57
    ensures n > 0 ==> r[0] != 48
    ensures n == 0 ==> r == [48]
  {
    if n < 10 then [48 + n] else Decimal(n / 10) + [48 + n % 10]
  }

  lemma {:induction false} NumberOfDecimal(n: nat)
    ensures Number(Decimal(n), 0, |Decimal(n)|, 10) == n
    decreases n
  {
    if n >= 10 {
      NumberOfDecimal(n / 10);
      NumberFrame(Decimal(n), 0, Decimal(n / 10), |Decimal(n / 10)|, 10);
    }
  }

  /** Only the digits matter, not what stands around them. */
  lemma {:induction false} NumberFrame(s: Text, i: nat, t: Text, m: nat, base: nat)
    requires m <= |t| && i + m <= |s| && forall k :: 0 <= k < m ==> s[i + k] == t[k]
    ensures Number(s, i, i + m, base) == Number(t, 0, m, base)
    decreases m
  {
    if m > 0 {
      NumberFrame(s, i, t, m - 1, base);
      assert s[i + (m - 1)] == t[m - 1];
    }
  }

  lemma {:induction false} RunEndIs(s: Text, i: nat, j: nat, base: nat)
    requires i <= j <= |s| && base <= 36
    requires forall k :: i <= k < j ==> DigitOf(s[k]) < base
    requires DigitOf(At(s, j)) >= base
    ensures RunEnd(s, i, base) == j
    decreases j - i
  {
    if i < j {
      RunEndIs(s, i + 1, j, base);
    }
  }

  /** What may follow a decimal number without becoming part of it. */
  predicate Ends(c: byte) {
    DigitOf(c) >= 10 && c != 120 && c != 88
  }

  /** A number that begins with a digit has no space, sign or hex prefix before it. */
  lemma StartsPlain(s: Text, i: nat, n: nat)
    requires StandsAt(s, i, Decimal(n)) && Ends(At(s, i + |Decimal(n)|))
    ensures SkipSpaces(s, i) == i && SignEnd(s, i) == i && !HexPrefix(s, i)
    ensures At(s, i) == 48 <==> n == 0
  {
    var d := Decimal(n);
    assert s[i + 0] == d[0];
  }

  lemma DigitsOfDecimal(s: Text, i: nat, n: nat, base: nat)
    requires StandsAt(s, i, Decimal(n)) && Ends(At(s, i + |Decimal(n)|)) && (base == 10 || (base == 8 && n == 0))
    ensures RunEnd(s, i, base) == i + |Decimal(n)| && Number(s, i, i + |Decimal(n)|, base) == n
  {
    var d := Decimal(n);
    forall k | i <= k < i + |d|
      ensures DigitOf(s[k]) < base
    {
      assert s[i + (k - i)] == d[k - i];
    }
    RunEndIs(s, i, i + |d|, base);
    NumberFrame(s, i, d, |d|, base);
    NumberOfDecimal(n);
  }

  /** What strtoull makes of a number that may not fit. */
  function Saturated(n: nat): u64 {
    if n < TWO64 then n else TWO64 - 1
  }

  /** A decimal number, wherever it stands, is read back exactly, and flagged when it does not fit 64 bits. */
  lemma DecimalReadBack(s: Text, i: nat, n: nat, base: nat)
    requires StandsAt(s, i, Decimal(n)) && Ends(At(s, i + |Decimal(n)|)) && (base == 0 || base == 10)
    ensures StrToUll(s, i, base) == Scan(Saturated(n), i + |Decimal(n)|, n >= TWO64)
  {
    StartsPlain(s, i, n);
    DigitsOfDecimal(s, i, n, if base == 0 && n == 0 then 8 else 10);
  }

  // ------------------------------------------------------------------
  // strtok

  /** The end of the token that starts at i. */
  function TokenEnd(s: Text, i: nat): (j: nat)
    requires i <= |s|
    ensures i <= j <= |s|
    ensures j < |s| ==> s[j] == 44
    decreases |s| - i
  {
    if i < |s| && s[i] != 44 then TokenEnd(s, i + 1) else i
  }

  /** The tokens strtok_r(s, ",") finds from i on: maximal runs without a comma, empty ones skipped. */
  function Tokens(s: Text, i: nat): (ts: seq<Text>)
    requires i <= |s|
    ensures forall k :: 0 <= k < |ts| ==> |ts[k]| > 0
    decreases |s| - i
  {
    if i == |s| then []
    else if s[i] == 44 then Tokens(s, i + 1)
    else
      var j := TokenEnd(s, i);
      [s[i..j]] + Tokens(s, j)
  }

  function Lower(c: byte): byte {
    if 65 <= c <= 90 then c + 32 else c
  }
}
