/** Sizes and times on the command line (lfu_parse_size and lfu_parse_time of src/lfu_filter.c), in 64-bit
    arithmetic that wraps. */
module Quantities {
  import opened Bits
  import opened Records
  import opened Seqs
  import opened Text

  function Wrap(n: nat): (r: u64) {
    n % TWO64
  }

  function Times(a: nat, b: nat): (r: nat) {
    a * b
  }

  function Quotient(a: nat, d: nat): (q: nat)
    requires d > 0
  {
    a / d
  }

  function Pow10(n: nat): (r: nat)
    ensures r >= 1
  {
    if n == 0 then 1 else 10 * Pow10(n - 1)
  }

  // ------------------------------------------------------------------
  // Sizes

  function SizeUnit(c: byte): (r: Option<u64>)
    ensures r.Some? ==> Ends(c) && c != 46 && !IsSpace(c) && c != 43 && c != 45 && r.value >= 1
  {
    var l := Lower(c);
    if l == 98 then Some(512)
    else if l == 99 then Some(1)
    else if l == 107 then Some(0x400)
    else if l == 109 then Some(0x10_0000)
    else if l == 103 then Some(0x4000_0000)
    else if l == 116 then Some(0x100_0000_0000)
    else if l == 112 then Some(0x4_0000_0000_0000)
    else if l == 101 then Some(0x1000_0000_0000_0000)
    else None
  }

  /** A division by zero is neither a value nor a refusal. */
  datatype Parsed = Value(v: u64) | Bad | DividesByZero

  /** The multiplier that the text from `end` on stands for. */
  function Multiplier(arg: Text, end: nat, units: u64): Option<u64>
    requires end <= |arg|
  {
    if end == |arg| then Some(units)
    else if end + 1 == |arg| then SizeUnit(arg[end])
    else None
  }

  /** The fraction after a '.', how many characters it takes up, and where it ends. */
  datatype Frac = Frac(value: u64, digits: nat, end: nat)

  function Fraction(arg: Text, i: nat): (r: Frac)
    requires i <= |arg|
    ensures r.end <= |arg|
  {
    if At(arg, i) == 46 then
      var f := StrToUll(arg, i + 1, 10);
      Frac(f.value, f.end - (i + 1), f.end)
    else Frac(0, 0, i)
  }

  /** whole * mult + (frac * mult) / frac_div, in 64 bits. */
  function Combine(whole: u64, frac: u64, digits: nat, mult: u64): Parsed {
    var div := Wrap(Pow10(digits));
    if div == 0 then DividesByZero
    else Value(Wrap(Wrap(Times(whole, mult)) + Quotient(Wrap(Times(frac, mult)), div)))
  }

  /** lfu_parse_size. */
  function ParseSize(arg: Text, units: u64): (r: Parsed) {
    var w := StrToUll(arg, 0, 0);
    if w.end == 0 || w.range then Bad
    else
      var f := Fraction(arg, w.end);
      var m := Multiplier(arg, f.end, units);
      if m.None? then Bad else Combine(w.value, f.value, f.digits, m.value)
  }

  /** The loop that builds the divisor. */
  method FracDivisor(digits: nat) returns (div: u64)
    ensures div == Wrap(Pow10(digits))
  {
    var d: nat := 1;
    var q := 0;
    while q < digits
      invariant 0 <= q <= digits && d == Wrap(Pow10(q))
    {
      TimesTenMod(Pow10(q));
      d := Wrap(d * 10);
      q := q + 1;
    }
    return d;
  }

  lemma TimesTenMod(a: nat)
    ensures ((a % TWO64) * 10) % TWO64 == (10 * a) % TWO64
  {
    var q := a / TWO64;
    assert 10 * a == (a % TWO64) * 10 + (10 * q) * TWO64;
    DropMultiple((a % TWO64) * 10, 10 * q);
  }

  predicate IsDigits(f: Text) {
    forall k :: 0 <= k < |f| ==> 48 <= f[k] <= 57
  }

  /** Digits after the point, leading zeros and all, are read back as the number they spell, as far as it fits. */
  lemma DigitsReadBack(s: Text, i: nat, f: Text)
    requires IsDigits(f) && StandsAt(s, i, f)
    requires i + |f| == |s| || SizeUnit(s[i + |f|]).Some?
    ensures StrToUll(s, i, 10) ==
            Scan(Saturated(Number(f, 0, |f|, 10)), i + |f|, Number(f, 0, |f|, 10) >= TWO64)
  {
    if f != [] {
      assert s[i + 0] == f[0];
    }
    forall k | i <= k < i + |f|
      ensures DigitOf(s[k]) < 10
    {
      assert s[i + (k - i)] == f[k - i];
    }
    RunEndIs(s, i, i + |f|, 10);
    NumberFrame(s, i, f, |f|, 10);
  }

  /** A size as a user writes it: a whole number, perhaps a fraction, perhaps a unit. */
  function SizeText(whole: nat, frac: Option<Text>, unit: Option<byte>): Text {
    Decimal(whole) + (FracText(frac) + UnitText(unit))
  }

  function FracDigits(frac: Option<Text>): Text {
    if frac.Some? then frac.value else []
  }

  function FracText(frac: Option<Text>): Text {
    if frac.Some? then [46] + frac.value else []
  }

  function UnitText(unit: Option<byte>): Text {
    if unit.Some? then [unit.value] else []
  }

  /** The number the digits after the point spell. */
  function Spelled(frac: Option<Text>): nat {
    Number(FracDigits(frac), 0, |FracDigits(frac)|, 10)
  }

  lemma FracStands(frac: Text)
    ensures StandsAt([46] + frac, 0, [46]) && StandsAt([46] + frac, 1, frac)
  {
    StandsPieces([46], frac);
  }

  lemma SizeTextPlaces(whole: nat, frac: Option<Text>, unit: Option<byte>)
    ensures var s := SizeText(whole, frac, unit);
            var w := |Decimal(whole)|;
            var e := w + |FracText(frac)|;
            && StandsAt(s, 0, Decimal(whole)) && StandsAt(s, w, FracText(frac))
            && |s| == e + (if unit.Some? then 1 else 0)
            && (unit.Some? ==> s[e] == unit.value)
  {
    var s, d, f, u := SizeText(whole, frac, unit), Decimal(whole), FracText(frac), UnitText(unit);
    StandsThree(d, f, u);
    if unit.Some? {
      assert s[|d| + |f| + 0] == u[0];
    }
  }

  lemma FracPlaces(whole: nat, frac: Text, unit: Option<byte>)
    ensures var s := SizeText(whole, Some(frac), unit);
            At(s, |Decimal(whole)|) == 46 && StandsAt(s, |Decimal(whole)| + 1, frac)
  {
    var s, w := SizeText(whole, Some(frac), unit), |Decimal(whole)|;
    SizeTextPlaces(whole, Some(frac), unit);
    FracStands(frac);
    StandsInside(s, w, [46] + frac, 0, [46]);
    StandsInside(s, w, [46] + frac, 1, frac);
    assert s[w + 0] == [46][0];
  }

  lemma ReadsWhole(whole: nat, frac: Option<Text>, unit: Option<byte>)
    requires unit.Some? ==> SizeUnit(unit.value).Some?
    ensures StrToUll(SizeText(whole, frac, unit), 0, 0) ==
            Scan(Saturated(whole), |Decimal(whole)|, whole >= TWO64)
  {
    SizeTextPlaces(whole, frac, unit);
    if frac.Some? {
      FracPlaces(whole, frac.value, unit);
    }
    DecimalReadBack(SizeText(whole, frac, unit), 0, whole, 0);
  }

  lemma ReadsFraction(whole: nat, frac: Option<Text>, unit: Option<byte>)
    requires unit.Some? ==> SizeUnit(unit.value).Some?
    requires IsDigits(FracDigits(frac))
    ensures var w := |Decimal(whole)|;
            var s := SizeText(whole, frac, unit);
            && w <= |s|
            && (At(s, w) == 46 <==> frac.Some?)
            && Fraction(s, w) == Frac(Saturated(Spelled(frac)), |FracDigits(frac)|,
                                      w + if frac.Some? then 1 + |frac.value| else 0)
  {
    SizeTextPlaces(whole, frac, unit);
    if frac.Some? {
      FracPlaces(whole, frac.value, unit);
      DigitsReadBack(SizeText(whole, frac, unit), |Decimal(whole)| + 1, frac.value);
    }
  }

  /** What a size means, over the integers: `frac` is the number the `digits` digits after the point spell. */
  function SizeMeaning(whole: nat, frac: nat, digits: nat, mult: nat): nat {
    Times(whole, mult) + Quotient(Times(frac, mult), Pow10(digits))
  }

  /** No intermediate of the computation exceeds 64 bits. */
  predicate SizeFits(whole: nat, frac: nat, digits: nat, mult: nat) {
    whole < TWO64 && frac < TWO64 && Times(frac, mult) < TWO64 && Pow10(digits) < TWO64
    && SizeMeaning(whole, frac, digits, mult) < TWO64
  }

  lemma Unwrapped(n: nat)
    requires n < TWO64
    ensures Wrap(n) == n
  {
  }

  lemma CombineIsExact(whole: u64, frac: u64, digits: nat, mult: u64)
    requires SizeFits(whole, frac, digits, mult)
    ensures Combine(whole, frac, digits, mult) == Value(SizeMeaning(whole, frac, digits, mult))
  {
    Unwrapped(Pow10(digits));
    Unwrapped(Times(frac, mult));
    Unwrapped(Times(whole, mult));
    Unwrapped(SizeMeaning(whole, frac, digits, mult));
  }

  function UnitOf(unit: Option<byte>, units: u64): u64
    requires unit.Some? ==> SizeUnit(unit.value).Some?
  {
    if unit.Some? then SizeUnit(unit.value).value else units
  }

  lemma ParsesAsWritten(whole: nat, frac: Option<Text>, unit: Option<byte>, units: u64)
    requires (unit.Some? ==> SizeUnit(unit.value).Some?) && whole < TWO64 && IsDigits(FracDigits(frac))
    ensures ParseSize(SizeText(whole, frac, unit), units) ==
            Combine(whole, Saturated(Spelled(frac)), |FracDigits(frac)|, UnitOf(unit, units))
  {
    SizeTextPlaces(whole, frac, unit);
    ReadsWhole(whole, frac, unit);
    ReadsFraction(whole, frac, unit);
  }

  /** Whenever no intermediate exceeds 64 bits, a size parses to the whole part times its unit plus the floor of the
      fraction times its unit. */
  lemma SizeIsExact(whole: nat, frac: Option<Text>, unit: Option<byte>, units: u64)
    requires (unit.Some? ==> SizeUnit(unit.value).Some?) && IsDigits(FracDigits(frac))
    requires SizeFits(whole, Spelled(frac), |FracDigits(frac)|, UnitOf(unit, units))
    ensures ParseSize(SizeText(whole, frac, unit), units) ==
            Value(SizeMeaning(whole, Spelled(frac), |FracDigits(frac)|,
                              UnitOf(unit, units)))
  {
    ParsesAsWritten(whole, frac, unit, units);
    CombineIsExact(whole, Spelled(frac), |FracDigits(frac)|, UnitOf(unit, units));
  }

  /** A whole part beyond 64 bits is refused. */
  lemma HugeSizeIsRefused(whole: nat, frac: Option<Text>, unit: Option<byte>, units: u64)
    requires (unit.Some? ==> SizeUnit(unit.value).Some?) && whole >= TWO64
    ensures ParseSize(SizeText(whole, frac, unit), units) == Bad
  {
    ReadsWhole(whole, frac, unit);
  }

  lemma FiveTimesOdd(p: nat)
    requires p % 2 == 1
    ensures (5 * p) % 2 == 1
  {
    var q := p / 2;
    assert p == q * 2 + 1;
    DivModUnique(5 * p, 2, 5 * q + 2, 1);
  }

  function Pow5(n: nat): (r: nat)
    ensures r % 2 == 1
  {
    if n == 0 then 1 else FiveTimesOdd(Pow5(n - 1)); 5 * Pow5(n - 1)
  }

  lemma {:induction false} Pow10Splits(n: nat)
    ensures Pow10(n) == Pow2(n) * Pow5(n)
    decreases n
  {
    if n > 0 {
      Pow10Splits(n - 1);
      assert (2 * Pow2(n - 1)) * (5 * Pow5(n - 1)) == 10 * (Pow2(n - 1) * Pow5(n - 1));
    }
  }

  lemma Cancel(m: nat, a: nat, b: nat)
    requires m > 0 && m * a == m * b
    ensures a == b
  {
  }

  lemma LongDivisor(digits: nat)
    requires digits >= 64
    ensures Wrap(Pow10(digits)) == 0
  {
    Pow10Splits(digits);
    PowSplit(64, digits - 64);
    Pow2Of64();
    Regroup(Pow2(digits - 64), TWO64, Pow5(digits));
    DropMultiple(0, Pow2(digits - 64) * Pow5(digits));
  }

  lemma Regroup(a: nat, b: nat, c: nat)
    ensures (a * b) * c == (a * c) * b && (a * b) * c == a * (b * c)
  {
  }

  /** No multiple of 2 * half * m is m times an odd number. */
  lemma OddIsNoMultiple(m: nat, odd: nat, half: nat, q: nat)
    requires m > 0 && odd % 2 == 1
    ensures m * odd != q * (m * (2 * half))
  {
    if m * odd == q * (m * (2 * half)) {
      Regroup(m, 2 * half, q);
      Cancel(m, odd, (2 * half) * q);
      Regroup(2, half, q);
    }
  }

  lemma ShortDivisor(digits: nat, q: nat)
    requires digits < 64
    ensures Pow10(digits) != q * TWO64
  {
    Pow10Splits(digits);
    Pow2Of64();
    PowSplit(64 - digits, digits);
    OddIsNoMultiple(Pow2(digits), Pow5(digits), Pow2(63 - digits), q);
  }

  /** The divisor of a fraction is zero exactly when the fraction is 64 characters or longer. */
  lemma DivisorIsZeroExactlyWhen(digits: nat)
    ensures Wrap(Pow10(digits)) == 0 <==> digits >= 64
  {
    if digits >= 64 {
      LongDivisor(digits);
    } else {
      ShortDivisor(digits, Pow10(digits) / TWO64);
    }
  }

  /** Over every text: the parser divides by zero exactly when it got as far as the division and 64 or more
      characters were taken up after the point, whatever they spell. */
  lemma SizeDividesByZeroExactlyWhen(arg: Text, units: u64)
    ensures var w := StrToUll(arg, 0, 0);
            ParseSize(arg, units) == DividesByZero <==>
            && w.end != 0 && !w.range
            && Multiplier(arg, Fraction(arg, w.end).end, units).Some?
            && Fraction(arg, w.end).digits >= 64
  {
    var w := StrToUll(arg, 0, 0);
    DivisorIsZeroExactlyWhen(Fraction(arg, w.end).digits);
  }

  /** For a written size that is: the whole part fits 64 bits and 64 or more digits follow the point. */
  lemma WrittenSizeDividesByZeroExactlyWhen(whole: nat, frac: Option<Text>, unit: Option<byte>, units: u64)
    requires (unit.Some? ==> SizeUnit(unit.value).Some?) && IsDigits(FracDigits(frac))
    ensures ParseSize(SizeText(whole, frac, unit), units) == DividesByZero <==>
            whole < TWO64 && |FracDigits(frac)| >= 64
  {
    if whole < TWO64 {
      ParsesAsWritten(whole, frac, unit, units);
      DivisorIsZeroExactlyWhen(|FracDigits(frac)|);
    } else {
      HugeSizeIsRefused(whole, frac, unit, units);
    }
  }

  // ------------------------------------------------------------------
  // Times

  const DAY: u64 := 86400

  function TimeUnit(c: byte): (r: Option<u64>)
    ensures r.Some? ==> Ends(c) && 1 <= r.value <= 31536000
  {
    if c == 121 then Some(31536000)
    else if c == 119 then Some(604800)
    else if c == 100 then Some(DAY)
    else if c == 104 then Some(3600)
    else if c == 109 then Some(60)
    else if c == 115 then Some(1)
    else None
  }

  datatype Time = Time(secs: u64, margin: u64)

  /** One term: its number, its unit, and where the next term starts. */
  datatype TermRead = TermRead(value: u64, unit: u64, next: nat)

  /** The term that starts at i; days when nothing follows the number. */
  function ReadTerm(s: Text, i: nat): (r: Option<TermRead>)
    ensures r.Some? ==> i < r.value.next <= |s|
  {
    if i >= |s| then None
    else
      var n := StrToUll(s, i, 0);
      if n.end == i || n.range then None
      else if n.end == |s| then Some(TermRead(n.value, DAY, n.end))
      else if TimeUnit(s[n.end]).Some? then Some(TermRead(n.value, TimeUnit(s[n.end]).value, n.end + 1))
      else None
  }

  /** The terms of one text, by position. */
  type Reader = nat -> Option<TermRead>

  ghost predicate Advances(read: Reader, len: nat) {
    forall i: nat :: read(i).Some? ==> i < read(i).value.next <= len
  }

  function ReaderOf(s: Text): (read: Reader)
    ensures Advances(read, |s|)
  {
    (i: nat) => ReadTerm(s, i)
  }

  function AddTerm(so: Time, value: u64, unit: u64): Time {
    Time(Wrap(so.secs + Times(value, unit)), Min(so.margin, unit))
  }

  /** The terms from i on, added to what has been read so far. */
  function TimeFrom(read: Reader, len: nat, i: nat, so: Time): (r: Option<Time>)
    requires i <= len && Advances(read, len)
    decreases len - i
  {
    if i == len then Some(so)
    else
      var t := read(i);
      if t.None? then None else TimeFrom(read, len, t.value.next, AddTerm(so, t.value.value, t.value.unit))
  }

  /** lfu_parse_time. */
  function ParseTime(s: Text): (r: Option<Time>) {
    if s == [] then None else TimeFrom(ReaderOf(s), |s|, 0, Time(0, DAY))
  }

  method ParseTimeLoop(s: Text) returns (r: Option<Time>)
    ensures r == ParseTime(s)
  {
    if s == [] {
      return None;
    }
    r := SumTerms(ReaderOf(s), |s|);
  }

  /** The loop over the terms. */
  method SumTerms(read: Reader, len: nat) returns (r: Option<Time>)
    requires Advances(read, len)
    ensures r == TimeFrom(read, len, 0, Time(0, DAY))
  {
    var so, p := Time(0, DAY), 0;
    while p < len
      invariant 0 <= p <= len
      invariant TimeFrom(read, len, p, so) == TimeFrom(read, len, 0, Time(0, DAY))
      decreases len - p
    {
      var t := read(p);
      if t.None? {
        return None;
      }
      so := AddTerm(so, t.value.value, t.value.unit);
      p := t.value.next;
    }
    return Some(so);
  }

  /** A term as a user writes it: a number and a unit letter. */
  datatype Term = Term(n: nat, unit: byte)

  predicate GoodTerm(t: Term) {
    t.n < TWO64 && TimeUnit(t.unit).Some?
  }

  predicate GoodTerms(ts: seq<Term>) {
    forall i :: 0 <= i < |ts| ==> GoodTerm(ts[i])
  }

  function TermText(t: Term): (r: Text)
    ensures |r| > 0
  {
    Decimal(t.n) + [t.unit]
  }

  /** Terms one after the other, and perhaps a bare number of days at the end. */
  function TimeText(ts: seq<Term>, days: Option<nat>): (r: Text) {
    if ts == [] then (if days.Some? then Decimal(days.value) else [])
    else TermText(ts[0]) + TimeText(ts[1..], days)
  }

  function TimeSum(ts: seq<Term>, days: Option<nat>): (n: nat)
    requires GoodTerms(ts)
  {
    if ts == [] then (if days.Some? then Times(days.value, DAY) else 0)
    else Times(ts[0].n, TimeUnit(ts[0].unit).value) + TimeSum(ts[1..], days)
  }

  function SmallestUnit(ts: seq<Term>): (u: u64)
    requires GoodTerms(ts)
    ensures u <= DAY
    ensures forall i :: 0 <= i < |ts| ==> u <= TimeUnit(ts[i].unit).value
    ensures u == DAY || exists i :: 0 <= i < |ts| && u == TimeUnit(ts[i].unit).value
  {
    if ts == [] then DAY else Min(TimeUnit(ts[0].unit).value, SmallestUnit(ts[1..]))
  }

  lemma WrapTwice(a: nat, b: nat)
    ensures Wrap(Wrap(a) + b) == Wrap(a + b)
  {
    var q := a / TWO64;
    assert a + b == (a % TWO64 + b) + q * TWO64;
    DropMultiple(a % TWO64 + b, q);
  }

  lemma TermStands(s: Text, i: nat, t: Term, rest: Text)
    requires StandsAt(s, i, TermText(t) + rest)
    ensures StandsAt(s, i, Decimal(t.n)) && StandsAt(s, i + |TermText(t)|, rest)
    ensures s[i + |Decimal(t.n)|] == t.unit
  {
    var whole := TermText(t) + rest;
    var d := Decimal(t.n);
    assert forall k :: 0 <= k < |d| ==> d[k] == whole[k];
    assert whole[|d|] == t.unit;
    assert forall k :: 0 <= k < |rest| ==> rest[k] == whole[|d| + 1 + k];
    forall k | 0 <= k < |rest|
      ensures s[i + |TermText(t)| + k] == rest[k]
    {
      assert s[i + (|d| + 1 + k)] == whole[|d| + 1 + k];
    }
  }

  /** A term read back from where it stands. */
  lemma TermReadBack(s: Text, i: nat, t: Term)
    requires GoodTerm(t) && StandsAt(s, i, Decimal(t.n)) && i + |TermText(t)| <= |s| && s[i + |Decimal(t.n)|] == t.unit
    ensures ReadTerm(s, i) == Some(TermRead(t.n, TimeUnit(t.unit).value, i + |TermText(t)|))
  {
    DecimalReadBack(s, i, t.n, 0);
  }

  lemma BareReadBack(s: Text, i: nat, n: nat)
    requires n < TWO64 && StandsAt(s, i, Decimal(n)) && i + |Decimal(n)| == |s|
    ensures ReadTerm(s, i) == Some(TermRead(n, DAY, |s|))
  {
    DecimalReadBack(s, i, n, 0);
  }

  function TermsLength(ts: seq<Term>): nat {
    if ts == [] then 0 else |TermText(ts[0])| + TermsLength(ts[1..])
  }

  /** The reader finds the terms one after the other from i on. */
  predicate Reads(read: Reader, i: nat, ts: seq<Term>)
    requires GoodTerms(ts)
    decreases |ts|
  {
    ts == [] ||
    (read(i) == Some(TermRead(ts[0].n, TimeUnit(ts[0].unit).value, i + |TermText(ts[0])|))
     && Reads(read, i + |TermText(ts[0])|, ts[1..]))
  }

  lemma FirstTermReads(s: Text, read: Reader, i: nat, t: Term, rest: Text)
    requires GoodTerm(t) && StandsAt(s, i, TermText(t) + rest) && read == ReaderOf(s)
    ensures read(i) == Some(TermRead(t.n, TimeUnit(t.unit).value, i + |TermText(t)|))
    ensures StandsAt(s, i + |TermText(t)|, rest)
  {
    TermStands(s, i, t, rest);
    TermReadBack(s, i, t);
  }

  /** The reader finds any good term where one stands. */
  ghost predicate Faithful(s: Text, read: Reader) {
    forall i: nat, t: Term, rest: Text {:trigger StandsAt(s, i, TermText(t) + rest)} ::
      GoodTerm(t) && StandsAt(s, i, TermText(t) + rest) ==>
      && read(i) == Some(TermRead(t.n, TimeUnit(t.unit).value, i + |TermText(t)|))
      && StandsAt(s, i + |TermText(t)|, rest)
  }

  lemma ReaderIsFaithful(s: Text)
    ensures Faithful(s, ReaderOf(s))
  {
    var read := ReaderOf(s);
    forall i: nat, t: Term, rest: Text | GoodTerm(t) && StandsAt(s, i, TermText(t) + rest)
      ensures read(i) == Some(TermRead(t.n, TimeUnit(t.unit).value, i + |TermText(t)|))
      ensures StandsAt(s, i + |TermText(t)|, rest)
    {
      FirstTermReads(s, read, i, t, rest);
    }
  }

  lemma {:induction false} TextReads(s: Text, read: Reader, i: nat, ts: seq<Term>, days: Option<nat>)
    requires GoodTerms(ts) && StandsAt(s, i, TimeText(ts, days)) && Faithful(s, read)
    ensures Reads(read, i, ts)
    decreases |ts|
  {
    if ts != [] {
      assert StandsAt(s, i, TermText(ts[0]) + TimeText(ts[1..], days));
      TextReads(s, read, i + |TermText(ts[0])|, ts[1..], days);
    }
  }

  lemma {:induction false} DaysStand(s: Text, i: nat, ts: seq<Term>, days: Option<nat>)
    requires StandsAt(s, i, TimeText(ts, days))
    ensures StandsAt(s, i + TermsLength(ts), TimeText([], days))
    ensures |TimeText(ts, days)| == TermsLength(ts) + |TimeText([], days)|
    decreases |ts|
  {
    if ts != [] {
      TermStands(s, i, ts[0], TimeText(ts[1..], days));
      DaysStand(s, i + |TermText(ts[0])|, ts[1..], days);
    }
  }

  /** What reading the terms does to what has been read so far. */
  function AfterTerms(ts: seq<Term>, so: Time): Time
    requires GoodTerms(ts)
  {
    if ts == [] then so else AfterTerms(ts[1..], AddTerm(so, ts[0].n, TimeUnit(ts[0].unit).value))
  }

  lemma {:induction false} SumsTerms(read: Reader, len: nat, i: nat, ts: seq<Term>, so: Time)
    requires GoodTerms(ts) && Advances(read, len) && Reads(read, i, ts) && i + TermsLength(ts) <= len
    ensures TimeFrom(read, len, i, so) == TimeFrom(read, len, i + TermsLength(ts), AfterTerms(ts, so))
    decreases |ts|
  {
    if ts != [] {
      SumsTerms(read, len, i + |TermText(ts[0])|, ts[1..], AddTerm(so, ts[0].n, TimeUnit(ts[0].unit).value));
    }
  }

  lemma {:induction false} AfterTermsSecs(ts: seq<Term>, so: Time)
    requires GoodTerms(ts)
    ensures AfterTerms(ts, so).secs == Wrap(so.secs + TimeSum(ts, None))
    decreases |ts|
  {
    if ts != [] {
      var unit := TimeUnit(ts[0].unit).value;
      AfterTermsSecs(ts[1..], AddTerm(so, ts[0].n, unit));
      WrapTwice(so.secs + Times(ts[0].n, unit), TimeSum(ts[1..], None));
    }
  }

  lemma {:induction false} AfterTermsMargin(ts: seq<Term>, so: Time)
    requires GoodTerms(ts) && so.margin <= DAY
    ensures AfterTerms(ts, so).margin == Min(so.margin, SmallestUnit(ts))
    decreases |ts|
  {
    if ts != [] {
      AfterTermsMargin(ts[1..], AddTerm(so, ts[0].n, TimeUnit(ts[0].unit).value));
    }
  }

  lemma {:induction false} SumWithDays(ts: seq<Term>, days: Option<nat>)
    requires GoodTerms(ts)
    ensures TimeSum(ts, days) == TimeSum(ts, None) + if days.Some? then Times(days.value, DAY) else 0
    decreases |ts|
  {
    if ts != [] {
      SumWithDays(ts[1..], days);
    }
  }

  /** What the whole text adds up to. */
  function Total(ts: seq<Term>, days: Option<nat>): Time
    requires GoodTerms(ts) && (days.Some? ==> days.value < TWO64)
  {
    var so := AfterTerms(ts, Time(0, DAY));
    if days.Some? then AddTerm(so, days.value, DAY) else so
  }

  lemma TotalIs(ts: seq<Term>, days: Option<nat>)
    requires GoodTerms(ts) && (days.Some? ==> days.value < TWO64)
    ensures Total(ts, days) == Time(Wrap(TimeSum(ts, days)), SmallestUnit(ts))
  {
    AfterTermsSecs(ts, Time(0, DAY));
    AfterTermsMargin(ts, Time(0, DAY));
    SumWithDays(ts, days);
    if days.Some? {
      WrapTwice(TimeSum(ts, None), Times(days.value, DAY));
    }
  }

  lemma LastTerm(read: Reader, len: nat, i: nat, value: u64, so: Time)
    requires Advances(read, len) && i < len && read(i) == Some(TermRead(value, DAY, len))
    ensures TimeFrom(read, len, i, so) == Some(AddTerm(so, value, DAY))
  {
  }

  lemma WholeTime(read: Reader, len: nat, ts: seq<Term>, days: Option<nat>)
    requires GoodTerms(ts) && Advances(read, len) && Reads(read, 0, ts) && (days.Some? ==> days.value < TWO64)
    requires if days.Some? then TermsLength(ts) < len && read(TermsLength(ts)) == Some(TermRead(days.value, DAY, len))
             else TermsLength(ts) == len
    ensures TimeFrom(read, len, 0, Time(0, DAY)) == Some(Total(ts, days))
  {
    SumsTerms(read, len, 0, ts, Time(0, DAY));
    if days.Some? {
      LastTerm(read, len, TermsLength(ts), days.value, AfterTerms(ts, Time(0, DAY)));
    }
  }

  lemma NotEmpty(ts: seq<Term>, days: Option<nat>)
    requires ts != [] || days.Some?
    ensures TimeText(ts, days) != []
  {
    if ts != [] {
      assert |TimeText(ts, days)| >= |TermText(ts[0])|;
    }
  }

  lemma TextSums(s: Text, ts: seq<Term>, days: Option<nat>)
    requires GoodTerms(ts) && (days.Some? ==> days.value < TWO64) && s == TimeText(ts, days)
    ensures TimeFrom(ReaderOf(s), |s|, 0, Time(0, DAY)) == Some(Total(ts, days))
  {
    ReaderIsFaithful(s);
    TextReads(s, ReaderOf(s), 0, ts, days);
    DaysStand(s, 0, ts, days);
    if days.Some? {
      BareReadBack(s, TermsLength(ts), days.value);
    }
    WholeTime(ReaderOf(s), |s|, ts, days);
  }

  /** Any written time parses to the sum of its terms modulo 2^64, so exactly when that fits, with the smallest unit
      used, but at most a day, as its margin. */
  lemma TimeIsExact(ts: seq<Term>, days: Option<nat>)
    requires GoodTerms(ts) && (days.Some? ==> days.value < TWO64) && (ts != [] || days.Some?)
    ensures ParseTime(TimeText(ts, days)) == Some(Time(Wrap(TimeSum(ts, days)), SmallestUnit(ts)))
  {
    NotEmpty(ts, days);
    TextSums(TimeText(ts, days), ts, days);
    TotalIs(ts, days);
  }
}
