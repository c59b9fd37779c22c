/** Exact decimals: an integer and a scale, compared by value, and the text form that Lighter sends.
    `Value` gives each decimal its meaning as a real number; `Compare` works on integers only. */
module Decimals {
  import opened Options

  /** The number `digits / 10^scale`; the scale may be negative. */
  datatype Decimal = Decimal(digits: int, scale: int)

  // ----- Powers of ten -----

  function Pow10(n: nat): (p: int)
    ensures p >= 1
  {
    if n == 0 then 1 else 10 * Pow10(n - 1)
  }

  ghost function TenTo(e: int): (p: real)
    ensures p > 0.0
    decreases if e < 0 then -e else e
  {
    if e == 0 then 1.0 else if e > 0 then 10.0 * TenTo(e - 1) else TenTo(e + 1) / 10.0
  }

  lemma {:induction false} TenToStep(e: int)
    ensures TenTo(e + 1) == 10.0 * TenTo(e)
  {
    if e < 0 {
      assert TenTo(e) == TenTo(e + 1) / 10.0;
    }
  }

  /** Scaling a number by `10^n` divides out of its exponent. */
  lemma {:induction false} ScaleUp(x: int, n: nat, e: int)
    ensures (x * Pow10(n)) as real * TenTo(e) == x as real * TenTo(e + n)
    decreases n
  {
    hide TenTo;
    if n > 0 {
      ScaleUp(10 * x, n - 1, e);
      TenToStep(e + n - 1);
      TenTimes(x, Pow10(n - 1), TenTo(e + n - 1));
    }
  }

  lemma TenTimes(x: int, p: int, t: real)
    ensures (10 * x) * p == x * (10 * p)
    ensures (10 * x) as real * t == x as real * (10.0 * t)
  {
    assert (10 * x) as real == 10.0 * x as real;
  }

  // ----- Meaning and comparison -----

  ghost function Value(d: Decimal): real {
    d.digits as real * TenTo(-d.scale)
  }

  predicate IsZero(d: Decimal) {
    d.digits == 0
  }

  function Max(a: int, b: int): int {
    if a < b then b else a
  }

  /** The digits of `d` written at a scale at least its own. */
  function AlignedDigits(d: Decimal, scale: int): int
    requires d.scale <= scale
  {
    d.digits * Pow10(scale - d.scale)
  }

  /** Three-way comparison: negative, zero or positive, computed at the larger of both scales. */
  function Compare(a: Decimal, b: Decimal): int {
    var scale := Max(a.scale, b.scale);
    AlignedDigits(a, scale) - AlignedDigits(b, scale)
  }

  /** Integer comparison at a common scale is comparison of values, so it is a total order up to
      equality of value: totality and transitivity come from the reals. */
  lemma CompareIsValueOrder(a: Decimal, b: Decimal)
    ensures Compare(a, b) < 0 <==> Value(a) < Value(b)
    ensures Compare(a, b) == 0 <==> Value(a) == Value(b)
    ensures Compare(a, b) > 0 <==> Value(a) > Value(b)
  {
    hide AlignedDigits, Value, TenTo;
    var scale := Max(a.scale, b.scale);
    AlignedValue(a, scale);
    AlignedValue(b, scale);
    MultiplesKeepOrder(AlignedDigits(a, scale), AlignedDigits(b, scale), TenTo(-scale), Value(a), Value(b));
  }

  lemma MultiplesKeepOrder(x: int, y: int, unit: real, u: real, v: real)
    requires unit > 0.0 && u == x as real * unit && v == y as real * unit
    ensures x - y < 0 <==> u < v
    ensures x - y == 0 <==> u == v
  {
    ScalingKeepsOrder(x as real, y as real, unit);
  }

  lemma AlignedValue(d: Decimal, scale: int)
    requires d.scale <= scale
    ensures Value(d) == AlignedDigits(d, scale) as real * TenTo(-scale)
  {
    hide TenTo, Pow10;
    ScaleUp(d.digits, scale - d.scale, -scale);
    assert scale - d.scale + -scale == -d.scale;
  }

  lemma ScalingKeepsOrder(x: real, y: real, unit: real)
    requires unit > 0.0
    ensures x < y <==> x * unit < y * unit
    ensures x == y <==> x * unit == y * unit
  {
    if x < y {
      assert (y - x) * unit > 0.0;
    } else if y < x {
      assert (x - y) * unit > 0.0;
    }
  }

  lemma ZeroIsValueZero(d: Decimal)
    ensures IsZero(d) <==> Value(d) == 0.0
  {
    ScalingKeepsOrder(d.digits as real, 0.0, TenTo(-d.scale));
  }

  // ----- Text form -----

  const MIN_SCALE: int := -0x8000_0000_0000_0000
  const MAX_SCALE: int := 0x7FFF_FFFF_FFFF_FFFF

  predicate IsDigit(c: char) {
    '0' <= c <= '9'
  }

  /** The position of the first character of `cs` in `s`, or the length of `s`. */
  function Find(s: string, cs: set<char>): (i: nat)
    ensures i <= |s|
    ensures i < |s| ==> s[i] in cs
    ensures forall j :: 0 <= j < i ==> s[j] !in cs
  {
    if s == "" || s[0] in cs then 0 else 1 + Find(s[1..], cs)
  }

  /** The number written by digits alone; the empty text and any other character fail. */
  function ParseDigits(s: string): Option<nat> {
    if s == "" || !IsDigit(s[|s| - 1]) then None
    else
      var low := (s[|s| - 1] - '0') as nat;
      if |s| == 1 then Some(low)
      else match ParseDigits(s[..|s| - 1])
        case None => None
        case Some(high) => Some(10 * high + low)
  }

  /** An optional sign, then digits. */
  function ParseInteger(s: string): Option<int> {
    if s == "" then None
    else if s[0] == '-' then
      match ParseDigits(s[1..]) case None => None case Some(n) => Some(0 - n)
    else
      match ParseDigits(if s[0] == '+' then s[1..] else s) case None => None case Some(n) => Some(n)
  }

  /** `s` without its character at `i`. */
  function Without(s: string, i: nat): string
    requires i < |s|
  {
    s[..i] + s[i + 1..]
  }

  /** A decimal without exponent: the digits around the point are read as one integer. */
  function ParsePlain(s: string): Option<Decimal> {
    var point := Find(s, {'.'});
    if point == |s| then
      match ParseInteger(s) case None => None case Some(n) => Some(Decimal(n, 0))
    else
      match ParseInteger(Without(s, point))
      case None => None
      case Some(n) => Some(Decimal(n, |s| - point - 1))
  }

  /** Sign, digits, optional fraction, optional exponent; the resulting scale must fit 64 bits. */
  function ParseDecimal(s: string): Option<Decimal> {
    var mark := Find(s, {'e', 'E'});
    var exponent := if mark == |s| then Some(0) else ParseInteger(s[mark + 1..]);
    match (ParsePlain(s[..mark]), exponent)
    case (Some(d), Some(e)) =>
      if MIN_SCALE <= d.scale - e <= MAX_SCALE then Some(Decimal(d.digits, d.scale - e)) else None
    case _ => None
  }

  lemma FindIs(s: string, cs: set<char>, i: nat)
    requires i <= |s| && (i < |s| ==> s[i] in cs) && forall j :: 0 <= j < i ==> s[j] !in cs
    ensures Find(s, cs) == i
  {
    hide Find;
    var j := Find(s, cs);
    assert j < |s| ==> s[j] in cs;
  }

  // ----- Which texts are read, and as what number -----

  ghost predicate AllDigits(s: string) {
    s != "" && forall i :: 0 <= i < |s| ==> '0' <= s[i] <= '9'
  }

  /** What stands after an optional sign. */
  function Unsigned(s: string): string {
    if s != "" && (s[0] == '-' || s[0] == '+') then s[1..] else s
  }

  lemma {:induction false} DigitsIff(s: string)
    ensures ParseDigits(s).Some? <==> AllDigits(s)
  {
    if s != "" && IsDigit(s[|s| - 1]) && |s| > 1 {
      var init := s[..|s| - 1];
      DigitsIff(init);
      assert s == init + [s[|s| - 1]];
      assert AllDigits(init) <==> AllDigits(s);
    }
  }

  lemma IntegerIff(s: string)
    ensures ParseInteger(s).Some? <==> AllDigits(Unsigned(s))
  {
    hide ParseDigits, AllDigits;
    assert !AllDigits("") by { NoDigits(); }
    DigitsIff(Unsigned(s));
  }

  /** The integer that a text writes. */
  function Written(s: string): int {
    match ParseInteger(s) case None => 0 case Some(n) => n
  }

  lemma NoDigits()
    ensures !AllDigits("")
  {
  }

  /** A text is read as a decimal exactly when its part before the first exponent mark is an optional
      sign and digits, apart from one point anywhere, the part after the mark (if there is one) an
      optional sign and digits, and the resulting scale fits 64 bits. */
  lemma DecimalIff(plain: string, tail: string)
    requires NoMark(plain) && (tail == "" || tail[0] in MARKS)
    ensures var point := Find(plain, {'.'});
            ParseDecimal(plain + tail).Some? <==>
              && AllDigits(Unsigned(if point == |plain| then plain else plain[..point] + plain[point + 1..]))
              && (tail != "" ==> AllDigits(Unsigned(tail[1..])))
              && var fraction := if point == |plain| then 0 else |plain| - point - 1;
                 var exponent := if tail == "" then 0 else Written(tail[1..]);
                 -0x8000_0000_0000_0000 <= fraction - exponent <= 0x7FFF_FFFF_FFFF_FFFF
  {
    hide ParseDecimal, ParseInteger, AllDigits, Unsigned, Find;
    ParsesAround(plain, tail);
    var point := Find(plain, {'.'});
    IntegerIff(plain);
    if point < |plain| {
      IntegerIff(Without(plain, point));
    }
    if tail != "" {
      IntegerIff(tail[1..]);
    }
  }

  function Digits(n: nat): string {
    (if n < 10 then "" else Digits(n / 10)) + [('0' as int + n % 10) as char]
  }

  lemma {:induction false} DigitsParse(n: nat)
    ensures ParseDigits(Digits(n)) == Some(n) && AllDigits(Digits(n))
  {
    if n >= 10 {
      DigitsParse(n / 10);
      assert Digits(n)[..|Digits(n)| - 1] == Digits(n / 10);
    }
  }

  /** The last `k` digits of `r`, with leading zeros. */
  function LastDigits(r: nat, k: nat): (s: string)
    ensures |s| == k
  {
    if k == 0 then "" else LastDigits(r / 10, k - 1) + [('0' as int + r % 10) as char]
  }

  /** Digits after digits: no zero in between is lost. */
  lemma {:induction false} MoreDigitsParse(lead: string, q: nat, r: nat, k: nat)
    requires ParseDigits(lead) == Some(q) && r < Pow10(k)
    ensures ParseDigits(lead + LastDigits(r, k)) == Some(q * Pow10(k) + r)
    decreases k
  {
    if k == 0 {
      assert lead + "" == lead;
    } else {
      MoreDigitsParse(lead, q, r / 10, k - 1);
      var s := lead + LastDigits(r, k);
      assert s[..|s| - 1] == lead + LastDigits(r / 10, k - 1);
      assert s[|s| - 1] as int == '0' as int + r % 10;
      Shifted(q, Pow10(k - 1), r);
    }
  }

  lemma Shifted(q: nat, p: nat, r: nat)
    ensures 10 * (q * p + r / 10) + r % 10 == q * (10 * p) + r
  {
  }

  lemma {:induction false} ZerosParse(z: nat)
    requires z > 0
    ensures ParseDigits(Zeros(z)) == Some(0)
  {
    var s := Zeros(z);
    assert s[..|s| - 1] == Zeros(z - 1) && s[|s| - 1] == '0';
    if z > 1 {
      ZerosParse(z - 1);
      assert |s| > 1 by { assert ParseDigits(Zeros(z - 1)).Some?; }
    }
  }

  lemma {:induction false} NothingInFront(lead: string, s: string)
    requires ParseDigits(lead) == Some(0) && ParseDigits(s).Some?
    ensures ParseDigits(lead + s) == ParseDigits(s)
  {
    hide ParseDigits;
    LastDigitParses(s);
    var init, t := s[..|s| - 1], lead + s;
    LastDigitParses(t);
    assert t[..|t| - 1] == lead + init;
    if init == "" {
      assert lead + init == lead;
    } else {
      NothingInFront(lead, init);
    }
  }

  lemma LastDigitParses(s: string)
    ensures ParseDigits("") == None
    ensures s != "" ==>
              var high, low := ParseDigits(s[..|s| - 1]), s[|s| - 1] as int - '0' as int;
              ParseDigits(s) == if !IsDigit(s[|s| - 1]) then None
                                else if |s| == 1 then Some(low)
                                else match high case None => None case Some(n) => Some(10 * n + low)
  {
  }

  lemma LeadingZerosParse(z: nat, s: string)
    requires ParseDigits(s).Some?
    ensures ParseDigits(Zeros(z) + s) == ParseDigits(s)
  {
    hide ParseDigits, Zeros;
    if z == 0 {
      assert Zeros(0) == "" by { NoZeros(); }
      assert "" + s == s;
    } else {
      ZerosParse(z);
      NothingInFront(Zeros(z), s);
    }
  }

  lemma NoZeros()
    ensures Zeros(0) == ""
  {
  }

  ghost predicate Sign(sign: string) {
    sign == "" || sign == "-" || sign == "+"
  }

  function Signed(sign: string, n: int): int {
    if sign == "-" then -n else n
  }

  lemma SignedParses(sign: string, digits: string)
    requires Sign(sign) && ParseDigits(digits).Some?
    ensures ParseInteger(sign + digits) == Some(Signed(sign, ParseDigits(digits).value))
    ensures NoMark(sign + digits) && Find(sign + digits, {'.'}) == |sign + digits|
  {
    hide ParseDigits, Find;
    DigitsIff(digits);
    var s := sign + digits;
    assert s[0] == if sign == "" then digits[0] else sign[0];
    assert s[|sign|..] == digits;
    forall i | 0 <= i < |s| ensures s[i] != 'e' && s[i] != 'E' && s[i] != '.' {
      assert i >= |sign| ==> s[i] == digits[i - |sign|];
    }
    FindIs(s, {'.'}, |s|);
  }

  /** A whole number as text: a sign, any number of leading zeros, and the digits of `q`. */
  function WholeText(sign: string, z: nat, q: nat): string {
    sign + (Zeros(z) + Digits(q))
  }

  /** A number with `k` digits after the point: `r` is written with leading zeros. */
  function PointText(sign: string, z: nat, q: nat, r: nat, k: nat): string {
    WholeText(sign, z, q) + "." + LastDigits(r, k)
  }

  lemma WholeTextParses(sign: string, z: nat, q: nat)
    requires Sign(sign)
    ensures ParseDecimal(WholeText(sign, z, q)) == Some(Decimal(Signed(sign, q), 0))
    ensures Value(Decimal(Signed(sign, q), 0)) == Signed(sign, q) as real
  {
    hide ParseInteger, ParseDigits, Digits, Zeros, ParseDecimal, Find;
    var digits := Zeros(z) + Digits(q);
    var s := sign + digits;
    DigitsParse(q);
    LeadingZerosParse(z, Digits(q));
    SignedParses(sign, digits);
    ParsesAround(s, "");
    assert s + "" == s;
  }

  /** The text `q.r` with exactly `k` digits after the point, zeros in front of them included, is
      read as the number that it writes. */
  lemma PointTextParses(sign: string, z: nat, q: nat, r: nat, k: nat)
    requires Sign(sign) && r < Pow10(k) && k <= MAX_SCALE
    ensures ParseDecimal(PointText(sign, z, q, r, k)) == Some(Decimal(Signed(sign, q * Pow10(k) + r), k))
    ensures var n := q as real + r as real * TenTo(0 - k);
            Value(Decimal(Signed(sign, q * Pow10(k) + r), k)) == if sign == "-" then -n else n
  {
    hide ParseInteger, ParseDigits, Digits, Zeros, ParseDecimal, Find, LastDigits, TenTo, Pow10;
    var whole, last := Zeros(z) + Digits(q), LastDigits(r, k);
    var s, point := PointText(sign, z, q, r, k), |sign| + |whole|;
    DigitsParse(q);
    LeadingZerosParse(z, Digits(q));
    MoreDigitsParse(whole, q, r, k);
    SignedParses(sign, whole);
    SignedParses(sign, whole + last);
    assert s == (sign + whole) + "." + last;
    assert Without(s, point) == sign + (whole + last);
    assert sign + (whole + last) == (sign + whole) + last;
    forall i | 0 <= i < |s| ensures s[i] !in MARKS {
      assert i < point ==> s[i] == (sign + (whole + last))[i];
      assert i > point ==> s[i] == (sign + (whole + last))[i - 1];
    }
    forall i | 0 <= i < point ensures s[i] !in {'.'} {
      assert s[i] == (sign + whole)[i];
    }
    FindIs(s, {'.'}, point);
    PlainAt(s, point);
    ParsesAround(s, "");
    assert s + "" == s;
    ScaleUp(q, k, 0 - k);
    assert TenTo(0 - k + k) == 1.0 by { TenToZero(); }
    SumValue(q, Pow10(k), r, TenTo(0 - k));
  }

  lemma SumValue(q: nat, p: nat, r: nat, unit: real)
    requires (q * p) as real * unit == q as real
    ensures (q * p + r) as real * unit == q as real + r as real * unit
    ensures (-(q * p + r)) as real * unit == -(q as real + r as real * unit)
  {
    assert (q * p + r) as real == (q * p) as real + r as real;
    assert (-(q * p + r)) as real == -((q * p + r) as real);
  }

  // ----- Spellings of one number -----

  const MARKS: set<char> := {'e', 'E'}

  function Zeros(n: nat): string {
    if n == 0 then "" else Zeros(n - 1) + "0"
  }

  /** `plain` with `n` zeros appended to its fraction, or with a fraction of `n` zeros. */
  function Padded(plain: string, n: nat): string {
    (if Find(plain, {'.'}) < |plain| then plain else plain + ".") + Zeros(n)
  }

  ghost predicate NoMark(s: string) {
    forall i :: 0 <= i < |s| ==> s[i] !in MARKS
  }

  /** Zeros at the end of the fraction, as in 2 and 2.000 or 1.5e3 and 1.50e3, change the text and
      the scale, never the value. `tail` is the exponent, if there is one. */
  lemma TrailingZerosKeepValue(plain: string, tail: string, n: nat)
    requires NoMark(plain) && (tail == "" || tail[0] in MARKS)
    requires ParseDecimal(plain + tail).Some? && ParseDecimal(plain + tail).value.scale + n <= MAX_SCALE
    ensures ParseDecimal(Padded(plain, n) + tail).Some?
    ensures Value(ParseDecimal(Padded(plain, n) + tail).value) == Value(ParseDecimal(plain + tail).value)
  {
    hide Padded, ParseDecimal, ParsePlain, ParseInteger, TenTo, Pow10;
    PaddedHasNoMark(plain, n);
    ParsesAround(plain, tail);
    ParsesAround(Padded(plain, n), tail);
    PaddedParses(plain, n);
    var d := ParseDecimal(plain + tail).value;
    ScaleUp(d.digits, n, -d.scale - n);
    assert -d.scale - n + n == -d.scale;
  }

  lemma ParsesAround(plain: string, tail: string)
    requires NoMark(plain) && (tail == "" || tail[0] in MARKS)
    ensures ParseDecimal(plain + tail) ==
      match (ParsePlain(plain), if tail == "" then Some(0) else ParseInteger(tail[1..]))
      case (Some(d), Some(e)) =>
        if MIN_SCALE <= d.scale - e <= MAX_SCALE then Some(Decimal(d.digits, d.scale - e)) else None
      case _ => None
  {
    hide ParsePlain, ParseInteger, Find;
    var s := plain + tail;
    FindIs(s, MARKS, |plain|);
    assert s[..|plain|] == plain;
    assert tail != "" ==> s[|plain| + 1..] == tail[1..];
  }

  /** An exponent multiplies by a power of ten, so zero is zero with any exponent. */
  lemma ExponentScales(plain: string, mark: char, exponent: string)
    requires NoMark(plain) && mark in MARKS && ParsePlain(plain).Some? && ParseInteger(exponent).Some?
    requires MIN_SCALE <= ParsePlain(plain).value.scale - ParseInteger(exponent).value <= MAX_SCALE
    ensures var r := ParseDecimal(plain + ([mark] + exponent));
            && r.Some?
            && Value(r.value) == Value(ParsePlain(plain).value) * TenTo(ParseInteger(exponent).value)
            && (IsZero(r.value) <==> IsZero(ParsePlain(plain).value))
  {
    hide ParseDecimal, ParsePlain, ParseInteger, TenTo;
    var tail := [mark] + exponent;
    ParsesAround(plain, tail);
    assert tail[1..] == exponent;
    var d, e := ParsePlain(plain).value, ParseInteger(exponent).value;
    TenToSum(-d.scale, e);
    assert -(d.scale - e) == -d.scale + e;
    Regroup(d.digits as real, TenTo(-d.scale), TenTo(e));
  }

  lemma Regroup(x: real, y: real, z: real)
    ensures x * (y * z) == (x * y) * z
  {
  }

  lemma {:induction false} TenToSum(a: int, b: int)
    ensures TenTo(a + b) == TenTo(a) * TenTo(b)
    decreases if b < 0 then -b else b
  {
    hide TenTo;
    if b == 0 {
      assert TenTo(0) == 1.0 by { TenToZero(); }
    } else if b > 0 {
      TenToSum(a, b - 1);
      TenToStep(a + b - 1);
      TenToStep(b - 1);
      Regroup(10.0, TenTo(a), TenTo(b - 1));
      Regroup(TenTo(a), 10.0, TenTo(b - 1));
    } else {
      TenToSum(a, b + 1);
      TenToStep(a + b);
      TenToStep(b);
      Regroup(TenTo(a), 10.0, TenTo(b));
      Regroup(10.0, TenTo(a), TenTo(b));
    }
  }

  lemma TenToZero()
    ensures TenTo(0) == 1.0
  {
  }

  lemma {:induction false} ZerosAreZeros(n: nat)
    ensures forall i :: 0 <= i < |Zeros(n)| ==> Zeros(n)[i] == '0'
  {
    if n > 0 {
      ZerosAreZeros(n - 1);
    }
  }

  lemma PaddedHasNoMark(plain: string, n: nat)
    requires NoMark(plain)
    ensures NoMark(Padded(plain, n))
  {
    hide Zeros, Find;
    ZerosAreZeros(n);
  }

  lemma {:induction false} PaddedParses(plain: string, n: nat)
    requires ParsePlain(plain).Some?
    ensures var d := ParsePlain(plain).value;
            ParsePlain(Padded(plain, n)) == Some(Decimal(d.digits * Pow10(n), d.scale + n))
  {
    hide ParsePlain, Find;
    if n == 0 {
      var dotted := Padded(plain, 0);
      assert dotted == if Find(plain, {'.'}) < |plain| then plain else plain + ".";
      if Find(plain, {'.'}) == |plain| {
        AppendedPoint(plain);
      }
    } else {
      PaddedParses(plain, n - 1);
      var s := Padded(plain, n - 1);
      assert Padded(plain, n) == s + "0";
      PaddedHasPoint(plain, n - 1);
      AppendedZeroParses(s, Find(s, {'.'}));
    }
  }

  lemma AppendedPoint(s: string)
    requires Find(s, {'.'}) == |s|
    ensures ParsePlain(s + ".") == ParsePlain(s)
  {
    hide ParseInteger, Find;
    FindIs(s + ".", {'.'}, |s|);
    assert Without(s + ".", |s|) == s;
  }

  lemma PaddedHasPoint(plain: string, n: nat)
    ensures Find(Padded(plain, n), {'.'}) < |Padded(plain, n)|
  {
    hide Find, Zeros;
    var dotted := if Find(plain, {'.'}) < |plain| then plain else plain + ".";
    var s := Padded(plain, n);
    var i := if Find(plain, {'.'}) < |plain| then Find(plain, {'.'}) else |plain|;
    assert dotted[i] == '.' && s[i] == '.';
  }

  lemma AppendedZeroParses(s: string, point: nat)
    requires ParsePlain(s).Some? && point == Find(s, {'.'}) < |s|
    ensures var d := ParsePlain(s).value;
            ParsePlain(s + "0") == Some(Decimal(10 * d.digits, d.scale + 1))
  {
    hide ParseInteger, Find, Without, ParsePlain;
    var t := s + "0";
    FirstStaysFirst(s, "0", {'.'});
    PlainAt(s, point);
    PlainAt(t, point);
    ZeroOutside(s, point);
    AppendedZeroMultiplies(Without(s, point));
  }

  lemma PlainAt(s: string, point: nat)
    requires point == Find(s, {'.'}) < |s|
    ensures ParsePlain(s) == match ParseInteger(Without(s, point))
                             case None => None
                             case Some(n) => Some(Decimal(n, |s| - point - 1))
  {
    hide Find, ParseInteger, Without;
  }

  lemma ZeroOutside(s: string, point: nat)
    requires point < |s|
    ensures Without(s + "0", point) == Without(s, point) + "0"
  {
    var t := s + "0";
    assert t[..point] == s[..point] && t[point + 1..] == s[point + 1..] + "0";
  }

  lemma {:induction false} FirstStaysFirst(s: string, tail: string, cs: set<char>)
    requires Find(s, cs) < |s|
    ensures Find(s + tail, cs) == Find(s, cs)
  {
    if s[0] !in cs {
      assert (s + tail)[1..] == s[1..] + tail;
      FirstStaysFirst(s[1..], tail, cs);
    }
  }

  lemma AppendedZeroMultiplies(s: string)
    requires ParseInteger(s).Some?
    ensures ParseInteger(s + "0") == Some(10 * ParseInteger(s).value)
  {
    var t := s + "0";
    var digits := if s[0] in {'-', '+'} then s[1..] else s;
    var more := if s[0] in {'-', '+'} then t[1..] else t;
    assert more == digits + "0";
    assert digits != "" ==> more[..|more| - 1] == digits;
    assert ParseDigits(digits).Some?;
    assert digits != "";
  }
}
