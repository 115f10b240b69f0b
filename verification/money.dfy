/** Exact decimal money: strings at the edges, integers of 10^-18 units inside (src/common/money.util.ts). */
module Money {
  import opened Wrappers

  const SCALE := 18
  const ONE := 1_000_000_000_000_000_000

  datatype Decimal = Decimal(negative: bool, whole: string, fraction: string)

  predicate IsDigit(c: char) { '0' <= c <= '9' }

  predicate AllDigits(s: string) {
    forall i :: 0 <= i < |s| ==> IsDigit(s[i])
  }

  function DigitValue(c: char): nat
    requires IsDigit(c)
  {
    c as int - '0' as int
  }

  function DigitChar(d: nat): (c: char)
    requires d < 10
    ensures IsDigit(c) && DigitValue(c) == d
  {
    ('0' as int + d) as char
  }

  function Pow10(n: nat): (p: nat)
    ensures p >= 1
  {
    if n == 0 then 1 else 10 * Pow10(n - 1)
  }

  /** The number a string of digits denotes. */
  function NatOf(s: string): nat
    requires AllDigits(s)
  {
    if |s| == 0 then 0 else NatOf(s[..|s| - 1]) * 10 + DigitValue(s[|s| - 1])
  }

  function Digits(n: nat): (s: string)
    ensures |s| >= 1 && AllDigits(s)
    ensures s[0] == '0' ==> n == 0 && |s| == 1
  {
    if n < 10 then [DigitChar(n)] else Digits(n / 10) + [DigitChar(n % 10)]
  }

  function Zeros(n: nat): (s: string)
    ensures |s| == n && AllDigits(s)
    ensures forall i :: 0 <= i < n ==> s[i] == '0'
  {
    seq(n, _ => '0')
  }

  function PadStart(s: string, width: nat): string {
    if |s| >= width then s else Zeros(width - |s|) + s
  }

  /** The regular expression /0+$/ replaced by nothing. */
  function TrimZeros(s: string): (r: string)
    ensures r <= s
    ensures |r| > 0 ==> r[|r| - 1] != '0'
    ensures s == r + Zeros(|s| - |r|)
  {
    if |s| > 0 && s[|s| - 1] == '0' then
      var shorter := s[..|s| - 1];
      assert s == shorter + ['0'];
      TrimZeros(shorter)
    else s
  }

  predicate IsSpace(c: char) {
    || 9 <= c as int <= 13 || c as int in {0x20, 0xA0, 0x1680, 0x2028, 0x2029, 0x202F, 0x205F, 0x3000, 0xFEFF}
    || 0x2000 <= c as int <= 0x200A
  }

  function Trim(s: string): string {
    if |s| > 0 && IsSpace(s[0]) then Trim(s[1..])
    else if |s| > 0 && IsSpace(s[|s| - 1]) then Trim(s[..|s| - 1])
    else s
  }

  function IndexOfDot(s: string): (k: nat)
    ensures k <= |s|
    ensures k < |s| ==> s[k] == '.'
    ensures forall i :: 0 <= i < k ==> s[i] != '.'
  {
    if |s| == 0 || s[0] == '.' then 0 else 1 + IndexOfDot(s[1..])
  }

  /** /^-?\d+(\.\d+)?$/ on the trimmed text, with its pieces. */
  function Parse(text: string): (d: Option<Decimal>)
    ensures d.Some? ==> AllDigits(d.value.whole) && AllDigits(d.value.fraction) && |d.value.whole| > 0
  {
    var s := Trim(text);
    var negative := |s| > 0 && s[0] == '-';
    var body := if negative then s[1..] else s;
    var dot := IndexOfDot(body);
    var whole, fraction := body[..dot], if dot < |body| then body[dot + 1..] else "";
    if |whole| > 0 && AllDigits(whole) && AllDigits(fraction) && (dot < |body| ==> |fraction| > 0)
    then Some(Decimal(negative, whole, fraction)) else None
  }

  function Magnitude(d: Decimal): (m: int)
    requires AllDigits(d.whole) && AllDigits(d.fraction)
    ensures m >= 0
  {
    NatOf(d.whole + (d.fraction + Zeros(SCALE))[..SCALE])
  }

  /** None is the exception thrown on a malformed amount. */
  function ToBase(text: string): Option<int> {
    match Parse(text)
    case None => None
    case Some(d) => Some(if d.negative then -Magnitude(d) else Magnitude(d))
  }

  function Render(d: Decimal): string {
    (if d.negative then "-" else "") + d.whole + (if |d.fraction| > 0 then "." + d.fraction else "")
  }

  function Abs(v: int): nat { if v < 0 then -v else v }

  function Split(v: int): Decimal {
    var a := PadStart(Digits(Abs(v)), SCALE + 1);
    Decimal(v < 0, a[..|a| - SCALE], TrimZeros(a[|a| - SCALE..]))
  }

  function FromBase(v: int): string {
    Render(Split(v))
  }

  function AddStr(a: string, b: string): Option<string> {
    match (ToBase(a), ToBase(b))
    case (Some(x), Some(y)) => Some(FromBase(x + y))
    case _ => None
  }

  function SubStr(a: string, b: string): Option<string> {
    match (ToBase(a), ToBase(b))
    case (Some(x), Some(y)) => Some(FromBase(x - y))
    case _ => None
  }

  function CmpStr(a: string, b: string): Option<int> {
    match (ToBase(a), ToBase(b))
    case (Some(x), Some(y)) => Some(if x - y < 0 then -1 else if x - y > 0 then 1 else 0)
    case _ => None
  }

  // ---- Digits and numbers ----

  lemma {:induction false} NatOfDigits(n: nat)
    ensures NatOf(Digits(n)) == n
  {
    var s := Digits(n);
    if n < 10 {
      assert s[..|s| - 1] == "" && NatOf("") == 0;
    } else {
      assert s[..|s| - 1] == Digits(n / 10);
      NatOfDigits(n / 10);
    }
  }

  lemma {:induction false} NatOfAppend(a: string, b: string)
    requires AllDigits(a) && AllDigits(b)
    ensures AllDigits(a + b)
    ensures NatOf(a + b) == NatOf(a) * Pow10(|b|) + NatOf(b)
  {
    if |b| == 0 {
      assert a + b == a;
    } else {
      var shorter := b[..|b| - 1];
      assert (a + b)[..|a + b| - 1] == a + shorter;
      NatOfAppend(a, shorter);
      TimesTen(NatOf(a), Pow10(|shorter|));
    }
  }

  lemma TimesTen(x: nat, p: nat)
    ensures x * (10 * p) == x * p * 10
  {
  }

  lemma {:induction false} NatOfZeros(n: nat)
    ensures NatOf(Zeros(n)) == 0
  {
    if n > 0 {
      assert Zeros(n)[..n - 1] == Zeros(n - 1);
      NatOfZeros(n - 1);
    }
  }

  lemma {:induction false} NatOfBound(s: string)
    requires AllDigits(s)
    ensures NatOf(s) < Pow10(|s|)
  {
    if |s| > 0 {
      NatOfBound(s[..|s| - 1]);
    }
  }

  lemma {:induction false} NatOfPadStart(s: string, width: nat)
    requires AllDigits(s)
    ensures AllDigits(PadStart(s, width)) && NatOf(PadStart(s, width)) == NatOf(s)
  {
    if |s| < width {
      NatOfAppend(Zeros(width - |s|), s);
      NatOfZeros(width - |s|);
    }
  }

  /** Digits is the only way to write a number without a leading zero. */
  lemma {:induction false} DigitsOfNat(s: string)
    requires AllDigits(s) && |s| > 0 && (s[0] == '0' ==> |s| == 1)
    ensures Digits(NatOf(s)) == s
  {
    var shorter, last := s[..|s| - 1], s[|s| - 1];
    assert s == shorter + [last];
    if |s| == 1 {
      assert NatOf(shorter) == 0;
    } else {
      DigitsOfNat(shorter);
      NatOfNonZero(shorter);
      assert NatOf(s) / 10 == NatOf(shorter) && NatOf(s) % 10 == DigitValue(last);
    }
  }

  lemma {:induction false} NatOfNonZero(s: string)
    requires AllDigits(s) && |s| > 0 && s[0] != '0'
    ensures NatOf(s) > 0
  {
    if |s| == 1 {
      assert s[..0] == "" && NatOf("") == 0;
    } else {
      NatOfNonZero(s[..|s| - 1]);
    }
  }

  // ---- Parsing what was printed ----

  ghost predicate WellFormed(d: Decimal) {
    AllDigits(d.whole) && AllDigits(d.fraction) && |d.whole| > 0
  }

  lemma {:induction false} DotAfter(whole: string, rest: string)
    requires AllDigits(whole) && (|rest| > 0 ==> rest[0] == '.')
    ensures IndexOfDot(whole + rest) == |whole|
  {
    if |whole| > 0 {
      assert (whole + rest)[1..] == whole[1..] + rest;
      DotAfter(whole[1..], rest);
    }
  }

  lemma TrimRender(d: Decimal)
    requires WellFormed(d)
    ensures Trim(Render(d)) == Render(d)
  {
    var s := Render(d);
    assert s[0] == (if d.negative then '-' else d.whole[0]);
    assert s[|s| - 1] == (if |d.fraction| > 0 then d.fraction[|d.fraction| - 1] else d.whole[|d.whole| - 1]);
  }

  lemma BodyOfRender(d: Decimal)
    requires WellFormed(d)
    ensures var s := Render(d);
            && (|s| > 0 && s[0] == '-' <==> d.negative)
            && var body := if d.negative then s[1..] else s;
               && |d.whole| <= |body| && IndexOfDot(body) == |d.whole| && body[..|d.whole|] == d.whole
               && (|body| > |d.whole| <==> |d.fraction| > 0)
               && (|d.fraction| > 0 ==> body[|d.whole| + 1..] == d.fraction)
  {
    var rest := if |d.fraction| > 0 then "." + d.fraction else "";
    var body := d.whole + rest;
    if d.negative {
      assert Render(d) == "-" + body;
      assert Render(d)[1..] == body;
    } else {
      assert Render(d) == body && body[0] == d.whole[0];
    }
    DotAfter(d.whole, rest);
  }

  lemma ParseRender(d: Decimal)
    requires WellFormed(d)
    ensures Parse(Render(d)) == Some(d)
  {
    TrimRender(d);
    BodyOfRender(d);
  }

  lemma PadCut(t: string, width: nat)
    requires |t| <= width
    ensures (t + Zeros(width))[..width] == t + Zeros(width - |t|)
  {
  }

  lemma SplitIsExact(v: int)
    ensures WellFormed(Split(v)) && Magnitude(Split(v)) == Abs(v)
  {
    var a := PadStart(Digits(Abs(v)), SCALE + 1);
    NatOfPadStart(Digits(Abs(v)), SCALE + 1);
    NatOfDigits(Abs(v));
    SplitPadded(a);
  }

  lemma SplitPadded(a: string)
    requires AllDigits(a) && |a| > SCALE
    ensures var whole, trimmed := a[..|a| - SCALE], TrimZeros(a[|a| - SCALE..]);
            AllDigits(whole) && AllDigits(trimmed) && whole + (trimmed + Zeros(SCALE))[..SCALE] == a
  {
    var fraction := a[|a| - SCALE..];
    PadCut(TrimZeros(fraction), SCALE);
    assert a == a[..|a| - SCALE] + fraction;
  }

  /** Printing then reading gives back every integer. */
  lemma ToBaseFromBase(v: int)
    ensures ToBase(FromBase(v)) == Some(v)
  {
    SplitIsExact(v);
    ParseRender(Split(v));
  }

  /** The one text that stands for an amount: no spaces, no needless zeros, no minus zero, at most 18 decimals. */
  ghost predicate Canonical(text: string) {
    exists d: Decimal :: WellFormed(d) && text == Render(d) && CanonicalParts(d)
  }

  ghost predicate CanonicalParts(d: Decimal) {
    && (d.whole != "" && d.whole[0] == '0' ==> |d.whole| == 1)
    && |d.fraction| <= SCALE
    && (|d.fraction| > 0 ==> d.fraction[|d.fraction| - 1] != '0')
    && (d.negative ==> d.whole != "0" || d.fraction != "")
  }

  lemma MagnitudeOfZero(d: Decimal)
    requires d.whole == "0" && d.fraction == ""
    ensures Magnitude(d) == 0
  {
    PadCut("", SCALE);
    assert "" + Zeros(SCALE) == Zeros(SCALE) && "0" + Zeros(SCALE) == Zeros(SCALE + 1);
    NatOfZeros(SCALE + 1);
  }

  lemma FromBaseIsCanonical(v: int)
    ensures Canonical(FromBase(v))
  {
    SplitIsExact(v);
    var d := Split(v);
    if d.whole == "0" && d.fraction == "" {
      MagnitudeOfZero(d);
    }
    assert WellFormed(d) && FromBase(v) == Render(d) && CanonicalParts(d);
  }

  /** A canonical text survives being read and printed: printing is the inverse of reading on canonical texts. */
  lemma CanonicalRoundTrip(text: string)
    requires Canonical(text)
    ensures ToBase(text).Some? && FromBase(ToBase(text).value) == text
  {
    var d: Decimal :| WellFormed(d) && text == Render(d) && CanonicalParts(d);
    ParseRender(d);
    CanonicalSplit(d);
  }

  /** The digits of an amount, with its decimals filled up. */
  function AllDigitsOf(d: Decimal): (digits: string)
    requires |d.fraction| <= SCALE
    ensures |digits| == |d.whole| + SCALE
  {
    d.whole + (d.fraction + Zeros(SCALE - |d.fraction|))
  }

  lemma MagnitudeOfDigits(d: Decimal)
    requires WellFormed(d) && |d.fraction| <= SCALE
    ensures AllDigits(AllDigitsOf(d)) && Magnitude(d) == NatOf(AllDigitsOf(d))
  {
    PadCut(d.fraction, SCALE);
  }

  lemma CanonicalSplit(d: Decimal)
    requires WellFormed(d) && CanonicalParts(d)
    ensures Split(if d.negative then -Magnitude(d) else Magnitude(d)) == d
  {
    var digits := AllDigitsOf(d);
    var v := if d.negative then -Magnitude(d) else Magnitude(d);
    MagnitudeOfDigits(d);
    RestoreDigits(digits);
    if d.negative {
      NoMinusZero(d);
    }
    CutDigits(d);
    assert PadStart(Digits(Abs(v)), SCALE + 1) == digits;
  }

  lemma CutDigits(d: Decimal)
    requires |d.fraction| <= SCALE && (|d.fraction| > 0 ==> d.fraction[|d.fraction| - 1] != '0')
    ensures var digits := AllDigitsOf(d);
            digits[..|digits| - SCALE] == d.whole && TrimZeros(digits[|digits| - SCALE..]) == d.fraction
  {
    var digits, pad := AllDigitsOf(d), SCALE - |d.fraction|;
    assert digits[|digits| - SCALE..] == d.fraction + Zeros(pad);
    TrimUnique(d.fraction, pad);
  }

  lemma NoMinusZero(d: Decimal)
    requires WellFormed(d) && CanonicalParts(d) && d.negative
    ensures Magnitude(d) > 0
  {
    var digits := AllDigitsOf(d);
    MagnitudeOfDigits(d);
    assert forall i :: 0 <= i < |d.fraction| ==> d.fraction[i] == digits[|d.whole| + i];
    assert d.whole[0] == digits[0];
    if NatOf(digits) == 0 {
      ZeroDigits(digits);
    }
  }

  /** At least 19 digits, with a leading zero only when there are exactly 19, come back from their number. */
  lemma {:induction false} RestoreDigits(digits: string)
    requires AllDigits(digits) && |digits| > SCALE && (digits[0] == '0' ==> |digits| == SCALE + 1)
    ensures PadStart(Digits(NatOf(digits)), SCALE + 1) == digits
  {
    if digits[0] == '0' {
      assert digits == "0" + digits[1..];
      SmallPadded(digits[1..]);
    } else {
      DigitsOfNat(digits);
    }
  }

  lemma {:induction false} TrimUnique(s: string, n: nat)
    requires |s| > 0 ==> s[|s| - 1] != '0'
    ensures TrimZeros(s + Zeros(n)) == s
  {
    if n == 0 {
      assert s + Zeros(0) == s;
    } else {
      assert (s + Zeros(n))[..|s| + n - 1] == s + Zeros(n - 1);
      TrimUnique(s, n - 1);
    }
  }

  lemma {:induction false} ZeroDigits(s: string)
    requires AllDigits(s) && NatOf(s) == 0
    ensures forall i :: 0 <= i < |s| ==> s[i] == '0'
  {
    if |s| > 0 {
      ZeroDigits(s[..|s| - 1]);
    }
  }

  lemma PadMore(d: string, s: string)
    requires PadStart(d, |s|) == s
    ensures PadStart(d, |s| + 1) == "0" + s
  {
    if |d| < |s| {
      assert "0" + (Zeros(|s| - |d|) + d) == Zeros(|s| + 1 - |d|) + d;
    } else {
      assert Zeros(1) + d == "0" + d;
    }
  }

  lemma {:induction false} LeadingZero(s: string)
    requires AllDigits(s)
    ensures AllDigits("0" + s) && NatOf("0" + s) == NatOf(s)
  {
    NatOfAppend("0", s);
    assert "0"[..0] == "" && NatOf("") == 0 && NatOf("0") == 0;
  }

  /** Padding a number's digits back to the width of a digit string restores its leading zeros. */
  lemma {:induction false} SmallPadded(s: string)
    requires AllDigits(s)
    ensures AllDigits("0" + s) && PadStart(Digits(NatOf("0" + s)), |s| + 1) == "0" + s
  {
    LeadingZero(s);
    if |s| == 0 {
      assert NatOf(s) == 0;
    } else {
      if s[0] == '0' {
        assert s == "0" + s[1..];
        SmallPadded(s[1..]);
      } else {
        DigitsOfNat(s);
      }
      PadMore(Digits(NatOf(s)), s);
    }
  }

  /** The amount m is the decimal's exact value times 10^18, without what lies below one unit. */
  ghost predicate TruncatesTo(d: Decimal, m: int)
    requires WellFormed(d)
  {
    DigitsJoin(d);
    var exact, unit := NatOf(d.whole + d.fraction) * Pow10(SCALE), Pow10(|d.fraction|);
    m * unit <= exact < (m + 1) * unit
  }

  lemma DigitsJoin(d: Decimal)
    requires WellFormed(d)
    ensures AllDigits(d.whole + d.fraction)
  {
  }

  /** Reading keeps the first 18 decimals of the exact value and drops the rest, towards zero. */
  lemma ToBaseTruncates(text: string)
    requires Parse(text).Some?
    ensures var d := Parse(text).value;
            && ToBase(text) == Some(if d.negative then -Magnitude(d) else Magnitude(d))
            && TruncatesTo(d, Magnitude(d))
  {
    var d := Parse(text).value;
    if |d.fraction| <= SCALE {
      ShortFraction(d);
    } else {
      LongFraction(d);
    }
  }

  lemma ShortMagnitude(d: Decimal)
    requires WellFormed(d) && |d.fraction| <= SCALE
    ensures AllDigits(d.whole + d.fraction)
    ensures Magnitude(d) == NatOf(d.whole + d.fraction) * Pow10(SCALE - |d.fraction|)
  {
    var pad := SCALE - |d.fraction|;
    PadCut(d.fraction, SCALE);
    assert d.whole + (d.fraction + Zeros(pad)) == (d.whole + d.fraction) + Zeros(pad);
    NatOfAppend(d.whole + d.fraction, Zeros(pad));
    NatOfZeros(pad);
  }

  lemma ShortFraction(d: Decimal)
    requires WellFormed(d) && |d.fraction| <= SCALE
    ensures TruncatesTo(d, Magnitude(d))
  {
    var pad := SCALE - |d.fraction|;
    ShortMagnitude(d);
    Pow10Sum(pad, |d.fraction|);
    ScaleUp(NatOf(d.whole + d.fraction), Pow10(pad), Pow10(|d.fraction|), Pow10(SCALE));
  }

  lemma LongFraction(d: Decimal)
    requires WellFormed(d) && |d.fraction| > SCALE
    ensures TruncatesTo(d, Magnitude(d))
  {
    var kept, dropped := d.fraction[..SCALE], d.fraction[SCALE..];
    assert (d.fraction + Zeros(SCALE))[..SCALE] == kept;
    assert d.whole + d.fraction == (d.whole + kept) + dropped;
    NatOfAppend(d.whole + kept, dropped);
    NatOfBound(dropped);
    Pow10Sum(SCALE, |dropped|);
    ScaleDown(NatOf(d.whole + kept), NatOf(dropped), Pow10(|dropped|), Pow10(SCALE));
  }

  lemma {:induction false} Pow10Sum(a: nat, b: nat)
    ensures Pow10(a + b) == Pow10(a) * Pow10(b)
  {
    if a > 0 {
      Pow10Sum(a - 1, b);
      assert Pow10(a) * Pow10(b) == 10 * (Pow10(a - 1) * Pow10(b));
    }
  }

  lemma ScaleUp(n: nat, pad: nat, unit: nat, scale: nat)
    requires scale == pad * unit && unit >= 1
    ensures n * pad * unit <= n * scale < (n * pad + 1) * unit
  {
    assert n * scale == n * (pad * unit) == n * pad * unit;
  }

  lemma ScaleDown(m: nat, rest: nat, unit: nat, scale: nat)
    requires rest < unit && scale >= 1
    ensures m * (scale * unit) <= (m * unit + rest) * scale < (m + 1) * (scale * unit)
  {
    assert (m * unit + rest) * scale == m * (scale * unit) + rest * scale;
    assert (m + 1) * (scale * unit) == m * (scale * unit) + unit * scale;
    assert 0 <= rest * scale < unit * scale;
  }

  lemma CmpStrIsExact(a: string, b: string)
    requires ToBase(a).Some? && ToBase(b).Some?
    ensures CmpStr(a, b) == Some(if ToBase(a).value < ToBase(b).value then -1 else if ToBase(a).value > ToBase(b).value then 1 else 0)
  {
  }

  lemma AddIsExact(a: string, b: string, x: int, y: int)
    requires ToBase(a) == Some(x) && ToBase(b) == Some(y)
    ensures AddStr(a, b).Some? && ToBase(AddStr(a, b).value) == Some(x + y)
  {
    assert AddStr(a, b) == Some(FromBase(x + y));
    ToBaseFromBase(x + y);
  }

  lemma SubIsExact(a: string, b: string, x: int, y: int)
    requires ToBase(a) == Some(x) && ToBase(b) == Some(y)
    ensures SubStr(a, b).Some? && ToBase(SubStr(a, b).value) == Some(x - y)
  {
    assert SubStr(a, b) == Some(FromBase(x - y));
    ToBaseFromBase(x - y);
  }

  /** Sums, differences and comparisons of texts are those of the integers behind them. */
  lemma StringArithmeticIsExact(a: string, b: string, x: int, y: int)
    requires ToBase(a) == Some(x) && ToBase(b) == Some(y)
    ensures AddStr(a, b).Some? && ToBase(AddStr(a, b).value) == Some(x + y)
    ensures SubStr(a, b).Some? && ToBase(SubStr(a, b).value) == Some(x - y)
    ensures CmpStr(a, b) == Some(if x < y then -1 else if x > y then 1 else 0)
  {
    AddIsExact(a, b, x, y);
    SubIsExact(a, b, x, y);
  }
}
