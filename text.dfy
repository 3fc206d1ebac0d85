/**
 * Decimal rendering of numbers as the browser's `toString` produces it for
 * the magnitudes the app uses, `padStart`, and `join` over string lists.
 * Strings are `seq<char>`; only ASCII digits, signs and dots occur.
 */
module Text {

  predicate IsDigit(c: char) {
    '0' <= c <= '9'
  }

  predicate AllDigits(s: string) {
    forall i :: 0 <= i < |s| ==> IsDigit(s[i])
  }

  function Digit(d: nat): (c: char)
    requires d < 10
    ensures IsDigit(c) && c as int - '0' as int == d
  {
    ('0' as int + d) as char
  }

  function DigitValue(c: char): nat
    requires IsDigit(c)
  {
    c as int - '0' as int
  }

  /** The decimal digits of `n`, most significant first, without leading zeros. */
  function NatText(n: nat): (s: string)
    ensures |s| >= 1 && AllDigits(s)
    ensures s[0] == '0' ==> n == 0
    decreases n
  {
    if n < 10 then [Digit(n)] else NatText(n / 10) + [Digit(n % 10)]
  }

  /** The number a string of decimal digits denotes (leading zeros allowed). */
  function Value(s: string): nat
    requires AllDigits(s)
  {
    if s == [] then 0 else Value(s[..|s| - 1]) * 10 + DigitValue(s[|s| - 1])
  }

  lemma {:induction false} NatTextRoundTrip(n: nat)
    ensures Value(NatText(n)) == n
    decreases n
  {
    if n >= 10 {
      var s := NatText(n / 10) + [Digit(n % 10)];
      assert s[..|s| - 1] == NatText(n / 10);
      NatTextRoundTrip(n / 10);
    }
  }

  lemma NatTextInjective(m: nat, n: nat)
    ensures NatText(m) == NatText(n) <==> m == n
  {
    NatTextRoundTrip(m);
    NatTextRoundTrip(n);
  }

  /** Leading zeros do not change the value of a digit string. */
  lemma {:induction false} ValueLeadingZero(s: string)
    requires AllDigits(s)
    ensures AllDigits("0" + s) && Value("0" + s) == Value(s)
    decreases |s|
  {
    var t := "0" + s;
    if s != [] {
      assert t[..|t| - 1] == "0" + s[..|s| - 1];
      ValueLeadingZero(s[..|s| - 1]);
    }
  }

  /** `v` in decimal, with a minus sign when negative. */
  function IntText(v: int): (s: string)
    ensures |s| >= 1
    ensures s[0] == '-' <==> v < 0
    ensures v >= 0 ==> AllDigits(s) && Value(s) == v
    ensures v >= 0 && s[0] == '0' ==> v == 0
  {
    if v < 0 then "-" + NatText(-v) else NatTextRoundTrip(v); NatText(v)
  }

  function Pow10(k: nat): (p: nat)
    ensures p >= 1
  {
    if k == 0 then 1 else 10 * Pow10(k - 1)
  }

  /** `s` without its trailing '0' characters. */
  function DropTrailingZeros(s: string): (r: string)
    ensures |r| <= |s| && r == s[..|r|]
    ensures r == [] || r[|r| - 1] != '0'
    ensures forall i :: |r| <= i < |s| ==> s[i] == '0'
  {
    if s != [] && s[|s| - 1] == '0' then DropTrailingZeros(s[..|s| - 1]) else s
  }

  /**
   * The text of the number v / 10^k as a browser writes it: sign, integer
   * part, and the fractional digits with trailing zeros dropped (no dot
   * when the fraction is zero). Exact for the small magnitudes used here
   * (|v| / 10^k well below 10^21, k <= 2).
   */
  function FixedText(v: int, k: nat): (s: string)
    ensures |s| >= 1
    ensures s[0] == '-' <==> v < 0
    ensures v >= 0 ==> IsDigit(s[0])
  {
    if v < 0 then "-" + UnsignedFixedText(-v, k) else UnsignedFixedText(v, k)
  }

  function UnsignedFixedText(m: nat, k: nat): (s: string)
    ensures |s| >= 1 && IsDigit(s[0])
  {
    var (whole, frac) := DivMod(m, Pow10(k));
    FixedParts(whole, frac, k)
  }

  /** Quotient and remainder of a division by a positive divisor. */
  function DivMod(m: nat, p: nat): (qr: (nat, nat))
    requires p >= 1
    ensures qr.0 * p + qr.1 == m && qr.1 < p
  {
    (m / p, m % p)
  }

  /** The integer part's digits, then the fraction part when there is one. */
  function FixedParts(whole: nat, frac: nat, k: nat): (s: string)
    ensures |s| >= 1 && IsDigit(s[0])
  {
    var w, f := NatText(whole), FractionText(frac, k);
    assert (w + f)[0] == w[0];
    w + f
  }

  /** The fractional part `frac` / 10^k after the dot, or nothing when it is zero. */
  function FractionText(frac: nat, k: nat): string
  {
    if frac == 0 then "" else "." + DropTrailingZeros(PadStart(NatText(frac), k, '0'))
  }

  /** A positive number below 10^k has at most k digits. */
  lemma {:induction false} NatTextLength(n: nat, k: nat)
    requires 1 <= n < Pow10(k)
    ensures |NatText(n)| <= k
    decreases n
  {
    if n >= 10 {
      assert Pow10(k) == 10 * Pow10(k - 1);
      assert n / 10 < Pow10(k - 1);
      NatTextLength(n / 10, k - 1);
    }
  }

  /** Any number of leading zeros leaves the value of a digit string unchanged. */
  lemma {:induction false} ValueLeadingZeros(s: string, j: nat)
    requires AllDigits(s)
    ensures AllDigits(seq(j, _ => '0') + s) && Value(seq(j, _ => '0') + s) == Value(s)
    decreases j
  {
    if j > 0 {
      var z := seq(j - 1, _ => '0') + s;
      assert seq(j, _ => '0') + s == "0" + z;
      ValueLeadingZeros(s, j - 1);
      ValueLeadingZero(z);
    } else {
      assert seq(j, _ => '0') + s == s;
    }
  }

  /** Dropping trailing zeros divides the value by the matching power of ten. */
  lemma {:induction false} ValueTrailingZeros(s: string)
    requires AllDigits(s)
    ensures AllDigits(DropTrailingZeros(s))
    ensures Value(DropTrailingZeros(s)) * Pow10(|s| - |DropTrailingZeros(s)|) == Value(s)
    decreases |s|
  {
    var t := DropTrailingZeros(s);
    PrefixDigits(s, |t|);
    if s != [] && s[|s| - 1] == '0' {
      var u := s[..|s| - 1];
      assert DropTrailingZeros(u) == t;
      ValueTrailingZeros(u);
      ScaleByTen(Value(t), Pow10(|u| - |t|));
      assert Pow10(|s| - |t|) == 10 * Pow10(|u| - |t|);
    }
  }

  lemma PrefixDigits(s: string, n: nat)
    requires AllDigits(s) && n <= |s|
    ensures AllDigits(s[..n])
  {
    forall i | 0 <= i < n ensures IsDigit(s[..n][i]) {
      assert s[..n][i] == s[i];
    }
  }

  lemma ScaleByTen(a: nat, q: nat)
    ensures a * (10 * q) == (a * q) * 10
  {
  }

  /**
   * The fraction part read back: a dot, then between one and k digits, the
   * last of them non-zero, which scaled back to k places give `frac`.
   */
  lemma FractionTextDenotes(frac: nat, k: nat)
    requires 1 <= frac < Pow10(k)
    ensures var t := FractionText(frac, k);
      && |t| >= 2 && t[0] == '.'
      && 1 <= |t| - 1 <= k && AllDigits(t[1..]) && t[|t| - 1] != '0'
      && Value(t[1..]) * Pow10(k - (|t| - 1)) == frac
  {
    var n := NatText(frac);
    NatTextLength(frac, k);
    NatTextRoundTrip(frac);
    var padded := PadStart(n, k, '0');
    assert padded == seq(k - |n|, _ => '0') + n;
    ValueLeadingZeros(n, k - |n|);
    ValueTrailingZeros(padded);
    var d := DropTrailingZeros(padded);
    var t := FractionText(frac, k);
    assert t == "." + d && t[1..] == d;
  }

  /**
   * Reading a rendered fixed-point number back: the digits before the dot
   * give the integer part, and the fraction part is present exactly when
   * the fraction is non-zero. With FractionTextDenotes, the text determines
   * both parts.
   */
  lemma FixedPartsDenotes(whole: nat, frac: nat, k: nat)
    ensures var w := NatText(whole);
      && |w| <= |FixedParts(whole, frac, k)| && FixedParts(whole, frac, k)[..|w|] == w
      && Value(w) == whole
      && (frac == 0 <==> FixedParts(whole, frac, k) == w)
      && (frac != 0 ==> FixedParts(whole, frac, k)[|w|..] == FractionText(frac, k))
  {
    var w, f := NatText(whole), FractionText(frac, k);
    NatTextRoundTrip(whole);
    assert FixedParts(whole, frac, k) == w + f;
    assert frac != 0 ==> f[0] == '.';
  }

  lemma HalfFraction()
    ensures FractionText(50, 2) == ".5"
  {
    assert NatText(50) == "50";
    assert PadStart("50", 2, '0') == "50";
    assert DropTrailingZeros("50") == "5";
  }

  /** Percentages divided by 100 come out in shortest form: 100 as 1, 150 as 1.5, 50 as 0.5. */
  lemma PercentTexts()
    ensures FixedText(100, 2) == "1" && FixedText(150, 2) == "1.5" && FixedText(50, 2) == "0.5"
  {
    assert Pow10(2) == 100;
    WholePercent();
    HalfPercents();
  }

  lemma WholePercent()
    ensures FixedParts(1, 0, 2) == "1"
  {
    assert NatText(1) == "1";
  }

  lemma HalfPercents()
    ensures FixedParts(1, 50, 2) == "1.5" && FixedParts(0, 50, 2) == "0.5"
  {
    HalfFraction();
    assert NatText(1) == "1" && NatText(0) == "0";
  }

  /** `s` padded on the left with `c` up to `width` characters (JavaScript `padStart`). */
  function PadStart(s: string, width: nat, c: char): (r: string)
    ensures |r| == if |s| >= width then |s| else width
    ensures r[|r| - |s|..] == s
    ensures forall i :: 0 <= i < |r| - |s| ==> r[i] == c
  {
    if |s| >= width then s else seq(width - |s|, _ => c) + s
  }

  /** The strings of `ts` separated by `sep` (JavaScript `Array.prototype.join`). */
  function Join(ts: seq<string>, sep: string): (r: string)
    ensures ts == [] ==> r == ""
    ensures ts != [] ==> |r| == TotalLength(ts) + |sep| * (|ts| - 1)
    ensures ts != [] ==> |ts[0]| <= |r| && r[..|ts[0]|] == ts[0]
  {
    if ts == [] then "" else if |ts| == 1 then ts[0] else ts[0] + sep + Join(ts[1..], sep)
  }

  /** The summed length of the strings of `ts`. */
  function TotalLength(ts: seq<string>): nat
  {
    if ts == [] then 0 else |ts[0]| + TotalLength(ts[1..])
  }

  lemma JoinSmall(a: string, b: string, c: string, sep: string)
    ensures Join([a, b], sep) == a + sep + b
    ensures Join([a, b, c], sep) == a + sep + b + sep + c
  {
    assert [a, b][1..] == [b];
    assert [a, b, c][1..] == [b, c];
    assert Join([b, c], sep) == b + sep + c;
    assert a + sep + (b + sep + c) == a + sep + b + sep + c;
  }

  /** The non-empty strings of `ts`, in order (JavaScript `filter(Boolean)`). */
  function NonEmpty(ts: seq<string>): (r: seq<string>)
    ensures forall i :: 0 <= i < |r| ==> r[i] != []
    ensures forall t :: t in r <==> t in ts && t != []
    ensures |r| <= |ts|
  {
    if ts == [] then []
    else if ts[0] == [] then NonEmpty(ts[1..])
    else [ts[0]] + NonEmpty(ts[1..])
  }

  /** Filtering distributes over concatenation, so the kept strings stay in order, duplicates included. */
  lemma {:induction false} NonEmptyAppend(a: seq<string>, b: seq<string>)
    ensures NonEmpty(a + b) == NonEmpty(a) + NonEmpty(b)
    decreases |a|
  {
    if a == [] {
      assert a + b == b;
    } else {
      assert (a + b)[0] == a[0] && (a + b)[1..] == a[1..] + b;
      NonEmptyAppend(a[1..], b);
    }
  }
}
