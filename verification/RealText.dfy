/** `fast_dtoa` of lib/json_util.c: sign and magnitude, zeros of both signs, infinities and non-numbers.
    Magnitudes are real numbers; binary rounding of the arithmetic itself is not modelled. What snprintf
    prints for magnitudes above 1e15 is a parameter. */
module RealText {
  import opened Decimal
  import opened JsonText

  const LIMIT: real := 1000000000000000.0

  function Abs(x: real): real {
    if x < 0.0 then -x else x
  }

  type NonNegative = x: real | 0.0 <= x

  datatype Double = Finite(negative: bool, magnitude: NonNegative) | NotANumber | Infinite

  function Value(d: Double): real
    requires d.Finite?
  {
    var size: real := d.magnitude;
    if d.negative then -size else size
  }

  function IntPart(magnitude: NonNegative): (n: nat)
    ensures n as real <= magnitude < n as real + 1.0
  {
    magnitude.Floor
  }

  function FracPart(magnitude: NonNegative): (f: real)
    ensures 0.0 <= f < 1.0
  {
    magnitude - IntPart(magnitude) as real
  }

  /** The fraction rounded to millionths; 1000000 when it rounds up to one. */
  function Millionths(frac: real): (n: nat)
    requires 0.0 <= frac < 1.0
    ensures n <= 1000000
    ensures n == 1000000 <==> frac >= 0.9999995
  {
    (frac * 1000000.0 + 0.5).Floor
  }

  /** Three pairs of digits; anything above the sixth digit is lost. */
  function Six(n: nat): string {
    Pad2(n / 10000 % 100) + Pad2(n / 100 % 100) + Pad2(n % 100)
  }

  /** Trailing zeros off, then a trailing point. */
  function Strip(s: string): string {
    if s != "" && s[|s| - 1] == '0' then Strip(s[..|s| - 1])
    else if s != "" && s[|s| - 1] == '.' then s[..|s| - 1]
    else s
  }

  function FracText(frac: real): string
    requires 0.0 <= frac < 1.0
  {
    if frac > 0.000000001 then Strip("." + Six(Millionths(frac))) else ""
  }

  function Sign(neg: bool): string {
    if neg then "-" else ""
  }

  function Head(negative: bool, magnitude: NonNegative): string {
    Sign(negative) + Digits(IntPart(magnitude))
  }

  /** What the buffer receives: no fraction if fewer than eight bytes would be left for it. */
  function Text(negative: bool, magnitude: NonNegative, size: nat): string {
    var head := Head(negative, magnitude);
    head + if |head| + 8 < size then FracText(FracPart(magnitude)) else ""
  }

  /** All of `fast_dtoa`: no text at all when the buffer is too small. */
  function DoubleText(d: Double, printed: string, size: nat): string {
    if size < 2 then ""
    else if !d.Finite? then "0"
    else if d.magnitude > LIMIT then (if |printed| < size then printed else "")
    else if |Head(d.negative, d.magnitude)| + 1 > size then ""
    else Text(d.negative, d.magnitude, size)
  }

  // ---------- reading it back ----------

  /** The value of the digits behind a point. */
  function FracOf(d: string): real
    requires AllDigits(d)
  {
    if d == "" then 0.0 else (DigitValue(d[0]) as real + FracOf(d[1..])) / 10.0
  }

  function Unsigned(s: string): string {
    if s != "" && s[0] == '-' then s[1..] else s
  }

  /** digits[.digits] */
  predicate IsMagnitude(t: string) {
    var n := Span(IsDigit, t);
    n > 0 && (n == |t| || (t[n] == '.' && AllDigits(t[n + 1..])))
  }

  function Magnitude(t: string): real
    requires IsMagnitude(t)
  {
    var n := Span(IsDigit, t);
    NatOf(t[..n]) as real + if n == |t| then 0.0 else FracOf(t[n + 1..])
  }

  predicate IsPlain(s: string) {
    IsMagnitude(Unsigned(s))
  }

  /** The value of a number text without an exponent. */
  function RealOf(s: string): real
    requires IsPlain(s)
  {
    if s != "" && s[0] == '-' then -Magnitude(Unsigned(s)) else Magnitude(Unsigned(s))
  }

  lemma {:induction false} TrailingZero(d: string)
    requires AllDigits(d)
    ensures AllDigits(d + "0") && FracOf(d + "0") == FracOf(d)
    decreases |d|
  {
    if d == "" {
      assert (d + "0")[1..] == "";
    } else {
      assert (d + "0")[1..] == d[1..] + "0";
      TrailingZero(d[1..]);
    }
  }

  /** Stripping leaves nothing, or a point and digits not ending in zero, of the same value. */
  lemma {:induction false} StripKeepsValue(d: string)
    requires AllDigits(d)
    ensures var r := Strip("." + d);
      || (r == "" && FracOf(d) == 0.0)
      || (|r| > 1 && r[0] == '.' && AllDigits(r[1..]) && FracOf(r[1..]) == FracOf(d))
    decreases |d|
  {
    var s := "." + d;
    if d == "" {
      assert s == ".";
    } else if d[|d| - 1] == '0' {
      var e := d[..|d| - 1];
      assert s[..|s| - 1] == "." + e;
      assert e + "0" == d;
      TrailingZero(e);
      StripKeepsValue(e);
    } else {
      assert s[1..] == d;
    }
  }

  lemma SixValue(n: nat)
    requires n < 1000000
    ensures |Six(n)| == 6 && AllDigits(Six(n)) && FracOf(Six(n)) == n as real / 1000000.0
  {
    var a, b, c := n / 10000 % 100, n / 100 % 100, n % 100;
    assert n == 10000 * a + 100 * b + c;
    PairValue(Six(n), a, b, c);
  }

  lemma PairValue(s: string, a: nat, b: nat, c: nat)
    requires a < 100 && b < 100 && c < 100 && s == Pad2(a) + Pad2(b) + Pad2(c)
    ensures |s| == 6 && AllDigits(s) && FracOf(s) == (10000 * a + 100 * b + c) as real / 1000000.0
  {
    assert AllDigits("");
    assert Pad2(a) + (Pad2(b) + Pad2(c)) == s && Pad2(c) + "" == Pad2(c) && |s| == 6;
    assert FracOf("") == 0.0;
    hide FracOf, Pad2, AllDigits;
    TwoDigits(c, "");
    TwoDigits(b, Pad2(c));
    TwoDigits(a, Pad2(b) + Pad2(c));
    Hundredths(a, b, c, FracOf(Pad2(c)), FracOf(Pad2(b) + Pad2(c)), FracOf(s));
  }

  lemma Hundredths(a: nat, b: nat, c: nat, z: real, y: real, x: real)
    requires z == c as real / 100.0 && y == (b as real + z) / 100.0 && x == (a as real + y) / 100.0
    ensures x == (10000 * a + 100 * b + c) as real / 1000000.0
  {
  }

  lemma TwoDigits(v: nat, more: string)
    requires v < 100 && AllDigits(more)
    ensures AllDigits(Pad2(v) + more) && FracOf(Pad2(v) + more) == (v as real + FracOf(more)) / 100.0
  {
    var s := Pad2(v) + more;
    assert s[1..][1..] == more;
    assert s[0] == DIGITS[v / 10] && s[1..][0] == DIGITS[v % 10];
    assert DigitValue(s[0]) == v / 10 && DigitValue(s[1..][0]) == v % 10;
    assert FracOf(s[1..]) == ((v % 10) as real + FracOf(more)) / 10.0;
    assert FracOf(s) == ((v / 10) as real + FracOf(s[1..])) / 10.0;
    assert v == v / 10 * 10 + v % 10;
  }

  /** What the fraction text is worth: the rounded millionths, or nothing after a lost carry. */
  lemma FracTextValue(frac: real)
    requires 0.0 <= frac < 1.0
    ensures var r := FracText(frac);
      && IsPointed(r)
      && Worth(r) ==
           (if frac > 0.000000001 && frac < 0.9999995 then Millionths(frac) as real / 1000000.0 else 0.0)
  {
    hide Six, FracOf, Strip, AllDigits;
    if frac > 0.000000001 {
      var n := Millionths(frac);
      SixDigits(n);
      StripKeepsValue(Six(n));
    }
  }

  lemma SixDigits(n: nat)
    requires n <= 1000000
    ensures AllDigits(Six(n)) && FracOf(Six(n)) == if n < 1000000 then n as real / 1000000.0 else 0.0
  {
    hide FracOf, AllDigits;
    if n < 1000000 {
      SixValue(n);
    } else {
      SixValue(0);
      assert Six(n) == Six(0);
    }
  }

  /** The value of a fraction text with its point. */
  function Worth(frac: string): real {
    if frac != "" && AllDigits(frac[1..]) then FracOf(frac[1..]) else 0.0
  }

  predicate IsPointed(frac: string) {
    frac == "" || (|frac| > 1 && frac[0] == '.' && AllDigits(frac[1..]))
  }

  lemma MagnitudeReads(digits: string, frac: string)
    requires digits != "" && AllDigits(digits) && IsPointed(frac)
    ensures Span(IsDigit, digits + frac) == |digits|
    ensures IsMagnitude(digits + frac) && Magnitude(digits + frac) == NatOf(digits) as real + Worth(frac)
  {
    var t := digits + frac;
    assert forall i :: 0 <= i < |digits| ==> t[i] == digits[i];
    SpanIsUnique(IsDigit, t, |digits|);
    hide NatOf, FracOf, Span;
    assert t[..|digits|] == digits;
    if frac != "" {
      assert t[|digits| + 1..] == frac[1..];
    }
  }

  lemma SignOff(neg: bool, t: string)
    requires t != "" && IsDigit(t[0])
    ensures var s := Sign(neg) + t; s != "" && (s[0] == '-' <==> neg) && Unsigned(s) == t
  {
    assert ("-" + t)[1..] == t && "" + t == t;
  }

  lemma SplitNumber(s: string, n: nat)
    requires var t := Unsigned(s); Span(IsDigit, t) == n > 0 && (t[0] == '0' ==> n == 1) && IsFraction(t[n..])
    ensures IsNumber(s)
  {
  }

  lemma PlainReads(neg: bool, digits: string, frac: string)
    requires digits != "" && AllDigits(digits) && (digits[0] == '0' ==> |digits| == 1) && IsPointed(frac)
    ensures var s := Sign(neg) + (digits + frac);
      && IsPlain(s) && IsNumber(s)
      && RealOf(s) == (if neg then -(NatOf(digits) as real + Worth(frac)) else NatOf(digits) as real + Worth(frac))
  {
    hide NatOf, FracOf, IsFraction, Span, Magnitude, IsMagnitude, Worth, IsNumber, Sign, Unsigned;
    assert IsDigit(digits[0]);
    SignOff(neg, digits + frac);
    MagnitudeReads(digits, frac);
    FractionTail(frac);
    assert (digits + frac)[|digits|..] == frac;
    SplitNumber(Sign(neg) + (digits + frac), |digits|);
  }

  /** The text is a JSON number of the form digits[.digits] with an optional minus. */
  lemma TextReads(negative: bool, magnitude: NonNegative, size: nat)
    ensures var s := Text(negative, magnitude, size);
      var shown := |Head(negative, magnitude)| + 8 < size;
      var v := IntPart(magnitude) as real + if shown then Worth(FracText(FracPart(magnitude))) else 0.0;
      IsPlain(s) && IsNumber(s) && RealOf(s) == if negative then -v else v
  {
    hide Digits, FracText, IsPlain, IsNumber, RealOf, NatOf, AllDigits, FracOf, Sign;
    var digits := Digits(IntPart(magnitude));
    var frac := if |Head(negative, magnitude)| + 8 < size then FracText(FracPart(magnitude)) else "";
    DigitsAreCanonical(IntPart(magnitude));
    FracTextValue(FracPart(magnitude));
    LeadingZero(IntPart(magnitude));
    PlainReads(negative, digits, frac);
    assert Text(negative, magnitude, size) == Sign(negative) + (digits + frac);
  }

  /** In the 64-byte buffer used for columns the text is always a JSON number, provided the C library
      prints large magnitudes as numbers of fewer than 64 bytes. */
  lemma DoubleIsNumber(d: Double, printed: string)
    requires d.Finite? && d.magnitude > LIMIT ==> IsNumber(printed) && |printed| < 64
    ensures IsNumber(DoubleText(d, printed, 64))
  {
    hide Digits, FracText, IsNumber;
    if !d.Finite? {
      SignedIsNumber(0);
      assert Signed(0) == "0" by { SingleDigit(); }
    } else if d.magnitude <= LIMIT {
      HeadFits(d.negative, d.magnitude);
      TextReads(d.negative, d.magnitude, 64);
    }
  }

  lemma SingleDigit()
    ensures Signed(0) == "0"
  {
  }

  lemma HeadFits(negative: bool, magnitude: NonNegative)
    requires magnitude <= LIMIT
    ensures |Head(negative, magnitude)| <= 17
  {
    hide Digits;
    CountsAgree(IntPart(magnitude));
  }

  lemma LeadingZero(n: nat)
    ensures |Digits(n)| > 0 && (Digits(n)[0] == '0' ==> |Digits(n)| == 1)
  {
    DigitsAreCanonical(n);
  }

  lemma FractionTail(frac: string)
    requires IsPointed(frac)
    ensures IsFraction(frac)
  {
    if frac != "" {
      SpanIsUnique(IsDigit, frac[1..], |frac| - 1);
      assert frac[1 + (|frac| - 1)..] == "";
    }
  }

  /** "The text is within half a millionth of the value" holds exactly when the fraction does not round
      up to one: `fast_dtoa` does not carry into the integer part. */
  lemma AccurateIff(d: Double, printed: string, size: nat)
    requires d.Finite? && d.magnitude <= LIMIT && |Head(d.negative, d.magnitude)| + 8 < size
    ensures IsPlain(DoubleText(d, printed, size))
    ensures Abs(RealOf(DoubleText(d, printed, size)) - Value(d)) <= 0.0000005 <==> FracPart(d.magnitude) < 0.9999995
  {
    hide Digits, FracText, IsPlain, RealOf;
    TextReads(d.negative, d.magnitude, size);
    FracTextValue(FracPart(d.magnitude));
    var frac := FracPart(d.magnitude);
    assert d.magnitude == IntPart(d.magnitude) as real + frac;
    if frac > 0.000000001 && frac < 0.9999995 {
      var n := Millionths(frac);
      assert n as real <= frac * 1000000.0 + 0.5 < n as real + 1.0;
    }
  }

  /** For example 1.9999999 is printed as 1. */
  lemma CarryIsLost()
    ensures Text(false, 1.9999999, 64) == "1"
  {
    assert IntPart(1.9999999) == 1;
    assert Millionths(0.9999999) == 1000000;
    assert Six(1000000) == "000000";
    assert Strip(".000000") == "" by {
      assert ".000000"[..6] == ".00000" && ".00000"[..5] == ".0000" && ".0000"[..4] == ".000" && ".000"[..3] == ".00" && ".00"[..2] == ".0" && ".0"[..1] == ".";
    }
    assert "." + Six(1000000) == ".000000";
  }

  // ---------- as it runs ----------

  /** `format_int_part`: pairs of digits, right to left. */
  method FormatInt(n: nat, buf: array<char>, start: nat, len: nat)
    requires start + |Digits(n)| == len <= buf.Length
    modifies buf
    ensures buf[start..len] == Digits(n)
    ensures forall i :: 0 <= i < buf.Length && !(start <= i < len) ==> buf[i] == old(buf[i])
  {
    assert Digits(n) + buf[len..len] == Digits(n);
    var rest: nat, pos: nat := n, len;
    while rest >= 100
      invariant pos <= len && Printing(buf, start, pos, len, rest, n)
      invariant forall i :: 0 <= i < buf.Length && !(start <= i < len) ==> buf[i] == old(buf[i])
      decreases rest
    {
      hide Digits;
      pos, rest := Emit2(buf, start, pos, len, rest, n);
    }
    PrintLast(buf, start, pos, len, rest, n);
  }

  /** Writes the point and six digits from `pos` on. */
  method WriteFraction(frac: real, buf: array<char>, pos: nat)
    requires 0.0 <= frac < 1.0 && pos + 8 < buf.Length
    modifies buf
    ensures buf[pos..pos + 7] == "." + Six(Millionths(frac))
    ensures buf[..pos] == old(buf[..pos])
  {
    buf[pos] := '.';
    var n: nat := (frac * 1000000.0 + 0.5).Floor;
    hide Pad2;
    assert n / 100 / 100 == n / 10000;
    Write2(buf, pos + 5, n % 100);
    Write2(buf, pos + 3, n / 100 % 100);
    assert buf[pos + 5..pos + 7] == Pad2(n % 100);
    Write2(buf, pos + 1, n / 100 / 100 % 100);
    assert buf[pos + 5..pos + 7] == Pad2(n % 100) && buf[pos + 3..pos + 5] == Pad2(n / 100 % 100);
    SevenBytes(buf[..], pos);
  }

  lemma SevenBytes(s: string, pos: nat)
    requires pos + 7 <= |s|
    ensures s[pos..pos + 7] == [s[pos]] + s[pos + 1..pos + 3] + s[pos + 3..pos + 5] + s[pos + 5..pos + 7]
  {
  }

  /** `format_frac_part`: returns where the text ends. */
  method FormatFrac(frac: real, buf: array<char>, len: nat) returns (pos: nat)
    requires 0.0 <= frac < 1.0 && len < buf.Length
    modifies buf
    ensures len <= pos < buf.Length && buf[..len] == old(buf[..len])
    ensures buf[len..pos] == if len + 8 < buf.Length then FracText(frac) else ""
  {
    pos := len;
    if frac > 0.000000001 && len + 8 < buf.Length {
      WriteFraction(frac, buf, len);
      pos := len + 7;
      assert Strip(buf[len..pos]) == FracText(frac);
      hide FracText;
      while pos > len && buf[pos - 1] == '0'
        invariant len <= pos <= len + 7
        invariant Strip(buf[len..pos]) == FracText(frac)
      {
        assert buf[len..pos][..pos - 1 - len] == buf[len..pos - 1];
        pos := pos - 1;
      }
      if pos > len && buf[pos - 1] == '.' {
        assert buf[len..pos][..pos - 1 - len] == buf[len..pos - 1];
        pos := pos - 1;
      }
    }
  }

  /** snprintf: the text cut to the buffer, and a NUL. */
  method Snprintf(text: string, buf: array<char>) returns (w: nat)
    requires buf.Length > 0
    modifies buf
    ensures w == |text| && (w < buf.Length ==> buf[..w] == text && buf[w] == NUL)
  {
    w := |text|;
    var n := if w < buf.Length then w else buf.Length - 1;
    for i := 0 to n
      invariant buf[..i] == text[..i]
    {
      buf[i] := text[i];
    }
    buf[n] := NUL;
  }

  /** `fast_dtoa`: the buffer gets the text and a NUL; 0 is returned when it does not fit. `printed` is
      what snprintf prints for the value. */
  method FastDtoa(d: Double, printed: string, buf: array<char>) returns (pos: nat)
    modifies buf
    ensures pos == |DoubleText(d, printed, buf.Length)|
    ensures pos > 0 ==> pos < buf.Length && buf[..pos] == DoubleText(d, printed, buf.Length) && buf[pos] == NUL
  {
    if buf.Length < 2 {
      return 0;
    }
    if !d.Finite? {
      buf[0] := '0';
      buf[1] := NUL;
      return 1;
    }
    if d.magnitude > LIMIT {
      var w := Snprintf(printed, buf);
      return if w > 0 && w < buf.Length then w else 0;
    }
    pos := FormatFinite(d.negative, d.magnitude, buf);
  }

  method FormatFinite(negative: bool, magnitude: NonNegative, buf: array<char>) returns (pos: nat)
    requires magnitude <= LIMIT
    modifies buf
    ensures |Head(negative, magnitude)| + 1 > buf.Length ==> pos == 0 && buf[..] == old(buf[..])
    ensures |Head(negative, magnitude)| + 1 <= buf.Length ==>
      && pos == |Text(negative, magnitude, buf.Length)| && 0 < pos < buf.Length
      && buf[..pos] == Text(negative, magnitude, buf.Length) && buf[pos] == NUL
  {
    hide Digits, FracText, CountDigits64;
    DigitsAreCanonical(IntPart(magnitude));
    var n := IntPart(magnitude);
    var start := if negative then 1 else 0;
    CountsAgree(n);
    var len := CountDigits64(n) + start;
    if len + 1 > buf.Length {
      return 0;
    }
    FormatInt(n, buf, start, len);
    if negative {
      buf[0] := '-';
    }
    assert buf[..len] == buf[..start] + buf[start..len];
    assert buf[..len] == Head(negative, magnitude);
    pos := FormatFrac(FracPart(magnitude), buf, len);
    assert buf[..pos] == buf[..len] + buf[len..pos];
    // a lone minus sign, which the source would turn into a zero, cannot occur
    assert !(pos == 1 && buf[0] == '-');
    buf[pos] := NUL;
  }
}
