/** Printing integers: `count_digits_*`, `fast_itoa` and `fast_ltoa` of lib/json_util.c. */
module Decimal {

  const NUL: char := '\0'
  const DIGITS: string := "0123456789"

  // ---------- what the text should be ----------

  /** Canonical decimal of a natural number. */
  function Digits(n: nat): string {
    if n < 10 then [DIGITS[n]] else Digits(n / 10) + [DIGITS[n % 10]]
  }

  function Signed(v: int): string {
    if v < 0 then "-" + Digits(-v) else Digits(v)
  }

  predicate IsDigit(c: char) {
    '0' <= c <= '9'
  }

  function DigitValue(c: char): nat
    requires IsDigit(c)
  {
    c as int - '0' as int
  }

  predicate AllDigits(s: string) {
    forall i :: 0 <= i < |s| ==> IsDigit(s[i])
  }

  /** Reads a run of digits. */
  function NatOf(s: string): nat
    requires AllDigits(s)
  {
    if s == "" then 0 else NatOf(s[..|s| - 1]) * 10 + DigitValue(s[|s| - 1])
  }

  /** Reads an optionally signed integer text. */
  function IntOf(s: string): int
    requires s != "" && AllDigits(if s[0] == '-' then s[1..] else s)
  {
    if s[0] == '-' then -(NatOf(s[1..]) as int) else NatOf(s)
  }

  lemma {:induction false} DigitsAreCanonical(n: nat)
    ensures |Digits(n)| > 0 && AllDigits(Digits(n)) && NatOf(Digits(n)) == n
    ensures Digits(n)[0] == '0' <==> n == 0
    ensures n > 0 ==> Digits(n)[0] != '-'
    decreases n
  {
    if n >= 10 {
      DigitsAreCanonical(n / 10);
      assert Digits(n)[..|Digits(n)| - 1] == Digits(n / 10);
    } else {
      assert Digits(n)[..0] == "";
    }
  }

  /** The printed text reads back as the number, has no leading zero and a sign only if negative. */
  lemma SignedReadsBack(v: int)
    ensures var s := Signed(v);
      && s != "" && AllDigits(if s[0] == '-' then s[1..] else s)
      && IntOf(s) == v
      && (s[0] == '-' <==> v < 0)
      && (s[if v < 0 then 1 else 0] == '0' ==> s == "0")
  {
    DigitsAreCanonical(if v < 0 then -v else v);
    if v < 0 {
      assert Signed(v)[1..] == Digits(-v);
    } else {
      assert IsDigit(Signed(v)[0]);
    }
  }

  // ---------- counting digits ----------

  function Pow10(k: nat): nat {
    if k == 0 then 1 else 10 * Pow10(k - 1)
  }

  lemma {:induction false} DigitCount(n: nat, k: nat)
    requires k >= 1 && n < Pow10(k) && (k > 1 ==> n >= Pow10(k - 1))
    ensures |Digits(n)| == k
    decreases k
  {
    if k > 1 {
      assert Pow10(k) == 10 * Pow10(k - 1);
      assert n >= 10;
      DigitCount(n / 10, k - 1);
    }
  }

  function CountDigits32(v: nat): nat {
    if v < 10 then 1
    else if v < 100 then 2
    else if v < 1000 then 3
    else if v < 10000 then 4
    else if v < 100000 then 5
    else if v < 1000000 then 6
    else if v < 10000000 then 7
    else if v < 100000000 then 8
    else if v < 1000000000 then 9
    else 10
  }

  function CountDigits64(v: nat): nat {
    if v < 1000000000 then CountDigits32(v)
    else if v < 10000000000 then 10
    else if v < 100000000000 then 11
    else if v < 1000000000000 then 12
    else if v < 10000000000000 then 13
    else if v < 100000000000000 then 14
    else if v < 1000000000000000 then 15
    else if v < 10000000000000000 then 16
    else if v < 100000000000000000 then 17
    else if v < 1000000000000000000 then 18
    else if v < 10000000000000000000 then 19
    else 20
  }

  /** The comparison ladders count digits for every 32-bit and every 64-bit value. */
  lemma CountsAgree(v: nat)
    ensures v < 0x1_0000_0000 ==> CountDigits32(v) == |Digits(v)|
    ensures v < 0x1_0000_0000_0000_0000 ==> CountDigits64(v) == |Digits(v)|
  {
    PowersOfTen();
    if v < 0x1_0000_0000 {
      DigitCount(v, CountDigits32(v));
    }
    if v < 0x1_0000_0000_0000_0000 {
      DigitCount(v, CountDigits64(v));
    }
  }

  lemma PowersOfTen()
    ensures Pow10(0) == 1 && Pow10(1) == 10 && Pow10(2) == 100 && Pow10(3) == 1000 && Pow10(4) == 10000
    ensures Pow10(5) == 100000 && Pow10(6) == 1000000 && Pow10(7) == 10000000 && Pow10(8) == 100000000
    ensures Pow10(9) == 1000000000 && Pow10(10) == 10000000000 && Pow10(11) == 100000000000
    ensures Pow10(12) == 1000000000000 && Pow10(13) == 10000000000000 && Pow10(14) == 100000000000000
    ensures Pow10(15) == 1000000000000000 && Pow10(16) == 10000000000000000 && Pow10(17) == 100000000000000000
    ensures Pow10(18) == 1000000000000000000 && Pow10(19) == 10000000000000000000 && Pow10(20) == 100000000000000000000
  {
  }

  // ---------- printing in blocks ----------

  /** `digits_lut`, in rows of twenty. */
  const LUT: seq<string> :=
    ["00010203040506070809",
     "10111213141516171819",
     "20212223242526272829",
     "30313233343536373839",
     "40414243444546474849",
     "50515253545556575859",
     "60616263646566676869",
     "70717273747576777879",
     "80818283848586878889",
     "90919293949596979899"]

  lemma LutShape()
    ensures |LUT| == 10 && forall d :: 0 <= d < 10 ==> LUT[d] == TensRow(DIGITS[d])
  {
    assert LUT[0] == TensRow('0') && LUT[1] == TensRow('1') && LUT[2] == TensRow('2') && LUT[3] == TensRow('3');
    assert LUT[4] == TensRow('4') && LUT[5] == TensRow('5') && LUT[6] == TensRow('6');
    assert LUT[7] == TensRow('7') && LUT[8] == TensRow('8') && LUT[9] == TensRow('9');
  }

  /** All numbers with the given tens digit. */
  function TensRow(d: char): (row: string)
    ensures |row| == 20
  {
    [d, '0', d, '1', d, '2', d, '3', d, '4', d, '5', d, '6', d, '7', d, '8', d, '9']
  }

  lemma TensRowPair(d: char, v: nat)
    requires v < 10
    ensures TensRow(d)[2 * v] == d && TensRow(d)[2 * v + 1] == DIGITS[v]
  {
  }

  /** Entry i of the table. */
  function Lut(i: nat): char
    requires i < 200
  {
    LutShape();
    LUT[i / 20][i % 20]
  }

  function Pad2(v: nat): (s: string)
    requires v < 100
    ensures |s| == 2
  {
    [DIGITS[v / 10], DIGITS[v % 10]]
  }

  function Pad4(v: nat): (s: string)
    requires v < 10000
    ensures |s| == 4
  {
    Pad2(v / 100) + Pad2(v % 100)
  }

  function Pad8(v: nat): (s: string)
    requires v < 100000000
    ensures |s| == 8
  {
    Pad4(v / 10000) + Pad4(v % 10000)
  }

  /** Splitting off the two, four or eight lowest digits splits the text. */
  lemma SplitTwo(n: nat)
    requires n >= 100
    ensures Digits(n) == Digits(n / 100) + Pad2(n % 100)
  {
    assert n / 10 / 10 == n / 100 && n / 10 % 10 == n % 100 / 10 && n % 10 == n % 100 % 10;
    assert Digits(n) == Digits(n / 10) + [DIGITS[n % 10]];
    assert Digits(n / 10) == Digits(n / 100) + [DIGITS[n / 10 % 10]];
  }

  lemma SplitFour(n: nat)
    requires n >= 10000
    ensures Digits(n) == Digits(n / 10000) + Pad4(n % 10000)
  {
    SplitTwo(n);
    SplitTwo(n / 100);
    assert n / 100 / 100 == n / 10000 && n / 100 % 100 == n % 10000 / 100 && n % 100 == n % 10000 % 100;
  }

  lemma SplitEight(n: nat)
    requires n >= 100000000
    ensures Digits(n) == Digits(n / 100000000) + Pad8(n % 100000000)
  {
    SplitFour(n);
    SplitFour(n / 10000);
    assert n / 10000 / 10000 == n / 100000000 && n / 10000 % 10000 == n % 100000000 / 10000 && n % 10000 == n % 100000000 % 10000;
  }

  /** The table holds both digits of every number below 100. */
  lemma LutPair(v: nat)
    requires v < 100
    ensures Lut(2 * v) == DIGITS[v / 10] && Lut(2 * v + 1) == DIGITS[v % 10]
  {
    hide TensRow;
    LutShape();
    TensRowPair(DIGITS[v / 10], v % 10);
    var d, o := v / 10, v % 10;
    assert 2 * v == 20 * d + 2 * o && 2 * v + 1 == 20 * d + (2 * o + 1);
    assert (2 * v) / 20 == d && (2 * v) % 20 == 2 * o && (2 * v + 1) / 20 == d && (2 * v + 1) % 20 == 2 * o + 1;
  }

  /** `write2`. */
  method Write2(buf: array<char>, at: nat, v: nat)
    requires at + 2 <= buf.Length && v < 100
    modifies buf
    ensures buf[at..at + 2] == Pad2(v)
    ensures forall i :: 0 <= i < buf.Length && !(at <= i < at + 2) ==> buf[i] == old(buf[i])
  {
    LutPair(v);
    buf[at] := Lut(2 * v);
    buf[at + 1] := Lut(2 * v + 1);
  }

  /** Four digits as two table look-ups. */
  method Write4(buf: array<char>, at: nat, v: nat)
    requires at + 4 <= buf.Length && v < 10000
    modifies buf
    ensures buf[at..at + 4] == Pad4(v)
    ensures forall i :: 0 <= i < buf.Length && !(at <= i < at + 4) ==> buf[i] == old(buf[i])
  {
    Write2(buf, at + 2, v % 100);
    Write2(buf, at, v / 100);
    assert buf[at..at + 4] == buf[at..at + 2] + buf[at + 2..at + 4];
  }

  /** Eight digits as two halves. */
  method Write8(buf: array<char>, at: nat, v: nat)
    requires at + 8 <= buf.Length && v < 100000000
    modifies buf
    ensures buf[at..at + 8] == Pad8(v)
    ensures forall i :: 0 <= i < buf.Length && !(at <= i < at + 8) ==> buf[i] == old(buf[i])
  {
    Write4(buf, at + 4, v % 10000);
    Write4(buf, at, v / 10000);
    assert buf[at..at + 8] == buf[at..at + 4] + buf[at + 4..at + 8];
  }

  /** What the loops keep: the digits still to print and the digits in place are the whole text. */
  ghost predicate Printing(buf: array<char>, start: nat, ptr: nat, len: nat, rest: nat, whole: nat)
    reads buf
  {
    && start + |Digits(rest)| == ptr <= len <= buf.Length
    && Digits(rest) + buf[ptr..len] == Digits(whole)
  }

  /** Putting a block in front of the printed digits keeps the whole. */
  lemma BlockPrinted(rest: string, block: string, done: string, whole: string, printed: string)
    requires (rest + block) + done == whole && printed == block + done
    ensures rest + printed == whole
  {
  }

  method Emit2(buf: array<char>, start: nat, ptr: nat, len: nat, rest: nat, ghost whole: nat) returns (p: nat, q: nat)
    requires Printing(buf, start, ptr, len, rest, whole) && rest >= 100
    modifies buf
    ensures Printing(buf, start, p, len, q, whole) && q == rest / 100 && p <= ptr
    ensures forall i :: 0 <= i < buf.Length && !(start <= i < ptr) ==> buf[i] == old(buf[i])
  {
    ghost var done := buf[ptr..len];
    SplitTwo(rest);
    p, q := ptr - 2, rest / 100;
    hide Digits;
    Write2(buf, p, rest % 100);
    assert buf[p..len] == buf[p..ptr] + buf[ptr..len];
    BlockPrinted(Digits(q), Pad2(rest % 100), done, Digits(whole), buf[p..len]);
  }

  method Emit4(buf: array<char>, start: nat, ptr: nat, len: nat, rest: nat, ghost whole: nat) returns (p: nat, q: nat)
    requires Printing(buf, start, ptr, len, rest, whole) && rest >= 10000
    modifies buf
    ensures Printing(buf, start, p, len, q, whole) && q == rest / 10000 && p <= ptr
    ensures forall i :: 0 <= i < buf.Length && !(start <= i < ptr) ==> buf[i] == old(buf[i])
  {
    ghost var done := buf[ptr..len];
    SplitFour(rest);
    p, q := ptr - 4, rest / 10000;
    hide Digits;
    Write4(buf, p, rest % 10000);
    assert buf[p..len] == buf[p..ptr] + buf[ptr..len];
    BlockPrinted(Digits(q), Pad4(rest % 10000), done, Digits(whole), buf[p..len]);
  }

  method Emit8(buf: array<char>, start: nat, ptr: nat, len: nat, rest: nat, ghost whole: nat) returns (p: nat, q: nat)
    requires Printing(buf, start, ptr, len, rest, whole) && rest >= 100000000
    modifies buf
    ensures Printing(buf, start, p, len, q, whole) && q == rest / 100000000 && p <= ptr
    ensures forall i :: 0 <= i < buf.Length && !(start <= i < ptr) ==> buf[i] == old(buf[i])
  {
    ghost var done := buf[ptr..len];
    SplitEight(rest);
    var rem := rest % 100000000;
    p, q := ptr - 8, rest / 100000000;
    hide Digits, Pad2, Pad4;
    Write8(buf, p, rem);
    assert buf[p..len] == buf[p..ptr] + buf[ptr..len];
    BlockPrinted(Digits(q), Pad8(rem), done, Digits(whole), buf[p..len]);
  }

  /** The end both printers share: blocks of four, then of two, then one or two digits. */
  method PrintTail(buf: array<char>, start: nat, ptr0: nat, len: nat, rest0: nat, ghost whole: nat)
    requires Printing(buf, start, ptr0, len, rest0, whole)
    modifies buf
    ensures buf[start..len] == Digits(whole)
    ensures forall i :: 0 <= i < buf.Length && !(start <= i < ptr0) ==> buf[i] == old(buf[i])
  {
    var ptr: nat, rest: nat := ptr0, rest0;
    while rest >= 10000
      invariant ptr <= ptr0 && Printing(buf, start, ptr, len, rest, whole)
      invariant forall i :: 0 <= i < buf.Length && !(start <= i < ptr0) ==> buf[i] == old(buf[i])
      decreases rest
    {
      hide Digits;
      ptr, rest := Emit4(buf, start, ptr, len, rest, whole);
    }
    while rest >= 100
      invariant ptr <= ptr0 && Printing(buf, start, ptr, len, rest, whole)
      invariant forall i :: 0 <= i < buf.Length && !(start <= i < ptr0) ==> buf[i] == old(buf[i])
      decreases rest
    {
      hide Digits;
      ptr, rest := Emit2(buf, start, ptr, len, rest, whole);
    }
    PrintLast(buf, start, ptr, len, rest, whole);
  }

  method PrintLast(buf: array<char>, start: nat, ptr: nat, len: nat, rest: nat, ghost whole: nat)
    requires Printing(buf, start, ptr, len, rest, whole) && rest < 100
    modifies buf
    ensures buf[start..len] == Digits(whole)
    ensures forall i :: 0 <= i < buf.Length && !(start <= i < ptr) ==> buf[i] == old(buf[i])
  {
    ghost var done := buf[ptr..len];
    if rest < 10 {
      buf[ptr - 1] := DIGITS[rest];
      assert buf[start..len] == [DIGITS[rest]] + done;
    } else {
      assert Digits(rest) == Pad2(rest);
      Write2(buf, ptr - 2, rest);
      assert buf[start..len] == Pad2(rest) + done;
    }
  }

  /** The first loop of `fast_ltoa`: blocks of eight digits. */
  method PrintEights(buf: array<char>, start: nat, len: nat, whole: nat) returns (ptr: nat, rest: nat)
    requires Printing(buf, start, len, len, whole, whole)
    modifies buf
    ensures ptr <= len && Printing(buf, start, ptr, len, rest, whole)
    ensures forall i :: 0 <= i < buf.Length && !(start <= i < len) ==> buf[i] == old(buf[i])
  {
    ptr, rest := len, whole;
    while rest >= 100000000
      invariant ptr <= len && Printing(buf, start, ptr, len, rest, whole)
      invariant forall i :: 0 <= i < buf.Length && !(start <= i < len) ==> buf[i] == old(buf[i])
      decreases rest
    {
      hide Digits;
      ptr, rest := Emit8(buf, start, ptr, len, rest, whole);
    }
  }

  /** `fast_itoa`: for every 32-bit value the buffer gets the canonical text and a NUL, and nothing
      behind it is touched; if that does not fit, nothing is written and 0 is returned. */
  method FastItoa(val: int, buf: array<char>) returns (len: nat)
    requires -0x8000_0000 <= val < 0x8000_0000
    modifies buf
    ensures |Signed(val)| + 1 > buf.Length ==> len == 0 && buf[..] == old(buf[..])
    ensures |Signed(val)| + 1 <= buf.Length ==>
      && len == |Signed(val)| && buf[..len] == Signed(val) && buf[len] == NUL
      && forall i :: len < i < buf.Length ==> buf[i] == old(buf[i])
  {
    hide Digits, CountDigits32, CountDigits64, AllDigits, NatOf;
    DigitsAreCanonical(if val < 0 then -val else val);
    if buf.Length < 2 {
      return 0;
    }
    var uval: nat := if val < 0 then -val else val;
    var start := if val < 0 then 1 else 0;
    CountsAgree(uval);
    len := CountDigits32(uval) + start;
    if len + 1 > buf.Length {
      return 0;
    }
    buf[len] := NUL;
    assert Digits(uval) + buf[len..len] == Digits(uval);
    PrintTail(buf, start, len, len, uval, uval);
    if val < 0 {
      buf[0] := '-';
    }
    assert buf[..len] == buf[..start] + buf[start..len];
  }

  /** `fast_ltoa`: the same for every 64-bit value, printing blocks of eight first. */
  method FastLtoa(val: int, buf: array<char>) returns (len: nat)
    requires -0x8000_0000_0000_0000 <= val < 0x8000_0000_0000_0000
    modifies buf
    ensures |Signed(val)| + 1 > buf.Length ==> len == 0 && buf[..] == old(buf[..])
    ensures |Signed(val)| + 1 <= buf.Length ==>
      && len == |Signed(val)| && buf[..len] == Signed(val) && buf[len] == NUL
      && forall i :: len < i < buf.Length ==> buf[i] == old(buf[i])
  {
    hide Digits, CountDigits32, CountDigits64, AllDigits, NatOf;
    DigitsAreCanonical(if val < 0 then -val else val);
    if buf.Length < 2 {
      return 0;
    }
    var uval: nat := if val < 0 then -val else val;
    var start := if val < 0 then 1 else 0;
    CountsAgree(uval);
    len := CountDigits64(uval) + start;
    if len + 1 > buf.Length {
      return 0;
    }
    buf[len] := NUL;
    assert Digits(uval) + buf[len..len] == Digits(uval);
    var ptr, rest := PrintEights(buf, start, len, uval);
    PrintTail(buf, start, ptr, len, rest, uval);
    if val < 0 {
      buf[0] := '-';
    }
    assert buf[..len] == buf[..start] + buf[start..len];
  }
}
