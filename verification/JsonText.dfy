/** JSON as RFC 8259 defines it (sections 3 to 7): values, a parser, and a compact printer that the
    parser inverts. The parser is the reference against which the server's output is judged.

    Text is a sequence of bytes, written as characters. */
module JsonText {
  import opened Decimal

  datatype Json =
    | Null
    | Bool(value: bool)
    | Num(text: string)
    | Str(text: string)
    | Arr(items: seq<Json>)
    | Obj(members: seq<Member>)

  datatype Member = Member(key: string, value: Json)

  datatype Parse<T> = Fail | Parsed(value: T, rest: string)

  // ---------- section 2: structure ----------

  predicate IsWhitespace(c: char) {
    c == ' ' || c == '\t' || c == '\n' || c == '\r'
  }

  function SkipSpace(s: string): (r: string)
    ensures |r| <= |s|
  {
    if s != "" && IsWhitespace(s[0]) then SkipSpace(s[1..]) else s
  }

  predicate StartsWith(s: string, word: string) {
    |word| <= |s| && forall i :: 0 <= i < |word| ==> s[i] == word[i]
  }

  // ---------- section 7: strings ----------

  function HexValue(c: char): int {
    if '0' <= c <= '9' then c as int - '0' as int
    else if 'a' <= c <= 'f' then c as int - 'a' as int + 10
    else if 'A' <= c <= 'F' then c as int - 'A' as int + 10
    else -1
  }

  /** Four hexadecimal digits, or -1. */
  function Hex4(s: string): (v: int)
    ensures -1 <= v < 0x10000
    ensures v >= 0 ==> |s| >= 4
  {
    if |s| >= 4 && HexValue(s[0]) >= 0 && HexValue(s[1]) >= 0 && HexValue(s[2]) >= 0 && HexValue(s[3]) >= 0 then
      HexValue(s[0]) * 0x1000 + HexValue(s[1]) * 0x100 + HexValue(s[2]) * 0x10 + HexValue(s[3])
    else -1
  }

  /** A code point as UTF-8 bytes. */
  function Utf8(v: nat): string
    requires v < 0x11_0000
  {
    if v < 0x80 then [v as char]
    else if v < 0x800 then [(0xC0 + v / 0x40) as char, (0x80 + v % 0x40) as char]
    else if v < 0x1_0000 then [(0xE0 + v / 0x1000) as char, (0x80 + v / 0x40 % 0x40) as char, (0x80 + v % 0x40) as char]
    else [(0xF0 + v / 0x4_0000) as char, (0x80 + v / 0x1000 % 0x40) as char, (0x80 + v / 0x40 % 0x40) as char, (0x80 + v % 0x40) as char]
  }

  /** What follows a backslash: the bytes it stands for and the text behind it. A surrogate must come
      as a pair. */
  function ParseEscape(s: string): (r: Parse<string>)
    ensures r.Parsed? ==> |r.rest| < |s|
  {
    if s == "" then Fail
    else if s[0] == '"' || s[0] == '\\' || s[0] == '/' then Parsed([s[0]], s[1..])
    else if s[0] == 'b' then Parsed([8 as char], s[1..])
    else if s[0] == 'f' then Parsed([12 as char], s[1..])
    else if s[0] == 'n' then Parsed("\n", s[1..])
    else if s[0] == 'r' then Parsed("\r", s[1..])
    else if s[0] == 't' then Parsed("\t", s[1..])
    else if s[0] == 'u' then
      var v := Hex4(s[1..]);
      if v < 0 then Fail
      else if v < 0xD800 || v >= 0xE000 then Parsed(Utf8(v), s[5..])
      else if v < 0xDC00 && |s| >= 7 && s[5] == '\\' && s[6] == 'u' then
        var low := Hex4(s[7..]);
        if 0xDC00 <= low < 0xE000 then Parsed(Utf8(0x1_0000 + (v - 0xD800) * 0x400 + (low - 0xDC00)), s[11..]) else Fail
      else Fail
    else Fail
  }

  /** A string after its opening quotation mark, up to and including the closing one. */
  function ParseString(s: string): (r: Parse<string>)
    ensures r.Parsed? ==> |r.rest| < |s|
    decreases |s|
  {
    if s == "" || s[0] < ' ' then Fail
    else if s[0] == '"' then Parsed("", s[1..])
    else if s[0] == '\\' then
      var escape := ParseEscape(s[1..]);
      if escape.Fail? then Fail
      else
        var tail := ParseString(escape.rest);
        if tail.Fail? then Fail else Parsed(escape.value + tail.value, tail.rest)
    else
      var tail := ParseString(s[1..]);
      if tail.Fail? then Fail else Parsed([s[0]] + tail.value, tail.rest)
  }

  // ---------- section 6: numbers ----------

  predicate IsNumberChar(c: char) {
    IsDigit(c) || c == '-' || c == '+' || c == '.' || c == 'e' || c == 'E'
  }

  function Span(p: char -> bool, s: string): (n: nat)
    ensures n <= |s|
    ensures forall i :: 0 <= i < n ==> p(s[i])
    ensures n < |s| ==> !p(s[n])
  {
    if s != "" && p(s[0]) then 1 + Span(p, s[1..]) else 0
  }

  predicate IsExponent(s: string) {
    s == "" ||
    ((s[0] == 'e' || s[0] == 'E') &&
     var t := if |s| > 1 && (s[1] == '+' || s[1] == '-') then s[2..] else s[1..];
     t != "" && AllDigits(t))
  }

  predicate IsFraction(s: string) {
    if s != "" && s[0] == '.' then
      var n := Span(IsDigit, s[1..]);
      n > 0 && IsExponent(s[1 + n..])
    else IsExponent(s)
  }

  /** minus? int frac? exp? */
  predicate IsNumber(s: string) {
    var t := if s != "" && s[0] == '-' then s[1..] else s;
    var n := Span(IsDigit, t);
    n > 0 && (t[0] == '0' ==> n == 1) && IsFraction(t[n..])
  }

  function ParseNumber(s: string): (r: Parse<Json>)
    ensures r.Parsed? ==> |r.rest| < |s|
  {
    var n := Span(IsNumberChar, s);
    if n > 0 && IsNumber(s[..n]) then Parsed(Num(s[..n]), s[n..]) else Fail
  }

  // ---------- sections 3 to 5: values, objects, arrays ----------

  function ParseValue(s: string): (r: Parse<Json>)
    ensures r.Parsed? ==> |r.rest| < |s|
    decreases |s|, 1
  {
    if s == "" then Fail
    else if StartsWith(s, "null") then Parsed(Null, s[4..])
    else if StartsWith(s, "true") then Parsed(Bool(true), s[4..])
    else if StartsWith(s, "false") then Parsed(Bool(false), s[5..])
    else if s[0] == '"' then
      var text := ParseString(s[1..]);
      if text.Fail? then Fail else Parsed(Str(text.value), text.rest)
    else if s[0] == '[' then
      var t := SkipSpace(s[1..]);
      if t != "" && t[0] == ']' then Parsed(Arr([]), t[1..])
      else
        var items := ParseItems(t);
        if items.Fail? then Fail else Parsed(Arr(items.value), items.rest)
    else if s[0] == '{' then
      var t := SkipSpace(s[1..]);
      if t != "" && t[0] == '}' then Parsed(Obj([]), t[1..])
      else
        var members := ParseMembers(t);
        if members.Fail? then Fail else Parsed(Obj(members.value), members.rest)
    else ParseNumber(s)
  }

  /** One or more values separated by commas, and the closing bracket. */
  function ParseItems(s: string): (r: Parse<seq<Json>>)
    ensures r.Parsed? ==> |r.rest| < |s|
    decreases |s|, 2
  {
    var first := ParseValue(s);
    if first.Fail? then Fail
    else
      var t := SkipSpace(first.rest);
      if t != "" && t[0] == ']' then Parsed([first.value], t[1..])
      else if t != "" && t[0] == ',' then
        var others := ParseItems(SkipSpace(t[1..]));
        if others.Fail? then Fail else Parsed([first.value] + others.value, others.rest)
      else Fail
  }

  /** A string, a colon, and the text behind it. */
  function ParseKey(s: string): (r: Parse<string>)
    ensures r.Parsed? ==> |r.rest| < |s|
  {
    if s == "" || s[0] != '"' then Fail
    else
      var key := ParseString(s[1..]);
      if key.Fail? then Fail
      else
        var t := SkipSpace(key.rest);
        if t != "" && t[0] == ':' then Parsed(key.value, SkipSpace(t[1..])) else Fail
  }

  /** One or more members separated by commas, and the closing brace. */
  function ParseMembers(s: string): (r: Parse<seq<Member>>)
    ensures r.Parsed? ==> |r.rest| < |s|
    decreases |s|, 2
  {
    var key := ParseKey(s);
    if key.Fail? then Fail
    else
      var value := ParseValue(key.rest);
      if value.Fail? then Fail
      else
        var t := SkipSpace(value.rest);
        var member := Member(key.value, value.value);
        if t != "" && t[0] == '}' then Parsed([member], t[1..])
        else if t != "" && t[0] == ',' then
          var others := ParseMembers(SkipSpace(t[1..]));
          if others.Fail? then Fail else Parsed([member] + others.value, others.rest)
        else Fail
  }

  /** A whole JSON text: one value with whitespace around it. */
  function ParseText(s: string): Parse<Json> {
    var v := ParseValue(SkipSpace(s));
    if v.Parsed? && SkipSpace(v.rest) == "" then v else Fail
  }

  // ---------- the compact printer ----------

  const HEX: string := "0123456789abcdef"

  /** One byte inside a string, escaped the way both escapers of the server do. */
  function EscapeChar(c: char): (r: string)
    ensures 1 <= |r| <= 6
  {
    if c == '"' then "\\\""
    else if c == '\\' then "\\\\"
    else if c == 8 as char then "\\b"
    else if c == 12 as char then "\\f"
    else if c == '\n' then "\\n"
    else if c == '\r' then "\\r"
    else if c == '\t' then "\\t"
    else if c < ' ' then "\\u00" + [HEX[c as int / 16], HEX[c as int % 16]]
    else [c]
  }

  function Escape(s: string): string {
    if s == "" then "" else EscapeChar(s[0]) + Escape(s[1..])
  }

  function Quote(s: string): string {
    "\"" + Escape(s) + "\""
  }

  function Print(v: Json): string
    decreases v, 1
  {
    match v
    case Null => "null"
    case Bool(b) => if b then "true" else "false"
    case Num(text) => text
    case Str(text) => Quote(text)
    case Arr(items) => "[" + PrintItems(items) + "]"
    case Obj(members) => "{" + PrintMembers(members) + "}"
  }

  function PrintItems(items: seq<Json>): string
    decreases items, 0
  {
    if items == [] then ""
    else if |items| == 1 then Print(items[0])
    else Print(items[0]) + "," + PrintItems(items[1..])
  }

  function PrintMember(member: Member): string
    decreases member, 0
  {
    Quote(member.key) + ":" + Print(member.value)
  }

  function PrintMembers(members: seq<Member>): string
    decreases members, 0
  {
    if members == [] then ""
    else if |members| == 1 then PrintMember(members[0])
    else PrintMember(members[0]) + "," + PrintMembers(members[1..])
  }

  /** Numbers inside the value have number texts. */
  predicate WellFormed(v: Json)
    decreases v
  {
    match v
    case Num(text) => IsNumber(text)
    case Arr(items) => forall i :: 0 <= i < |items| ==> WellFormed(items[i])
    case Obj(members) => forall i :: 0 <= i < |members| ==> WellFormed(members[i].value)
    case _ => true
  }

  // ---------- strings come back ----------

  lemma EscapeCharComesBack(c: char, tail: string)
    ensures EscapeChar(c)[0] == '\\' ==> ParseEscape((EscapeChar(c) + tail)[1..]) == Parsed([c], tail)
    ensures EscapeChar(c)[0] != '\\' ==> EscapeChar(c) == [c] && c >= ' ' && c != '"'
  {
    if c < ' ' && |EscapeChar(c)| == 6 {
      HexEscapeComesBack(c, tail);
    } else if EscapeChar(c)[0] == '\\' {
      assert (EscapeChar(c) + tail)[1..] == [EscapeChar(c)[1]] + tail;
      ShortEscapeComesBack(c, EscapeChar(c)[1], tail);
    }
  }

  lemma ShortEscapeComesBack(c: char, letter: char, tail: string)
    requires EscapeChar(c) == ['\\', letter]
    ensures ParseEscape([letter] + tail) == Parsed([c], tail)
  {
    var s := [letter] + tail;
    assert s[0] == EscapeChar(c)[1] && s[1..] == tail;
  }

  lemma HexEscapeComesBack(c: char, tail: string)
    requires c < ' ' && |EscapeChar(c)| == 6
    ensures EscapeChar(c)[0] == '\\' && ParseEscape((EscapeChar(c) + tail)[1..]) == Parsed([c], tail)
  {
    var s := (EscapeChar(c) + tail)[1..];
    var hi, lo := c as int / 16, c as int % 16;
    var digits := s[1..];
    assert s[0] == 'u' && digits[0] == '0' && digits[1] == '0' && digits[2] == HEX[hi] && digits[3] == HEX[lo];
    HexDigitValue(hi);
    HexDigitValue(lo);
    assert Hex4(digits) == c as int;
    assert s[5..] == tail;
  }

  lemma HexDigitValue(d: nat)
    requires d < 16
    ensures HexValue(HEX[d]) == d
  {
  }

  /** Section 7 decoding inverts the escaper on every byte string. */
  lemma {:induction false} StringComesBack(text: string, tail: string)
    ensures ParseString(Escape(text) + "\"" + tail) == Parsed(text, tail)
    decreases |text|
  {
    hide EscapeChar, ParseEscape, ParseString;
    if text == "" {
      assert Escape(text) + "\"" + tail == "\"" + tail;
      ClosingQuote(tail);
    } else {
      var c, more := text[0], Escape(text[1..]) + "\"" + tail;
      StringComesBack(text[1..], tail);
      NextCharComesBack(c, more, text[1..], tail);
      assert Escape(text) + "\"" + tail == EscapeChar(c) + more;
      assert [c] + text[1..] == text;
    }
  }

  lemma ClosingQuote(tail: string)
    ensures ParseString("\"" + tail) == Parsed("", tail)
  {
    assert ("\"" + tail)[1..] == tail;
  }

  lemma NextCharComesBack(c: char, more: string, text: string, tail: string)
    requires ParseString(more) == Parsed(text, tail)
    ensures ParseString(EscapeChar(c) + more) == Parsed([c] + text, tail)
  {
    hide EscapeChar, ParseEscape;
    EscapeCharComesBack(c, more);
    var s := EscapeChar(c) + more;
    if EscapeChar(c)[0] != '\\' {
      assert s[1..] == more;
    }
  }

  /** Reading a string does not depend on what comes behind it. */
  lemma {:induction false} EscapeIsLocal(s: string, more: string)
    requires ParseEscape(s).Parsed?
    ensures ParseEscape(s + more) == Parsed(ParseEscape(s).value, ParseEscape(s).rest + more)
  {
    hide Hex4, Utf8;
    assert (s + more)[1..] == s[1..] + more;
    if s[0] == 'u' {
      Hex4IsLocal(s[1..], more);
      assert (s + more)[5..] == s[5..] + more;
      if |s| >= 11 {
        Hex4IsLocal(s[7..], more);
        assert (s + more)[7..] == s[7..] + more && (s + more)[11..] == s[11..] + more;
      }
    }
  }

  lemma Hex4IsLocal(s: string, more: string)
    requires |s| >= 4
    ensures Hex4(s + more) == Hex4(s)
  {
    hide HexValue;
  }

  lemma {:induction false} StringIsLocal(s: string, more: string)
    requires ParseString(s).Parsed?
    ensures ParseString(s + more) == Parsed(ParseString(s).value, ParseString(s).rest + more)
    decreases |s|
  {
    assert (s + more)[1..] == s[1..] + more;
    if s[0] == '"' {
    } else if s[0] == '\\' {
      EscapeIsLocal(s[1..], more);
      StringIsLocal(ParseEscape(s[1..]).rest, more);
    } else {
      StringIsLocal(s[1..], more);
    }
  }

  // ---------- numbers come back ----------

  lemma SpanIsUnique(p: char -> bool, s: string, n: nat)
    requires n <= |s| && (forall i :: 0 <= i < n ==> p(s[i])) && (n < |s| ==> !p(s[n]))
    ensures Span(p, s) == n
  {
  }

  lemma ExponentChars(s: string)
    requires IsExponent(s)
    ensures forall i :: 0 <= i < |s| ==> IsNumberChar(s[i])
  {
    if s != "" {
      var k := if |s| > 1 && (s[1] == '+' || s[1] == '-') then 2 else 1;
      forall i | 0 <= i < |s| ensures IsNumberChar(s[i]) {
        if i >= k {
          assert s[i] == s[k..][i - k];
        }
      }
    }
  }

  lemma FractionChars(s: string)
    requires IsFraction(s)
    ensures forall i :: 0 <= i < |s| ==> IsNumberChar(s[i])
  {
    if s != "" && s[0] == '.' {
      var n := Span(IsDigit, s[1..]);
      ExponentChars(s[1 + n..]);
      forall i | 0 <= i < |s| ensures IsNumberChar(s[i]) {
        if 1 <= i <= n {
          assert s[i] == s[1..][i - 1];
        } else if i > n {
          assert s[i] == s[1 + n..][i - 1 - n];
        }
      }
    } else {
      ExponentChars(s);
    }
  }

  lemma NumberChars(s: string)
    requires IsNumber(s)
    ensures |s| > 0 && (IsDigit(s[0]) || s[0] == '-')
    ensures forall i :: 0 <= i < |s| ==> IsNumberChar(s[i])
  {
    hide Span, IsFraction;
    if s != "" && s[0] == '-' {
      MagnitudeChars(s[1..]);
      forall i | 0 <= i < |s| ensures IsNumberChar(s[i]) {
        if i > 0 {
          assert s[i] == s[1..][i - 1];
        }
      }
    } else {
      MagnitudeChars(s);
    }
  }

  lemma MagnitudeChars(t: string)
    requires Span(IsDigit, t) > 0 && IsFraction(t[Span(IsDigit, t)..])
    ensures t != "" && IsDigit(t[0]) && forall i :: 0 <= i < |t| ==> IsNumberChar(t[i])
  {
    hide Span, IsFraction;
    var n := Span(IsDigit, t);
    FractionChars(t[n..]);
    assert IsDigit(t[0]);
    forall i | 0 <= i < |t| ensures IsNumberChar(t[i]) {
      if i >= n {
        assert t[i] == t[n..][i - n];
      }
    }
  }

  /** Printed integers are JSON numbers. */
  lemma SignedIsNumber(v: int)
    ensures IsNumber(Signed(v))
  {
    SignedReadsBack(v);
    var s := Signed(v);
    var t := if s[0] == '-' then s[1..] else s;
    SpanIsUnique(IsDigit, t, |t|);
    assert t[|t|..] == "";
    DigitsAreCanonical(if v < 0 then -v else v);
  }

  // ---------- values come back ----------

  /** What may follow a value: a comma, a closing bracket or brace, or the end. */
  predicate Delimited(tail: string) {
    tail == "" || tail[0] == ',' || tail[0] == ']' || tail[0] == '}'
  }

  predicate Plain(c: char) {
    !IsWhitespace(c) && c != ',' && c != ']' && c != '}'
  }

  lemma PrintStarts(v: Json)
    requires WellFormed(v)
    ensures |Print(v)| > 0 && Plain(Print(v)[0])
  {
    if v.Num? {
      NumberChars(v.text);
    }
  }

  lemma NumberComesBack(text: string, tail: string)
    requires IsNumber(text) && Delimited(tail)
    ensures ParseValue(text + tail) == Parsed(Num(text), tail)
  {
    hide IsNumber, Span, StartsWith;
    NumberChars(text);
    var s := text + tail;
    SpanIsUnique(IsNumberChar, s, |text|);
    assert s[..|text|] == text && s[|text|..] == tail;
    NotAWord(s);
  }

  lemma NotAWord(s: string)
    requires s != "" && s[0] != 'n' && s[0] != 't' && s[0] != 'f'
    ensures !StartsWith(s, "null") && !StartsWith(s, "true") && !StartsWith(s, "false")
  {
    assert "null"[0] == 'n' && "true"[0] == 't' && "false"[0] == 'f';
  }

  lemma WordComesBack(v: Json, tail: string)
    requires v.Null? || v.Bool?
    ensures ParseValue(Print(v) + tail) == Parsed(v, tail)
  {
    var s := Print(v) + tail;
    assert s[|Print(v)|..] == tail && StartsWith(s, Print(v));
    assert "null"[0] == 'n' && "true"[0] == 't' && "false"[0] == 'f';
    assert s[0] == Print(v)[0];
  }

  lemma QuoteComesBack(text: string, tail: string)
    ensures ParseValue(Quote(text) + tail) == Parsed(Str(text), tail)
    ensures ParseString((Quote(text) + tail)[1..]) == Parsed(text, tail)
  {
    hide ParseString, Escape, ParseItems, ParseMembers, ParseNumber;
    var s := Quote(text) + tail;
    StringComesBack(text, tail);
    assert s[1..] == Escape(text) + "\"" + tail;
    NotAWord(s);
  }

  lemma KeyComesBack(key: string, tail: string)
    requires tail != "" && !IsWhitespace(tail[0])
    ensures ParseKey(Quote(key) + ":" + tail) == Parsed(key, tail)
  {
    hide ParseString, ParseValue, SkipSpace, Escape;
    var s, rest := Quote(key) + ":" + tail, ":" + tail;
    QuoteComesBack(key, rest);
    assert s == Quote(key) + rest && s[0] == '"';
    NoSpace(rest);
    NoSpace(tail);
    assert rest[1..] == tail;
  }

  lemma NoSpace(s: string)
    requires s != "" && !IsWhitespace(s[0])
    ensures SkipSpace(s) == s
  {
  }

  /** Main result: the parser inverts the printer on every value. */
  lemma {:induction false} ValueComesBack(v: Json, tail: string)
    requires WellFormed(v) && Delimited(tail)
    ensures ParseValue(Print(v) + tail) == Parsed(v, tail)
    decreases v, 1
  {
    match v {
      case Null => WordComesBack(v, tail);
      case Bool(_) => WordComesBack(v, tail);
      case Num(text) => NumberComesBack(text, tail);
      case Str(text) => QuoteComesBack(text, tail);
      case Arr(items) =>
        if items == [] { EmptyComesBack(tail); } else { ItemsComeBack(items, tail); ArrayComesBack(items, tail); }
      case Obj(members) =>
        if members == [] { EmptyComesBack(tail); } else { MembersComeBack(members, tail); ObjectComesBack(members, tail); }
    }
  }

  lemma EmptyComesBack(tail: string)
    ensures ParseValue("[" + "" + "]" + tail) == Parsed(Arr([]), tail)
    ensures ParseValue("{" + "" + "}" + tail) == Parsed(Obj([]), tail)
  {
    var a, o := "[" + "" + "]" + tail, "{" + "" + "}" + tail;
    NotAWord(a);
    NotAWord(o);
    assert a[1..] == "]" + tail && a[1..][1..] == tail;
    assert o[1..] == "}" + tail && o[1..][1..] == tail;
  }

  lemma ArrayComesBack(items: seq<Json>, tail: string)
    requires items != [] && WellFormed(items[0])
    requires ParseItems(PrintItems(items) + "]" + tail) == Parsed(items, tail)
    ensures ParseValue("[" + PrintItems(items) + "]" + tail) == Parsed(Arr(items), tail)
  {
    hide ParseMembers, ParseItems, ParseString, ParseNumber, Escape, Print;
    var s := "[" + PrintItems(items) + "]" + tail;
    NotAWord(s);
    PrintStarts(items[0]);
    assert s[1..] == PrintItems(items) + "]" + tail;
    assert PrintItems(items)[0] == Print(items[0])[0];
  }

  lemma ObjectComesBack(members: seq<Member>, tail: string)
    requires members != []
    requires ParseMembers(PrintMembers(members) + "}" + tail) == Parsed(members, tail)
    ensures ParseValue("{" + PrintMembers(members) + "}" + tail) == Parsed(Obj(members), tail)
  {
    hide ParseMembers, ParseItems, ParseString, ParseNumber, Escape, Print;
    var s := "{" + PrintMembers(members) + "}" + tail;
    NotAWord(s);
    assert s[1..] == PrintMembers(members) + "}" + tail;
    assert PrintMembers(members)[0] == PrintMember(members[0])[0] == '"';
  }

  lemma {:induction false} ItemsComeBack(items: seq<Json>, tail: string)
    requires items != [] && forall i :: 0 <= i < |items| ==> WellFormed(items[i])
    ensures ParseItems(PrintItems(items) + "]" + tail) == Parsed(items, tail)
    decreases items, 0
  {
    hide ParseValue, Print, WellFormed;
    var s := PrintItems(items) + "]" + tail;
    if |items| == 1 {
      ValueComesBack(items[0], "]" + tail);
      assert s == Print(items[0]) + ("]" + tail);
      assert ("]" + tail)[1..] == tail;
      assert [items[0]] == items;
    } else {
      var more := PrintItems(items[1..]) + "]" + tail;
      ValueComesBack(items[0], "," + more);
      assert s == Print(items[0]) + ("," + more);
      assert ("," + more)[1..] == more;
      PrintStarts(items[1]);
      assert items[1..][0] == items[1];
      assert more[0] == Print(items[1])[0];
      ItemsComeBack(items[1..], tail);
      assert [items[0]] + items[1..] == items;
    }
  }

  lemma LastMember(m: Member, tail: string)
    requires WellFormed(m.value) && ParseValue(Print(m.value) + ("}" + tail)) == Parsed(m.value, "}" + tail)
    ensures ParseMembers(PrintMember(m) + "}" + tail) == Parsed([m], tail)
  {
    hide ParseValue, ParseKey, Print, WellFormed, Quote;
    var s := PrintMember(m) + "}" + tail;
    PrintStarts(m.value);
    KeyComesBack(m.key, Print(m.value) + ("}" + tail));
    assert s == Quote(m.key) + ":" + (Print(m.value) + ("}" + tail));
    assert ("}" + tail)[1..] == tail;
  }

  lemma NextMember(m: Member, others: seq<Member>, more: string, tail: string)
    requires WellFormed(m.value) && ParseValue(Print(m.value) + ("," + more)) == Parsed(m.value, "," + more)
    requires more != "" && !IsWhitespace(more[0]) && ParseMembers(more) == Parsed(others, tail)
    ensures ParseMembers(PrintMember(m) + "," + more) == Parsed([m] + others, tail)
  {
    hide ParseValue, ParseKey, Print, WellFormed, Quote;
    var s := PrintMember(m) + "," + more;
    PrintStarts(m.value);
    KeyComesBack(m.key, Print(m.value) + ("," + more));
    assert s == Quote(m.key) + ":" + (Print(m.value) + ("," + more));
    assert ("," + more)[1..] == more;
  }

  lemma {:induction false} MembersComeBack(members: seq<Member>, tail: string)
    requires members != [] && forall i :: 0 <= i < |members| ==> WellFormed(members[i].value)
    ensures ParseMembers(PrintMembers(members) + "}" + tail) == Parsed(members, tail)
    decreases members, 0
  {
    hide ParseValue, ParseMembers, Print, WellFormed, Escape;
    var first := members[0];
    if |members| == 1 {
      ValueComesBack(first.value, "}" + tail);
      LastMember(first, tail);
      assert [first] == members;
    } else {
      var rest := members[1..];
      var more := PrintMembers(rest) + "}" + tail;
      ValueComesBack(first.value, "," + more);
      MembersComeBack(rest, tail);
      assert more[0] == PrintMember(rest[0])[0] == '"';
      NextMember(first, rest, more, tail);
      assert PrintMembers(members) + "}" + tail == PrintMember(first) + "," + more;
      assert [first] + rest == members;
    }
  }

  /** A printed value is one JSON text that parses to exactly that value. */
  lemma PrintedTextParses(v: Json)
    requires WellFormed(v)
    ensures ParseText(Print(v)) == Parsed(v, "")
  {
    PrintStarts(v);
    ValueComesBack(v, "");
    assert Print(v) + "" == Print(v);
  }
}
