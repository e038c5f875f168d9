/** `json_encode_string` of lib/json_util.c: escaping into a fixed buffer without ever cutting an
    escape in half. */
module JsonEscape {
  import opened Decimal
  import opened JsonText

  /** The C string in a character sequence: everything before the first NUL. */
  function CStr(s: string): (r: string)
    ensures |r| <= |s| && r == s[..|r|]
    ensures forall i :: 0 <= i < |r| ==> r[i] != NUL
    ensures |r| < |s| ==> s[|r|] == NUL
  {
    if s == "" || s[0] == NUL then "" else [s[0]] + CStr(s[1..])
  }

  lemma {:induction false} EscapeAppends(a: string, b: string)
    ensures Escape(a + b) == Escape(a) + Escape(b)
    decreases |a|
  {
    if a == "" {
      assert a + b == b;
    } else {
      assert (a + b)[1..] == a[1..] + b;
      EscapeAppends(a[1..], b);
    }
  }

  lemma EscapeNext(s: string, i: nat)
    requires i < |s|
    ensures Escape(s[..i + 1]) == Escape(s[..i]) + EscapeChar(s[i])
  {
    assert s[..i + 1] == s[..i] + [s[i]];
    EscapeAppends(s[..i], [s[i]]);
    assert Escape([s[i]]) == EscapeChar(s[i]) + Escape([s[i]][1..]);
  }

  lemma {:induction false} EscapeSize(s: string)
    ensures |s| <= |Escape(s)| <= 6 * |s|
    decreases |s|
  {
    if s != "" {
      EscapeSize(s[1..]);
    }
  }

  /** The escapes of RFC 8259, section 7, that are used: seven short ones and lower-case hexadecimal. */
  lemma EscapesUsed()
    ensures EscapeChar('"') == "\\\"" && EscapeChar('\\') == "\\\\" && EscapeChar(8 as char) == "\\b" && EscapeChar(12 as char) == "\\f"
    ensures EscapeChar('\n') == "\\n" && EscapeChar('\r') == "\\r" && EscapeChar('\t') == "\\t"
    ensures EscapeChar(0 as char) == "\\u0000" && EscapeChar(31 as char) == "\\u001f" && EscapeChar(27 as char) == "\\u001b"
    ensures EscapeChar('/') == "/" && EscapeChar(' ') == " " && EscapeChar(127 as char) == [127 as char]
  {
  }

  /** How many characters from the i-th on the loop encodes: it stops when fewer than eight bytes of
      the buffer are left. */
  function Taken(s: string, i: nat, size: nat): (n: nat)
    requires i <= |s|
    ensures i <= n <= |s|
    decreases |s| - i
  {
    if i < |s| && |Escape(s[..i])| + 7 < size then Taken(s, i + 1, size) else i
  }

  /** Writes the full encoding of the longest prefix the loop admits, and a NUL, inside the buffer. */
  method EncodeString(src: string, dest: array<char>) returns (ghost taken: nat)
    modifies dest
    ensures taken == Taken(CStr(src), 0, dest.Length)
    ensures dest.Length == 0 ==> dest[..] == old(dest[..])
    ensures dest.Length > 0 ==>
      var text := Escape(CStr(src)[..taken]);
      |text| < dest.Length && dest[..|text|] == text && dest[|text|] == NUL
  {
    ghost var s := CStr(src);
    if dest.Length == 0 {
      return Taken(s, 0, 0);
    }
    var i, j := 0, 0;
    while i < |src| && src[i] != NUL && j + 7 < dest.Length
      invariant i <= |s| && j < dest.Length
      invariant j == |Escape(s[..i])| && dest[..j] == Escape(s[..i])
      invariant Taken(s, 0, dest.Length) == Taken(s, i, dest.Length)
      decreases |src| - i
    {
      assert i < |s| && src[i] == s[i];
      EscapeNext(s, i);
      j := EncodeByte(dest, j, src[i]);
      i := i + 1;
    }
    dest[j] := NUL;
    taken := i;
  }

  /** The switch of the loop: the bytes stored for one character, at most six of the eight known to be
      left, are its escape. */
  method EncodeByte(dest: array<char>, at: nat, c: char) returns (j: nat)
    requires at + 7 < dest.Length
    modifies dest
    ensures j == at + |EscapeChar(c)| && j < dest.Length
    ensures dest[..j] == old(dest[..at]) + EscapeChar(c)
  {
    if c == '"' {
      dest[at], dest[at + 1], j := '\\', '"', at + 2;
    } else if c == '\\' {
      dest[at], dest[at + 1], j := '\\', '\\', at + 2;
    } else if c == '\n' {
      dest[at], dest[at + 1], j := '\\', 'n', at + 2;
    } else if c == '\r' {
      dest[at], dest[at + 1], j := '\\', 'r', at + 2;
    } else if c == '\t' {
      dest[at], dest[at + 1], j := '\\', 't', at + 2;
    } else if c == 8 as char {
      dest[at], dest[at + 1], j := '\\', 'b', at + 2;
    } else if c == 12 as char {
      dest[at], dest[at + 1], j := '\\', 'f', at + 2;
    } else if c as int >= 0x20 {
      dest[at], j := c, at + 1;
    } else {
      dest[at], dest[at + 1], dest[at + 2], dest[at + 3] := '\\', 'u', '0', '0';
      dest[at + 4], dest[at + 5], j := HEX[c as int / 16], HEX[c as int % 16], at + 6;
    }
  }

  /** Escaping never produces a NUL, so the buffer's C string is the whole text. */
  lemma {:induction false} EscapeHasNoNul(s: string)
    requires forall i :: 0 <= i < |s| ==> s[i] != NUL
    ensures forall i :: 0 <= i < |Escape(s)| ==> Escape(s)[i] != NUL
    decreases |s|
  {
    if s != "" {
      forall i | 0 <= i < |s[1..]| ensures s[1..][i] != NUL {
        assert s[1..][i] == s[i + 1];
      }
      EscapeHasNoNul(s[1..]);
      EscapeCharHasNoNul(s[0]);
    }
  }

  lemma EscapeCharHasNoNul(c: char)
    requires c != NUL
    ensures forall i :: 0 <= i < |EscapeChar(c)| ==> EscapeChar(c)[i] != NUL
  {
  }

  lemma CStrStops(s: string, n: nat)
    requires n < |s| && s[n] == NUL && forall i :: 0 <= i < n ==> s[i] != NUL
    ensures CStr(s) == s[..n]
  {
  }

  /** Exactly when the whole source is encoded: when the encoding of all but its last character leaves
      eight bytes of the buffer. */
  lemma {:induction false} EncodesAllIff(s: string, i: nat, size: nat)
    requires i <= |s|
    ensures Taken(s, i, size) == |s| <==> (i == |s| || |Escape(s[..|s| - 1])| + 7 < size)
    decreases |s| - i
  {
    if i < |s| {
      assert s[..|s| - 1] == s[..i] + s[i..|s| - 1];
      EscapeAppends(s[..i], s[i..|s| - 1]);
      if |Escape(s[..i])| + 7 < size {
        EncodesAllIff(s, i + 1, size);
        if i + 1 == |s| {
          assert s[..|s| - 1] == s[..i];
        }
      }
    }
  }

  /** Six bytes per character and two to spare are always enough. */
  lemma AmpleSpaceEncodesAll(s: string, size: nat)
    requires 6 * |s| + 2 <= size
    ensures Taken(s, 0, size) == |s|
  {
    EncodesAllIff(s, 0, size);
    if s != "" {
      EscapeSize(s[..|s| - 1]);
    }
  }

  /** The buffer size of the JSON_ENCODE_BUFSIZE macro. */
  function BufSize(n: nat): nat {
    6 * n + 1
  }

  /** The macro's buffer is lossless for every shorter source; a source of the full length is encoded
      whole if and only if some character before its last takes less than six bytes. */
  lemma MacroIsLosslessIff(s: string, n: nat)
    requires |s| <= n
    ensures |s| < n ==> Taken(s, 0, BufSize(n)) == |s|
    ensures |s| == n && n > 0 ==> (Taken(s, 0, BufSize(n)) == n <==> |Escape(s[..n - 1])| < 6 * (n - 1))
  {
    EncodesAllIff(s, 0, BufSize(n));
    if s != "" {
      EscapeSize(s[..|s| - 1]);
    }
  }

  /** "JSON_ENCODE_BUFSIZE(n) holds any n characters" fails: two control characters lose the second. */
  lemma MacroLosesTheLastOfTwo()
    ensures Taken([1 as char, 1 as char], 0, BufSize(2)) == 1
  {
    var s := [1 as char, 1 as char];
    assert s[..0] == "" && s[..1] == [1 as char];
    assert [1 as char][1..] == "";
    assert Escape(s[..1]) == EscapeChar(1 as char) + Escape([1 as char][1..]);
    assert |EscapeChar(1 as char)| == 6;
  }

  /** What was written decodes, by section 7 of RFC 8259, to the prefix it came from. */
  lemma EncodedPrefixDecodes(src: string, size: nat)
    ensures var s := CStr(src); ParseString(Escape(s[..Taken(s, 0, size)]) + "\"") == Parsed(s[..Taken(s, 0, size)], "")
  {
    var s := CStr(src);
    StringComesBack(s[..Taken(s, 0, size)], "");
    var text := Escape(s[..Taken(s, 0, size)]) + "\"";
    assert text + "" == text;
  }
}
