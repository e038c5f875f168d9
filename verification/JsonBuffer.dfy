/** The buffered writer of lib/dbapi.c: an 8192-byte stack buffer in front of an evbuffer, and the
    escaper that copies runs of harmless bytes in one piece. */
module JsonBuffer {
  import opened Decimal
  import opened JsonText
  import opened JsonEscape

  const STACK_SIZE: nat := 8192

  /** libevent's growing byte buffer, as far as it is used here. */
  class EvBuffer {
    var data: string

    constructor ()
      ensures data == ""
    {
      data := "";
    }

    method Add(bytes: string)
      modifies this
      ensures data == old(data) + bytes
    {
      data := data + bytes;
    }
  }

  /** Bytes that need no escape. */
  predicate Clean(c: char) {
    c != '"' && c != '\\' && c >= ' '
  }

  lemma {:induction false} CleanRunIsItself(s: string)
    requires forall i :: 0 <= i < |s| ==> Clean(s[i])
    ensures Escape(s) == s
    decreases |s|
  {
    if s != "" {
      assert Clean(s[0]);
      forall i | 0 <= i < |s[1..]| ensures Clean(s[1..][i]) {
        assert s[1..][i] == s[i + 1];
      }
      CleanRunIsItself(s[1..]);
    }
  }

  lemma EmptyEscape(s: string)
    ensures Escape(s[..0]) == ""
  {
  }

  class Writer {
    const ev: EvBuffer
    const stack: array<char>
    var offset: nat

    ghost predicate Valid()
      reads this
    {
      stack.Length == STACK_SIZE && offset <= STACK_SIZE
    }

    /** Everything written so far: flushed bytes, then pending ones. */
    ghost function Text(): string
      requires Valid()
      reads this, ev, stack
    {
      ev.data + stack[..offset]
    }

    constructor (ev: EvBuffer)
      ensures Valid() && this.ev == ev && fresh(stack) && Text() == ev.data && offset == 0
    {
      this.ev := ev;
      stack := new char[STACK_SIZE];
      offset := 0;
    }

    /** `jbuf_flush`. */
    method Flush()
      requires Valid()
      modifies this`offset, ev
      ensures Valid() && offset == 0 && ev.data == old(Text())
    {
      if offset > 0 {
        ev.Add(stack[..offset]);
        offset := 0;
      }
    }

    /** `jbuf_add`: oversized data bypasses the stack buffer. */
    method Add(bytes: string)
      requires Valid()
      modifies this`offset, ev, stack
      ensures Valid() && Text() == old(Text()) + bytes
    {
      if offset + |bytes| > STACK_SIZE {
        if offset > 0 {
          ev.Add(stack[..offset]);
          offset := 0;
        }
        if |bytes| >= STACK_SIZE {
          ev.Add(bytes);
          return;
        }
      }
      var start := offset;
      ghost var flushed, pending := ev.data, stack[..start];
      for i := 0 to |bytes|
        invariant offset == start && start + |bytes| <= STACK_SIZE
        invariant ev.data == flushed && stack[..start + i] == pending + bytes[..i]
      {
        stack[start + i] := bytes[i];
        assert stack[..start + i + 1] == stack[..start + i] + [bytes[i]];
        assert bytes[..i + 1] == bytes[..i] + [bytes[i]];
      }
      offset := start + |bytes|;
      assert bytes[..|bytes|] == bytes;
    }

    /** `jbuf_add_char`. */
    method AddChar(c: char)
      requires Valid()
      modifies this`offset, ev, stack
      ensures Valid() && Text() == old(Text()) + [c]
    {
      ghost var before := Text();
      if offset + 1 > STACK_SIZE && offset > 0 {
        ev.Add(stack[..offset]);
        offset := 0;
      }
      stack[offset] := c;
      offset := offset + 1;
      assert stack[..offset] == stack[..offset - 1] + [c];
    }

    /** The escape for one byte that is not clean. */
    method AddEscape(c: char)
      requires Valid() && !Clean(c)
      modifies this`offset, ev, stack
      ensures Valid() && Text() == old(Text()) + EscapeChar(c)
    {
      if c == '"' {
        Add("\\\"");
      } else if c == '\\' {
        Add("\\\\");
      } else if c == 8 as char {
        Add("\\b");
      } else if c == 12 as char {
        Add("\\f");
      } else if c == '\n' {
        Add("\\n");
      } else if c == '\r' {
        Add("\\r");
      } else if c == '\t' {
        Add("\\t");
      } else {
        Add("\\u00" + [HEX[c as int / 16], HEX[c as int % 16]]);
      }
    }

    /** `jbuf_append_escaped_str`: the run-copying loop writes exactly the character-by-character
        encoding between quotation marks. */
    method AppendEscaped(str: string)
      requires Valid()
      modifies this`offset, ev, stack
      ensures Valid() && Text() == old(Text()) + Quote(str)
    {
      hide EscapeChar, Escape;
      ghost var before := Text();
      AddChar('"');
      var start := 0;
      assert Escape(str[..0]) == "" by { EmptyEscape(str); }
      for p := 0 to |str|
        invariant start <= p && Valid()
        invariant forall i :: start <= i < p ==> Clean(str[i])
        invariant Text() == before + "\"" + Escape(str[..start])
      {
        if !Clean(str[p]) {
          AddRunAndEscape(str, start, p);
          start := p + 1;
        }
      }
      AddRun(str, start, |str|);
      assert str[..|str|] == str;
      AddChar('"');
    }

    method AddRunAndEscape(str: string, start: nat, p: nat)
      requires Valid() && start <= p < |str| && !Clean(str[p]) && forall i :: start <= i < p ==> Clean(str[i])
      modifies this`offset, ev, stack
      ensures Valid()
      ensures forall prefix :: old(Text()) == prefix + Escape(str[..start]) ==> Text() == prefix + Escape(str[..p + 1])
    {
      hide EscapeChar, Escape;
      AddRun(str, start, p);
      AddEscape(str[p]);
      EscapeNext(str, p);
    }

    /** Copies the clean run from `start` to `end`. */
    method AddRun(str: string, start: nat, end: nat)
      requires Valid() && start <= end <= |str| && forall i :: start <= i < end ==> Clean(str[i])
      modifies this`offset, ev, stack
      ensures Valid() && Text() == old(Text()) + str[start..end]
      ensures Escape(str[..end]) == Escape(str[..start]) + str[start..end]
    {
      if end - start > 0 {
        Add(str[start..end]);
      }
      assert str[..end] == str[..start] + str[start..end];
      EscapeAppends(str[..start], str[start..end]);
      CleanRunIsItself(str[start..end]);
    }
  }

  /** `evbuffer_append_escaped_str`. */
  method AppendQuoted(ev: EvBuffer, str: string)
    modifies ev
    ensures ev.data == old(ev.data) + Quote(str)
  {
    var w := new Writer(ev);
    w.AppendEscaped(str);
    w.Flush();
  }

  /** The two escapers agree: on a NUL-free string the bytes `evbuffer_append_escaped_str` adds are, between
      quotation marks, the C string that `json_encode_string` leaves in a buffer with ample space. */
  method EscapersAgree(s: string, ev: EvBuffer, dest: array<char>)
    requires (forall i :: 0 <= i < |s| ==> s[i] != NUL) && 6 * |s| + 2 <= dest.Length
    modifies ev, dest
    ensures ev.data == old(ev.data) + "\"" + CStr(dest[..]) + "\""
  {
    hide Escape, CStr;
    ghost var taken := EncodeString(s, dest);
    AppendQuoted(ev, s);
    WholeText(s, taken, dest[..]);
  }

  lemma WholeText(s: string, taken: nat, bytes: string)
    requires (forall i :: 0 <= i < |s| ==> s[i] != NUL) && 6 * |s| + 2 <= |bytes| && taken == Taken(CStr(s), 0, |bytes|)
    requires var text := Escape(CStr(s)[..taken]); |text| < |bytes| && bytes[..|text|] == text && bytes[|text|] == NUL
    ensures CStr(bytes) == Escape(s)
  {
    assert CStr(s) == s;
    AmpleSpaceEncodesAll(s, |bytes|);
    assert s[..|s|] == s;
    EscapeHasNoNul(s);
    assert forall i :: 0 <= i < |Escape(s)| ==> bytes[i] == Escape(s)[i];
    CStrStops(bytes, |Escape(s)|);
  }
}
