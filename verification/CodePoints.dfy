/** `utf8_strlen` of lib/validation.c: counting characters by counting the bytes that start one. */
module CodePoints {
  import opened Decimal
  import opened JsonText
  import opened JsonEscape

  /** `(c & 0xC0) == 0x80` for a byte. */
  predicate Continues(c: char) {
    0x80 <= c as int < 0xC0
  }

  function Starts(s: string): (n: nat)
    ensures n <= |s|
  {
    if s == "" then 0 else Starts(s[..|s| - 1]) + if Continues(s[|s| - 1]) then 0 else 1
  }

  method Utf8Strlen(s: string) returns (len: nat)
    ensures len == Starts(CStr(s))
  {
    hide CStr;
    len := 0;
    var i := 0;
    while i < |s| && s[i] != NUL
      invariant i <= |CStr(s)| && len == Starts(CStr(s)[..i])
    {
      assert CStr(s)[..i + 1][..i] == CStr(s)[..i];
      if !Continues(s[i]) {
        len := len + 1;
      }
      i := i + 1;
    }
    assert CStr(s)[..i] == CStr(s);
  }

  /** A sequence of code points as UTF-8. */
  function Encode(points: seq<nat>): string
    requires forall i :: 0 <= i < |points| ==> points[i] < 0x11_0000
  {
    if points == [] then "" else Utf8(points[0]) + Encode(points[1..])
  }

  function BeforeZero(points: seq<nat>): seq<nat> {
    if points == [] || points[0] == 0 then [] else [points[0]] + BeforeZero(points[1..])
  }

  lemma {:induction false} StartsAppend(a: string, b: string)
    ensures Starts(a + b) == Starts(a) + Starts(b)
    decreases |b|
  {
    if b == "" {
      assert a + b == a;
    } else {
      assert (a + b)[..|a + b| - 1] == a + b[..|b| - 1];
      StartsAppend(a, b[..|b| - 1]);
    }
  }

  lemma {:induction false} CStrAppend(a: string, b: string)
    requires forall i :: 0 <= i < |a| ==> a[i] != NUL
    ensures CStr(a + b) == a + CStr(b)
    decreases |a|
  {
    if a == "" {
      assert a + b == b;
    } else {
      assert (a + b)[1..] == a[1..] + b;
      CStrAppend(a[1..], b);
    }
  }

  /** Every encoded code point has one starting byte, and no NUL unless it is zero. */
  lemma OneStart(v: nat)
    requires v < 0x11_0000
    ensures Starts(Utf8(v)) == 1
    ensures v > 0 ==> forall i :: 0 <= i < |Utf8(v)| ==> Utf8(v)[i] != NUL
    ensures v == 0 ==> Utf8(v) == [NUL]
  {
    var s := Utf8(v);
    assert Starts([s[0]]) == 1 by { assert [s[0]][..0] == ""; }
    if |s| >= 2 {
      assert s[..2][..1] == [s[0]];
      assert Starts(s[..2]) == 1;
    }
    if |s| >= 3 {
      assert s[..3][..2] == s[..2];
      assert Starts(s[..3]) == 1;
    }
    if |s| == 4 {
      assert s[..4][..3] == s[..3];
    }
    assert s[..|s|] == s;
  }

  /** On UTF-8 text the byte loop counts code points, up to the first zero. */
  lemma {:induction false} CountsCodePoints(points: seq<nat>)
    requires forall i :: 0 <= i < |points| ==> points[i] < 0x11_0000
    ensures Starts(CStr(Encode(points))) == |BeforeZero(points)|
    decreases |points|
  {
    hide Utf8, Starts;
    if points == [] {
      assert Starts("") == 0 by { NoStarts(); }
    } else {
      var first, rest := Utf8(points[0]), Encode(points[1..]);
      OneStart(points[0]);
      if points[0] == 0 {
        assert CStr(first + rest) == "";
        NoStarts();
      } else {
        CountsCodePoints(points[1..]);
        CStrAppend(first, rest);
        StartsAppend(first, CStr(rest));
      }
    }
  }

  lemma NoStarts()
    ensures Starts("") == 0
  {
  }
}
