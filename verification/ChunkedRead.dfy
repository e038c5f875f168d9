/** Reading JSON that the database produced itself (lib/dbapi.c, `db_fetch_json_native`): one column per
    row, fetched in 4096-byte chunks and passed through unchanged. */
module ChunkedRead {
  import opened OdbcDriver
  import opened JsonText
  import opened JsonEscape
  import opened JsonBuffer

  const CHUNK_SIZE: nat := 4096

  /** The first column of a row. */
  datatype Value = Missing | Present(text: string)

  /** SQLGetData on that column. A call hands out what fits the buffer next to its NUL. The indicator is
      the number of bytes that were left before the call; while more is to come the driver may decline
      to tell it. Any call may fail. */
  class ColumnReader {
    const value: Value
    var taken: nat
    var finished: bool

    ghost predicate Valid()
      reads this
    {
      && (value.Missing? ==> taken == 0)
      && (value.Present? ==> taken <= |value.text| && (finished ==> taken == |value.text|))
    }

    ghost function Left(): string
      requires Valid()
      reads this
    {
      if value.Missing? then "" else value.text[taken..]
    }

    ghost function Text(): string {
      if value.Missing? then "" else value.text
    }

    constructor (value: Value)
      ensures Valid() && this.value == value && taken == 0 && !finished
    {
      this.value, taken, finished := value, 0, false;
    }

    method GetData(size: nat) returns (ret: Return, chunk: string, indicator: int)
      requires Valid() && size > 1
      modifies this
      ensures Valid()
      ensures ret.Error? ==> taken == old(taken) && finished == old(finished)
      ensures ret.NoData? ==> old(finished) && finished && taken == old(taken)
      ensures Succeeded(ret) ==> !old(finished) && finished == (ret.Success?)
      ensures Succeeded(ret) && value.Missing? ==> ret.Success? && indicator == NULL_DATA
      ensures Succeeded(ret) && value.Present? ==> chunk + Left() == old(Left()) && |chunk| < size
      ensures ret.Success? && value.Present? ==> indicator == |chunk| && Left() == ""
      ensures ret.SuccessWithInfo? ==>
        value.Present? && |chunk| == size - 1 && Left() != "" && (indicator == NO_TOTAL || indicator == |old(Left())|)
      ensures ret.NoData? && value.Present? ==> indicator == 0
    {
      var fails, tells := *, *;
      chunk, indicator := "", 0;
      if fails {
        ret := Error;
      } else if finished {
        ret := NoData;
      } else if value.Missing? {
        ret, indicator, finished := Success, NULL_DATA, true;
      } else {
        var left := |value.text| - taken;
        if left >= size {
          ret, chunk := SuccessWithInfo, value.text[taken..taken + size - 1];
          indicator := if tells then left else NO_TOTAL;
          taken := taken + size - 1;
        } else {
          ret, chunk, indicator := Success, value.text[taken..], left;
          taken, finished := |value.text|, true;
        }
      }
    }
  }

  /** What a row adds to the output: a missing value is written only where nothing precedes it. */
  function RowOut(value: Value, written: bool): string {
    match value
    case Missing => if written then "" else "null"
    case Present(text) => text
  }

  function Writes(value: Value): bool {
    value.Missing? || value.text != ""
  }

  /** How many bytes of the chunk the loop copies. */
  function CopyCount(chunk: string, indicator: int): nat {
    if indicator == NO_TOTAL || indicator >= CHUNK_SIZE - 1 then CHUNK_SIZE - 1
    else if indicator >= 0 then indicator
    else |CStr(chunk)|
  }

  /** The bytes copied are exactly the bytes the call handed out. */
  lemma CopiesTheChunk(chunk: string, indicator: int)
    requires |chunk| < CHUNK_SIZE
    requires indicator == |chunk| || (|chunk| == CHUNK_SIZE - 1 && (indicator == NO_TOTAL || indicator >= |chunk|))
    ensures CopyCount(chunk, indicator) == |chunk| && chunk[..|chunk|] == chunk
  {
  }

  method AddChunk(ev: EvBuffer, chunk: string, indicator: int, written: bool) returns (wrote: bool)
    requires CopyCount(chunk, indicator) == |chunk|
    modifies ev
    ensures ev.data == old(ev.data) + chunk && wrote == (written || chunk != "")
  {
    wrote := written;
    var count := CopyCount(chunk, indicator);
    if count > 0 {
      ev.Add(chunk[..count]);
      wrote := true;
    }
  }

  /** `fetch_json_native_col_loop`. Whatever chunks the driver hands out, the bytes added are exactly the
      column's, for every length. After a failed call they are the beginning of it. */
  method ReadColumn(ev: EvBuffer, column: ColumnReader, written: bool) returns (ok: bool, wrote: bool)
    requires column.Valid() && column.taken == 0 && !column.finished
    modifies ev, column
    ensures ok ==> ev.data == old(ev.data) + RowOut(column.value, written) && wrote == (written || Writes(column.value))
    ensures !ok ==> exists got :: got <= column.Text() && ev.data == old(ev.data) + got
  {
    hide CStr, CopyCount;
    wrote := written;
    ghost var before, got := ev.data, "";
    var ret := SuccessWithInfo;
    while ret.SuccessWithInfo?
      invariant column.Valid() && (ret.SuccessWithInfo? || ret.Success?) && (column.finished <==> ret.Success?)
      invariant column.value.Present? ==>
        ev.data == before + got && got + column.Left() == column.value.text && wrote == (written || got != "")
      invariant column.value.Present? && ret.Success? ==> column.Left() == ""
      invariant column.value.Missing? && ret.SuccessWithInfo? ==> ev.data == before && got == "" && wrote == written
      invariant column.value.Missing? && ret.Success? ==> ev.data == before + RowOut(Missing, written) && wrote
      decreases ret.SuccessWithInfo?, |column.Left()|
    {
      var chunk, indicator;
      ghost var left := column.Left();
      ret, chunk, indicator := column.GetData(CHUNK_SIZE);
      if ret.Error? {
        assert got <= column.Text() && ev.data == before + got;
        return false, wrote;
      }
      if indicator == NULL_DATA {
        if !wrote {
          ev.Add("null");
          wrote := true;
        }
        ret := Success;
      } else if !ret.NoData? {
        CopiesTheChunk(chunk, indicator);
        wrote := AddChunk(ev, chunk, indicator, wrote);
        Handed(got, chunk, column.Left(), left, before);
        got := got + chunk;
      }
    }
    assert column.value.Present? ==> got == column.value.text;
    ok := true;
  }

  lemma Handed(got: string, chunk: string, rest: string, left: string, before: string)
    requires chunk + rest == left
    ensures (got + chunk) + rest == got + left && (before + got) + chunk == before + (got + chunk)
  {
  }

  /** All rows in order, starting with `written`. */
  function RowsOut(rows: seq<Value>, written: bool): string {
    if rows == [] then "" else RowOut(rows[0], written) + RowsOut(rows[1..], written || Writes(rows[0]))
  }

  /** `db_fetch_json_native`; `complete` tells whether SQLFetch reached the end of the rows. */
  method FetchNative(ev: EvBuffer, rows: seq<Value>, complete: bool) returns (ok: bool)
    modifies ev
    ensures ok ==> complete && ev.data == old(ev.data) + if rows == [] then "[]" else RowsOut(rows, false)
    ensures old(ev.data) <= ev.data
  {
    hide RowOut, Writes;
    var hasRows, written := false, false;
    ghost var before := ev.data;
    ghost var whole := before + RowsOut(rows, false);
    assert rows[0..] == rows;
    for i := 0 to |rows|
      invariant hasRows == (i > 0) && (i == 0 ==> ev.data == before)
      invariant ev.data + RowsOut(rows[i..], written) == whole && before <= ev.data
    {
      hasRows := true;
      var column := new ColumnReader(rows[i]);
      assert rows[i..][0] == rows[i] && rows[i..][1..] == rows[i + 1..];
      ok, written := ReadColumn(ev, column, written);
      if !ok {
        return;
      }
    }
    if !complete {
      return false;
    }
    if !hasRows {
      ev.Add("[]");
    }
    ok := true;
  }

  // ---------- what the rows add up to ----------

  function Join(rows: seq<Value>): string {
    if rows == [] then ""
    else (if rows[0].Present? then rows[0].text else "") + Join(rows[1..])
  }

  /** Whether a missing value comes before any text. */
  predicate LeadingNull(rows: seq<Value>) {
    rows != [] && (rows[0].Missing? || (rows[0].text == "" && LeadingNull(rows[1..])))
  }

  /** The output is the rows' texts joined, with `null` in front exactly when a missing value precedes
      all text; missing values after that leave no trace. */
  lemma {:induction false} RowsAddUp(rows: seq<Value>, written: bool)
    ensures RowsOut(rows, written) == (if !written && LeadingNull(rows) then "null" else "") + Join(rows)
    decreases |rows|
  {
    if rows != [] {
      RowsAddUp(rows[1..], written || Writes(rows[0]));
    }
  }

  /** The rows come out as their joined texts exactly when no missing value precedes all text. */
  lemma PassesThroughIff(rows: seq<Value>)
    ensures RowsOut(rows, false) == Join(rows) <==> !LeadingNull(rows)
  {
    RowsAddUp(rows, false);
    if LeadingNull(rows) {
      assert |"null" + Join(rows)| > |Join(rows)|;
    }
  }

  /** SkipSpace leaves nothing of a text only where no value starts. */
  lemma NothingToParse(text: string)
    requires ParseText(text).Parsed?
    ensures SkipSpace(text) != ""
  {
  }

  /** A complete value after `null` makes the whole no JSON text. */
  lemma GluedNull(text: string)
    requires ParseText(text).Parsed?
    ensures ParseText("null" + text) == Fail
  {
    NothingToParse(text);
    var s := "null" + text;
    assert SkipSpace(s) == s;
    assert s[4..] == text;
    assert ParseValue(s) == Parsed(Null, text);
  }

  /** Whatever JSON text the database made, in whatever style and however it spread it over rows, arrives
      with its value exactly when no missing value precedes all text; otherwise `null` is glued to it and
      the output is no JSON text. */
  lemma SpreadJsonComesBackIff(rows: seq<Value>)
    requires ParseText(Join(rows)).Parsed?
    ensures ParseText(RowsOut(rows, false)) == ParseText(Join(rows)) <==> !LeadingNull(rows)
    ensures LeadingNull(rows) ==> ParseText(RowsOut(rows, false)) == Fail
  {
    hide ParseText;
    RowsAddUp(rows, false);
    if LeadingNull(rows) {
      GluedNull(Join(rows));
    } else {
      assert "" + Join(rows) == Join(rows);
    }
  }
}
