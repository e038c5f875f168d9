/** Streaming result sets as JSON (lib/dbapi.c): cells, rows, arrays of rows and the multi-result
    object. What is streamed is one RFC 8259 text that parses back to exactly the rows. */
module ResultSet {
  import opened Decimal
  import opened JsonText
  import opened JsonEscape
  import opened JsonBuffer
  import RealText
  import opened OdbcDriver

  const KEY_SIZE: nat := 256
  const NUMBER_BUFFER: nat := 64

  /** A bound column value of the current row. `Exact` is DECIMAL or NUMERIC, fetched as text; `printed`
      is what snprintf prints for a double. */
  datatype Cell =
    | NullCell
    | Bit(on: bool)
    | Int32(i: int)
    | Int64(l: int)
    | Double(d: RealText.Double, printed: string)
    | Text(s: string)
    | Exact(s: string)

  /** `cached` tells whether the key was precomputed (it is unless no buffer could be allocated). */
  datatype Column = Column(name: string, cached: bool)

  predicate InRange(cell: Cell) {
    match cell
    case Int32(i) => -0x8000_0000 <= i < 0x8000_0000
    case Int64(l) => -0x8000_0000_0000_0000 <= l < 0x8000_0000_0000_0000
    case _ => true
  }

  // ---------- the text of a character column ----------

  /** What `append_col_value` takes as the length of a character column: the driver stored the value cut
      to the buffer and a NUL; the indicator is the value's full length, or unknown. */
  function ColumnText(value: string, allocSize: nat, lengthKnown: bool): string
    requires allocSize > 0
  {
    var stored := if |value| < allocSize then value else value[..allocSize - 1];
    if lengthKnown then stored else CStr(stored)
  }

  /** The column arrives whole exactly when it fits its buffer with the NUL, and, if the driver does not
      tell its length, holds no NUL. */
  lemma ColumnArrivesIff(value: string, allocSize: nat, lengthKnown: bool)
    requires allocSize > 0
    ensures ColumnText(value, allocSize, lengthKnown) == value <==>
      |value| < allocSize && (lengthKnown || forall i :: 0 <= i < |value| ==> value[i] != NUL)
  {
    if !lengthKnown && |value| < allocSize && CStr(value) == value {
      assert forall i :: 0 <= i < |value| ==> value[i] != NUL;
    }
  }

  /** What a driver leaves in a character buffer: the value, or as much of it as fits, and a NUL. */
  predicate Delivered(value: string, buffer: string, ind: int) {
    && |buffer| > 0 && (ind == NO_TOTAL || ind == |value|)
    && var n := if |value| < |buffer| then |value| else |buffer| - 1;
       buffer[..n] == value[..n] && buffer[n] == NUL
  }

  lemma TerminatedText(text: string, buffer: string)
    requires |text| < |buffer| && buffer[..|text|] == text && buffer[|text|] == NUL
    ensures CStr(buffer) == CStr(text)
  {
    var n := |CStr(text)|;
    assert buffer[..n] == text[..n] == CStr(text) && buffer[n] == NUL;
    assert forall i :: 0 <= i < n ==> buffer[i] == CStr(text)[i] != NUL;
  }

  /** The length taken by `append_col_value` for a character column: `strlen` when the length is not
      known, the buffer without its NUL when the value was too long. */
  method ReadText(buffer: string, ind: int, ghost value: string) returns (text: string)
    requires Delivered(value, buffer, ind)
    ensures text == ColumnText(value, |buffer|, ind != NO_TOTAL)
    ensures text <= value && (ind != NO_TOTAL ==> |text| == if |value| < |buffer| then |value| else |buffer| - 1)
  {
    hide CStr;
    if ind == NO_TOTAL {
      text := CStr(buffer);
      TerminatedText(if |value| < |buffer| then value else value[..|buffer| - 1], buffer);
    } else if ind >= |buffer| {
      text := buffer[..|buffer| - 1];
    } else {
      text := buffer[..ind];
    }
  }

  // ---------- the value a row stands for ----------

  function CellJson(cell: Cell): Json {
    match cell
    case NullCell => Null
    case Bit(on) => Bool(on)
    case Int32(i) => Num(Signed(i))
    case Int64(l) => Num(Signed(l))
    case Double(d, printed) => Num(RealText.DoubleText(d, printed, NUMBER_BUFFER))
    case Text(s) => Str(s)
    case Exact(s) => if s == "" then Null else Num(s)
  }

  function RowMembers(cols: seq<Column>, cells: seq<Cell>): seq<Member>
    requires |cells| == |cols|
  {
    seq(|cols|, i requires 0 <= i < |cols| => Member(cols[i].name, CellJson(cells[i])))
  }

  function RowJson(cols: seq<Column>, cells: seq<Cell>): Json
    requires |cells| == |cols|
  {
    Obj(RowMembers(cols, cells))
  }

  // ---------- what that value means ----------

  /** An integer text without leading zeros that reads as v. */
  predicate IsIntegerText(text: string, v: int) {
    && text != "" && AllDigits(if text[0] == '-' then text[1..] else text)
    && IntOf(text) == v && text == Signed(v)
  }

  /** A number text for a double: zero for infinities and non-numbers, the C library's text above 1e15, and
      otherwise within half a millionth unless the fraction rounds up to one. */
  predicate IsDoubleText(text: string, d: RealText.Double, printed: string) {
    match d
    case Finite(_, magnitude) =>
      && (magnitude > 1000000000000000.0 && |printed| < 64 ==> text == printed)
      && (magnitude <= 1000000000000000.0 ==> RealText.IsPlain(text))
      && (magnitude <= 1000000000000000.0 && RealText.FracPart(magnitude) < 0.9999995 ==>
            RealText.Abs(RealText.RealOf(text) - RealText.Value(d)) <= 0.0000005)
    case _ => text == "0"
  }

  /** The JSON value that a column value must arrive as. */
  predicate Means(cell: Cell, v: Json) {
    match cell
    case NullCell => v == Null
    case Bit(on) => v == Bool(on)
    case Int32(i) => v.Num? && IsIntegerText(v.text, i)
    case Int64(l) => v.Num? && IsIntegerText(v.text, l)
    case Double(d, printed) => v.Num? && IsDoubleText(v.text, d, printed)
    case Text(s) => v == Str(s)
    case Exact(s) => v == if s == "" then Null else Num(s)
  }

  /** The bytes that must be written for a column value. */
  predicate Renders(cell: Cell, bytes: string) {
    match cell
    case NullCell => bytes == "null"
    case Bit(on) => bytes == if on then "true" else "false"
    case Int32(i) => IsIntegerText(bytes, i)
    case Int64(l) => IsIntegerText(bytes, l)
    case Double(d, printed) => IsDoubleText(bytes, d, printed)
    case Text(s) => bytes != "" && bytes[0] == '"' && ParseString(bytes[1..]) == Parsed(s, "")
    case Exact(s) => bytes == if s == "" then "null" else s
  }

  lemma DoubleReads(d: RealText.Double, printed: string)
    ensures IsDoubleText(RealText.DoubleText(d, printed, NUMBER_BUFFER), d, printed)
  {
    hide RealText.IsPlain, RealText.RealOf, RealText.Text, RealText.Head;
    if d.Finite? && d.magnitude <= RealText.LIMIT {
      RealText.HeadFits(d.negative, d.magnitude);
      RealText.AccurateIff(d, printed, NUMBER_BUFFER);
    }
  }

  /** The value chosen for a cell is the one it must arrive as, and its text the one that must be written. */
  lemma CellStandsForValue(cell: Cell)
    ensures Means(cell, CellJson(cell)) && Renders(cell, Print(CellJson(cell)))
  {
    hide Signed, IntOf, AllDigits, IsDoubleText, RealText.DoubleText, ParseString;
    match cell {
      case Int32(i) => SignedReadsBack(i);
      case Int64(l) => SignedReadsBack(l);
      case Double(d, printed) => DoubleReads(d, printed);
      case Text(s) =>
        QuoteComesBack(s, "");
        assert Quote(s) + "" == Quote(s);
      case _ =>
    }
  }

  /** An object with the columns' names and a fitting value for each cell. */
  predicate HoldsRow(v: Json, cols: seq<Column>, cells: seq<Cell>)
    requires |cells| == |cols|
  {
    && v.Obj? && |v.members| == |cols|
    && forall i :: 0 <= i < |cols| ==> v.members[i].key == cols[i].name && Means(cells[i], v.members[i].value)
  }

  lemma RowHolds(cols: seq<Column>, cells: seq<Cell>)
    requires |cells| == |cols|
    ensures HoldsRow(RowJson(cols, cells), cols, cells)
  {
    hide Means, CellJson;
    forall i | 0 <= i < |cols| ensures Means(cells[i], RowJson(cols, cells).members[i].value) {
      CellStandsForValue(cells[i]);
    }
  }

  /** An array of such objects, one per row in order. */
  predicate HoldsRows(v: Json, cols: seq<Column>, rows: seq<seq<Cell>>)
    requires Rectangular(cols, rows)
  {
    v.Arr? && |v.items| == |rows| && forall r :: 0 <= r < |rows| ==> HoldsRow(v.items[r], cols, rows[r])
  }

  lemma RowsHold(cols: seq<Column>, rows: seq<seq<Cell>>)
    requires Rectangular(cols, rows)
    ensures HoldsRows(Arr(RowsJson(cols, rows)), cols, rows)
  {
    hide HoldsRow;
    forall r | 0 <= r < |rows| ensures HoldsRow(RowsJson(cols, rows)[r], cols, rows[r]) {
      RowHolds(cols, rows[r]);
    }
  }

  predicate Rectangular(cols: seq<Column>, rows: seq<seq<Cell>>) {
    forall r :: 0 <= r < |rows| ==> |rows[r]| == |cols|
  }

  function RowsJson(cols: seq<Column>, rows: seq<seq<Cell>>): seq<Json>
    requires Rectangular(cols, rows)
  {
    seq(|rows|, r requires 0 <= r < |rows| => RowJson(cols, rows[r]))
  }

  /** Decimal texts, and what the C library prints for magnitudes above 1e15, are assumed to be JSON
      numbers; everything else is one by construction. */
  predicate Printable(cell: Cell) {
    match cell
    case Exact(s) => s == "" || IsNumber(s)
    case Double(Finite(_, magnitude), printed) =>
      magnitude <= RealText.LIMIT || (IsNumber(printed) && |printed| < NUMBER_BUFFER)
    case _ => true
  }

  // ---------- keys ----------

  function FullKey(name: string): string {
    Quote(name) + ":"
  }

  /** The key as streamed: a precomputed key is cut to 255 bytes. */
  function KeyText(col: Column): string {
    if col.cached && |FullKey(col.name)| >= KEY_SIZE then FullKey(col.name)[..KEY_SIZE - 1] else FullKey(col.name)
  }

  predicate KeyFits(col: Column) {
    !col.cached || |FullKey(col.name)| < KEY_SIZE
  }

  /** If the beginning of a string text is a string text by itself, it holds the same string and only
      misses the end of what follows it. */
  lemma StringPrefix(s: string, k: nat)
    requires k <= |s| && ParseString(s[..k]).Parsed?
    ensures ParseString(s) == Parsed(ParseString(s[..k]).value, ParseString(s[..k]).rest + s[k..])
  {
    StringIsLocal(s[..k], s[k..]);
    assert s[..k] + s[k..] == s;
  }

  /** A streamed key reads back as the column name followed by its colon exactly when it was not cut. */
  lemma KeyReadsBackIff(col: Column)
    ensures |KeyText(col)| > 0 && (ParseString(KeyText(col)[1..]) == Parsed(col.name, ":") <==> KeyFits(col))
    ensures KeyFits(col) <==> !col.cached || |Quote(col.name)| + 1 <= 255
  {
    hide ParseString;
    var full, text := FullKey(col.name), KeyText(col);
    QuoteComesBack(col.name, ":");
    if !KeyFits(col) && ParseString(text[1..]).Parsed? {
      assert text[1..] == full[1..][..KEY_SIZE - 2];
      StringPrefix(full[1..], KEY_SIZE - 2);
    }
  }

  lemma {:induction false} QuotesDouble(n: nat)
    ensures |Escape(seq(n, _ => '"'))| == 2 * n
  {
    if n > 0 {
      QuotesDouble(n - 1);
      assert seq(n, _ => '"')[1..] == seq(n - 1, _ => '"');
    }
  }

  /** Names the driver may deliver (up to 127 bytes) fit when they need no escape, but a name of 127
      quotation marks does not. */
  lemma KeyCapacity(col: Column)
    ensures |col.name| <= 127 && (forall i :: 0 <= i < |col.name| ==> Clean(col.name[i])) ==> KeyFits(col)
    ensures !KeyFits(Column(seq(127, _ => '"'), true))
  {
    if forall i :: 0 <= i < |col.name| ==> Clean(col.name[i]) {
      CleanRunIsItself(col.name);
    }
    QuotesDouble(127);
  }

  // ---------- rows ----------

  function MemberText(cols: seq<Column>, cells: seq<Cell>, i: nat): string
    requires |cells| == |cols| && i < |cols|
  {
    KeyText(cols[i]) + Print(CellJson(cells[i]))
  }

  /** The first n members with commas between them. */
  function MembersText(cols: seq<Column>, cells: seq<Cell>, n: nat): string
    requires |cells| == |cols| && n <= |cols|
  {
    if n == 0 then ""
    else MembersText(cols, cells, n - 1) + (if n > 1 then "," else "") + MemberText(cols, cells, n - 1)
  }

  function RowText(cols: seq<Column>, cells: seq<Cell>): string
    requires |cells| == |cols|
  {
    "{" + MembersText(cols, cells, |cols|) + "}"
  }

  /** The first n rows with commas between them. */
  function RowsText(cols: seq<Column>, rows: seq<seq<Cell>>, n: nat): string
    requires Rectangular(cols, rows) && n <= |rows|
  {
    if n == 0 then ""
    else RowsText(cols, rows, n - 1) + (if n > 1 then "," else "") + RowText(cols, rows[n - 1])
  }

  lemma PrintMembersOne(m: Member)
    ensures PrintMembers([]) == "" && PrintMembers([m]) == PrintMember(m)
  {
  }

  lemma {:induction false} PrintMembersSnoc(ms: seq<Member>, m: Member)
    ensures PrintMembers(ms + [m]) == PrintMembers(ms) + (if ms != [] then "," else "") + PrintMember(m)
    decreases |ms|
  {
    hide PrintMember, PrintMembers;
    if ms == [] {
      PrintMembersOne(m);
      assert ms + [m] == [m];
    } else {
      var first, rest := ms[0], ms[1..];
      PrintMembersSnoc(rest, m);
      assert ms == [first] + rest && ms + [m] == [first] + (rest + [m]);
      PrintMembersCons(first, rest);
      PrintMembersCons(first, rest + [m]);
      if rest == [] {
        PrintMembersOne(m);
      }
    }
  }

  lemma PrintItemsOne(v: Json)
    ensures PrintItems([]) == "" && PrintItems([v]) == Print(v)
  {
  }

  lemma PrintItemsCons(v: Json, vs: seq<Json>)
    ensures PrintItems([v] + vs) == Print(v) + if vs == [] then "" else "," + PrintItems(vs)
  {
    hide Print;
    assert ([v] + vs)[1..] == vs;
  }

  lemma {:induction false} PrintItemsSnoc(vs: seq<Json>, v: Json)
    ensures PrintItems(vs + [v]) == PrintItems(vs) + (if vs != [] then "," else "") + Print(v)
    decreases |vs|
  {
    hide Print, PrintItems;
    if vs == [] {
      PrintItemsOne(v);
      assert vs + [v] == [v];
    } else {
      var first, rest := vs[0], vs[1..];
      PrintItemsSnoc(rest, v);
      assert vs == [first] + rest && vs + [v] == [first] + (rest + [v]);
      PrintItemsCons(first, rest);
      PrintItemsCons(first, rest + [v]);
      if rest == [] {
        PrintItemsOne(v);
      }
    }
  }

  lemma MemberIsPrinted(cols: seq<Column>, cells: seq<Cell>, i: nat)
    requires |cells| == |cols| && i < |cols| && KeyFits(cols[i])
    ensures MemberText(cols, cells, i) == PrintMember(Member(cols[i].name, CellJson(cells[i])))
  {
    hide Print, Quote, CellJson;
  }

  lemma {:induction false} MembersArePrinted(cols: seq<Column>, cells: seq<Cell>, n: nat)
    requires |cells| == |cols| && n <= |cols| && forall i :: 0 <= i < |cols| ==> KeyFits(cols[i])
    ensures MembersText(cols, cells, n) == PrintMembers(RowMembers(cols, cells)[..n])
  {
    hide MemberText, PrintMember, PrintMembers, KeyFits, CellJson;
    var ms := RowMembers(cols, cells);
    if n == 0 {
      assert ms[..0] == [] && PrintMembers([]) == "" by { NothingPrinted(); }
    } else {
      MembersArePrinted(cols, cells, n - 1);
      MemberIsPrinted(cols, cells, n - 1);
      assert ms[..n] == ms[..n - 1] + [ms[n - 1]];
      PrintMembersSnoc(ms[..n - 1], ms[n - 1]);
    }
  }

  lemma RowIsPrinted(cols: seq<Column>, cells: seq<Cell>)
    requires |cells| == |cols| && forall i :: 0 <= i < |cols| ==> KeyFits(cols[i])
    ensures RowText(cols, cells) == Print(RowJson(cols, cells))
  {
    MembersArePrinted(cols, cells, |cols|);
    assert RowMembers(cols, cells)[..|cols|] == RowMembers(cols, cells);
  }

  lemma {:induction false} RowsArePrinted(cols: seq<Column>, rows: seq<seq<Cell>>, n: nat)
    requires Rectangular(cols, rows) && n <= |rows| && forall i :: 0 <= i < |cols| ==> KeyFits(cols[i])
    ensures RowsText(cols, rows, n) == PrintItems(RowsJson(cols, rows)[..n])
  {
    hide Print, RowText, KeyFits;
    var vs := RowsJson(cols, rows);
    if n > 0 {
      RowsArePrinted(cols, rows, n - 1);
      RowIsPrinted(cols, rows[n - 1]);
      assert vs[..n] == vs[..n - 1] + [vs[n - 1]];
      PrintItemsSnoc(vs[..n - 1], vs[n - 1]);
    }
  }

  lemma CellIsWellFormed(cell: Cell)
    requires Printable(cell)
    ensures WellFormed(CellJson(cell))
  {
    match cell {
      case Int32(i) => SignedIsNumber(i);
      case Int64(l) => SignedIsNumber(l);
      case Double(d, printed) => RealText.DoubleIsNumber(d, printed);
      case _ =>
    }
  }

  predicate AllPrintable(rows: seq<seq<Cell>>) {
    forall r :: 0 <= r < |rows| ==> forall i :: 0 <= i < |rows[r]| ==> Printable(rows[r][i])
  }

  lemma RowIsWellFormed(cols: seq<Column>, cells: seq<Cell>)
    requires |cells| == |cols| && forall i :: 0 <= i < |cells| ==> Printable(cells[i])
    ensures WellFormed(RowJson(cols, cells))
  {
    hide CellJson, Printable, IsNumber;
    forall i | 0 <= i < |cols| ensures WellFormed(RowMembers(cols, cells)[i].value) {
      CellIsWellFormed(cells[i]);
    }
  }

  lemma RowsAreWellFormed(cols: seq<Column>, rows: seq<seq<Cell>>)
    requires Rectangular(cols, rows) && AllPrintable(rows)
    ensures WellFormed(Arr(RowsJson(cols, rows)))
  {
    hide Printable;
    forall r | 0 <= r < |rows| ensures WellFormed(RowsJson(cols, rows)[r]) {
      RowIsWellFormed(cols, rows[r]);
    }
  }

  /** The array form with brackets; a statement without columns gives an empty array. */
  function ArrayText(cols: seq<Column>, rows: seq<seq<Cell>>): string
    requires Rectangular(cols, rows)
  {
    if cols == [] then "[]" else "[" + RowsText(cols, rows, |rows|) + "]"
  }

  /** Main result: the streamed array is one JSON text that parses to exactly the rows, in order, with
      the columns' names and values. */
  lemma ArrayParsesBack(cols: seq<Column>, rows: seq<seq<Cell>>)
    requires cols != [] && Rectangular(cols, rows) && AllPrintable(rows)
    requires forall i :: 0 <= i < |cols| ==> KeyFits(cols[i])
    ensures ParseText(ArrayText(cols, rows)) == Parsed(Arr(RowsJson(cols, rows)), "")
    ensures HoldsRows(ParseText(ArrayText(cols, rows)).value, cols, rows)
  {
    hide KeyFits, AllPrintable, HoldsRows;
    RowsHold(cols, rows);
    RowsAreWellFormed(cols, rows);
    RowsArePrinted(cols, rows, |rows|);
    assert RowsJson(cols, rows)[..|rows|] == RowsJson(cols, rows);
    PrintedTextParses(Arr(RowsJson(cols, rows)));
  }

  predicate AllKeysFit(cols: seq<Column>, n: nat)
    requires n <= |cols|
  {
    forall i :: 0 <= i < n ==> KeyFits(cols[i])
  }

  /** Cut keys make the members shorter, whole keys do not. */
  lemma {:induction false} MembersLength(cols: seq<Column>, cells: seq<Cell>, n: nat)
    requires |cells| == |cols| && n <= |cols|
    ensures var text, whole := MembersText(cols, cells, n), PrintMembers(RowMembers(cols, cells)[..n]);
      |text| <= |whole| && (|text| == |whole| <==> AllKeysFit(cols, n))
  {
    hide Print, PrintMember, PrintMembers, KeyFits, MemberText;
    var ms := RowMembers(cols, cells);
    if n == 0 {
      assert |PrintMembers(ms[..0])| == 0 by { NothingPrinted(); }
    } else {
      MembersLength(cols, cells, n - 1);
      MemberLength(cols, cells, n - 1);
      assert ms[..n] == ms[..n - 1] + [ms[n - 1]];
      PrintMembersSnoc(ms[..n - 1], ms[n - 1]);
      assert AllKeysFit(cols, n) <==> AllKeysFit(cols, n - 1) && KeyFits(cols[n - 1]);
    }
  }

  lemma NothingPrinted()
    ensures PrintMembers([]) == ""
  {
  }

  lemma MemberLength(cols: seq<Column>, cells: seq<Cell>, i: nat)
    requires |cells| == |cols| && i < |cols|
    ensures var text, whole := MemberText(cols, cells, i), PrintMember(Member(cols[i].name, CellJson(cells[i])));
      |text| <= |whole| && (|text| == |whole| <==> KeyFits(cols[i]))
  {
    hide Print, Quote, CellJson;
  }

  lemma RowLength(cols: seq<Column>, cells: seq<Cell>)
    requires |cells| == |cols|
    ensures |RowText(cols, cells)| <= |Print(RowJson(cols, cells))|
    ensures |RowText(cols, cells)| == |Print(RowJson(cols, cells))| <==> AllKeysFit(cols, |cols|)
  {
    hide AllKeysFit, MembersText;
    MembersLength(cols, cells, |cols|);
    assert RowMembers(cols, cells)[..|cols|] == RowMembers(cols, cells);
  }

  lemma {:induction false} RowsLength(cols: seq<Column>, rows: seq<seq<Cell>>, n: nat)
    requires Rectangular(cols, rows) && n <= |rows|
    ensures var text, whole := RowsText(cols, rows, n), PrintItems(RowsJson(cols, rows)[..n]);
      |text| <= |whole| && (|text| == |whole| <==> n == 0 || AllKeysFit(cols, |cols|))
  {
    hide Print, RowText, AllKeysFit;
    var vs := RowsJson(cols, rows);
    if n > 0 {
      RowsLength(cols, rows, n - 1);
      RowLength(cols, rows[n - 1]);
      assert vs[..n] == vs[..n - 1] + [vs[n - 1]];
      PrintItemsSnoc(vs[..n - 1], vs[n - 1]);
    }
  }

  /** The streamed array is the JSON text of its rows exactly when there is no row or every key fits. */
  lemma ArrayIsPrintedIff(cols: seq<Column>, rows: seq<seq<Cell>>)
    requires cols != [] && Rectangular(cols, rows)
    ensures ArrayText(cols, rows) == Print(Arr(RowsJson(cols, rows))) <==> rows == [] || AllKeysFit(cols, |cols|)
  {
    hide RowsText, KeyFits;
    RowsLength(cols, rows, |rows|);
    assert RowsJson(cols, rows)[..|rows|] == RowsJson(cols, rows);
    if rows == [] {
      assert RowsText(cols, rows, 0) == "" by { NoRows(cols, rows); }
    } else if AllKeysFit(cols, |cols|) {
      RowsArePrinted(cols, rows, |rows|);
    }
  }

  lemma NoRows(cols: seq<Column>, rows: seq<seq<Cell>>)
    requires Rectangular(cols, rows)
    ensures RowsText(cols, rows, 0) == ""
  {
  }

  // ---------- several result sets ----------

  datatype Result = Result(cols: seq<Column>, rows: seq<seq<Cell>>)

  predicate WellShaped(results: seq<Result>) {
    forall k :: 0 <= k < |results| ==> Rectangular(results[k].cols, results[k].rows)
  }

  function ResultKey(index: nat): string {
    "r" + Signed(index)
  }

  /** Members for the results that have columns, numbered from `index`. */
  function ResultMembers(results: seq<Result>, index: nat): seq<Member>
    requires WellShaped(results)
  {
    if results == [] then []
    else if results[0].cols == [] then ResultMembers(results[1..], index)
    else [Member(ResultKey(index), Arr(RowsJson(results[0].cols, results[0].rows)))] + ResultMembers(results[1..], index + 1)
  }

  function MultiJson(results: seq<Result>): Json
    requires WellShaped(results)
  {
    var members := ResultMembers(results, 1);
    if members == [] then Arr([]) else Obj(members)
  }

  function Opening(first: bool): string {
    if first then "{" else ","
  }

  /** One member of the multi-result object, with what precedes it. */
  function ResultText(result: Result, index: nat, first: bool): string
    requires Rectangular(result.cols, result.rows)
  {
    Opening(first) + "\"r" + Signed(index) + "\":[" + RowsText(result.cols, result.rows, |result.rows|) + "]"
  }

  /** What is streamed for the remaining results; `first` tells whether none was streamed yet. */
  function ResultsText(results: seq<Result>, index: nat, first: bool): string
    requires WellShaped(results)
  {
    if results == [] then (if first then "[]" else "}")
    else if results[0].cols == [] then ResultsText(results[1..], index, first)
    else
      ResultText(results[0], index, first) + ResultsText(results[1..], index + 1, false)
  }

  predicate AllFit(results: seq<Result>) {
    forall k :: 0 <= k < |results| ==>
      AllPrintable(results[k].rows) && forall i :: 0 <= i < |results[k].cols| ==> KeyFits(results[k].cols[i])
  }

  lemma ResultKeyIsClean(index: nat)
    ensures Quote(ResultKey(index)) == "\"r" + Signed(index) + "\""
  {
    hide Signed, Escape, Quote;
    SignedIsClean(index);
    CleanKey("r" + Signed(index));
    assert "\"" + ("r" + Signed(index)) + "\"" == "\"r" + Signed(index) + "\"";
  }

  lemma SignedIsClean(n: nat)
    ensures forall i :: 0 <= i < |Signed(n)| ==> Clean(Signed(n)[i])
  {
    DigitsAreCanonical(n);
    forall i | 0 <= i < |Signed(n)| ensures Clean(Signed(n)[i]) {
      assert IsDigit(Signed(n)[i]);
    }
  }

  lemma ResultIsPrinted(result: Result, index: nat, first: bool)
    requires Rectangular(result.cols, result.rows) && forall i :: 0 <= i < |result.cols| ==> KeyFits(result.cols[i])
    ensures ResultText(result, index, first) ==
      Opening(first) + PrintMember(Member(ResultKey(index), Arr(RowsJson(result.cols, result.rows))))
  {
    hide KeyFits, RowsText, Signed;
    ResultKeyIsClean(index);
    RowsArePrinted(result.cols, result.rows, |result.rows|);
    assert RowsJson(result.cols, result.rows)[..|result.rows|] == RowsJson(result.cols, result.rows);
  }

  lemma {:induction false} ResultsArePrinted(results: seq<Result>, index: nat, first: bool)
    requires WellShaped(results) && AllFit(results)
    ensures var members := ResultMembers(results, index);
      ResultsText(results, index, first) ==
        if members == [] then (if first then "[]" else "}")
        else Opening(first) + PrintMembers(members) + "}"
    decreases |results|
  {
    hide ResultText, Print, PrintMember, PrintMembers, AllPrintable, KeyFits, Rectangular, Opening;
    if results != [] {
      TailShaped(results);
      if results[0].cols == [] {
        ResultsArePrinted(results[1..], index, first);
      } else {
        ResultsArePrinted(results[1..], index + 1, false);
        ResultIsPrinted(results[0], index, first);
        var member := Member(ResultKey(index), Arr(RowsJson(results[0].cols, results[0].rows)));
        FirstMember(member, ResultMembers(results[1..], index + 1), first, ResultsText(results[1..], index + 1, false));
      }
    }
  }

  lemma FirstMember(member: Member, others: seq<Member>, first: bool, rest: string)
    requires rest == if others == [] then "}" else Opening(false) + PrintMembers(others) + "}"
    ensures (Opening(first) + PrintMember(member)) + rest == Opening(first) + PrintMembers([member] + others) + "}"
  {
    hide PrintMember, PrintMembers;
    PrintMembersCons(member, others);
  }

  lemma TailShaped(results: seq<Result>)
    requires results != [] && WellShaped(results)
    ensures WellShaped(results[1..]) && (AllFit(results) ==> AllFit(results[1..]))
  {
    hide AllPrintable, KeyFits, Rectangular;
    forall k | 0 <= k < |results[1..]| ensures results[1..][k] == results[k + 1] {
    }
  }

  lemma PrintMembersCons(m: Member, ms: seq<Member>)
    ensures PrintMembers([m] + ms) == PrintMember(m) + if ms == [] then "" else "," + PrintMembers(ms)
  {
    hide PrintMember;
    assert ([m] + ms)[1..] == ms;
  }

  lemma {:induction false} MembersAreWellFormed(results: seq<Result>, index: nat)
    requires WellShaped(results) && AllFit(results)
    ensures forall i :: 0 <= i < |ResultMembers(results, index)| ==> WellFormed(ResultMembers(results, index)[i].value)
    decreases |results|
  {
    hide AllPrintable, KeyFits, WellFormed, Rectangular;
    if results != [] {
      TailShaped(results);
      if results[0].cols == [] {
        MembersAreWellFormed(results[1..], index);
      } else {
        MembersAreWellFormed(results[1..], index + 1);
        assert AllPrintable(results[0].rows);
        RowsAreWellFormed(results[0].cols, results[0].rows);
      }
    }
  }

  /** The results that have columns. */
  function Shown(results: seq<Result>): seq<Result> {
    if results == [] then []
    else if results[0].cols == [] then Shown(results[1..])
    else [results[0]] + Shown(results[1..])
  }

  /** The k-th member is named r and its number, and holds the k-th result's rows. */
  ghost predicate HoldsResult(m: Member, number: nat, result: Result) {
    && m.key == "r" + Signed(number)
    && Rectangular(result.cols, result.rows) && HoldsRows(m.value, result.cols, result.rows)
  }

  lemma FirstHolds(m: Member, rest: seq<Member>, first: Result, shown: seq<Result>, index: nat)
    requires HoldsResult(m, index, first) && |rest| == |shown|
    requires forall k :: 0 <= k < |rest| ==> HoldsResult(rest[k], index + 1 + k, shown[k])
    ensures forall k :: 0 <= k < |[m] + rest| ==> HoldsResult(([m] + rest)[k], index + k, ([first] + shown)[k])
  {
    hide HoldsResult;
    forall k | 0 <= k < |[m] + rest| ensures HoldsResult(([m] + rest)[k], index + k, ([first] + shown)[k]) {
      if k > 0 {
        assert HoldsResult(rest[k - 1], index + 1 + (k - 1), shown[k - 1]);
      }
    }
  }

  lemma {:induction false} ResultsHold(results: seq<Result>, index: nat)
    requires WellShaped(results)
    ensures var ms := ResultMembers(results, index);
      |ms| == |Shown(results)| && forall k :: 0 <= k < |ms| ==> HoldsResult(ms[k], index + k, Shown(results)[k])
    decreases |results|
  {
    hide HoldsRows, Signed, Rectangular;
    if results != [] {
      TailShaped(results);
      if results[0].cols == [] {
        ResultsHold(results[1..], index);
      } else {
        var rest := ResultMembers(results[1..], index + 1);
        var m := Member(ResultKey(index), Arr(RowsJson(results[0].cols, results[0].rows)));
        ResultsHold(results[1..], index + 1);
        RowsHold(results[0].cols, results[0].rows);
        assert HoldsResult(m, index, results[0]);
        FirstHolds(m, rest, results[0], Shown(results[1..]), index);
      }
    }
  }

  /** The value of the multi-result text: an empty array if no result has columns, else an object with
      members r1, r2, ... holding the rows of the results that have columns, in order. */
  ghost predicate HoldsResults(v: Json, results: seq<Result>) {
    var shown := Shown(results);
    if shown == [] then v == Arr([])
    else v.Obj? && |v.members| == |shown| && forall k :: 0 <= k < |shown| ==> HoldsResult(v.members[k], k + 1, shown[k])
  }

  /** Main result: the streamed multi-result text is one JSON text: an object with keys r1, r2, ... for
      the results that have columns, in order, each holding exactly its rows; or an empty array. */
  lemma MultiParsesBack(results: seq<Result>)
    requires WellShaped(results) && AllFit(results)
    ensures ParseText(ResultsText(results, 1, true)) == Parsed(MultiJson(results), "")
    ensures HoldsResults(ParseText(ResultsText(results, 1, true)).value, results)
  {
    hide AllFit, WellShaped, ResultMembers, ResultsText, HoldsResult;
    ResultsHold(results, 1);
    ResultsArePrinted(results, 1, true);
    MembersAreWellFormed(results, 1);
    PrintedTextParses(MultiJson(results));
  }

  // ---------- as it runs ----------

  /** `append_col_value`, and the null case of `jbuf_append_row_object`. */
  method AppendCell(w: Writer, cell: Cell)
    requires w.Valid() && InRange(cell)
    modifies w`offset, w.ev, w.stack
    ensures w.Valid() && w.Text() == old(w.Text()) + Print(CellJson(cell))
    ensures Renders(cell, Print(CellJson(cell)))
  {
    CellStandsForValue(cell);
    hide Renders;
    var numBuf := new char[NUMBER_BUFFER];
    match cell {
      case NullCell => w.Add("null");
      case Bit(on) => w.Add(if on then "true" else "false");
      case Int32(i) =>
        IntegersFit(i);
        var len := FastItoa(i, numBuf);
        w.Add(numBuf[..len]);
      case Int64(l) =>
        IntegersFit(l);
        var len := FastLtoa(l, numBuf);
        w.Add(numBuf[..len]);
      case Double(d, printed) =>
        var len := RealText.FastDtoa(d, printed, numBuf);
        w.Add(numBuf[..len]);
      case Text(s) => w.AppendEscaped(s);
      case Exact(s) =>
        if |s| == 0 { w.Add("null"); } else { w.Add(s); }
    }
  }

  lemma IntegersFit(v: int)
    requires -0x8000_0000_0000_0000 <= v < 0x8000_0000_0000_0000
    ensures |Signed(v)| + 1 <= 32
  {
    CountsAgree(if v < 0 then -v else v);
  }

  lemma Assoc(a: string, b: string, c: string)
    ensures (a + b) + c == a + (b + c)
  {
  }

  /** The row object as far as its first n members, with the comma that announces the next one. */
  ghost function RowSoFar(cols: seq<Column>, cells: seq<Cell>, n: nat): string
    requires |cells| == |cols| && n <= |cols|
  {
    "{" + MembersText(cols, cells, n) + Comma(0 < n < |cols|)
  }

  function Comma(needed: bool): string {
    if needed then "," else ""
  }

  lemma RowStep(cols: seq<Column>, cells: seq<Cell>, i: nat)
    requires |cells| == |cols| && i < |cols|
    ensures RowSoFar(cols, cells, i) + (MemberText(cols, cells, i) + Comma(i + 1 < |cols|)) == RowSoFar(cols, cells, i + 1)
  {
    hide MemberText;
  }

  /** `jbuf_append_row_object`. */
  method AppendRow(w: Writer, cols: seq<Column>, cells: seq<Cell>)
    requires w.Valid() && |cells| == |cols| && forall i :: 0 <= i < |cells| ==> InRange(cells[i])
    modifies w`offset, w.ev, w.stack
    ensures w.Valid() && w.Text() == old(w.Text()) + RowText(cols, cells)
  {
    hide MembersText, MemberText, InRange;
    ghost var before := w.Text();
    w.AddChar('{');
    assert RowSoFar(cols, cells, 0) == "{" by { NoMembers(cols, cells); }
    hide RowSoFar;
    for i := 0 to |cols|
      invariant w.Valid() && w.Text() == before + RowSoFar(cols, cells, i)
    {
      AppendMember(w, cols, cells, i);
      RowStep(cols, cells, i);
      Assoc(before, RowSoFar(cols, cells, i), MemberText(cols, cells, i) + Comma(i + 1 < |cols|));
    }
    w.AddChar('}');
    RowEnds(cols, cells, before);
  }

  lemma NoMembers(cols: seq<Column>, cells: seq<Cell>)
    requires |cells| == |cols|
    ensures RowSoFar(cols, cells, 0) == "{"
  {
  }

  lemma RowEnds(cols: seq<Column>, cells: seq<Cell>, before: string)
    requires |cells| == |cols|
    ensures before + RowSoFar(cols, cells, |cols|) + "}" == before + RowText(cols, cells)
  {
    hide MembersText;
    assert RowSoFar(cols, cells, |cols|) + "}" == RowText(cols, cells);
    Assoc(before, RowSoFar(cols, cells, |cols|), "}");
  }

  method AppendMember(w: Writer, cols: seq<Column>, cells: seq<Cell>, i: nat)
    requires w.Valid() && |cells| == |cols| && i < |cols| && InRange(cells[i])
    modifies w`offset, w.ev, w.stack
    ensures w.Valid() && w.Text() == old(w.Text()) + (MemberText(cols, cells, i) + Comma(i + 1 < |cols|))
  {
    hide Print, CellJson, InRange, KeyText, Renders;
    AppendKey(w, cols[i]);
    AppendCell(w, cells[i]);
    if i + 1 < |cols| {
      w.AddChar(',');
    }
  }

  /** The key is escaped once per column, into a 256-byte buffer that keeps a NUL. */
  method PrecomputeKey(name: string) returns (key: string)
    ensures key == KeyText(Column(name, true))
  {
    hide Quote;
    var scratch := new EvBuffer();
    AppendQuoted(scratch, name);
    scratch.Add(":");
    var len: nat := |scratch.data|;
    if len >= KEY_SIZE {
      len := KEY_SIZE - 1;
    }
    key := scratch.data[..len];
  }

  method AppendKey(w: Writer, col: Column)
    requires w.Valid()
    modifies w`offset, w.ev, w.stack
    ensures w.Valid() && w.Text() == old(w.Text()) + KeyText(col)
  {
    if col.cached {
      var key := PrecomputeKey(col.name);
      w.Add(key);
    } else {
      w.AppendEscaped(col.name);
      w.AddChar(':');
    }
  }

  predicate RowsInRange(rows: seq<seq<Cell>>) {
    forall r :: 0 <= r < |rows| ==> forall i :: 0 <= i < |rows[r]| ==> InRange(rows[r][i])
  }

  /** The fetch loop: rows with commas between them. */
  method AppendRows(w: Writer, cols: seq<Column>, rows: seq<seq<Cell>>)
    requires w.Valid() && Rectangular(cols, rows) && RowsInRange(rows)
    modifies w`offset, w.ev, w.stack
    ensures w.Valid() && w.Text() == old(w.Text()) + RowsText(cols, rows, |rows|)
  {
    hide RowText, InRange;
    ghost var before := w.Text();
    assert RowsText(cols, rows, 0) == "";
    var firstRow := true;
    for r := 0 to |rows|
      invariant w.Valid() && firstRow == (r == 0) && w.Text() == before + RowsText(cols, rows, r)
    {
      if !firstRow {
        w.AddChar(',');
      }
      firstRow := false;
      AppendRow(w, cols, rows[r]);
      RowsStep(cols, rows, r, before);
    }
  }

  lemma RowsStep(cols: seq<Column>, rows: seq<seq<Cell>>, r: nat, before: string)
    requires Rectangular(cols, rows) && r < |rows|
    ensures r == 0 ==> before + RowsText(cols, rows, r) + RowText(cols, rows[r]) == before + RowsText(cols, rows, r + 1)
    ensures r > 0 ==>
      before + RowsText(cols, rows, r) + [','] + RowText(cols, rows[r]) == before + RowsText(cols, rows, r + 1)
  {
    hide RowText;
  }

  /** How fetching a result set went: binding may fail, and so may a fetch after the given rows. */
  datatype Fetch = Fetch(result: Result, bound: bool, complete: bool)

  /** `fetch_resultset_array`. A failed fetch leaves the rows so far without the closing bracket. */
  method FetchArray(ev: EvBuffer, fetch: Fetch, brackets: bool) returns (ok: bool)
    requires Rectangular(fetch.result.cols, fetch.result.rows) && RowsInRange(fetch.result.rows)
    modifies ev
    ensures !fetch.bound ==> !ok && ev.data == old(ev.data)
    ensures fetch.bound && brackets && fetch.result.cols == [] ==> ok && ev.data == old(ev.data) + "[]"
    ensures fetch.bound && !(brackets && fetch.result.cols == []) ==> ok == fetch.complete
    ensures fetch.bound && brackets && fetch.result.cols != [] ==>
      ev.data == old(ev.data) + "[" + RowsText(fetch.result.cols, fetch.result.rows, |fetch.result.rows|) + (if ok then "]" else "")
    ensures fetch.bound && !brackets ==>
      ev.data == old(ev.data) + RowsText(fetch.result.cols, fetch.result.rows, |fetch.result.rows|)
  {
    hide RowsText, RowsInRange, Rectangular;
    if !fetch.bound {
      return false;
    }
    var w := new Writer(ev);
    if brackets {
      if |fetch.result.cols| == 0 {
        w.Add("[]");
        w.Flush();
        return true;
      }
      w.Add("[");
    }
    AppendRows(w, fetch.result.cols, fetch.result.rows);
    if !fetch.complete {
      w.Flush();
      return false;
    }
    if brackets {
      w.AddChar(']');
    }
    w.Flush();
    ok := true;
  }

  /** Every result that has columns was bound and fetched to its end. */
  predicate Clear(fetches: seq<Fetch>) {
    forall k :: 0 <= k < |fetches| && fetches[k].result.cols != [] ==> fetches[k].bound && fetches[k].complete
  }

  predicate AllInRange(fetches: seq<Fetch>) {
    forall k :: 0 <= k < |fetches| ==> RowsInRange(fetches[k].result.rows)
  }

  function ResultsOf(fetches: seq<Fetch>): seq<Result> {
    seq(|fetches|, k requires 0 <= k < |fetches| => fetches[k].result)
  }

  /** `db_fetch_jsonm_native`; `moreFails` makes the last SQLMoreResults fail. It succeeds exactly when
      every result that has columns was fetched to its end, and then the whole text was streamed. */
  method FetchMulti(ev: EvBuffer, fetches: seq<Fetch>, moreFails: bool) returns (ok: bool)
    requires WellShaped(ResultsOf(fetches)) && AllInRange(fetches) && |fetches| < 0x7fff_ffff
    modifies ev
    ensures ok <==> Clear(fetches) && !moreFails
    ensures ok ==> ev.data == old(ev.data) + ResultsText(ResultsOf(fetches), 1, true)
  {
    hide Rectangular, RowsInRange, ResultsText, Clear;
    var rsIndex: nat, hasResult := 1, false;
    ghost var results := ResultsOf(fetches);
    ghost var whole := ev.data + ResultsText(results, 1, true);
    assert results[0..] == results;
    assert Clear(fetches[..0]) by { NoneFailed(fetches[..0]); }
    for k := 0 to |fetches|
      invariant 1 <= rsIndex <= k + 1 && Clear(fetches[..k]) && WellShaped(results[k..])
      invariant ev.data + ResultsText(results[k..], rsIndex, !hasResult) == whole
    {
      NextResult(results, k, rsIndex, !hasResult, ev.data);
      ClearSoFar(fetches, k);
      assert results[k] == fetches[k].result;
      if |fetches[k].result.cols| > 0 {
        ok := StreamResult(ev, fetches[k], rsIndex, !hasResult);
        if !ok {
          return;
        }
        hasResult := true;
        rsIndex := rsIndex + 1;
      }
    }
    assert fetches[..|fetches|] == fetches && results[|fetches|..] == [];
    if moreFails {
      return false;
    }
    ev.Add(if hasResult then "}" else "[]");
    NoResults(rsIndex, !hasResult);
    ok := true;
  }

  lemma NoneFailed(fetches: seq<Fetch>)
    requires fetches == []
    ensures Clear(fetches)
  {
  }

  lemma ClearSoFar(fetches: seq<Fetch>, k: nat)
    requires k < |fetches| && Clear(fetches[..k])
    ensures var good := fetches[k].result.cols == [] || (fetches[k].bound && fetches[k].complete);
      (good ==> Clear(fetches[..k + 1])) && (!good ==> !Clear(fetches))
  {
  }

  lemma NoResults(index: nat, first: bool)
    ensures ResultsText([], index, first) == if first then "[]" else "}"
  {
  }

  lemma NextResult(results: seq<Result>, k: nat, index: nat, first: bool, before: string)
    requires k < |results| && WellShaped(results[k..])
    ensures WellShaped(results[k + 1..]) && Rectangular(results[k].cols, results[k].rows)
    ensures results[k].cols == [] ==> ResultsText(results[k..], index, first) == ResultsText(results[k + 1..], index, first)
    ensures results[k].cols != [] ==>
      before + ResultsText(results[k..], index, first) ==
      (before + ResultText(results[k], index, first)) + ResultsText(results[k + 1..], index + 1, false)
  {
    hide RowsText, Signed, Rectangular;
    var rest := results[k..];
    assert rest[0] == results[k] && rest[1..] == results[k + 1..];
    TailShaped(rest);
    if results[k].cols != [] {
      Assoc(before, ResultText(results[k], index, first), ResultsText(results[k + 1..], index + 1, false));
    }
  }

  /** One member of the multi-result object. */
  method StreamResult(ev: EvBuffer, fetch: Fetch, index: nat, first: bool) returns (ok: bool)
    requires Rectangular(fetch.result.cols, fetch.result.rows) && RowsInRange(fetch.result.rows) && index < 0x8000_0000
    modifies ev
    ensures ok == (fetch.bound && fetch.complete)
    ensures ok ==> ev.data == old(ev.data) + ResultText(fetch.result, index, first)
  {
    hide RowsText, Signed, Rectangular, RowsInRange;
    ev.Add(if first then "{" else ",");
    ev.Add("\"r");
    var numBuf := new char[32];
    IntegersFit(index);
    var len := FastItoa(index, numBuf);
    ev.Add(numBuf[..len]);
    ev.Add("\":[");
    ok := FetchArray(ev, fetch, false);
    if ok {
      ev.Add("]");
    }
  }

  // ---------- database errors ----------

  const CODE_KEY: string := "error-code"
  const DESCRIPTION_KEY: string := "description"

  function ErrorJson(code: int, message: string): Json {
    Obj([Member(CODE_KEY, Num(Signed(code))), Member(DESCRIPTION_KEY, Str(message))])
  }

  lemma CleanKey(key: string)
    requires forall i :: 0 <= i < |key| ==> Clean(key[i])
    ensures Quote(key) == "\"" + key + "\""
  {
    CleanRunIsItself(key);
  }

  lemma PairIsPrinted(a: Member, b: Member)
    ensures Print(Obj([a, b])) == "{" + PrintMember(a) + "," + PrintMember(b) + "}"
  {
    hide PrintMember;
    PrintMembersCons(a, [b]);
    assert [a] + [b] == [a, b];
  }

  lemma NumberAndString(k: string, number: string, l: string, text: string)
    requires (forall i :: 0 <= i < |k| ==> Clean(k[i])) && forall i :: 0 <= i < |l| ==> Clean(l[i])
    ensures "{\"" + k + "\":" + number + ",\"" + l + "\":" + Quote(text) + "}" == Print(Obj([Member(k, Num(number)), Member(l, Str(text))]))
  {
    hide Quote, PrintMembers;
    CleanKey(k);
    CleanKey(l);
    PairIsPrinted(Member(k, Num(number)), Member(l, Str(text)));
  }

  /** The error reply of `db_execute_and_fetch`: whatever was streamed before is dropped. */
  method ReportError(ev: EvBuffer, code: int, message: string)
    modifies ev
    ensures ev.data == Print(ErrorJson(code, message))
  {
    hide Signed, Quote, Print;
    ev.data := "";
    ev.Add("{\"" + CODE_KEY + "\":" + Signed(code) + ",\"" + DESCRIPTION_KEY + "\":");
    AppendQuoted(ev, message);
    ev.Add("}");
    NumberAndString(CODE_KEY, Signed(code), DESCRIPTION_KEY, message);
  }

  /** The end of a failed `db_execute_and_fetch`: application errors, which start at 50000, replace the
      output; after any other error the output so far stays. */
  method ReplyAfterError(ev: EvBuffer, nativeError: int, message: string)
    modifies ev
    ensures nativeError >= 50000 ==> ev.data == Print(ErrorJson(nativeError, message))
    ensures nativeError < 50000 ==> ev.data == old(ev.data)
  {
    if nativeError >= 50000 {
      ReportError(ev, nativeError, message);
    }
  }

  /** A database error is reported as JSON, whatever the driver's message contains. */
  lemma ErrorParsesBack(code: int, message: string)
    ensures var p := ParseText(Print(ErrorJson(code, message)));
      && p.Parsed? && p.rest == "" && p.value.Obj? && |p.value.members| == 2
      && p.value.members[0].key == "error-code" && p.value.members[0].value.Num?
      && IsIntegerText(p.value.members[0].value.text, code)
      && p.value.members[1] == Member("description", Str(message))
  {
    SignedReadsBack(code);
    SignedIsNumber(code);
    PrintedTextParses(ErrorJson(code, message));
  }
}
