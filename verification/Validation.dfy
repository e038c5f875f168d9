/** The schema check of lib/validation.c and the sales schema of src/handlers.c. */
module Validation {
  import opened Decimal
  import opened JsonEscape
  import opened Calendar
  import opened CodePoints

  /** A parsed payload. Numbers are kept as json-c keeps them: 64-bit integers, or doubles that may be
      infinite or no number. */
  datatype Node =
    | Null
    | Bool(b: bool)
    | Int(v: int)
    | Double(x: real)
    | NonFinite
    | Str(s: string)
    | Arr(items: seq<Node>)
    | Obj(fields: map<string, Node>)

  const INT_MAX: int := 0x7fff_ffff
  const INT_MIN: int := -0x8000_0000

  type CInt = x: int | INT_MIN <= x <= INT_MAX

  datatype Option<T> = None | Some(value: T)

  datatype Kind = IntKind | DoubleKind | StringKind | DateKind | UnknownKind

  /** `minInt`/`maxInt` serve integers, `minReal`/`maxReal` doubles, `maxLen` strings (0 is no limit).
      A field without a custom check has one that always holds. */
  datatype Field = Field(
    name: string, kind: Kind, required: bool,
    minInt: Option<CInt>, maxInt: Option<CInt>, minReal: Option<real>, maxReal: Option<real>, maxLen: nat,
    custom: Node -> bool)

  datatype Context = Context(schema: seq<Field>, global: Node -> bool)

  datatype Fault =
    | Required | NotInt | NotDouble | NotString | NotDate | InvalidDate
    | UnknownType | TooLong | TooSmall | TooLarge | Custom

  datatype Verdict =
    | Accepted
    | NotObject
    | Rejected(index: nat, fault: Fault)
    | GlobalRejected

  // ---------- what a field may hold ----------

  /** `json_object_get_int` saturates. */
  function Clamp(v: int): int {
    if v > INT_MAX then INT_MAX else if v < INT_MIN then INT_MIN else v
  }

  predicate IntWithin(v: int, field: Field) {
    (field.minInt.Some? ==> field.minInt.value <= v) && (field.maxInt.Some? ==> v <= field.maxInt.value)
  }

  predicate RealWithin(x: real, field: Field) {
    (field.minReal.Some? ==> field.minReal.value <= x) && (field.maxReal.Some? ==> x <= field.maxReal.value)
  }

  ghost predicate TypeHolds(node: Node, field: Field) {
    match field.kind
    case IntKind => node.Int? && IntWithin(Clamp(node.v), field)
    case DoubleKind => (node.Double? && RealWithin(node.x, field)) || (node.Int? && RealWithin(node.v as real, field))
    case StringKind => node.Str? && (field.maxLen == 0 || Starts(CStr(node.s)) <= field.maxLen)
    case DateKind => node.Str? && IsDateText(CStr(node.s))
    case UnknownKind => false
  }

  /** Saturation shows exactly when the limit itself is the last 32-bit value on that side. */
  lemma ClampedBoundsIff(v: int, field: Field)
    ensures (IntWithin(Clamp(v), field) <==> IntWithin(v, field)) <==>
      !(field.maxInt == Some(INT_MAX) && v > INT_MAX) && !(field.minInt == Some(INT_MIN) && v < INT_MIN)
  {
  }

  predicate Empty(node: Node) {
    match node
    case Str(s) => CStr(s) == ""
    case Arr(items) => items == []
    case Obj(fields) => fields == map[]
    case _ => false
  }

  predicate Absent(field: Field, root: Node) {
    root.Obj? ==> field.name !in root.fields || root.fields[field.name].Null?
  }

  ghost predicate FieldHolds(field: Field, root: Node) {
    if Absent(field, root) then !field.required
    else
      var node := root.fields[field.name];
      !(field.required && Empty(node)) && TypeHolds(node, field) && field.custom(node)
  }

  /** A required field must be present and not null, and must not be an empty string, array or object; a
      string that starts with a NUL is empty, while zero and false are not. */
  lemma RequiredNeedsContent(field: Field, root: Node, node: Node)
    requires field.required && root.Obj?
    ensures FieldHolds(field, root) ==> field.name in root.fields
    ensures field.name in root.fields && root.fields[field.name] == node && FieldHolds(field, root) ==>
      && node != Null && node != Str("") && node != Arr([]) && node != Obj(map[])
      && (node.Str? ==> node.s[0] != NUL)
    ensures Empty(Str("")) && Empty(Arr([])) && Empty(Obj(map[]))
    ensures !Empty(Int(0)) && !Empty(Bool(false)) && !Empty(Double(0.0)) && !Empty(Str("0"))
  {
    assert CStr("0") == "0";
  }

  /** An optional field may be missing or null, whatever its type. */
  lemma OptionalMayBeMissing(field: Field, root: Node)
    requires !field.required && root.Obj?
    ensures field.name !in root.fields || root.fields[field.name] == Null ==> FieldHolds(field, root)
  {
  }

  // ---------- what a fault says ----------

  /** The number in a node that the double check looks at. */
  function Numeric(node: Node): Option<real> {
    match node
    case Double(x) => Some(x)
    case Int(v) => Some(v as real)
    case _ => None
  }

  predicate IntBelow(node: Node, field: Field) {
    node.Int? && field.minInt.Some? && node.v < field.minInt.value
  }

  predicate IntAbove(node: Node, field: Field) {
    node.Int? && field.maxInt.Some? && node.v > field.maxInt.value
  }

  predicate RealBelow(node: Node, field: Field) {
    Numeric(node).Some? && field.minReal.Some? && Numeric(node).value < field.minReal.value
  }

  predicate RealAbove(node: Node, field: Field) {
    Numeric(node).Some? && field.maxReal.Some? && Numeric(node).value > field.maxReal.value
  }

  /** What is wrong with a node, in terms of its true value, when a type check reports the fault. */
  ghost predicate Explains(fault: Fault, node: Node, field: Field) {
    match fault
    case NotInt => field.kind.IntKind? && !node.Int?
    case NotDouble => field.kind.DoubleKind? && Numeric(node).None?
    case NotString => field.kind.StringKind? && !node.Str?
    case NotDate => field.kind.DateKind? && !node.Str?
    case InvalidDate => field.kind.DateKind? && node.Str? && !IsDateText(CStr(node.s))
    case TooLong => field.kind.StringKind? && node.Str? && 0 < field.maxLen < Starts(CStr(node.s))
    case TooSmall => (field.kind.IntKind? && IntBelow(node, field)) || (field.kind.DoubleKind? && RealBelow(node, field))
    case TooLarge =>
      || (field.kind.IntKind? && !IntBelow(node, field) && IntAbove(node, field))
      || (field.kind.DoubleKind? && !RealBelow(node, field) && RealAbove(node, field))
    case UnknownType => field.kind.UnknownKind?
    case _ => false
  }

  /** A limit at the end of the 32-bit range that the value lies beyond: saturation hides that. */
  predicate Saturates(node: Node, field: Field) {
    field.kind.IntKind? && node.Int? &&
    ((node.v > INT_MAX && field.maxInt == Some(INT_MAX)) || (node.v < INT_MIN && field.minInt == Some(INT_MIN)))
  }

  /** At most one fault applies, and one applies exactly when the node is refused or saturation hides it. */
  lemma OneFaultIff(node: Node, field: Field)
    ensures forall f, g :: Explains(f, node, field) && Explains(g, node, field) ==> f == g
    ensures (exists f :: Explains(f, node, field)) <==> !TypeHolds(node, field) || Saturates(node, field)
  {
    hide CStr, IsDateText, Starts;
    if !TypeHolds(node, field) || Saturates(node, field) {
      assert
        || Explains(NotInt, node, field) || Explains(NotDouble, node, field) || Explains(NotString, node, field)
        || Explains(NotDate, node, field) || Explains(InvalidDate, node, field) || Explains(TooLong, node, field)
        || Explains(TooSmall, node, field) || Explains(TooLarge, node, field) || Explains(UnknownType, node, field);
    }
  }

  /** What is wrong with a payload when the schema loop reports the fault for a field. */
  ghost predicate FieldExplains(fault: Fault, field: Field, root: Node) {
    if Absent(field, root) then fault.Required? && field.required
    else
      var node := root.fields[field.name];
      match fault
      case Required => field.required && Empty(node)
      case Custom => !(field.required && Empty(node)) && TypeHolds(node, field) && !field.custom(node)
      case _ => !(field.required && Empty(node)) && Explains(fault, node, field)
  }

  // ---------- the type checks ----------

  method CheckInt(node: Node, field: Field) returns (fault: Option<Fault>)
    requires field.kind.IntKind?
    ensures fault.None? <==> TypeHolds(node, field)
    ensures fault.Some? ==> Explains(fault.value, node, field)
  {
    if !node.Int? {
      return Some(NotInt);
    }
    var val := Clamp(node.v);
    if field.minInt.Some? && val < field.minInt.value {
      return Some(TooSmall);
    }
    if field.maxInt.Some? && val > field.maxInt.value {
      return Some(TooLarge);
    }
    fault := None;
  }

  method CheckDouble(node: Node, field: Field) returns (fault: Option<Fault>)
    requires field.kind.DoubleKind?
    ensures fault.None? <==> TypeHolds(node, field)
    ensures fault.Some? ==> Explains(fault.value, node, field)
  {
    if !node.Double? && !node.NonFinite? && !node.Int? {
      return Some(NotDouble);
    }
    if node.NonFinite? {
      return Some(NotDouble);
    }
    var val := if node.Double? then node.x else node.v as real;
    if field.minReal.Some? && val < field.minReal.value {
      return Some(TooSmall);
    }
    if field.maxReal.Some? && val > field.maxReal.value {
      return Some(TooLarge);
    }
    fault := None;
  }

  /** Conversion of a size_t to int. */
  function ToInt(n: nat): int {
    var low := n % 0x1_0000_0000;
    if low > INT_MAX then low - 0x1_0000_0000 else low
  }

  /** `validate_type_string`. The byte-length shortcut never changes the answer, even for limits whose
      conversion to int wraps: the check limits characters. */
  method CheckString(node: Node, field: Field) returns (fault: Option<Fault>)
    requires field.kind.StringKind?
    ensures fault.None? <==> TypeHolds(node, field)
    ensures fault.Some? ==> Explains(fault.value, node, field)
  {
    hide CStr, Starts;
    if !node.Str? {
      return Some(NotString);
    }
    if field.maxLen > 0 {
      var byteLen := |node.s|;
      if byteLen > ToInt(field.maxLen) {
        var len := Utf8Strlen(node.s);
        if len > field.maxLen {
          return Some(TooLong);
        }
      }
    }
    fault := None;
  }

  method CheckDate(node: Node, field: Field) returns (fault: Option<Fault>)
    requires field.kind.DateKind?
    ensures fault.None? <==> TypeHolds(node, field)
    ensures fault.Some? ==> Explains(fault.value, node, field)
  {
    hide CStr, IsDateText;
    if !node.Str? {
      return Some(NotDate);
    }
    var ok := ValidateDate(node.s);
    if !ok {
      return Some(InvalidDate);
    }
    fault := None;
  }

  method CheckType(node: Node, field: Field) returns (fault: Option<Fault>)
    ensures fault.None? <==> TypeHolds(node, field)
    ensures fault.Some? ==> Explains(fault.value, node, field)
  {
    match field.kind {
      case IntKind => fault := CheckInt(node, field);
      case DoubleKind => fault := CheckDouble(node, field);
      case StringKind => fault := CheckString(node, field);
      case DateKind => fault := CheckDate(node, field);
      case UnknownKind => fault := Some(UnknownType);
    }
  }

  // ---------- the engine ----------

  /** One turn of the schema loop. */
  method CheckField(field: Field, root: Node) returns (fault: Option<Fault>)
    requires root.Obj?
    ensures fault.None? <==> FieldHolds(field, root)
    ensures fault.Some? ==> FieldExplains(fault.value, field, root)
  {
    hide TypeHolds, Explains;
    if field.name !in root.fields || root.fields[field.name].Null? {
      return if field.required then Some(Required) else None;
    }
    var node := root.fields[field.name];
    if field.required && Empty(node) {
      return Some(Required);
    }
    fault := CheckType(node, field);
    if fault.None? && !field.custom(node) {
      fault := Some(Custom);
    }
  }

  ghost predicate Accepts(ctx: Context, root: Node) {
    root.Obj? && (forall i :: 0 <= i < |ctx.schema| ==> FieldHolds(ctx.schema[i], root)) && ctx.global(root)
  }

  /** `validate_json`: accepts exactly the objects all of whose fields hold and that meet the global
      check; otherwise it reports the first field that does not hold, with its fault. */
  method ValidateJson(ctx: Context, root: Node) returns (verdict: Verdict)
    ensures verdict.Accepted? <==> Accepts(ctx, root)
    ensures verdict.NotObject? <==> !root.Obj?
    ensures verdict.Rejected? ==>
      && verdict.index < |ctx.schema|
      && FieldExplains(verdict.fault, ctx.schema[verdict.index], root)
      && forall j :: 0 <= j < verdict.index ==> FieldHolds(ctx.schema[j], root)
    ensures verdict.GlobalRejected? ==>
      (forall i :: 0 <= i < |ctx.schema| ==> FieldHolds(ctx.schema[i], root)) && !ctx.global(root)
  {
    if !root.Obj? {
      return NotObject;
    }
    hide FieldHolds, FieldExplains;
    for i := 0 to |ctx.schema|
      invariant forall j :: 0 <= j < i ==> FieldHolds(ctx.schema[j], root)
    {
      var fault := CheckField(ctx.schema[i], root);
      if fault.Some? {
        return Rejected(i, fault.value);
      }
    }
    verdict := if ctx.global(root) then Accepted else GlobalRejected;
  }

  // ---------- the sales schema ----------

  const START: string := "start_date"
  const END: string := "end_date"

  predicate NotTooEarly(node: Node) {
    node.Str? && StrToLong(CStr(node.s)) > 1993
  }

  predicate NotTooLate(node: Node) {
    node.Str? && StrToLong(CStr(node.s)) < 1997
  }

  predicate StartPrecedesEnd(root: Node) {
    && root.Obj? && START in root.fields && END in root.fields
    && root.fields[START].Str? && root.fields[END].Str?
    && StrLess(CStr(root.fields[START].s), CStr(root.fields[END].s))
  }

  function DateField(name: string, custom: Node -> bool): Field {
    Field(name, DateKind, true, None, None, None, None, 0, custom)
  }

  function SalesContext(): Context {
    Context([DateField(START, NotTooEarly), DateField(END, NotTooLate)], StartPrecedesEnd)
  }

  /** The member `key` is the text of the given day. */
  predicate Names(root: Node, key: string, d: Date) {
    && root.Obj? && key in root.fields && root.fields[key].Str?
    && IsDate(d) && d.year < 10000 && CStr(root.fields[key].s) == Format(d)
  }

  lemma DateFieldHoldsIff(root: Node, key: string, custom: Node -> bool)
    ensures FieldHolds(DateField(key, custom), root) <==>
      && root.Obj? && key in root.fields && root.fields[key].Str?
      && IsDateText(CStr(root.fields[key].s)) && custom(root.fields[key])
  {
    hide CStr, IsDateText;
    DateTextIff("");
  }

  /** A member that passes the date check and a bound on its year names one day within that bound. */
  lemma NamedDay(root: Node, key: string) returns (d: Date)
    requires root.Obj? && key in root.fields && root.fields[key].Str? && IsDateText(CStr(root.fields[key].s))
    ensures Names(root, key, d) && 1900 <= d.year <= 2199 && StrToLong(CStr(root.fields[key].s)) == d.year
  {
    hide CStr, Format, StrToLong, Shaped, ReadDate;
    d :| IsDate(d) && 1900 <= d.year <= 2199 && CStr(root.fields[key].s) == Format(d);
    ReadFormat(d);
    YearOfText(Format(d));
  }

  lemma NamedDayHolds(root: Node, key: string, d: Date)
    requires Names(root, key, d) && 1900 <= d.year <= 2199
    ensures IsDateText(CStr(root.fields[key].s)) && StrToLong(CStr(root.fields[key].s)) == d.year
  {
    hide CStr, Format, StrToLong, Shaped, ReadDate;
    ReadFormat(d);
    YearOfText(Format(d));
  }

  ghost predicate IsSalesPeriod(root: Node, start: Date, end: Date) {
    && Names(root, "start_date", start) && Names(root, "end_date", end)
    && 1994 <= start.year <= 1996 && 1994 <= end.year <= 1996 && DayNumber(start) < DayNumber(end)
  }

  lemma SalesHoldsIff(root: Node)
    ensures Accepts(SalesContext(), root) <==>
      && FieldHolds(DateField(START, NotTooEarly), root) && FieldHolds(DateField(END, NotTooLate), root)
      && StartPrecedesEnd(root)
  {
    hide FieldHolds;
    var ctx := SalesContext();
    assert ctx.schema[0] == DateField(START, NotTooEarly) && ctx.schema[1] == DateField(END, NotTooLate);
  }

  lemma SalesPeriod(root: Node) returns (start: Date, end: Date)
    requires Accepts(SalesContext(), root)
    ensures IsSalesPeriod(root, start, end)
  {
    hide CStr, IsDateText, Format, StrToLong, StrLess, DayNumber, FieldHolds;
    SalesHoldsIff(root);
    DateFieldHoldsIff(root, START, NotTooEarly);
    DateFieldHoldsIff(root, END, NotTooLate);
    start := NamedDay(root, START);
    end := NamedDay(root, END);
    ByteOrderIsDayOrder(start, end);
    EarlierIffFewerDays(start, end);
  }

  lemma PeriodIsAccepted(root: Node, start: Date, end: Date)
    requires IsSalesPeriod(root, start, end)
    ensures Accepts(SalesContext(), root)
  {
    hide CStr, IsDateText, Format, StrToLong, StrLess, DayNumber, FieldHolds;
    NamedDayHolds(root, START, start);
    NamedDayHolds(root, END, end);
    ByteOrderIsDayOrder(start, end);
    SalesHoldsIff(root);
    DateFieldHoldsIff(root, START, NotTooEarly);
    DateFieldHoldsIff(root, END, NotTooLate);
  }

  /** A payload is accepted for the sales query exactly when it names two real days of 1994 to 1996, the
      start before the end by day number. */
  lemma SalesAcceptsIff(root: Node)
    ensures Accepts(SalesContext(), root) <==> exists start, end :: IsSalesPeriod(root, start, end)
  {
    hide IsSalesPeriod, Accepts;
    if Accepts(SalesContext(), root) {
      var start, end := SalesPeriod(root);
    }
    if exists start, end :: IsSalesPeriod(root, start, end) {
      var start, end :| IsSalesPeriod(root, start, end);
      PeriodIsAccepted(root, start, end);
    }
  }
}
