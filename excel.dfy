/** What the translator reads from the ClosedXML workbook, cell and worksheet
    objects and from the .NET rendering services. Workbook loading is not part
    of this model: a workbook arrives as a value, and every library result the
    core only passes along is carried as data (a field of a cell) or as a
    function (`Host`). */
module Excel {

  /** ClosedXML's `XLDataType`, in declaration order. */
  datatype XLDataType = Blank | Boolean | Number | Text | Error | DateTime | TimeSpan

  /** `XLDataType.ToString()`. */
  function TypeName(t: XLDataType): (name: string)
    ensures name != ""
  {
    match t
    case Blank => "Blank"
    case Boolean => "Boolean"
    case Number => "Number"
    case Text => "Text"
    case Error => "Error"
    case DateTime => "DateTime"
    case TimeSpan => "TimeSpan"
  }

  /** Distinct types have distinct names, so the "Type" field identifies the type. */
  lemma TypeNameInjective(a: XLDataType, b: XLDataType)
    ensures TypeName(a) == TypeName(b) ==> a == b
  {
  }

  /** ClosedXML's `XLCellValue`: a tagged union whose case is the naive type.
      Dates and durations are held as their serial day count. */
  datatype CellValue =
    | BlankValue
    | BooleanValue(b: bool)
    | NumberValue(n: real)
    | TextValue(t: string)
    | ErrorValue(code: string)
    | DateTimeValue(serial: real)
    | TimeSpanValue(days: real)

  /** `XLCellValue.Type`: the library's naive classification. */
  function TypeOf(v: CellValue): (t: XLDataType)
    ensures t == Number <==> v.NumberValue?
    ensures t == DateTime <==> v.DateTimeValue?
  {
    match v
    case BlankValue => Blank
    case BooleanValue(_) => Boolean
    case NumberValue(_) => Number
    case TextValue(_) => Text
    case ErrorValue(_) => Error
    case DateTimeValue(_) => DateTime
    case TimeSpanValue(_) => TimeSpan
  }

  /** `GetUnifiedNumber()` is defined for numbers, dates and durations only. */
  predicate HasUnifiedNumber(v: CellValue)
  {
    v.NumberValue? || v.DateTimeValue? || v.TimeSpanValue?
  }

  /** `XLCellValue.GetUnifiedNumber()`. */
  function UnifiedNumber(v: CellValue): real
    requires HasUnifiedNumber(v)
  {
    match v
    case NumberValue(n) => n
    case DateTimeValue(serial) => serial
    case TimeSpanValue(days) => days
  }

  /** `XLCellValue.GetNumber()`, defined for numbers only. */
  function GetNumber(v: CellValue): (n: real)
    requires v.NumberValue?
    ensures n == UnifiedNumber(v)
  {
    v.n
  }

  /** One used cell as the translator sees it. `formattedString` is the
      library's `GetFormattedString()`, `valueString` is `Value.ToString()`,
      `formatId`/`formatString` come from `Style.NumberFormat`, `comment` is
      `GetComment().Text`. */
  datatype RawCell = RawCell(
    address: string,
    row: int,
    column: int,
    value: CellValue,
    formattedString: string,
    valueString: string,
    formatId: int,
    formatString: string,
    formulaA1: string,
    comment: string)

  /** `XLWorksheetVisibility`. */
  datatype Visibility = Visible | Hidden | VeryHidden

  /** `XLWorksheetVisibility.ToString()`. */
  function VisibilityName(v: Visibility): string
  {
    match v
    case Visible => "Visible"
    case Hidden => "Hidden"
    case VeryHidden => "VeryHidden"
  }

  /** A worksheet; `cellsUsed` is `CellsUsed()` in the library's traversal order. */
  datatype Worksheet = Worksheet(
    name: string,
    isProtected: bool,
    isPasswordProtected: bool,
    visibility: Visibility,
    tabActive: bool,
    tabSelected: bool,
    cellsUsed: seq<RawCell>)

  /** `XLWorkbook.Properties`. */
  datatype Properties = Properties(author: string, lastModifiedBy: string, company: string)

  /** An opened workbook: its properties and its worksheets in workbook order. */
  datatype Workbook = Workbook(properties: Properties, worksheets: seq<Worksheet>)

  /** The rendering services of the host:
      `renderPattern(pattern, x)` is `new ExcelNumberFormat.NumberFormat(pattern).Format(x, InvariantCulture)`;
      `longTime(x, culture)` and `longDate(x, culture)` are
      `DateTime.FromOADate(x).ToString("T" / "D", CreateSpecificCulture(culture))`;
      `upper` is the per-character mapping of the ordinal case-insensitive comparison. */
  datatype Host = Host(
    renderPattern: (string, real) -> string,
    longTime: (real, string) -> string,
    longDate: (real, string) -> string,
    upper: char -> char)
}
