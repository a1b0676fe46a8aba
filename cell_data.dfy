/** `CellData`: decides the display text and the semantic type of one cell.
    The precedence is: an override-table entry for the cell's format ID; else,
    for a cell the library calls Number, the first calendar/locale marker
    found in the raw format string; else the library's own result. */
module CellResolution {
  import opened Wrappers
  import opened Strings
  import opened Excel
  import opened NumberFormatItems
  import opened AdditionalNumberFormats

  /** The outcome for one cell: the `Text` and `Type` the object exposes. */
  datatype ResolvedCell = ResolvedCell(text: string, cellType: XLDataType)

  /** How a marker rule produces the text. */
  datatype Rendering =
    | KeepText  // keep the library's formatted string
    | LongTime  // the culture's long time pattern ("T")
    | LongDate  // the culture's long date pattern ("D")

  /** A marker rule: when the format string contains `marker`, the cell becomes
      a DateTime whose text is produced by `rendering`. */
  datatype Rule = Rule(marker: string, rendering: Rendering)

  /** The marker rules in the order they are tried. `[$-409]` is the en-US
      date marker; `[$-411]` is the ja-JP (Japanese calendar) marker, whose
      era rendering is not implemented, so the library text is kept. */
  const Rules: seq<Rule> := [
    Rule("[$-F400]", LongTime),
    Rule("[$-409]", KeepText),
    Rule("[$-411]", KeepText),
    Rule("[$-F800]", LongDate)]

  /** The index of the first rule whose marker the format contains. */
  function FirstRule(rules: seq<Rule>, format: string): (r: Option<nat>)
    ensures r.Some? ==> r.value < |rules| && Contains(format, rules[r.value].marker)
    ensures r.Some? ==> forall j :: 0 <= j < r.value ==> !Contains(format, rules[j].marker)
    ensures r.None? ==> forall j :: 0 <= j < |rules| ==> !Contains(format, rules[j].marker)
    decreases |rules|
  {
    if rules == [] then None
    else if Contains(format, rules[0].marker) then Some(0)
    else
      match FirstRule(rules[1..], format)
      case None => None
      case Some(k) => Some(k + 1)
  }

  /** What the library alone reports: `GetFormattedString()` and `Value.Type`. */
  function Naive(cell: RawCell): ResolvedCell
  {
    ResolvedCell(cell.formattedString, TypeOf(cell.value))
  }

  /** The override path reads `GetUnifiedNumber()` without looking at the
      naive type, so it is only meaningful for numeric and date cells. */
  predicate OverrideApplicable(table: map<int, NumberFormatItem>, cell: RawCell)
  {
    cell.formatId in table ==> HasUnifiedNumber(cell.value)
  }

  /** The result of the marker rule that fired on a Number cell. */
  function ApplyRule(rule: Rule, cultureInfoName: string, cell: RawCell, host: Host): (r: ResolvedCell)
    requires cell.value.NumberValue?
    ensures r.cellType == DateTime
  {
    match rule.rendering
    case KeepText => ResolvedCell(cell.formattedString, DateTime)
    case LongTime => ResolvedCell(host.longTime(cell.value.n, cultureInfoName), DateTime)
    case LongDate => ResolvedCell(host.longDate(cell.value.n, cultureInfoName), DateTime)
  }

  /** The resolution, stated as first-match-wins over the three steps. */
  function Resolve(table: map<int, NumberFormatItem>, cultureInfoName: string, cell: RawCell, host: Host): ResolvedCell
    requires OverrideApplicable(table, cell)
  {
    if cell.formatId in table then
      var item := table[cell.formatId];
      ResolvedCell(host.renderPattern(item.format, UnifiedNumber(cell.value)), item.itemType)
    else if cell.value.NumberValue? then
      match FirstRule(Rules, cell.formatString)
      case None => Naive(cell)
      case Some(k) => ApplyRule(Rules[k], cultureInfoName, cell, host)
    else
      Naive(cell)
  }

  class CellData {
    const cultureInfoName: string
    /** Selected once from the culture name; never changed afterwards. */
    const numberFormatItemList: map<int, NumberFormatItem> := NumberFormatItemList(cultureInfoName)
    var text: string
    var cellType: XLDataType

    constructor (cultureInfoName: string)
      ensures this.cultureInfoName == cultureInfoName
      ensures text == "" && cellType == Blank
    {
      this.cultureInfoName := cultureInfoName;
      text := "";
      cellType := Blank;  // default(XLDataType)
    }

    /** The `Cell` setter. Both fields are overwritten before anything else,
        so the new state depends on the cell only, never on an earlier cell. */
    method SetCell(cell: RawCell, host: Host)
      requires OverrideApplicable(numberFormatItemList, cell)
      modifies this
      ensures ResolvedCell(text, cellType) == Resolve(numberFormatItemList, cultureInfoName, cell, host)
    {
      text := cell.formattedString;
      cellType := TypeOf(cell.value);

      if cell.formatId in numberFormatItemList {
        var item := numberFormatItemList[cell.formatId];
        text := host.renderPattern(item.format, UnifiedNumber(cell.value));
        cellType := item.itemType;
      } else {
        var format := cell.formatString;
        if format != "" {
          if cellType == Number && Contains(format, "[$-F400]") {
            text := host.longTime(UnifiedNumber(cell.value), cultureInfoName);
            cellType := DateTime;
          }
          if cellType == Number && Contains(format, "[$-409]") {
            cellType := DateTime;
          }
          if cellType == Number && Contains(format, "[$-411]") {
            cellType := DateTime;
          }
          if cellType == Number && Contains(format, "[$-F800]") {
            text := host.longDate(UnifiedNumber(cell.value), cultureInfoName);
            cellType := DateTime;
          }
        }
      }
    }
  }

  // Properties of the resolution.

  /** An override entry decides both fields, whatever the naive type or the
      format string: the pattern rendered with the invariant culture, and the
      entry's type; no marker is looked at. */
  lemma OverrideWins(table: map<int, NumberFormatItem>, cultureInfoName: string, cell: RawCell, host: Host)
    requires cell.formatId in table && HasUnifiedNumber(cell.value)
    ensures Resolve(table, cultureInfoName, cell, host)
         == ResolvedCell(host.renderPattern(table[cell.formatId].format, UnifiedNumber(cell.value)), table[cell.formatId].itemType)
    ensures forall f :: Resolve(table, cultureInfoName, cell.(formatString := f), host) == Resolve(table, cultureInfoName, cell, host)
  {
  }

  /** Without an override, an empty format string keeps the library's result. */
  lemma EmptyFormatKeepsLibraryResult(table: map<int, NumberFormatItem>, cultureInfoName: string, cell: RawCell, host: Host)
    requires cell.formatId !in table && cell.formatString == ""
    ensures Resolve(table, cultureInfoName, cell, host) == Naive(cell)
  {
    if cell.value.NumberValue? {
      forall j | 0 <= j < |Rules| ensures !Contains("", Rules[j].marker) {
        EmptyContainsNothing(Rules[j].marker);
      }
    }
  }

  /** Without an override, only Number cells are ever reclassified: Text,
      Boolean, Error, Blank, DateTime and TimeSpan cells keep the library's result. */
  lemma OnlyNumbersAreReclassified(table: map<int, NumberFormatItem>, cultureInfoName: string, cell: RawCell, host: Host)
    requires cell.formatId !in table && TypeOf(cell.value) != Number
    ensures Resolve(table, cultureInfoName, cell, host) == Naive(cell)
  {
  }

  /** Marker priority: without an override, a Number cell is handled by rule
      `k` exactly when its marker is present and no earlier marker is. At most
      one rule therefore takes effect. */
  lemma MarkerPriority(table: map<int, NumberFormatItem>, cultureInfoName: string, cell: RawCell, host: Host, k: nat)
    requires cell.formatId !in table && cell.value.NumberValue? && k < |Rules|
    requires Contains(cell.formatString, Rules[k].marker)
    requires forall j :: 0 <= j < k ==> !Contains(cell.formatString, Rules[j].marker)
    ensures Resolve(table, cultureInfoName, cell, host) == ApplyRule(Rules[k], cultureInfoName, cell, host)
  {
  }

  /** `[$-F400]` on a Number cell: the culture's long time rendering, DateTime. */
  lemma LongTimeMarker(table: map<int, NumberFormatItem>, cultureInfoName: string, cell: RawCell, host: Host)
    requires cell.formatId !in table && cell.value.NumberValue?
    requires Contains(cell.formatString, "[$-F400]")
    ensures Resolve(table, cultureInfoName, cell, host)
         == ResolvedCell(host.longTime(UnifiedNumber(cell.value), cultureInfoName), DateTime)
  {
    MarkerPriority(table, cultureInfoName, cell, host, 0);
  }

  /** `[$-409]` or `[$-411]` (and no `[$-F400]`) on a Number cell: only the
      type changes, to DateTime; the text stays the library's. */
  lemma DateMarkersKeepText(table: map<int, NumberFormatItem>, cultureInfoName: string, cell: RawCell, host: Host)
    requires cell.formatId !in table && cell.value.NumberValue?
    requires !Contains(cell.formatString, "[$-F400]")
    requires Contains(cell.formatString, "[$-409]") || Contains(cell.formatString, "[$-411]")
    ensures Resolve(table, cultureInfoName, cell, host) == ResolvedCell(cell.formattedString, DateTime)
  {
    if Contains(cell.formatString, "[$-409]") {
      MarkerPriority(table, cultureInfoName, cell, host, 1);
    } else {
      MarkerPriority(table, cultureInfoName, cell, host, 2);
    }
  }

  /** `[$-F800]` wins only when no earlier marker is present; then the text is
      the culture's long date rendering. */
  lemma LongDateMarker(table: map<int, NumberFormatItem>, cultureInfoName: string, cell: RawCell, host: Host)
    requires cell.formatId !in table && cell.value.NumberValue?
    requires Contains(cell.formatString, "[$-F800]")
    requires !Contains(cell.formatString, "[$-F400]") && !Contains(cell.formatString, "[$-409]")
      && !Contains(cell.formatString, "[$-411]")
    ensures Resolve(table, cultureInfoName, cell, host)
         == ResolvedCell(host.longDate(UnifiedNumber(cell.value), cultureInfoName), DateTime)
  {
    MarkerPriority(table, cultureInfoName, cell, host, 3);
  }

  /** A format with both `[$-409]` and `[$-F800]`, e.g. "[$-409]d-mmm;[$-F800]",
      gives DateTime with the library's text: the long date rule never fires. */
  lemma EnUsBeatsLongDate(table: map<int, NumberFormatItem>, cultureInfoName: string, x: real, host: Host)
    requires 14 !in table
    ensures var cell := RawCell("A1", 1, 1, NumberValue(x), "9-Mar", "45", 14, "[$-409]d-mmm;[$-F800]", "", "");
      Resolve(table, cultureInfoName, cell, host) == ResolvedCell("9-Mar", DateTime)
  {
    var f := "[$-409]d-mmm;[$-F800]";
    assert IsPrefix("[$-409]", f);
    assert !Contains(f, "[$-F400]") by { NoLongTimeMarker(); }
    var cell := RawCell("A1", 1, 1, NumberValue(x), "9-Mar", "45", 14, f, "", "");
    DateMarkersKeepText(table, cultureInfoName, cell, host);
  }

  /** Helper for the example: "[$-409]d-mmm;[$-F800]" has no `[$-F400]`. */
  lemma NoLongTimeMarker()
    ensures !Contains("[$-409]d-mmm;[$-F800]", "[$-F400]")
  {
    var f := "[$-409]d-mmm;[$-F800]";
    ContainsIffOccurs(f, "[$-F400]");
    forall i | 0 <= i && i + 8 <= |f| ensures !OccursAt(f, "[$-F400]", i) {
      var w := f[i..i + 8];
      if f[i + 3] == 'F' {
        assert w[4] == f[i + 4];
      } else {
        assert w[3] == f[i + 3];
      }
    }
  }

  /** With the culture's own table: a Number result is the library's own
      result for a Number value (so `GetNumber` is defined), a DateTime result
      has a unified number, and the only reclassification is to DateTime. */
  lemma ResolvedTypes(cultureInfoName: string, cell: RawCell, host: Host)
    requires OverrideApplicable(NumberFormatItemList(cultureInfoName), cell)
    ensures var r := Resolve(NumberFormatItemList(cultureInfoName), cultureInfoName, cell, host);
      && (r.cellType == Number ==> cell.value.NumberValue? && r == Naive(cell))
      && (r.cellType == DateTime ==> HasUnifiedNumber(cell.value))
      && (r.cellType != TypeOf(cell.value) ==> r.cellType == DateTime)
  {
  }

  /** Once an override or a marker fired, the type is never the naive Number:
      it is DateTime. */
  lemma FiredMeansDateTime(cultureInfoName: string, cell: RawCell, host: Host)
    requires OverrideApplicable(NumberFormatItemList(cultureInfoName), cell)
    requires cell.formatId in NumberFormatItemList(cultureInfoName)
      || (cell.value.NumberValue? && FirstRule(Rules, cell.formatString).Some?)
    ensures Resolve(NumberFormatItemList(cultureInfoName), cultureInfoName, cell, host).cellType == DateTime
  {
  }

  /** Setting a cell forgets the previous one: resolving `c`, then `other`,
      then `c` again leaves the same text and type as resolving `c` once. */
  method SetCellForgetsHistory(data: CellData, c: RawCell, other: RawCell, host: Host)
    requires OverrideApplicable(data.numberFormatItemList, c) && OverrideApplicable(data.numberFormatItemList, other)
    modifies data
    ensures ResolvedCell(data.text, data.cellType) == Resolve(data.numberFormatItemList, data.cultureInfoName, c, host)
  {
    data.SetCell(c, host);
    var first := ResolvedCell(data.text, data.cellType);
    data.SetCell(other, host);
    data.SetCell(c, host);
    assert ResolvedCell(data.text, data.cellType) == first;
  }
}
