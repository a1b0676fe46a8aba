/** `SpreadsheetTranslator`: builds the JSON tree of a workbook. Sheets are
    kept by a colon-separated, trimmed, case-insensitive allow-list and listed
    either as an array (workbook order) or as an object keyed by sheet name;
    each sheet lists its used cells the same way, keyed by address; flags
    decide which fields appear. */
module Translation {
  import opened Wrappers
  import opened Strings
  import opened JsonTree
  import opened Excel
  import opened NumberFormatItems
  import opened AdditionalNumberFormats
  import opened CellResolution

  /** The translator's settable properties. */
  datatype Options = Options(
    encoded: bool,
    indented: bool,
    includeCellData: bool,
    includeCellFormat: bool,
    includeCellRowColumn: bool,
    includeProperties: bool,
    includeSheetInformation: bool,
    objectFormat: bool,
    inputFilePath: string,
    sheetNames: string)

  /** The values the constructor sets. */
  const Defaults: Options := Options(
    encoded := false, indented := true, includeCellData := true, includeCellFormat := false,
    includeCellRowColumn := false, includeProperties := true, includeSheetInformation := false,
    objectFormat := false, inputFilePath := "", sheetNames := "")

  const ToolName: string := "Spreadsheet to Json"
  const EmptyPathMessage: string := "input filepath empty."

  // ---------------------------------------------------------------------------
  // Sheet filter

  /** `SheetNames.Split(':').Select(s => s.Trim())`. */
  function SheetNameList(sheetNames: string): (names: seq<string>)
    ensures |names| == |Split(sheetNames, ':')|
    ensures forall k :: 0 <= k < |names| ==> names[k] == Trim(Split(sheetNames, ':')[k])
  {
    var pieces := Split(sheetNames, ':');
    seq(|pieces|, k requires 0 <= k < |pieces| => Trim(pieces[k]))
  }

  /** `names.Any(s => string.Equals(s, name, OrdinalIgnoreCase))`. */
  predicate AnyEqualsIgnoreCase(names: seq<string>, name: string, upper: char -> char)
  {
    exists k :: 0 <= k < |names| && EqualsIgnoreCase(names[k], name, upper)
  }

  /** Whether a sheet called `name` is converted: an empty allow-list keeps
      every sheet. */
  predicate Selected(sheetNames: string, name: string, upper: char -> char)
  {
    sheetNames == "" || AnyEqualsIgnoreCase(SheetNameList(sheetNames), name, upper)
  }

  /** The kept sheets, in workbook order. */
  function Kept(sheetNames: string, wss: seq<Worksheet>, upper: char -> char): (ks: seq<Worksheet>)
    ensures |ks| <= |wss|
    decreases |wss|
  {
    if wss == [] then []
    else
      var w := wss[|wss| - 1];
      Kept(sheetNames, wss[..|wss| - 1], upper) + (if Selected(sheetNames, w.name, upper) then [w] else [])
  }

  // ---------------------------------------------------------------------------
  // Cells

  /** Every cell can be resolved (the override path needs a unified number). */
  predicate CellsApplicable(cultureInfoName: string, cells: seq<RawCell>)
  {
    forall k :: 0 <= k < |cells| ==> OverrideApplicable(NumberFormatItemList(cultureInfoName), cells[k])
  }

  /** The accessor the "Value" field uses is defined for the value. */
  predicate ValueReadable(r: ResolvedCell, cell: RawCell)
  {
    && (r.cellType == DateTime ==> HasUnifiedNumber(cell.value))
    && (r.cellType == Number ==> cell.value.NumberValue?)
  }

  /** The "Value" field: the unified number for a DateTime, the number for a
      Number, `Value.ToString()` otherwise. */
  function ValueJson(r: ResolvedCell, cell: RawCell): Node
    requires ValueReadable(r, cell)
  {
    match r.cellType
    case DateTime => JNumber(UnifiedNumber(cell.value))
    case Number => JNumber(GetNumber(cell.value))
    case _ => JString(cell.valueString)
  }

  /** The first members of a cell object: the address, and the row and
      column when asked for. */
  function CellPosition(o: Options, cell: RawCell): seq<Member>
  {
    var address := [Member("Address", JString(cell.address))];
    if o.includeCellRowColumn
    then address + [Member("Row", JNumber(cell.row as real))] + [Member("Column", JNumber(cell.column as real))]
    else address
  }

  /** Then the text and type, and the formula when there is one. */
  function CellFormula(o: Options, r: ResolvedCell, cell: RawCell): seq<Member>
  {
    var typed := CellPosition(o, cell) + [Member("Text", JString(r.text))] + [Member("Type", JString(TypeName(r.cellType)))];
    if cell.formulaA1 != "" then typed + [Member("Formula", JString(cell.formulaA1))] else typed
  }

  /** Then the value, and the comment when there is one. */
  function CellMemo(o: Options, r: ResolvedCell, cell: RawCell): seq<Member>
    requires ValueReadable(r, cell)
  {
    var valued := CellFormula(o, r, cell) + [Member("Value", ValueJson(r, cell))];
    if cell.comment != "" then valued + [Member("Memo", JString(cell.comment))] else valued
  }

  /** The members of a cell object for resolution `r`, in assignment order:
      finally the number format when asked for. */
  function CellMembers(o: Options, r: ResolvedCell, cell: RawCell): seq<Member>
    requires ValueReadable(r, cell)
  {
    var memo := CellMemo(o, r, cell);
    if o.includeCellFormat
    then memo + [Member("NumberFormat_Format", JString(cell.formatString))] + [Member("NumberFormat_Id", JNumber(cell.formatId as real))]
    else memo
  }

  /** The object for one cell, resolved with the culture's table. */
  function CellJson(o: Options, cultureInfoName: string, cell: RawCell, host: Host): Node
    requires OverrideApplicable(NumberFormatItemList(cultureInfoName), cell)
  {
    var r := Resolve(NumberFormatItemList(cultureInfoName), cultureInfoName, cell, host);
    ResolvedTypes(cultureInfoName, cell, host);
    JObject(CellMembers(o, r, cell))
  }

  /** Array shape: one cell object per used cell, in traversal order. */
  function CellItems(o: Options, cultureInfoName: string, cells: seq<RawCell>, host: Host): seq<Node>
    requires CellsApplicable(cultureInfoName, cells)
    decreases |cells|
  {
    if cells == [] then []
    else
      var c := cells[|cells| - 1];
      CellItems(o, cultureInfoName, cells[..|cells| - 1], host) + [CellJson(o, cultureInfoName, c, host)]
  }

  /** Object shape: the address/cell-object assignments, in traversal order. */
  function CellPairs(o: Options, cultureInfoName: string, cells: seq<RawCell>, host: Host): seq<Member>
    requires CellsApplicable(cultureInfoName, cells)
    decreases |cells|
  {
    if cells == [] then []
    else
      var c := cells[|cells| - 1];
      CellPairs(o, cultureInfoName, cells[..|cells| - 1], host) + [Member(c.address, CellJson(o, cultureInfoName, c, host))]
  }

  function CellsNode(o: Options, cultureInfoName: string, cells: seq<RawCell>, host: Host): Node
    requires CellsApplicable(cultureInfoName, cells)
  {
    if o.objectFormat then JObject(PutAll(CellPairs(o, cultureInfoName, cells, host)))
    else JArray(CellItems(o, cultureInfoName, cells, host))
  }

  // ---------------------------------------------------------------------------
  // Sheets

  predicate SheetApplicable(o: Options, cultureInfoName: string, ws: Worksheet)
  {
    o.includeCellData ==> CellsApplicable(cultureInfoName, ws.cellsUsed)
  }

  /** The first members of a sheet object: the name, and the six
      sheet-information fields when asked for. */
  function SheetInfo(o: Options, ws: Worksheet): seq<Member>
  {
    var named := [Member("Name", JString(ws.name))];
    if o.includeSheetInformation
    then named
      + [Member("Protected", JBool(ws.isProtected))]
      + [Member("PasswordProtected", JBool(ws.isPasswordProtected))]
      + [Member("Visible", JBool(ws.visibility == Visible))]
      + [Member("Visibility", JString(VisibilityName(ws.visibility)))]
      + [Member("Active", JBool(ws.tabActive))]
      + [Member("Selected", JBool(ws.tabSelected))]
    else named
  }

  /** The members of a sheet object: then the cells when asked for. */
  function SheetMembers(o: Options, cultureInfoName: string, ws: Worksheet, host: Host): seq<Member>
    requires SheetApplicable(o, cultureInfoName, ws)
  {
    var info := SheetInfo(o, ws);
    if o.includeCellData then info + [Member("Cells", CellsNode(o, cultureInfoName, ws.cellsUsed, host))] else info
  }

  function SheetJson(o: Options, cultureInfoName: string, ws: Worksheet, host: Host): Node
    requires SheetApplicable(o, cultureInfoName, ws)
  {
    JObject(SheetMembers(o, cultureInfoName, ws, host))
  }

  predicate SheetsApplicable(o: Options, cultureInfoName: string, ks: seq<Worksheet>)
  {
    forall k :: 0 <= k < |ks| ==> SheetApplicable(o, cultureInfoName, ks[k])
  }

  /** Array shape: one sheet object per kept sheet. */
  function SheetItems(o: Options, cultureInfoName: string, ks: seq<Worksheet>, host: Host): (items: seq<Node>)
    requires SheetsApplicable(o, cultureInfoName, ks)
    ensures |items| == |ks|
    decreases |ks|
  {
    if ks == [] then []
    else
      var w := ks[|ks| - 1];
      SheetItems(o, cultureInfoName, ks[..|ks| - 1], host) + [SheetJson(o, cultureInfoName, w, host)]
  }

  /** Object shape: the name/sheet-object assignments. */
  function SheetPairs(o: Options, cultureInfoName: string, ks: seq<Worksheet>, host: Host): (pairs: seq<Member>)
    requires SheetsApplicable(o, cultureInfoName, ks)
    ensures |pairs| == |ks|
    decreases |ks|
  {
    if ks == [] then []
    else
      var w := ks[|ks| - 1];
      SheetPairs(o, cultureInfoName, ks[..|ks| - 1], host) + [Member(w.name, SheetJson(o, cultureInfoName, w, host))]
  }

  /** Every sheet that will be converted can be resolved. */
  predicate WorkbookApplicable(o: Options, cultureInfoName: string, wss: seq<Worksheet>, upper: char -> char)
  {
    forall k :: 0 <= k < |wss| && Selected(o.sheetNames, wss[k].name, upper) ==> SheetApplicable(o, cultureInfoName, wss[k])
  }

  function SheetsNode(o: Options, cultureInfoName: string, wss: seq<Worksheet>, host: Host): Node
    requires WorkbookApplicable(o, cultureInfoName, wss, host.upper)
  {
    var ks := Kept(o.sheetNames, wss, host.upper);
    assert wss[..|wss|] == wss;
    KeptApplicable(o, cultureInfoName, wss, host.upper, |wss|);
    if o.objectFormat then JObject(PutAll(SheetPairs(o, cultureInfoName, ks, host)))
    else JArray(SheetItems(o, cultureInfoName, ks, host))
  }

  // ---------------------------------------------------------------------------
  // Document

  /** `GetJsonPropertyData`. */
  function PropertiesJson(path: string, p: Properties): Node
  {
    JObject([Member("Path", JString(path)), Member("Author", JString(p.author)),
             Member("LastModifiedBy", JString(p.lastModifiedBy)), Member("Company", JString(p.company))])
  }

  /** `GetJsonToolData`; the version attribute may be missing (JSON null). */
  function ToolJson(version: Option<string>): Node
  {
    JObject([Member("Name", JString(ToolName)),
             Member("Version", if version.Some? then JString(version.value) else JNull)])
  }

  /** The members of the document around the sheets node `sheets`: the
      properties when asked for, then the workbook and the tool. */
  function DocumentMembers(o: Options, wb: Workbook, sheets: Node, version: Option<string>): seq<Member>
  {
    var properties := if o.includeProperties then [Member("Properties", PropertiesJson(o.inputFilePath, wb.properties))] else [];
    properties
      + [Member("Workbook", JObject([Member("Sheets", sheets)]))]
      + [Member("Tool", ToolJson(version))]
  }

  /** The whole document, or the error raised for an empty input path. */
  function Document(o: Options, cultureInfoName: string, wb: Workbook, host: Host, version: Option<string>): Result<Node, string>
    requires o.inputFilePath != "" ==> WorkbookApplicable(o, cultureInfoName, wb.worksheets, host.upper)
  {
    if o.inputFilePath == "" then Failure(EmptyPathMessage)
    else Success(JObject(DocumentMembers(o, wb, SheetsNode(o, cultureInfoName, wb.worksheets, host), version)))
  }

  // ---------------------------------------------------------------------------
  // The translator object

  class SpreadsheetTranslator {
    /** One resolver, shared by every cell of the run. */
    const cellData: CellData

    /** The settable properties. */
    var options: Options

    constructor (cultureName: string)
      ensures fresh(cellData) && cellData.cultureInfoName == cultureName
      ensures options == Defaults
    {
      cellData := new CellData(cultureName);
      options := Defaults;
    }

    /** `GetJsonString`, up to the tree handed to the serializer. */
    method GetJsonString(workbook: Workbook, host: Host, version: Option<string>) returns (r: Result<Node, string>)
      requires options.inputFilePath != "" ==> WorkbookApplicable(options, cellData.cultureInfoName, workbook.worksheets, host.upper)
      modifies cellData
      ensures r == Document(options, cellData.cultureInfoName, workbook, host, version)
      ensures r.Failure? ==> unchanged(cellData)
    {
      if options.inputFilePath == "" {
        return Failure(EmptyPathMessage);
      }

      var sheetNameList := SheetNameList(options.sheetNames);
      var sheetsNode;
      if options.objectFormat {
        sheetsNode := GetJsonSheetObject(workbook.worksheets, sheetNameList, host);
      } else {
        sheetsNode := GetJsonSheetArray(workbook.worksheets, sheetNameList, host);
      }
      var data := AssignDocumentMembers(options, workbook, sheetsNode, version);
      r := Success(JObject(data));
    }

    /** The object-shaped sheet loop of `GetJsonString`: kept sheets keyed by
        name, a later sheet with the same name replacing the earlier one. */
    method GetJsonSheetObject(wss: seq<Worksheet>, sheetNameList: seq<string>, host: Host) returns (sheetsNode: Node)
      requires sheetNameList == SheetNameList(options.sheetNames)
      requires WorkbookApplicable(options, cellData.cultureInfoName, wss, host.upper)
      requires options.objectFormat
      modifies cellData
      ensures sheetsNode == SheetsNode(options, cellData.cultureInfoName, wss, host)
    {
      var culture := cellData.cultureInfoName;
      var sheets: seq<Member> := [];
      for i := 0 to |wss|
        invariant sheets == SheetObjectPrefix(options, culture, wss, host, i)
      {
        var worksheet := wss[i];
        SheetObjectPrefixSnoc(options, culture, wss, host, i);
        if options.sheetNames != "" && !AnyEqualsIgnoreCase(sheetNameList, worksheet.name, host.upper) {
          continue;
        }
        var sheet := GetJsonSheetData(worksheet, host);
        sheets := Put(sheets, worksheet.name, sheet);
      }
      SheetPrefixesComplete(options, culture, wss, host);
      sheetsNode := JObject(sheets);
    }

    /** The array-shaped sheet loop of `GetJsonString`: kept sheets in
        workbook order. */
    method GetJsonSheetArray(wss: seq<Worksheet>, sheetNameList: seq<string>, host: Host) returns (sheetsNode: Node)
      requires sheetNameList == SheetNameList(options.sheetNames)
      requires WorkbookApplicable(options, cellData.cultureInfoName, wss, host.upper)
      requires !options.objectFormat
      modifies cellData
      ensures sheetsNode == SheetsNode(options, cellData.cultureInfoName, wss, host)
    {
      var culture := cellData.cultureInfoName;
      var sheets: seq<Node> := [];
      for i := 0 to |wss|
        invariant sheets == SheetArrayPrefix(options, culture, wss, host, i)
      {
        var worksheet := wss[i];
        SheetArrayPrefixSnoc(options, culture, wss, host, i);
        if options.sheetNames != "" && !AnyEqualsIgnoreCase(sheetNameList, worksheet.name, host.upper) {
          continue;
        }
        var sheet := GetJsonSheetData(worksheet, host);
        sheets := sheets + [sheet];
      }
      SheetPrefixesComplete(options, culture, wss, host);
      sheetsNode := JArray(sheets);
    }

    /** `GetJsonSheetData`. */
    method GetJsonSheetData(worksheet: Worksheet, host: Host) returns (sheet: Node)
      requires SheetApplicable(options, cellData.cultureInfoName, worksheet)
      modifies cellData
      ensures sheet == SheetJson(options, cellData.cultureInfoName, worksheet, host)
    {
      var members := AssignSheetInformation(options, worksheet);
      if options.includeCellData {
        var cellsNode := GetJsonCells(worksheet.cellsUsed, host);
        SheetInfoDistinct(options, worksheet);
        assert Absent(members, "Cells");
        PutShape(members, "Cells", cellsNode);
        members := Put(members, "Cells", cellsNode);
      }
      sheet := JObject(members);
    }

    /** The cell loops of `GetJsonSheetData`: the used cells as an object
        keyed by address or as an array. */
    method GetJsonCells(used: seq<RawCell>, host: Host) returns (cellsNode: Node)
      requires CellsApplicable(cellData.cultureInfoName, used)
      modifies cellData
      ensures cellsNode == CellsNode(options, cellData.cultureInfoName, used, host)
    {
      var culture := cellData.cultureInfoName;
      if options.objectFormat {
        var cells: seq<Member> := [];
        for i := 0 to |used|
          invariant cells == PutAll(CellPairs(options, culture, used[..i], host))
        {
          var cell := used[i];
          assert used[..i + 1][..i] == used[..i];
          var address := cell.address;
          var cellJson := GetJsonCellData(cell, host);
          cells := Put(cells, address, cellJson);
        }
        assert used[..|used|] == used;
        cellsNode := JObject(cells);
      } else {
        var cells: seq<Node> := [];
        for i := 0 to |used|
          invariant cells == CellItems(options, culture, used[..i], host)
        {
          var cell := used[i];
          assert used[..i + 1][..i] == used[..i];
          var cellJson := GetJsonCellData(cell, host);
          cells := cells + [cellJson];
        }
        assert used[..|used|] == used;
        cellsNode := JArray(cells);
      }
    }

    /** `GetJsonCellData`: resolves the cell through the shared `cellData`,
        then assigns the fields. */
    method GetJsonCellData(cell: RawCell, host: Host) returns (jsonCellData: Node)
      requires OverrideApplicable(NumberFormatItemList(cellData.cultureInfoName), cell)
      modifies cellData
      ensures jsonCellData == CellJson(options, cellData.cultureInfoName, cell, host)
      ensures ResolvedCell(cellData.text, cellData.cellType)
           == Resolve(NumberFormatItemList(cellData.cultureInfoName), cellData.cultureInfoName, cell, host)
    {
      cellData.SetCell(cell, host);
      ResolvedTypes(cellData.cultureInfoName, cell, host);
      var r := ResolvedCell(cellData.text, cellData.cellType);
      var members := AssignCellMembers(options, r, cell);
      jsonCellData := JObject(members);
    }
  }

  /** The assignments of `GetJsonSheetData` before the cells. */
  method AssignSheetInformation(o: Options, ws: Worksheet) returns (members: seq<Member>)
    ensures members == SheetInfo(o, ws)
  {
    ghost var done: seq<Member> := [];
    members := [];
    PutAllSnoc(done, "Name", JString(ws.name));
    members := Put(members, "Name", JString(ws.name));
    done := done + [Member("Name", JString(ws.name))];
    if o.includeSheetInformation {
      PutAllSnoc(done, "Protected", JBool(ws.isProtected));
      members := Put(members, "Protected", JBool(ws.isProtected));
      done := done + [Member("Protected", JBool(ws.isProtected))];
      PutAllSnoc(done, "PasswordProtected", JBool(ws.isPasswordProtected));
      members := Put(members, "PasswordProtected", JBool(ws.isPasswordProtected));
      done := done + [Member("PasswordProtected", JBool(ws.isPasswordProtected))];
      PutAllSnoc(done, "Visible", JBool(ws.visibility == Visible));
      members := Put(members, "Visible", JBool(ws.visibility == Visible));
      done := done + [Member("Visible", JBool(ws.visibility == Visible))];
      PutAllSnoc(done, "Visibility", JString(VisibilityName(ws.visibility)));
      members := Put(members, "Visibility", JString(VisibilityName(ws.visibility)));
      done := done + [Member("Visibility", JString(VisibilityName(ws.visibility)))];
      PutAllSnoc(done, "Active", JBool(ws.tabActive));
      members := Put(members, "Active", JBool(ws.tabActive));
      done := done + [Member("Active", JBool(ws.tabActive))];
      PutAllSnoc(done, "Selected", JBool(ws.tabSelected));
      members := Put(members, "Selected", JBool(ws.tabSelected));
      done := done + [Member("Selected", JBool(ws.tabSelected))];
    }
    assert done == SheetInfo(o, ws);
    SheetInfoAssigned(o, ws);
  }

  /** The assignments of `GetJsonString` around the sheets node. */
  method AssignDocumentMembers(o: Options, wb: Workbook, sheets: Node, version: Option<string>) returns (data: seq<Member>)
    ensures data == DocumentMembers(o, wb, sheets, version)
  {
    var jsonWorkbook := Put([], "Sheets", sheets);
    data := [];
    if o.includeProperties {
      data := Put(data, "Properties", PropertiesJson(o.inputFilePath, wb.properties));
    }
    assert jsonWorkbook == [Member("Sheets", sheets)];
    assert Absent(data, "Workbook");
    PutShape(data, "Workbook", JObject(jsonWorkbook));
    data := Put(data, "Workbook", JObject(jsonWorkbook));
    assert Absent(data, "Tool");
    PutShape(data, "Tool", ToolJson(version));
    data := Put(data, "Tool", ToolJson(version));
  }

  /** The field assignments of `GetJsonCellData` once the cell is resolved;
      no field is assigned twice, so the object holds them in order. */
  method AssignCellMembers(o: Options, r: ResolvedCell, cell: RawCell) returns (members: seq<Member>)
    requires ValueReadable(r, cell)
    ensures members == CellMembers(o, r, cell)
  {
    ghost var done: seq<Member> := [];
    members := [];
    PutAllSnoc(done, "Address", JString(cell.address));
    members := Put(members, "Address", JString(cell.address));
    done := done + [Member("Address", JString(cell.address))];
    if o.includeCellRowColumn {
      PutAllSnoc(done, "Row", JNumber(cell.row as real));
      members := Put(members, "Row", JNumber(cell.row as real));
      done := done + [Member("Row", JNumber(cell.row as real))];
      PutAllSnoc(done, "Column", JNumber(cell.column as real));
      members := Put(members, "Column", JNumber(cell.column as real));
      done := done + [Member("Column", JNumber(cell.column as real))];
    }
    assert done == CellPosition(o, cell) && members == PutAll(done);
    PutAllSnoc(done, "Text", JString(r.text));
    members := Put(members, "Text", JString(r.text));
    done := done + [Member("Text", JString(r.text))];
    PutAllSnoc(done, "Type", JString(TypeName(r.cellType)));
    members := Put(members, "Type", JString(TypeName(r.cellType)));
    done := done + [Member("Type", JString(TypeName(r.cellType)))];
    if cell.formulaA1 != "" {
      PutAllSnoc(done, "Formula", JString(cell.formulaA1));
      members := Put(members, "Formula", JString(cell.formulaA1));
      done := done + [Member("Formula", JString(cell.formulaA1))];
    }
    assert done == CellFormula(o, r, cell) && members == PutAll(done);

    var value := ValueJson(r, cell);
    PutAllSnoc(done, "Value", value);
    members := Put(members, "Value", value);
    done := done + [Member("Value", value)];
    var memo := cell.comment;
    if memo != "" {
      PutAllSnoc(done, "Memo", JString(cell.comment));
      members := Put(members, "Memo", JString(cell.comment));
      done := done + [Member("Memo", JString(cell.comment))];
    }
    assert done == CellMemo(o, r, cell) && members == PutAll(done);

    if o.includeCellFormat {
      PutAllSnoc(done, "NumberFormat_Format", JString(cell.formatString));
      members := Put(members, "NumberFormat_Format", JString(cell.formatString));
      done := done + [Member("NumberFormat_Format", JString(cell.formatString))];
      PutAllSnoc(done, "NumberFormat_Id", JNumber(cell.formatId as real));
      members := Put(members, "NumberFormat_Id", JNumber(cell.formatId as real));
      done := done + [Member("NumberFormat_Id", JNumber(cell.formatId as real))];
    }

    assert done == CellMembers(o, r, cell);
    CellMembersAssigned(o, r, cell);
  }

  // ---------------------------------------------------------------------------
  // No field is assigned twice

  /** The keys of a cell object are pairwise distinct. */
  lemma CellMembersDistinct(o: Options, r: ResolvedCell, cell: RawCell)
    requires ValueReadable(r, cell)
    ensures DistinctKeys(CellMembers(o, r, cell))
  {
    var address := [Member("Address", JString(cell.address))];
    var keys: set<string> := {"Address"};
    var position := address;
    if o.includeCellRowColumn {
      AppendFresh(position, Member("Row", JNumber(cell.row as real)), keys);
      position := position + [Member("Row", JNumber(cell.row as real))];
      keys := keys + {"Row"};
      AppendFresh(position, Member("Column", JNumber(cell.column as real)), keys);
      position := position + [Member("Column", JNumber(cell.column as real))];
      keys := keys + {"Column"};
    }
    keys := {"Address", "Row", "Column"};
    AppendFresh(position, Member("Text", JString(r.text)), keys);
    var typed := position + [Member("Text", JString(r.text))];
    keys := keys + {"Text"};
    AppendFresh(typed, Member("Type", JString(TypeName(r.cellType))), keys);
    typed := typed + [Member("Type", JString(TypeName(r.cellType)))];
    keys := keys + {"Type"};
    var formula := typed;
    if cell.formulaA1 != "" {
      AppendFresh(formula, Member("Formula", JString(cell.formulaA1)), keys);
      formula := formula + [Member("Formula", JString(cell.formulaA1))];
    }
    keys := keys + {"Formula"};
    AppendFresh(formula, Member("Value", ValueJson(r, cell)), keys);
    var valued := formula + [Member("Value", ValueJson(r, cell))];
    keys := keys + {"Value"};
    var memo := valued;
    if cell.comment != "" {
      AppendFresh(memo, Member("Memo", JString(cell.comment)), keys);
      memo := memo + [Member("Memo", JString(cell.comment))];
    }
    keys := keys + {"Memo"};
    if o.includeCellFormat {
      AppendFresh(memo, Member("NumberFormat_Format", JString(cell.formatString)), keys);
      var f := memo + [Member("NumberFormat_Format", JString(cell.formatString))];
      AppendFresh(f, Member("NumberFormat_Id", JNumber(cell.formatId as real)), keys + {"NumberFormat_Format"});
    }
  }

  /** The sheet-information keys. */
  const SheetInfoKeys: set<string> := {"Name", "Protected", "PasswordProtected", "Visible", "Visibility", "Active", "Selected"}

  /** The keys of the sheet-information part are distinct and are among
      `SheetInfoKeys`. */
  lemma SheetInfoDistinct(o: Options, ws: Worksheet)
    ensures DistinctKeys(SheetInfo(o, ws))
    ensures forall k :: 0 <= k < |SheetInfo(o, ws)| ==> SheetInfo(o, ws)[k].key in SheetInfoKeys
  {
    var info := [Member("Name", JString(ws.name))];
    var keys: set<string> := {"Name"};
    if o.includeSheetInformation {
      AppendFresh(info, Member("Protected", JBool(ws.isProtected)), keys);
      info := info + [Member("Protected", JBool(ws.isProtected))];
      keys := keys + {"Protected"};
      AppendFresh(info, Member("PasswordProtected", JBool(ws.isPasswordProtected)), keys);
      info := info + [Member("PasswordProtected", JBool(ws.isPasswordProtected))];
      keys := keys + {"PasswordProtected"};
      AppendFresh(info, Member("Visible", JBool(ws.visibility == Visible)), keys);
      info := info + [Member("Visible", JBool(ws.visibility == Visible))];
      keys := keys + {"Visible"};
      AppendFresh(info, Member("Visibility", JString(VisibilityName(ws.visibility))), keys);
      info := info + [Member("Visibility", JString(VisibilityName(ws.visibility)))];
      keys := keys + {"Visibility"};
      AppendFresh(info, Member("Active", JBool(ws.tabActive)), keys);
      info := info + [Member("Active", JBool(ws.tabActive))];
      keys := keys + {"Active"};
      AppendFresh(info, Member("Selected", JBool(ws.tabSelected)), keys);
    }
  }

  /** The keys of a sheet object are pairwise distinct. */
  lemma SheetMembersDistinct(o: Options, cultureInfoName: string, ws: Worksheet, host: Host)
    requires SheetApplicable(o, cultureInfoName, ws)
    ensures DistinctKeys(SheetMembers(o, cultureInfoName, ws, host))
  {
    SheetInfoDistinct(o, ws);
    if o.includeCellData {
      AppendFresh(SheetInfo(o, ws), Member("Cells", CellsNode(o, cultureInfoName, ws.cellsUsed, host)), SheetInfoKeys);
    }
  }

  /** The top-level keys are pairwise distinct. */
  lemma DocumentMembersDistinct(o: Options, wb: Workbook, sheets: Node, version: Option<string>)
    ensures DistinctKeys(DocumentMembers(o, wb, sheets, version))
  {
    var properties := if o.includeProperties then [Member("Properties", PropertiesJson(o.inputFilePath, wb.properties))] else [];
    var workbook := Member("Workbook", JObject([Member("Sheets", sheets)]));
    AppendFresh(properties, workbook, {"Properties"});
    AppendFresh(properties + [workbook], Member("Tool", ToolJson(version)), {"Properties", "Workbook"});
  }

  // ---------------------------------------------------------------------------
  // Step lemmas used by the loops

  lemma KeptSnoc(sheetNames: string, wss: seq<Worksheet>, upper: char -> char, i: nat)
    requires i < |wss|
    ensures Kept(sheetNames, wss[..i + 1], upper)
         == Kept(sheetNames, wss[..i], upper) + (if Selected(sheetNames, wss[i].name, upper) then [wss[i]] else [])
  {
    assert wss[..i + 1][..i] == wss[..i];
  }

  /** Every kept sheet of a prefix can be converted. */
  lemma {:induction false} KeptApplicable(o: Options, cultureInfoName: string, wss: seq<Worksheet>, upper: char -> char, i: nat)
    requires WorkbookApplicable(o, cultureInfoName, wss, upper)
    requires i <= |wss|
    ensures SheetsApplicable(o, cultureInfoName, Kept(o.sheetNames, wss[..i], upper))
    decreases i
  {
    if i > 0 {
      KeptApplicable(o, cultureInfoName, wss, upper, i - 1);
      KeptSnoc(o.sheetNames, wss, upper, i - 1);
    }
  }

  /** The object-shaped sheets after the loop has seen the first `i` sheets. */
  ghost function SheetObjectPrefix(o: Options, cultureInfoName: string, wss: seq<Worksheet>, host: Host, i: nat): seq<Member>
    requires WorkbookApplicable(o, cultureInfoName, wss, host.upper) && i <= |wss|
  {
    KeptApplicable(o, cultureInfoName, wss, host.upper, i);
    PutAll(SheetPairs(o, cultureInfoName, Kept(o.sheetNames, wss[..i], host.upper), host))
  }

  /** The array-shaped sheets after the loop has seen the first `i` sheets. */
  ghost function SheetArrayPrefix(o: Options, cultureInfoName: string, wss: seq<Worksheet>, host: Host, i: nat): seq<Node>
    requires WorkbookApplicable(o, cultureInfoName, wss, host.upper) && i <= |wss|
  {
    KeptApplicable(o, cultureInfoName, wss, host.upper, i);
    SheetItems(o, cultureInfoName, Kept(o.sheetNames, wss[..i], host.upper), host)
  }

  /** One step of the object-shaped loop: a kept sheet is put under its name,
      a skipped one changes nothing. */
  lemma SheetObjectPrefixSnoc(o: Options, cultureInfoName: string, wss: seq<Worksheet>, host: Host, i: nat)
    requires WorkbookApplicable(o, cultureInfoName, wss, host.upper) && i < |wss|
    ensures Selected(o.sheetNames, wss[i].name, host.upper) ==> SheetApplicable(o, cultureInfoName, wss[i])
    ensures SheetObjectPrefix(o, cultureInfoName, wss, host, i + 1)
         == if Selected(o.sheetNames, wss[i].name, host.upper)
            then Put(SheetObjectPrefix(o, cultureInfoName, wss, host, i), wss[i].name, SheetJson(o, cultureInfoName, wss[i], host))
            else SheetObjectPrefix(o, cultureInfoName, wss, host, i)
  {
    var ks, ks' := Kept(o.sheetNames, wss[..i], host.upper), Kept(o.sheetNames, wss[..i + 1], host.upper);
    KeptSnoc(o.sheetNames, wss, host.upper, i);
    KeptApplicable(o, cultureInfoName, wss, host.upper, i);
    KeptApplicable(o, cultureInfoName, wss, host.upper, i + 1);
    assert SheetObjectPrefix(o, cultureInfoName, wss, host, i) == PutAll(SheetPairs(o, cultureInfoName, ks, host));
    assert SheetObjectPrefix(o, cultureInfoName, wss, host, i + 1) == PutAll(SheetPairs(o, cultureInfoName, ks', host));
    if Selected(o.sheetNames, wss[i].name, host.upper) {
      var w := wss[i];
      assert ks' == ks + [w];
      SheetPairsSnoc(o, cultureInfoName, ks, w, host);
      PutAllSnoc(SheetPairs(o, cultureInfoName, ks, host), w.name, SheetJson(o, cultureInfoName, w, host));
    } else {
      assert ks' == ks;
    }
  }

  /** One step of the array-shaped loop: a kept sheet is appended, a skipped
      one changes nothing. */
  lemma SheetArrayPrefixSnoc(o: Options, cultureInfoName: string, wss: seq<Worksheet>, host: Host, i: nat)
    requires WorkbookApplicable(o, cultureInfoName, wss, host.upper) && i < |wss|
    ensures Selected(o.sheetNames, wss[i].name, host.upper) ==> SheetApplicable(o, cultureInfoName, wss[i])
    ensures SheetArrayPrefix(o, cultureInfoName, wss, host, i + 1)
         == if Selected(o.sheetNames, wss[i].name, host.upper)
            then SheetArrayPrefix(o, cultureInfoName, wss, host, i) + [SheetJson(o, cultureInfoName, wss[i], host)]
            else SheetArrayPrefix(o, cultureInfoName, wss, host, i)
  {
    var ks, ks' := Kept(o.sheetNames, wss[..i], host.upper), Kept(o.sheetNames, wss[..i + 1], host.upper);
    KeptSnoc(o.sheetNames, wss, host.upper, i);
    KeptApplicable(o, cultureInfoName, wss, host.upper, i);
    KeptApplicable(o, cultureInfoName, wss, host.upper, i + 1);
    assert SheetArrayPrefix(o, cultureInfoName, wss, host, i) == SheetItems(o, cultureInfoName, ks, host);
    assert SheetArrayPrefix(o, cultureInfoName, wss, host, i + 1) == SheetItems(o, cultureInfoName, ks', host);
    if Selected(o.sheetNames, wss[i].name, host.upper) {
      assert ks' == ks + [wss[i]];
      SheetItemsSnoc(o, cultureInfoName, ks, wss[i], host);
    } else {
      assert ks' == ks;
    }
  }

  /** After the last sheet the prefixes are the whole `Sheets` node. */
  lemma SheetPrefixesComplete(o: Options, cultureInfoName: string, wss: seq<Worksheet>, host: Host)
    requires WorkbookApplicable(o, cultureInfoName, wss, host.upper)
    ensures SheetsNode(o, cultureInfoName, wss, host)
         == if o.objectFormat then JObject(SheetObjectPrefix(o, cultureInfoName, wss, host, |wss|))
            else JArray(SheetArrayPrefix(o, cultureInfoName, wss, host, |wss|))
  {
    assert wss[..|wss|] == wss;
  }

  lemma SheetItemsSnoc(o: Options, cultureInfoName: string, ks: seq<Worksheet>, w: Worksheet, host: Host)
    requires SheetsApplicable(o, cultureInfoName, ks) && SheetApplicable(o, cultureInfoName, w)
    ensures SheetItems(o, cultureInfoName, ks + [w], host) == SheetItems(o, cultureInfoName, ks, host) + [SheetJson(o, cultureInfoName, w, host)]
  {
    assert (ks + [w])[..|ks|] == ks;
  }

  lemma SheetPairsSnoc(o: Options, cultureInfoName: string, ks: seq<Worksheet>, w: Worksheet, host: Host)
    requires SheetsApplicable(o, cultureInfoName, ks) && SheetApplicable(o, cultureInfoName, w)
    ensures SheetPairs(o, cultureInfoName, ks + [w], host) == SheetPairs(o, cultureInfoName, ks, host) + [Member(w.name, SheetJson(o, cultureInfoName, w, host))]
  {
    assert (ks + [w])[..|ks|] == ks;
  }

  /** Assigning the members of a cell object one by one through the indexer
      overwrites nothing. */
  lemma CellMembersAssigned(o: Options, r: ResolvedCell, cell: RawCell)
    requires ValueReadable(r, cell)
    ensures PutAll(CellMembers(o, r, cell)) == CellMembers(o, r, cell)
  {
    CellMembersDistinct(o, r, cell);
    PutAllDistinct(CellMembers(o, r, cell));
  }

  /** Assigning the sheet-information members one by one overwrites
      nothing. */
  lemma SheetInfoAssigned(o: Options, ws: Worksheet)
    ensures PutAll(SheetInfo(o, ws)) == SheetInfo(o, ws)
  {
    SheetInfoDistinct(o, ws);
    PutAllDistinct(SheetInfo(o, ws));
  }


}
