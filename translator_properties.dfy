/** What the translator's output contains, read back field by field: each
    object's keyed view is stated as an independent table and proved equal to
    what the member-by-member assignments build. */
module TranslationProperties {
  import opened Wrappers
  import opened Strings
  import opened JsonTree
  import opened Excel
  import opened AdditionalNumberFormats
  import opened CellResolution
  import opened Translation

  // ---------------------------------------------------------------------------
  // Cell objects

  /** The fields of a cell object with resolution `r`, key by key: the
      address, text and type always; the row and column with their flag; the
      formula and the memo when non-empty; the value by resolved type; the
      number format with its flag. */
  function CellField(o: Options, r: ResolvedCell, cell: RawCell, key: string): Option<Node>
    requires ValueReadable(r, cell)
  {
    if key == "Address" then Some(JString(cell.address))
    else if key == "Row" then (if o.includeCellRowColumn then Some(JNumber(cell.row as real)) else None)
    else if key == "Column" then (if o.includeCellRowColumn then Some(JNumber(cell.column as real)) else None)
    else if key == "Text" then Some(JString(r.text))
    else if key == "Type" then Some(JString(TypeName(r.cellType)))
    else if key == "Formula" then (if cell.formulaA1 != "" then Some(JString(cell.formulaA1)) else None)
    else if key == "Value" then
      Some(if r.cellType == DateTime then JNumber(UnifiedNumber(cell.value))
           else if r.cellType == Number then JNumber(GetNumber(cell.value))
           else JString(cell.valueString))
    else if key == "Memo" then (if cell.comment != "" then Some(JString(cell.comment)) else None)
    else if key == "NumberFormat_Format" then (if o.includeCellFormat then Some(JString(cell.formatString)) else None)
    else if key == "NumberFormat_Id" then (if o.includeCellFormat then Some(JNumber(cell.formatId as real)) else None)
    else None
  }

  /** The address, then the row and column when asked for. */
  lemma CellPositionFields(o: Options, cell: RawCell, key: string)
    ensures Get(CellPosition(o, cell), key)
         == if key == "Address" then Some(JString(cell.address))
            else if key == "Row" && o.includeCellRowColumn then Some(JNumber(cell.row as real))
            else if key == "Column" && o.includeCellRowColumn then Some(JNumber(cell.column as real))
            else None
  {
    var ms := [Member("Address", JString(cell.address))];
    if o.includeCellRowColumn {
      GetSnoc(ms, Member("Row", JNumber(cell.row as real)), key);
      GetSnoc(ms + [Member("Row", JNumber(cell.row as real))], Member("Column", JNumber(cell.column as real)), key);
    }
  }

  /** Then the text and type, and the formula when there is one. */
  lemma CellFormulaFields(o: Options, r: ResolvedCell, cell: RawCell, key: string)
    ensures Get(CellFormula(o, r, cell), key)
         == if key == "Text" then Some(JString(r.text))
            else if key == "Type" then Some(JString(TypeName(r.cellType)))
            else if key == "Formula" && cell.formulaA1 != "" then Some(JString(cell.formulaA1))
            else Get(CellPosition(o, cell), key)
  {
    var ms := CellPosition(o, cell);
    CellPositionFields(o, cell, key);
    GetSnoc(ms, Member("Text", JString(r.text)), key);
    ms := ms + [Member("Text", JString(r.text))];
    GetSnoc(ms, Member("Type", JString(TypeName(r.cellType))), key);
    ms := ms + [Member("Type", JString(TypeName(r.cellType)))];
    if cell.formulaA1 != "" {
      GetSnoc(ms, Member("Formula", JString(cell.formulaA1)), key);
    }
  }

  /** Then the value, and the memo when there is a comment. */
  lemma CellMemoFields(o: Options, r: ResolvedCell, cell: RawCell, key: string)
    requires ValueReadable(r, cell)
    ensures Get(CellMemo(o, r, cell), key)
         == if key == "Value" then Some(ValueJson(r, cell))
            else if key == "Memo" && cell.comment != "" then Some(JString(cell.comment))
            else Get(CellFormula(o, r, cell), key)
  {
    var ms := CellFormula(o, r, cell);
    CellFormulaFields(o, r, cell, key);
    CellPositionFields(o, cell, key);
    GetSnoc(ms, Member("Value", ValueJson(r, cell)), key);
    ms := ms + [Member("Value", ValueJson(r, cell))];
    if cell.comment != "" {
      GetSnoc(ms, Member("Memo", JString(cell.comment)), key);
    }
  }

  /** Finally the number format when asked for. */
  lemma CellFormatFields(o: Options, r: ResolvedCell, cell: RawCell, key: string)
    requires ValueReadable(r, cell)
    ensures Get(CellMembers(o, r, cell), key)
         == if key == "NumberFormat_Format" && o.includeCellFormat then Some(JString(cell.formatString))
            else if key == "NumberFormat_Id" && o.includeCellFormat then Some(JNumber(cell.formatId as real))
            else Get(CellMemo(o, r, cell), key)
  {
    var ms := CellMemo(o, r, cell);
    CellMemoFields(o, r, cell, key);
    CellFormulaFields(o, r, cell, key);
    CellPositionFields(o, cell, key);
    if o.includeCellFormat {
      GetSnoc(ms, Member("NumberFormat_Format", JString(cell.formatString)), key);
      GetSnoc(ms + [Member("NumberFormat_Format", JString(cell.formatString))], Member("NumberFormat_Id", JNumber(cell.formatId as real)), key);
    }
  }

  /** The cell object built by the assignments reads, key by key, as the
      table `CellField`. */
  lemma CellFields(o: Options, r: ResolvedCell, cell: RawCell, key: string)
    requires ValueReadable(r, cell)
    ensures Get(CellMembers(o, r, cell), key) == CellField(o, r, cell, key)
  {
    CellFormatFields(o, r, cell, key);
    CellMemoFields(o, r, cell, key);
    CellFormulaFields(o, r, cell, key);
    CellPositionFields(o, cell, key);
  }

  /** The object for a cell holds the fields of its resolution: "Type" is the
      resolved type's name and "Value" follows the resolved type. */
  lemma CellJsonFields(o: Options, cultureInfoName: string, cell: RawCell, host: Host, key: string)
    requires OverrideApplicable(NumberFormatItemList(cultureInfoName), cell)
    ensures ValueReadable(Resolve(NumberFormatItemList(cultureInfoName), cultureInfoName, cell, host), cell)
    ensures Field(CellJson(o, cultureInfoName, cell, host), key)
         == CellField(o, Resolve(NumberFormatItemList(cultureInfoName), cultureInfoName, cell, host), cell, key)
  {
    ResolvedTypes(cultureInfoName, cell, host);
    CellFields(o, Resolve(NumberFormatItemList(cultureInfoName), cultureInfoName, cell, host), cell, key);
  }

  /** Array shape: one cell object per used cell, in traversal order. */
  lemma {:induction false} CellItemsAt(o: Options, cultureInfoName: string, cells: seq<RawCell>, host: Host, k: nat)
    requires CellsApplicable(cultureInfoName, cells) && k < |cells|
    ensures |CellItems(o, cultureInfoName, cells, host)| == |cells|
    ensures CellItems(o, cultureInfoName, cells, host)[k] == CellJson(o, cultureInfoName, cells[k], host)
    decreases |cells|
  {
    var init, last := cells[..|cells| - 1], cells[|cells| - 1];
    assert CellsApplicable(cultureInfoName, init) by {
      assert forall j :: 0 <= j < |init| ==> init[j] == cells[j];
    }
    var items := CellItems(o, cultureInfoName, cells, host);
    assert items == CellItems(o, cultureInfoName, init, host) + [CellJson(o, cultureInfoName, last, host)];
    if init != [] {
      CellItemsAt(o, cultureInfoName, init, host, if k < |init| then k else 0);
    }
    if k < |init| {
      assert init[k] == cells[k];
      assert items[k] == CellItems(o, cultureInfoName, init, host)[k];
    } else {
      assert items[k] == CellJson(o, cultureInfoName, last, host);
    }
  }

  /** Object shape: the assignments are one address/cell-object pair per used
      cell, in traversal order. */
  lemma {:induction false} CellPairsAt(o: Options, cultureInfoName: string, cells: seq<RawCell>, host: Host, k: nat)
    requires CellsApplicable(cultureInfoName, cells) && k < |cells|
    ensures |CellPairs(o, cultureInfoName, cells, host)| == |cells|
    ensures CellPairs(o, cultureInfoName, cells, host)[k] == Member(cells[k].address, CellJson(o, cultureInfoName, cells[k], host))
    decreases |cells|
  {
    var init, last := cells[..|cells| - 1], cells[|cells| - 1];
    assert CellsApplicable(cultureInfoName, init) by {
      assert forall j :: 0 <= j < |init| ==> init[j] == cells[j];
    }
    var pairs := CellPairs(o, cultureInfoName, cells, host);
    assert pairs == CellPairs(o, cultureInfoName, init, host) + [Member(last.address, CellJson(o, cultureInfoName, last, host))];
    if init != [] {
      CellPairsAt(o, cultureInfoName, init, host, if k < |init| then k else 0);
    }
    if k < |init| {
      assert init[k] == cells[k];
      assert pairs[k] == CellPairs(o, cultureInfoName, init, host)[k];
    } else {
      assert pairs[k] == Member(last.address, CellJson(o, cultureInfoName, last, host));
    }
  }

  /** In the object shape, the cell at position `k` is found under its address
      unless a later cell has the same address, and the keys are exactly the
      addresses of the used cells. */
  lemma CellsObjectShape(o: Options, cultureInfoName: string, cells: seq<RawCell>, host: Host, k: nat)
    requires CellsApplicable(cultureInfoName, cells) && k < |cells|
    requires forall j :: k < j < |cells| ==> cells[j].address != cells[k].address
    ensures Get(PutAll(CellPairs(o, cultureInfoName, cells, host)), cells[k].address)
         == Some(CellJson(o, cultureInfoName, cells[k], host))
    ensures forall key :: key in Keys(PutAll(CellPairs(o, cultureInfoName, cells, host)))
                      <==> exists j :: 0 <= j < |cells| && cells[j].address == key
  {
    var pairs := CellPairs(o, cultureInfoName, cells, host);
    CellPairsAt(o, cultureInfoName, cells, host, k);
    forall j | 0 <= j < |cells|
      ensures pairs[j] == Member(cells[j].address, CellJson(o, cultureInfoName, cells[j], host))
    {
      CellPairsAt(o, cultureInfoName, cells, host, j);
    }
    PutAllLastWins(pairs, k);
    PutAllKeys(pairs);
    forall key
      ensures key in Keys(pairs) <==> exists j :: 0 <= j < |cells| && cells[j].address == key
    {
      if key in Keys(pairs) {
        var j :| 0 <= j < |pairs| && Keys(pairs)[j] == key;
        assert cells[j].address == key;
      }
      if exists j :: 0 <= j < |cells| && cells[j].address == key {
        var j :| 0 <= j < |cells| && cells[j].address == key;
        assert Keys(pairs)[j] == key;
      }
    }
  }

  // ---------------------------------------------------------------------------
  // Sheet objects

  /** The fields of a sheet object, key by key: the name always; the six
      sheet-information fields with their flag, "Visible" being whether the
      visibility is `Visible`; the cells with their flag. */
  function SheetField(o: Options, cultureInfoName: string, ws: Worksheet, host: Host, key: string): Option<Node>
    requires SheetApplicable(o, cultureInfoName, ws)
  {
    var info := o.includeSheetInformation;
    if key == "Name" then Some(JString(ws.name))
    else if key == "Protected" then (if info then Some(JBool(ws.isProtected)) else None)
    else if key == "PasswordProtected" then (if info then Some(JBool(ws.isPasswordProtected)) else None)
    else if key == "Visible" then (if info then Some(JBool(ws.visibility == Visible)) else None)
    else if key == "Visibility" then (if info then Some(JString(VisibilityName(ws.visibility))) else None)
    else if key == "Active" then (if info then Some(JBool(ws.tabActive)) else None)
    else if key == "Selected" then (if info then Some(JBool(ws.tabSelected)) else None)
    else if key == "Cells" then (if o.includeCellData then Some(CellsNode(o, cultureInfoName, ws.cellsUsed, host)) else None)
    else None
  }

  /** The name, then the six sheet-information fields when asked for. */
  lemma SheetInfoFields(o: Options, ws: Worksheet, key: string)
    ensures Get(SheetInfo(o, ws), key)
         == if key == "Name" then Some(JString(ws.name))
            else if !o.includeSheetInformation then None
            else if key == "Protected" then Some(JBool(ws.isProtected))
            else if key == "PasswordProtected" then Some(JBool(ws.isPasswordProtected))
            else if key == "Visible" then Some(JBool(ws.visibility == Visible))
            else if key == "Visibility" then Some(JString(VisibilityName(ws.visibility)))
            else if key == "Active" then Some(JBool(ws.tabActive))
            else if key == "Selected" then Some(JBool(ws.tabSelected))
            else None
  {
    var ms := [Member("Name", JString(ws.name))];
    if o.includeSheetInformation {
      GetSnoc(ms, Member("Protected", JBool(ws.isProtected)), key);
      ms := ms + [Member("Protected", JBool(ws.isProtected))];
      GetSnoc(ms, Member("PasswordProtected", JBool(ws.isPasswordProtected)), key);
      ms := ms + [Member("PasswordProtected", JBool(ws.isPasswordProtected))];
      GetSnoc(ms, Member("Visible", JBool(ws.visibility == Visible)), key);
      ms := ms + [Member("Visible", JBool(ws.visibility == Visible))];
      GetSnoc(ms, Member("Visibility", JString(VisibilityName(ws.visibility))), key);
      ms := ms + [Member("Visibility", JString(VisibilityName(ws.visibility)))];
      GetSnoc(ms, Member("Active", JBool(ws.tabActive)), key);
      ms := ms + [Member("Active", JBool(ws.tabActive))];
      GetSnoc(ms, Member("Selected", JBool(ws.tabSelected)), key);
    }
  }

  /** The sheet object reads, key by key, as the table `SheetField`. */
  lemma SheetFields(o: Options, cultureInfoName: string, ws: Worksheet, host: Host, key: string)
    requires SheetApplicable(o, cultureInfoName, ws)
    ensures Field(SheetJson(o, cultureInfoName, ws, host), key) == SheetField(o, cultureInfoName, ws, host, key)
  {
    SheetInfoFields(o, ws, key);
    if o.includeCellData {
      GetSnoc(SheetInfo(o, ws), Member("Cells", CellsNode(o, cultureInfoName, ws.cellsUsed, host)), key);
    }
  }

  // ---------------------------------------------------------------------------
  // The sheet list

  /** An empty allow-list keeps every sheet. */
  lemma {:induction false} EmptyAllowListKeepsAll(wss: seq<Worksheet>, upper: char -> char)
    ensures Kept("", wss, upper) == wss
    decreases |wss|
  {
    if wss != [] {
      EmptyAllowListKeepsAll(wss[..|wss| - 1], upper);
    }
  }

  /** A sheet is kept exactly when it is in the workbook and selected. */
  lemma {:induction false} KeptExactly(sheetNames: string, wss: seq<Worksheet>, upper: char -> char)
    ensures forall w :: w in Kept(sheetNames, wss, upper) <==> w in wss && Selected(sheetNames, w.name, upper)
    decreases |wss|
  {
    if wss != [] {
      var init, last := wss[..|wss| - 1], wss[|wss| - 1];
      KeptExactly(sheetNames, init, upper);
      assert wss == init + [last];
    }
  }

  /** A two-name allow-list such as "visible:hidden" selects exactly the
      sheets named, up to case, like one of its two trimmed names. */
  lemma TwoNameAllowList(a: string, b: string, name: string, upper: char -> char)
    requires ':' !in a && ':' !in b
    ensures Selected(a + [':'] + b, name, upper)
        <==> EqualsIgnoreCase(Trim(a), name, upper) || EqualsIgnoreCase(Trim(b), name, upper)
  {
    var s := a + [':'] + b;
    assert |s| > 0;
    SplitFirst(a, b, ':');
    SplitWithoutSeparator(b, ':');
    var pieces := Split(s, ':');
    assert |pieces| == 2 && pieces[0] == a && pieces[1] == b;
    var names := SheetNameList(s);
    assert |names| == 2 && names[0] == Trim(a) && names[1] == Trim(b);
    if AnyEqualsIgnoreCase(names, name, upper) {
      var k :| 0 <= k < |names| && EqualsIgnoreCase(names[k], name, upper);
      assert k == 0 || k == 1;
    }
    if EqualsIgnoreCase(Trim(a), name, upper) {
      assert EqualsIgnoreCase(names[0], name, upper);
    } else if EqualsIgnoreCase(Trim(b), name, upper) {
      assert EqualsIgnoreCase(names[1], name, upper);
    }
  }

  /** Array shape: one sheet object per kept sheet, in workbook order. */
  lemma {:induction false} SheetItemsAt(o: Options, cultureInfoName: string, ks: seq<Worksheet>, host: Host, k: nat)
    requires SheetsApplicable(o, cultureInfoName, ks) && k < |ks|
    ensures SheetItems(o, cultureInfoName, ks, host)[k] == SheetJson(o, cultureInfoName, ks[k], host)
    decreases |ks|
  {
    var init, last := ks[..|ks| - 1], ks[|ks| - 1];
    assert SheetsApplicable(o, cultureInfoName, init) by {
      assert forall j :: 0 <= j < |init| ==> init[j] == ks[j];
    }
    var items := SheetItems(o, cultureInfoName, ks, host);
    assert items == SheetItems(o, cultureInfoName, init, host) + [SheetJson(o, cultureInfoName, last, host)];
    if init != [] {
      SheetItemsAt(o, cultureInfoName, init, host, if k < |init| then k else 0);
    }
    if k < |init| {
      assert init[k] == ks[k];
      assert items[k] == SheetItems(o, cultureInfoName, init, host)[k];
    } else {
      assert items[k] == SheetJson(o, cultureInfoName, last, host);
    }
  }

  /** Object shape: one name/sheet-object pair per kept sheet, in workbook
      order. */
  lemma {:induction false} SheetPairsAt(o: Options, cultureInfoName: string, ks: seq<Worksheet>, host: Host, k: nat)
    requires SheetsApplicable(o, cultureInfoName, ks) && k < |ks|
    ensures SheetPairs(o, cultureInfoName, ks, host)[k] == Member(ks[k].name, SheetJson(o, cultureInfoName, ks[k], host))
    decreases |ks|
  {
    var init, last := ks[..|ks| - 1], ks[|ks| - 1];
    assert SheetsApplicable(o, cultureInfoName, init) by {
      assert forall j :: 0 <= j < |init| ==> init[j] == ks[j];
    }
    var pairs := SheetPairs(o, cultureInfoName, ks, host);
    assert pairs == SheetPairs(o, cultureInfoName, init, host) + [Member(last.name, SheetJson(o, cultureInfoName, last, host))];
    if init != [] {
      SheetPairsAt(o, cultureInfoName, init, host, if k < |init| then k else 0);
    }
    if k < |init| {
      assert init[k] == ks[k];
      assert pairs[k] == SheetPairs(o, cultureInfoName, init, host)[k];
    } else {
      assert pairs[k] == Member(last.name, SheetJson(o, cultureInfoName, last, host));
    }
  }

  /** In the object shape, the kept sheet at position `k` is found under its
      name unless a later kept sheet has the same name, and the keys are
      exactly the names of the kept sheets. */
  lemma SheetsObjectShape(o: Options, cultureInfoName: string, ks: seq<Worksheet>, host: Host, k: nat)
    requires SheetsApplicable(o, cultureInfoName, ks) && k < |ks|
    requires forall j :: k < j < |ks| ==> ks[j].name != ks[k].name
    ensures Get(PutAll(SheetPairs(o, cultureInfoName, ks, host)), ks[k].name)
         == Some(SheetJson(o, cultureInfoName, ks[k], host))
    ensures forall key :: key in Keys(PutAll(SheetPairs(o, cultureInfoName, ks, host)))
                      <==> exists j :: 0 <= j < |ks| && ks[j].name == key
  {
    var pairs := SheetPairs(o, cultureInfoName, ks, host);
    SheetPairsAt(o, cultureInfoName, ks, host, k);
    forall j | 0 <= j < |ks|
      ensures pairs[j] == Member(ks[j].name, SheetJson(o, cultureInfoName, ks[j], host))
    {
      SheetPairsAt(o, cultureInfoName, ks, host, j);
    }
    PutAllLastWins(pairs, k);
    PutAllKeys(pairs);
    forall key
      ensures key in Keys(pairs) <==> exists j :: 0 <= j < |ks| && ks[j].name == key
    {
      if key in Keys(pairs) {
        var j :| 0 <= j < |pairs| && Keys(pairs)[j] == key;
        assert ks[j].name == key;
      }
      if exists j :: 0 <= j < |ks| && ks[j].name == key {
        var j :| 0 <= j < |ks| && ks[j].name == key;
        assert Keys(pairs)[j] == key;
      }
    }
  }

  // ---------------------------------------------------------------------------
  // The two shapes of one workbook

  /** A cell object does not depend on the shape: only the row/column and
      format flags shape it. */
  lemma CellJsonShapeIndependent(oa: Options, ob: Options, cultureInfoName: string, cell: RawCell, host: Host)
    requires ob == oa.(objectFormat := true)
    requires OverrideApplicable(NumberFormatItemList(cultureInfoName), cell)
    ensures CellJson(ob, cultureInfoName, cell, host) == CellJson(oa, cultureInfoName, cell, host)
  {
  }

  /** The used cells of a sheet in the two shapes of a run, `oa` being the
      array-shape options and `ob` the same options in the object shape: the
      array has one item per cell, the object's keys are exactly the cells'
      addresses, and under the address of cell `k` (when no later cell
      repeats it) stands the very object the array holds at position `k`. */
  lemma CellShapesAgree(oa: Options, ob: Options, cultureInfoName: string, cells: seq<RawCell>, host: Host, k: nat)
    requires !oa.objectFormat && ob == oa.(objectFormat := true)
    requires CellsApplicable(cultureInfoName, cells) && k < |cells|
    requires forall j :: k < j < |cells| ==> cells[j].address != cells[k].address
    ensures var arr := CellsNode(oa, cultureInfoName, cells, host);
            var obj := CellsNode(ob, cultureInfoName, cells, host);
            && arr.JArray? && obj.JObject? && |arr.items| == |cells|
            && Field(obj, cells[k].address) == Some(arr.items[k])
            && (forall key :: key in Keys(obj.members) <==> exists j :: 0 <= j < |cells| && cells[j].address == key)
  {
    CellItemsAt(oa, cultureInfoName, cells, host, k);
    CellsObjectShape(ob, cultureInfoName, cells, host, k);
    CellJsonShapeIndependent(oa, ob, cultureInfoName, cells[k], host);
  }

  /** One sheet in the two shapes of a run: every field but "Cells" is the
      same, and "Cells" is present in both exactly when cell data is
      included, as the object-shaped and the array-shaped cells node. */
  lemma SheetShapesAgree(oa: Options, ob: Options, cultureInfoName: string, ws: Worksheet, host: Host, key: string)
    requires !oa.objectFormat && ob == oa.(objectFormat := true)
    requires SheetApplicable(oa, cultureInfoName, ws)
    ensures SheetApplicable(ob, cultureInfoName, ws)
    ensures var arr := SheetJson(oa, cultureInfoName, ws, host);
            var obj := SheetJson(ob, cultureInfoName, ws, host);
            && (key != "Cells" ==> Field(obj, key) == Field(arr, key))
            && Field(obj, "Cells")
               == (if oa.includeCellData then Some(CellsNode(ob, cultureInfoName, ws.cellsUsed, host)) else None)
            && Field(arr, "Cells")
               == (if oa.includeCellData then Some(CellsNode(oa, cultureInfoName, ws.cellsUsed, host)) else None)
  {
    var info := SheetInfo(oa, ws);
    assert SheetInfo(ob, ws) == info;
    SheetInfoFields(oa, ws, "Cells");
    if oa.includeCellData {
      var ca := Member("Cells", CellsNode(oa, cultureInfoName, ws.cellsUsed, host));
      var cb := Member("Cells", CellsNode(ob, cultureInfoName, ws.cellsUsed, host));
      GetSnoc(info, ca, key);
      GetSnoc(info, cb, key);
      GetSnoc(info, ca, "Cells");
      GetSnoc(info, cb, "Cells");
    }
  }

  /** Each item of the array shape carries its sheet's name. */
  lemma SheetItemNames(o: Options, cultureInfoName: string, ks: seq<Worksheet>, host: Host)
    requires SheetsApplicable(o, cultureInfoName, ks)
    ensures forall j :: 0 <= j < |ks| ==>
              Field(SheetItems(o, cultureInfoName, ks, host)[j], "Name") == Some(JString(ks[j].name))
  {
    forall j | 0 <= j < |ks|
      ensures Field(SheetItems(o, cultureInfoName, ks, host)[j], "Name") == Some(JString(ks[j].name))
    {
      SheetItemsAt(o, cultureInfoName, ks, host, j);
      SheetFields(o, cultureInfoName, ks[j], host, "Name");
    }
  }

  /** The kept sheets in the two shapes of a run, `oa` being the array-shape
      options and `ob` the same options in the object shape: the array lists
      them in order, the object's keys are exactly the "Name"s of the array's
      items, and under the name of sheet `k` (when no later sheet repeats it)
      stands the sheet at position `k` of the array, equal on every field but
      "Cells". */
  lemma SheetListShapesAgree(oa: Options, ob: Options, cultureInfoName: string, ks: seq<Worksheet>, host: Host, k: nat)
    requires !oa.objectFormat && ob == oa.(objectFormat := true)
    requires SheetsApplicable(oa, cultureInfoName, ks) && k < |ks|
    requires forall j :: k < j < |ks| ==> ks[j].name != ks[k].name
    ensures SheetsApplicable(ob, cultureInfoName, ks)
    ensures var items := SheetItems(oa, cultureInfoName, ks, host);
            var obj := PutAll(SheetPairs(ob, cultureInfoName, ks, host));
            && items[k] == SheetJson(oa, cultureInfoName, ks[k], host)
            && Get(obj, ks[k].name) == Some(SheetJson(ob, cultureInfoName, ks[k], host))
            && (forall key :: key in Keys(obj)
                          <==> exists j :: 0 <= j < |items| && Field(items[j], "Name") == Some(JString(key)))
            && (forall key :: key != "Cells" ==>
                  Field(SheetJson(ob, cultureInfoName, ks[k], host), key) == Field(items[k], key))
  {
    assert SheetsApplicable(ob, cultureInfoName, ks) by {
      forall j | 0 <= j < |ks|
        ensures SheetApplicable(ob, cultureInfoName, ks[j])
      {
        assert SheetApplicable(oa, cultureInfoName, ks[j]);
      }
    }
    var items := SheetItems(oa, cultureInfoName, ks, host);
    SheetItemsAt(oa, cultureInfoName, ks, host, k);
    SheetsObjectShape(ob, cultureInfoName, ks, host, k);
    SheetItemNames(oa, cultureInfoName, ks, host);
    forall key | key != "Cells"
      ensures Field(SheetJson(ob, cultureInfoName, ks[k], host), key) == Field(items[k], key)
    {
      SheetShapesAgree(oa, ob, cultureInfoName, ks[k], host, key);
    }
  }

  /** The two shapes of a run hold the same sheets: with `oa` the array-shape
      options and `ob` the same options in the object shape, the workbook's
      sheets node is an array of the kept sheets under `oa` and an object
      keyed by their names under `ob`, whose keys are exactly the "Name"s of
      the array's items; under the name of kept sheet `k` (when no later kept
      sheet repeats it) stands the sheet at position `k` of the array, equal
      on every field but "Cells" (whose agreement is `CellShapesAgree`). */
  lemma ShapesHoldSameSheets(oa: Options, ob: Options, cultureInfoName: string, wss: seq<Worksheet>, host: Host, k: nat)
    requires !oa.objectFormat && ob == oa.(objectFormat := true)
    requires WorkbookApplicable(oa, cultureInfoName, wss, host.upper)
    requires k < |Kept(oa.sheetNames, wss, host.upper)|
    requires var ks := Kept(oa.sheetNames, wss, host.upper);
      forall j :: k < j < |ks| ==> ks[j].name != ks[k].name
    ensures WorkbookApplicable(ob, cultureInfoName, wss, host.upper)
    ensures SheetsApplicable(oa, cultureInfoName, Kept(oa.sheetNames, wss, host.upper))
    ensures SheetsApplicable(ob, cultureInfoName, Kept(oa.sheetNames, wss, host.upper))
    ensures var ks := Kept(oa.sheetNames, wss, host.upper);
            var arr := SheetsNode(oa, cultureInfoName, wss, host);
            var obj := SheetsNode(ob, cultureInfoName, wss, host);
            && arr.JArray? && obj.JObject? && |arr.items| == |ks|
            && arr.items[k] == SheetJson(oa, cultureInfoName, ks[k], host)
            && Field(obj, ks[k].name) == Some(SheetJson(ob, cultureInfoName, ks[k], host))
            && (forall key :: key in Keys(obj.members)
                          <==> exists j :: 0 <= j < |arr.items| && Field(arr.items[j], "Name") == Some(JString(key)))
            && (forall key :: key != "Cells" ==>
                  Field(SheetJson(ob, cultureInfoName, ks[k], host), key) == Field(arr.items[k], key))
  {
    var ks := Kept(oa.sheetNames, wss, host.upper);
    assert WorkbookApplicable(ob, cultureInfoName, wss, host.upper);
    KeptApplicable(oa, cultureInfoName, wss, host.upper, |wss|);
    assert wss[..|wss|] == wss;
    SheetListShapesAgree(oa, ob, cultureInfoName, ks, host, k);
    assert SheetsNode(oa, cultureInfoName, wss, host) == JArray(SheetItems(oa, cultureInfoName, ks, host));
    assert SheetsNode(ob, cultureInfoName, wss, host) == JObject(PutAll(SheetPairs(ob, cultureInfoName, ks, host)));
  }

  // ---------------------------------------------------------------------------
  // The document

  /** The top-level fields, key by key: the properties with their flag, the
      workbook holding the sheets node, and the tool. */
  function DocumentField(o: Options, wb: Workbook, sheets: Node, version: Option<string>, key: string): Option<Node>
  {
    if key == "Properties" then (if o.includeProperties then Some(PropertiesJson(o.inputFilePath, wb.properties)) else None)
    else if key == "Workbook" then Some(JObject([Member("Sheets", sheets)]))
    else if key == "Tool" then Some(ToolJson(version))
    else None
  }

  /** An empty input path is the only failure; otherwise the document reads,
      key by key, as the table `DocumentField`. */
  lemma DocumentOutcome(o: Options, cultureInfoName: string, wb: Workbook, host: Host, version: Option<string>, key: string)
    requires o.inputFilePath != "" ==> WorkbookApplicable(o, cultureInfoName, wb.worksheets, host.upper)
    ensures Document(o, cultureInfoName, wb, host, version).Failure? <==> o.inputFilePath == ""
    ensures Document(o, cultureInfoName, wb, host, version).Failure? ==>
              Document(o, cultureInfoName, wb, host, version).error == EmptyPathMessage
    ensures Document(o, cultureInfoName, wb, host, version).Success? ==>
              (Field(Document(o, cultureInfoName, wb, host, version).value, key)
               == DocumentField(o, wb, SheetsNode(o, cultureInfoName, wb.worksheets, host), version, key))
  {
    if o.inputFilePath != "" {
      var sheets := SheetsNode(o, cultureInfoName, wb.worksheets, host);
      var properties := if o.includeProperties then [Member("Properties", PropertiesJson(o.inputFilePath, wb.properties))] else [];
      var workbook := Member("Workbook", JObject([Member("Sheets", sheets)]));
      GetSnoc(properties, workbook, key);
      GetSnoc(properties + [workbook], Member("Tool", ToolJson(version)), key);
    }
  }
}
