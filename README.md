# spreadsheet2json — a verified model of the cell resolver and the JSON builder

spreadsheet2json converts an Excel workbook into a JSON document. This
project models the two pieces of logic that sit on top of the ClosedXML cell and
worksheet objects, and proves properties of them.

* **Cell typing and display text** (`CellData`, `AdditionalNumberFormat`,
  `NumberFormatItem`). Each cell gets a `(Text, Type)` pair, chosen as follows:
  * If the culture's override table has an entry for the cell's number-format
    ID, the entry's pattern renders the unified number with the invariant
    culture, and the entry's type is taken.
  * Otherwise, if the library calls the cell a Number, the first of the
    markers `[$-F400]`, `[$-409]`, `[$-411]`, `[$-F800]` found in the raw
    format string decides. The result is always DateTime. The text is the
    culture's long time rendering, the library's own text, the library's own
    text again, or the long date rendering, in that order.
  * Otherwise the library's own formatted string and naive type are kept.

  The only override table is the one for `ja-JP`. Culture selection is an
  exact, case-sensitive key match.
* **Document building** (`SpreadsheetTranslator`).
  * `GetJsonString` refuses an empty input path.
  * It keeps the sheets named in a colon-separated, trimmed,
    case-insensitive allow-list.
  * It lists the kept sheets either as an array in workbook order, or as an
    object keyed by sheet name.
  * Each sheet lists its used cells the same way, keyed by address.
  * The option flags decide which fields appear: properties, sheet
    information, cells, row/column, formula, memo and number format.

## How it is modelled

| file | contents |
|---|---|
| `wrappers.dfy` | `Option` and `Result`. |
| `excel.dfy` | What the core reads from ClosedXML: `XLDataType`, the tagged cell value, one used cell (`RawCell`), worksheets and the workbook. `Host` holds the rendering services, which are foreign code, as function values: pattern formatting, long time and long date rendering, and the case mapping of `OrdinalIgnoreCase`. |
| `strings.dfy` | Ordinal `Contains`, `Split`, `Trim` with .NET's white-space set, and case-insensitive equality. |
| `json_tree.dfy` | The System.Text.Json node tree. An object is an ordered member sequence. `Put` is the indexer write: it replaces an existing key where it stands and appends a new key. |
| `number_format_item.dfy` | The `NumberFormatItem` value. |
| `additional_number_format.dfy` | The constant table of override tables and `NumberFormatItemList`, the selection by culture. |
| `cell_data.dfy` | A reference definition `Resolve` (first match over an ordered rule list) and the class `CellData`. Its `SetCell` follows the source's four `if`s on mutable fields and is proved equal to `Resolve`. |
| `spreadsheet_translator.dfy` | Pure specification functions for every object the translator builds, and the class `SpreadsheetTranslator`. Its methods build the tree with loops and indexer writes, as the source does, and each is proved to build exactly its specification. |
| `translator_properties.dfy` | The output read back key by key. These are independent field tables proved equal to what the assignments build, plus the facts about which sheets are kept, the two sheet shapes and the document's outcome. |

## Model

| member | source | states |
|---|---|---|
| NumberFormatItems.ConstructorStoresArguments | Spreadsheet2Json/NumberFormatItem.cs:8-30 | The constructor stores `format` and `type` unchanged, and an item is determined by these two fields alone. |
| AdditionalNumberFormats.NumberFormatItemList | Spreadsheet2Json/AdditionalNumberFormat.cs:31-41 | Every selected entry has type DateTime, and the selected table is non-empty exactly for the culture name "ja-JP". |
| AdditionalNumberFormats.JaJpKeys | Spreadsheet2Json/AdditionalNumberFormat.cs:17-24 | The ja-JP table covers exactly the IDs {14, 30, 31, 55, 56}. |
| AdditionalNumberFormats.JaJpShortPatterns | Spreadsheet2Json/AdditionalNumberFormat.cs:19-20 | ID 14 is `yyyy/m/d` and ID 30 is `m/d/yy`. |
| AdditionalNumberFormats.JaJpLongDateLiterals | Spreadsheet2Json/AdditionalNumberFormat.cs:21 | In ID 31's pattern, every 年, 月 and 日 stands between double quotes, and all three occur. |
| AdditionalNumberFormats.JaJpYearMonthLiterals | Spreadsheet2Json/AdditionalNumberFormat.cs:22 | ID 55's pattern contains 年 and 月, and every 年/月/日 in it stands between double quotes. |
| AdditionalNumberFormats.JaJpMonthDayLiterals | Spreadsheet2Json/AdditionalNumberFormat.cs:23 | ID 56's pattern contains 月 and 日, and every 年/月/日 in it stands between double quotes. |
| AdditionalNumberFormats.OtherCulturesHaveNoOverrides | Spreadsheet2Json/AdditionalNumberFormat.cs:33-40 | A culture name other than "ja-JP" selects no entry for any ID, so lookup simply fails and nothing is raised. |
| AdditionalNumberFormats.LowerCaseJaJpHasNoOverrides | Spreadsheet2Json/AdditionalNumberFormat.cs:33 | The match is case-sensitive: "ja-jp" selects the empty table. |
| CellResolution.FirstRule | Spreadsheet2Json/CellData.cs:70-100 | The rule found is one whose marker the format contains, and no earlier rule's marker is in it. None means that no marker is in it. |
| CellResolution.ApplyRule | Spreadsheet2Json/CellData.cs:70-100 | A fired marker rule always yields type DateTime. |
| CellResolution.CellData.constructor | Spreadsheet2Json/CellData.cs:21-25 | Stores the culture name. The text starts empty and the type starts at `default(XLDataType)`. The override table is fixed from the culture at construction. |
| CellResolution.CellData.SetCell | Spreadsheet2Json/CellData.cs:51-103 | After the four sequential `if`s on the mutable `_text`/`_type`, the pair equals the reference resolution `Resolve` of the cell: override first, then the first marker, then the naive result. |
| CellResolution.OverrideWins | Spreadsheet2Json/CellData.cs:57-64 | With an override entry, the text is the entry's pattern applied to the unified number and the type is the entry's type. Changing the format string changes nothing, so no marker heuristic is consulted. |
| CellResolution.EmptyFormatKeepsLibraryResult | Spreadsheet2Json/CellData.cs:54-68 | With no override and an empty format string, the result is the library's formatted string and naive type. |
| CellResolution.OnlyNumbersAreReclassified | Spreadsheet2Json/CellData.cs:70-100 | With no override, a cell whose naive type is not Number keeps the library's text and type. |
| CellResolution.MarkerPriority | Spreadsheet2Json/CellData.cs:70-100 | With no override, a Number cell is handled by rule k exactly when marker k is present and no earlier marker is. At most one rule takes effect. |
| CellResolution.LongTimeMarker | Spreadsheet2Json/CellData.cs:70-77 | `[$-F400]` on a Number cell gives the culture's long time rendering with type DateTime, whatever other markers are present. |
| CellResolution.DateMarkersKeepText | Spreadsheet2Json/CellData.cs:79-91 | With no `[$-F400]`, `[$-409]` or `[$-411]` on a Number cell changes only the type, to DateTime. The text stays the library's. |
| CellResolution.LongDateMarker | Spreadsheet2Json/CellData.cs:93-100 | `[$-F800]`, with none of the earlier markers, gives the culture's long date rendering with type DateTime. |
| CellResolution.EnUsBeatsLongDate | Spreadsheet2Json/CellData.cs:79-100 | The format "[$-409]d-mmm;[$-F800]" on a Number cell yields DateTime with the library's text: the long date rule never fires. |
| CellResolution.ResolvedTypes | Spreadsheet2Json/CellData.cs:54-100 | With the culture's own table:<br>• a Number result is the naive result of a Number value;<br>• a DateTime result has a unified number;<br>• the only reclassification is to DateTime. |
| CellResolution.FiredMeansDateTime | Spreadsheet2Json/CellData.cs:57-100 | Whenever an override or a marker fires, the type is DateTime. |
| CellResolution.SetCellForgetsHistory | Spreadsheet2Json/CellData.cs:54-55 | Setting c, then another cell, then c again on one shared object leaves the same text and type as resolving c alone. |
| Excel.TypeOf | Spreadsheet2Json/CellData.cs:55 | The naive type is Number exactly for number values and DateTime exactly for date values. |
| Excel.GetNumber | Spreadsheet2Json/SpreadsheetTranslator.cs:288 | `GetNumber` is defined for number values and agrees with the unified number there. |
| Excel.TypeName | Spreadsheet2Json/SpreadsheetTranslator.cs:279 | The name of a type is never empty. |
| Excel.TypeNameInjective | Spreadsheet2Json/SpreadsheetTranslator.cs:279 | Distinct types have distinct names, so the "Type" field identifies the resolved type. |
| Strings.ContainsIffOccurs | Spreadsheet2Json/CellData.cs:70 | Ordinal `Contains` holds exactly when the marker occurs at some index of the format. |
| Strings.EmptyContainsNothing | Spreadsheet2Json/CellData.cs:68 | A non-empty marker is never found in the empty format string. |
| Strings.Split | Spreadsheet2Json/SpreadsheetTranslator.cs:118 | There is always at least one piece, and no piece contains the separator. |
| Strings.JoinSplit | Spreadsheet2Json/SpreadsheetTranslator.cs:118 | Joining the pieces of `Split` with the separator restores the input, so splitting loses nothing. |
| Strings.SplitWithoutSeparator | Spreadsheet2Json/SpreadsheetTranslator.cs:118 | Text without the separator splits into itself alone. |
| Strings.SplitFirst | Spreadsheet2Json/SpreadsheetTranslator.cs:118 | The first separator ends the first piece, and the rest is split the same way. |
| Strings.TrimStart | Spreadsheet2Json/SpreadsheetTranslator.cs:118 | The result is a suffix of the input, only white space is cut, and it does not start with white space. |
| Strings.TrimEnd | Spreadsheet2Json/SpreadsheetTranslator.cs:118 | The result is a prefix of the input, only white space is cut, and it does not end with white space. |
| Strings.TrimIsSlice | Spreadsheet2Json/SpreadsheetTranslator.cs:118 | `Trim` is a slice of the input with only white space cut on either side, and it neither starts nor ends with white space. |
| Strings.TrimKeeps | Spreadsheet2Json/SpreadsheetTranslator.cs:118 | A name that neither starts nor ends with white space trims to itself. |
| Strings.EqualsIgnoreCaseIsEquivalence | Spreadsheet2Json/SpreadsheetTranslator.cs:124 | The case-insensitive comparison is reflexive, symmetric and transitive. |
| JsonTree.Get | Spreadsheet2Json/SpreadsheetTranslator.cs:131 | An indexer read finds nothing exactly when no member has the key. |
| JsonTree.IndexOf | Spreadsheet2Json/SpreadsheetTranslator.cs:131 | Gives the position of the first member with the key. |
| JsonTree.GetFirst | Spreadsheet2Json/SpreadsheetTranslator.cs:131 | An indexer read returns the value of the first member with the key. |
| JsonTree.GetAt | Spreadsheet2Json/SpreadsheetTranslator.cs:131 | In an object with unique keys, the member at position k is what the read of its key returns. |
| JsonTree.GetSnoc | Spreadsheet2Json/SpreadsheetTranslator.cs:270-301 | Reading an object extended by one member: an earlier member with the key takes precedence, otherwise the new member answers. |
| JsonTree.PutShape | Spreadsheet2Json/SpreadsheetTranslator.cs:131 | `obj[key] = value` appends when the key is new and replaces the member in place when it exists. |
| JsonTree.PutGet | Spreadsheet2Json/SpreadsheetTranslator.cs:131 | After the write, the key reads back the value and every other key reads as before. |
| JsonTree.GetAppendOther | Spreadsheet2Json/SpreadsheetTranslator.cs:131 | Appending a member with a different key does not change a read. |
| JsonTree.GetReplaceOther | Spreadsheet2Json/SpreadsheetTranslator.cs:131 | Replacing a member of a different key does not change a read. |
| JsonTree.PutExistingKeepsKeys | Spreadsheet2Json/SpreadsheetTranslator.cs:131 | Overwriting an existing key keeps the key order unchanged. |
| JsonTree.PutDistinct | Spreadsheet2Json/SpreadsheetTranslator.cs:131 | Writes keep the keys of an object unique. |
| JsonTree.PutAllSnoc | Spreadsheet2Json/SpreadsheetTranslator.cs:122-132 | One more assignment in a sequence of writes is one more `Put`. |
| JsonTree.AppendFresh | Spreadsheet2Json/SpreadsheetTranslator.cs:270-301 | Appending a member whose key is not yet used keeps the keys unique. |
| JsonTree.PutAllKeys | Spreadsheet2Json/SpreadsheetTranslator.cs:122-132 | The keys of the object built by a sequence of writes are exactly the keys written. |
| JsonTree.PutAllLastWins | Spreadsheet2Json/SpreadsheetTranslator.cs:122-132 | A key written several times holds the value of its last write. |
| JsonTree.PutAllDistinct | Spreadsheet2Json/SpreadsheetTranslator.cs:270-301 | Writes with unique keys build the object holding them in order. |
| Translation.Kept | Spreadsheet2Json/SpreadsheetTranslator.cs:122-128 | The filter never adds sheets. |
| Translation.SheetItems | Spreadsheet2Json/SpreadsheetTranslator.cs:139-149 | One sheet object per kept sheet. |
| Translation.SheetPairs | Spreadsheet2Json/SpreadsheetTranslator.cs:122-132 | One name/sheet assignment per kept sheet. |
| Translation.SpreadsheetTranslator.constructor | Spreadsheet2Json/SpreadsheetTranslator.cs:28-42 | Creates a fresh `CellData` for the culture and sets the defaults:<br>• cell data and properties included;<br>• cell format, row/column, sheet information and object shape off;<br>• indented on and encoded off;<br>• path and sheet names empty. |
| Translation.SpreadsheetTranslator.GetJsonString | Spreadsheet2Json/SpreadsheetTranslator.cs:102-174 | The result is the specification `Document`: the failure "input filepath empty." for an empty path, raised before any output is built and before any cell is resolved, for any workbook; otherwise the document tree. |
| Translation.SpreadsheetTranslator.GetJsonSheetObject | Spreadsheet2Json/SpreadsheetTranslator.cs:119-135 | The object-shaped loop builds exactly `SheetsNode`: the kept sheets assigned under their names in workbook order. |
| Translation.SpreadsheetTranslator.GetJsonSheetArray | Spreadsheet2Json/SpreadsheetTranslator.cs:136-152 | The array-shaped loop builds exactly `SheetsNode`: the kept sheets in workbook order. |
| Translation.SpreadsheetTranslator.GetJsonSheetData | Spreadsheet2Json/SpreadsheetTranslator.cs:212-258 | The sheet object built by the assignments is exactly `SheetJson`. |
| Translation.SpreadsheetTranslator.GetJsonCells | Spreadsheet2Json/SpreadsheetTranslator.cs:229-255 | The cell loops build exactly `CellsNode`: each used cell in traversal order, in an array or keyed by address. |
| Translation.SpreadsheetTranslator.GetJsonCellData | Spreadsheet2Json/SpreadsheetTranslator.cs:265-304 | The cell object is exactly `CellJson`, and the shared `CellData` is left holding the cell's resolution. |
| Translation.AssignSheetInformation | Spreadsheet2Json/SpreadsheetTranslator.cs:214-227 | The name and sheet-information writes build exactly `SheetInfo`. |
| Translation.AssignDocumentMembers | Spreadsheet2Json/SpreadsheetTranslator.cs:154-162 | The top-level writes build exactly `DocumentMembers`. |
| Translation.AssignCellMembers | Spreadsheet2Json/SpreadsheetTranslator.cs:270-301 | The cell field writes build exactly `CellMembers`. |
| Translation.CellMembersDistinct | Spreadsheet2Json/SpreadsheetTranslator.cs:270-301 | No cell field is written twice. |
| Translation.SheetInfoDistinct | Spreadsheet2Json/SpreadsheetTranslator.cs:214-227 | No sheet-information field is written twice, and all of them are among the seven known keys. |
| Translation.SheetMembersDistinct | Spreadsheet2Json/SpreadsheetTranslator.cs:214-255 | No sheet field is written twice. |
| Translation.DocumentMembersDistinct | Spreadsheet2Json/SpreadsheetTranslator.cs:154-162 | No top-level field is written twice. |
| Translation.CellMembersAssigned | Spreadsheet2Json/SpreadsheetTranslator.cs:270-301 | Writing the cell fields one after the other overwrites nothing. |
| Translation.SheetInfoAssigned | Spreadsheet2Json/SpreadsheetTranslator.cs:214-227 | Writing the sheet-information fields one after the other overwrites nothing. |
| Translation.KeptSnoc | Spreadsheet2Json/SpreadsheetTranslator.cs:122-128 | One more sheet is kept exactly when it is selected. |
| Translation.KeptApplicable | Spreadsheet2Json/SpreadsheetTranslator.cs:122-130 | Every kept sheet of a prefix can be converted. |
| Translation.SheetObjectPrefixSnoc | Spreadsheet2Json/SpreadsheetTranslator.cs:122-131 | One step of the object loop: a selected sheet is written under its name, and a skipped sheet changes nothing. |
| Translation.SheetArrayPrefixSnoc | Spreadsheet2Json/SpreadsheetTranslator.cs:139-148 | One step of the array loop: a selected sheet is appended, and a skipped sheet changes nothing. |
| Translation.SheetPrefixesComplete | Spreadsheet2Json/SpreadsheetTranslator.cs:119-152 | After the last sheet, the loop state is the whole `Sheets` node. |
| Translation.SheetItemsSnoc | Spreadsheet2Json/SpreadsheetTranslator.cs:147-148 | One more kept sheet adds one more array item. |
| Translation.SheetPairsSnoc | Spreadsheet2Json/SpreadsheetTranslator.cs:130-131 | One more kept sheet adds one more name/sheet assignment. |
| TranslationProperties.CellPositionFields | Spreadsheet2Json/SpreadsheetTranslator.cs:270-276 | "Address" is always present. "Row" and "Column" are present only with their flag. |
| TranslationProperties.CellFormulaFields | Spreadsheet2Json/SpreadsheetTranslator.cs:278-283 | "Text" and "Type" are always present. "Formula" is present only when non-empty. |
| TranslationProperties.CellMemoFields | Spreadsheet2Json/SpreadsheetTranslator.cs:285-295 | "Value" is always present. "Memo" is present only when the comment is non-empty. |
| TranslationProperties.CellFormatFields | Spreadsheet2Json/SpreadsheetTranslator.cs:297-301 | "NumberFormat_Format" and "NumberFormat_Id" are present only with the format flag. |
| TranslationProperties.CellFields | Spreadsheet2Json/SpreadsheetTranslator.cs:270-301 | The cell object, read key by key, is the independent table `CellField`:<br>• "Address", "Text" and "Type" always;<br>• "Row"/"Column" iff their flag is set;<br>• "Formula" iff the formula is non-empty;<br>• "Memo" iff the comment is non-empty;<br>• the format fields iff their flag is set;<br>• "Value" by type: the unified number for DateTime, the number for Number, otherwise the value's string form;<br>• no other key. |
| TranslationProperties.CellJsonFields | Spreadsheet2Json/SpreadsheetTranslator.cs:265-304 | The object for a cell is that table for the cell's resolution: "Type" names the resolved type and "Value" follows it. Reading "Value" is always defined. |
| TranslationProperties.CellItemsAt | Spreadsheet2Json/SpreadsheetTranslator.cs:247-251 | In the array shape, there is one cell object per used cell, and position k holds cell k's object. |
| TranslationProperties.CellPairsAt | Spreadsheet2Json/SpreadsheetTranslator.cs:233-241 | In the object shape, assignment k writes cell k's object under its address. |
| TranslationProperties.CellsObjectShape | Spreadsheet2Json/SpreadsheetTranslator.cs:233-243 | The keys of the cells object are exactly the used cells' addresses. Under an address, the object of the last cell with that address is found. |
| TranslationProperties.SheetInfoFields | Spreadsheet2Json/SpreadsheetTranslator.cs:214-227 | "Name" is always present. The six information fields are present iff the flag is set, and "Visible" is whether the visibility is Visible. |
| TranslationProperties.SheetFields | Spreadsheet2Json/SpreadsheetTranslator.cs:214-255 | The sheet object, read key by key, is the table `SheetField`: the information fields as above, and "Cells" iff cell data is included, holding `CellsNode`. |
| TranslationProperties.EmptyAllowListKeepsAll | Spreadsheet2Json/SpreadsheetTranslator.cs:124 | An empty allow-list keeps every sheet, in order. |
| TranslationProperties.KeptExactly | Spreadsheet2Json/SpreadsheetTranslator.cs:122-128 | A sheet is kept iff it is in the workbook and its name is selected. |
| TranslationProperties.TwoNameAllowList | Spreadsheet2Json/SpreadsheetTranslator.cs:118-124 | An allow-list "a:b" selects a name iff it equals trimmed a or trimmed b, ignoring case. |
| TranslationProperties.SheetItemsAt | Spreadsheet2Json/SpreadsheetTranslator.cs:139-149 | In the array shape, position k holds kept sheet k's object. |
| TranslationProperties.SheetPairsAt | Spreadsheet2Json/SpreadsheetTranslator.cs:122-132 | In the object shape, assignment k writes kept sheet k's object under its name. |
| TranslationProperties.SheetsObjectShape | Spreadsheet2Json/SpreadsheetTranslator.cs:122-132 | Under one option value, the keys of the sheets object are exactly the kept sheets' names. Under a name that no later kept sheet repeats is that sheet's object. |
| TranslationProperties.SheetItemNames | Spreadsheet2Json/SpreadsheetTranslator.cs:139-149 | Item j of the sheets array has the "Name" of kept sheet j. |
| TranslationProperties.CellShapesAgree | Spreadsheet2Json/SpreadsheetTranslator.cs:229-254 | A sheet's cells, once with the object shape and once with the array shape (all other options equal). The array has one item per used cell. The object's keys are exactly the addresses. Under an address that no later cell repeats is the very cell object that the array holds at that cell's position. |
| TranslationProperties.SheetShapesAgree | Spreadsheet2Json/SpreadsheetTranslator.cs:212-257 | One sheet in the two shapes: every field but "Cells" is the same. "Cells" is present in both iff cell data is included, as the object-shaped and the array-shaped cells node respectively. |
| TranslationProperties.SheetListShapesAgree | Spreadsheet2Json/SpreadsheetTranslator.cs:119-152 | The kept sheets in the two shapes. The array lists them in order. The object's keys are exactly the "Name"s of the array's items. Under sheet k's name, when no later sheet repeats it, is a sheet object equal to array item k on every field but "Cells". |
| TranslationProperties.ShapesHoldSameSheets | Spreadsheet2Json/SpreadsheetTranslator.cs:119-152 | The workbook's "Sheets" node with the array shape and with the object shape (all other options equal). The array holds the kept sheets in order. The object's keys are exactly the "Name"s of the array's items. Under sheet k's name, when no later kept sheet repeats it, is a sheet object equal to array item k on every field but "Cells", and those agree as `CellShapesAgree` states. |
| TranslationProperties.DocumentOutcome | Spreadsheet2Json/SpreadsheetTranslator.cs:102-162 | For any workbook, the only failure is an empty input path, with the message "input filepath empty.". Otherwise the document, read key by key, is the table `DocumentField`:<br>• "Properties" iff that flag is set;<br>• "Workbook" and "Tool" always;<br>• no other key. |

## Left out

- **File access and workbook opening** (`File.Exists`, the file stream, `XLWorkbook`) are not modelled. A workbook is an input value. The "does not exist" error is therefore not modelled either.
- **JSON serialisation.** `ToJsonString` with its indenting and encoder is not modelled; the model ends at the node tree. `Indented` and `Encoded` are only stored.
- **The tool version** comes from reflection on the assembly. It is an input (`Option<string>`); a missing attribute becomes JSON null.
- **Foreign rendering** is not modelled. These are `Host` function values with no properties assumed:
  - ExcelNumberFormat's pattern formatting;
  - `DateTime.FromOADate(...).ToString("T"/"D")` with `CreateSpecificCulture`;
  - ClosedXML's `GetFormattedString`, `Value.ToString()` and address rendering.

  An exception from `CreateSpecificCulture` for an unknown culture name is not modelled.

  No other exception from this foreign code is modelled either: the `Host` functions are total. The source can throw in these places:
  - `DateTime.FromOADate` throws an `ArgumentException` for a serial outside the OLE-date range (CellData.cs:73, 96);
  - ExcelNumberFormat can reject a pattern or a value (CellData.cs:60-61);
  - ClosedXML's formatting can fail (CellData.cs:54).

  So the model covers only runs in which none of these throws.
- **Floating point.** Doubles (cell numbers, OLE dates) are modelled as `real`.
- **`GetUnifiedNumber`** throws for non-numeric values. It is modelled as a partial function with a precondition, and the precondition is placed on the override path, which reads it without checking the naive type. The requirement propagates as `WorkbookApplicable`/`CellsApplicable` to the builders. So the model covers only runs in which no such exception occurs.
- **The address null check** in the object-shaped cell loop is not modelled. An address is always a string here, so that branch cannot be taken.
- **The Japanese calendar** (`[$-411]`) is not rendered by the source either. The model keeps the library text, as the source does.
- **ZoomScale.** The code emits six sheet-information fields and no "ZoomScale". The model follows the code, although the project's documentation and a test expect a "ZoomScale" field.
- **The option properties** are one `Options` record held in one field, which the class's methods read. Setting a property is assigning that field.
- **Helper methods.** The source's loops and groups of assignments are split into separate methods: `GetJsonSheetObject`, `GetJsonSheetArray`, `GetJsonCells`, `AssignSheetInformation`, `AssignDocumentMembers` and `AssignCellMembers`. Each keeps the source's order of writes.
- **Command-line wiring** (`Program.cs`, `OptionSwitch.cs`) is not modelled. This includes the double inversion of the sheet-information flag between the binder and `Execute`.
- **Case mapping.** `OrdinalIgnoreCase` is modelled as equal length plus per-character equality under a host-given upper-casing map. The exact Unicode case tables are not modelled.
- TwoNameAllowList: states the test example "visible:hidden" in general form, for any two colon-free names, rather than for the literal string. With `TrimKeeps` it gives "selected iff the name equals "visible" or "hidden" ignoring case". The literal instance is not proved separately.
