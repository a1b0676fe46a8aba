/** `AdditionalNumberFormat`: the per-culture table of built-in number-format
    IDs whose rendering the library does not get right, and the choice of the
    sub-table for one culture. The table is a constant; nothing changes it. */
module AdditionalNumberFormats {
  import opened Excel
  import opened NumberFormatItems

  /** The Japanese characters for year, month and day. */
  const Year: char := '年'
  const Month: char := '月'
  const Day: char := '日'

  /** The "ja-JP" sub-table. */
  const JaJp: map<int, NumberFormatItem> := map[
    14 := NumberFormatItem("yyyy/m/d", DateTime),
    30 := NumberFormatItem("m/d/yy", DateTime),
    31 := NumberFormatItem("yyyy\"年\"m\"月\"d\"日\"", DateTime),
    55 := NumberFormatItem("yyyy\"年\"m\"月\"", DateTime),
    56 := NumberFormatItem("m\"月\"d\"日\"", DateTime)]

  /** The table of sub-tables, keyed by culture name. */
  const NumberFormatItemListByCountry: map<string, map<int, NumberFormatItem>> := map["ja-JP" := JaJp]

  /** The sub-table the constructor selects for `cultureInfoName`: an exact,
      case-sensitive key match, and an empty table for any other name. */
  function NumberFormatItemList(cultureInfoName: string): (m: map<int, NumberFormatItem>)
    ensures forall id :: id in m ==> m[id].itemType == DateTime
    ensures m != map[] <==> cultureInfoName == "ja-JP"
  {
    if cultureInfoName in NumberFormatItemListByCountry then
      assert cultureInfoName == "ja-JP" && 14 in JaJp;
      NumberFormatItemListByCountry[cultureInfoName]
    else map[]
  }

  /** The "ja-JP" sub-table covers exactly the IDs 14, 30, 31, 55 and 56. */
  lemma JaJpKeys()
    ensures NumberFormatItemList("ja-JP").Keys == {14, 30, 31, 55, 56}
  {
  }

  /** ID 14 is the short date `yyyy/m/d` and ID 30 is `m/d/yy`. */
  lemma JaJpShortPatterns()
    ensures NumberFormatItemList("ja-JP")[14].format == "yyyy/m/d"
    ensures NumberFormatItemList("ja-JP")[30].format == "m/d/yy"
  {
  }

  /** Every character of `chars` in `pattern` is a quoted literal segment of
      its own: a double quote stands right before and right after it. */
  predicate QuotedLiterals(pattern: string, chars: set<char>)
  {
    forall i :: 0 <= i < |pattern| && pattern[i] in chars ==>
      0 < i < |pattern| - 1 && pattern[i - 1] == '"' && pattern[i + 1] == '"'
  }

  /** ID 31 writes 年, 月 and 日 each as a quoted literal, and uses all three. */
  lemma JaJpLongDateLiterals()
    ensures QuotedLiterals(NumberFormatItemList("ja-JP")[31].format, {Year, Month, Day})
    ensures Year in NumberFormatItemList("ja-JP")[31].format && Month in NumberFormatItemList("ja-JP")[31].format
      && Day in NumberFormatItemList("ja-JP")[31].format
  {
    var f := NumberFormatItemList("ja-JP")[31].format;
    assert f == "yyyy\"年\"m\"月\"d\"日\"";
    assert f[5] == Year && f[9] == Month && f[13] == Day;
  }

  /** ID 55 (year and month) writes 年 and 月 as quoted literals. */
  lemma JaJpYearMonthLiterals()
    ensures QuotedLiterals(NumberFormatItemList("ja-JP")[55].format, {Year, Month, Day})
    ensures Year in NumberFormatItemList("ja-JP")[55].format && Month in NumberFormatItemList("ja-JP")[55].format
  {
    var f := NumberFormatItemList("ja-JP")[55].format;
    assert f == "yyyy\"年\"m\"月\"";
    assert f[5] == Year && f[9] == Month;
  }

  /** ID 56 (month and day) writes 月 and 日 as quoted literals. */
  lemma JaJpMonthDayLiterals()
    ensures QuotedLiterals(NumberFormatItemList("ja-JP")[56].format, {Year, Month, Day})
    ensures Month in NumberFormatItemList("ja-JP")[56].format && Day in NumberFormatItemList("ja-JP")[56].format
  {
    var f := NumberFormatItemList("ja-JP")[56].format;
    assert f == "m\"月\"d\"日\"";
    assert f[2] == Month && f[6] == Day;
  }

  /** A culture name that is not a key, including a different capitalisation
      of "ja-JP", selects no override for any ID. */
  lemma OtherCulturesHaveNoOverrides(cultureInfoName: string, id: int)
    requires cultureInfoName != "ja-JP"
    ensures id !in NumberFormatItemList(cultureInfoName)
  {
  }

  /** Example of the case-sensitive match: "ja-jp" selects nothing. */
  lemma LowerCaseJaJpHasNoOverrides()
    ensures NumberFormatItemList("ja-jp") == map[]
  {
  }
}
