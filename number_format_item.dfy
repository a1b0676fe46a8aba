/** `NumberFormatItem`: the value stored in the override table. */
module NumberFormatItems {
  import opened Excel

  /** A format pattern and the semantic type a cell rendered with it gets.
      A value type with these two fields and nothing else. */
  datatype NumberFormatItem = NumberFormatItem(format: string, itemType: XLDataType)

  /** The struct constructor: it stores both arguments unchanged, and the item
      is determined by them. */
  lemma ConstructorStoresArguments(format: string, itemType: XLDataType, item: NumberFormatItem)
    ensures NumberFormatItem(format, itemType).format == format
    ensures NumberFormatItem(format, itemType).itemType == itemType
    ensures item == NumberFormatItem(item.format, item.itemType)
  {
  }
}
