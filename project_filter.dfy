/** The project filter of `initProjectFiltering` in script.js. */
module ProjectFilter {
  import opened JsStrings

  /**
   * A card is shown when the filter is "all" or is one of the space-separated
   * words of the card's category list.
   */
  function ShouldShow(filter: string, category: string): (show: bool)
  {
    filter == "all" || filter in Split(category, ' ')
  }

  /**
   * The filter rule stated without `split`: a card shows exactly when the
   * filter is "all", or the filter holds no space and occurs in the category
   * list with a space or an end of the list on either side.
   */
  lemma ShouldShowIff(filter: string, category: string)
    ensures ShouldShow(filter, category) <==>
      filter == "all" || (' ' !in filter && exists i :: FieldAt(category, filter, i, ' '))
  {
    InSplitIff(category, filter, ' ');
  }

  /** The "all" filter shows every card; a filter with a space shows only if it is "all". */
  lemma ShouldShowEdgeCases(filter: string, category: string)
    ensures ShouldShow("all", category)
    ensures ' ' in filter ==> ShouldShow(filter, category) == (filter == "all")
  {
  }
}
