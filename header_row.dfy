/** The section header row of the history list. */
module HeaderRow {
  import opened HistoryTypes

  /** The only section title the list shows for now; date-based sections are not built. */
  const TODAY: string := "Today"

  class HistoryHeaderViewHolder {
    /** The header text; the layout's own text until the first bind. */
    var title: Option<string>

    constructor ()
      ensures title == None
    {
      title := None;
    }

    method Bind(title: string)
      modifies this
      ensures this.title == Some(title)
    {
      this.title := Some(title);
    }
  }
}
