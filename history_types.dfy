/** The values the history list works on: entries, the list's selection mode and the
    actions the list emits to the store that owns the history state. */
module HistoryTypes {

  datatype Option<T> = None | Some(value: T)

  /** One visited page, compared by value. */
  datatype HistoryItem = HistoryItem(title: string, url: string)

  /** The selection state of the list: browsing, or editing with a set of entries
      picked for removal. */
  datatype Mode = Normal | Editing(selectedItems: set<HistoryItem>)

  /** The closed set of intents the list sends to its action sink. `DeleteOne`,
      `DeleteSome` and `DeleteAll` are the three `Delete` variants. */
  datatype HistoryAction =
    | Select(item: HistoryItem)
    | EnterEditMode(item: HistoryItem)
    | AddItemForRemoval(item: HistoryItem)
    | RemoveItemForRemoval(item: HistoryItem)
    | DeleteOne(item: HistoryItem)
    | DeleteSome(items: set<HistoryItem>)
    | DeleteAll

  /** The action sink shared by the adapter and its view holders: every `onNext`
      appends one action, in order. */
  class ActionEmitter {
    var actions: seq<HistoryAction>

    constructor ()
      ensures actions == []
    {
      actions := [];
    }

    method OnNext(action: HistoryAction)
      modifies this
      ensures actions == old(actions) + [action]
    {
      actions := actions + [action];
    }
  }
}
