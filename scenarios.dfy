/** A client of the adapter and its holders, driven only through their contracts. */
module Scenarios {
  import opened HistoryTypes
  import opened ListItemRow
  import opened DeleteRow
  import opened HeaderRow
  import opened Adapter

  /** Two entries in `Normal` mode: the list has four rows, the delete control reads
      "delete all", the header reads "Today", the entry rows show the entries in order,
      and tapping the first entry row emits one `Select` of that entry. */
  method NormalListScenario(a: HistoryItem, b: HistoryItem, view: ItemView)
    returns (count: int, caption: Option<DeleteLabel>, header: Option<string>,
             shown: seq<Option<HistoryItem>>, emitted: seq<HistoryAction>)
    ensures count == 4
    ensures caption == Some(DeleteAllLabel) && header == Some("Today")
    ensures shown == [Some(a), Some(b)]
    ensures emitted == [Select(a)]
  {
    var emitter := new ActionEmitter();
    var adapter := new HistoryAdapter(emitter);
    adapter.UpdateData([a, b], Normal);
    count := adapter.GetItemCount();

    var deleteRow := adapter.OnCreateViewHolder(ItemViewType(0), view);
    var headerRow := adapter.OnCreateViewHolder(ItemViewType(1), view);
    var firstRow := adapter.OnCreateViewHolder(ItemViewType(2), view);
    var secondRow := adapter.OnCreateViewHolder(ItemViewType(3), view);
    assert deleteRow.Created? && deleteRow.holder.DeleteHolder?;
    assert headerRow.Created? && headerRow.holder.HeaderHolder?;
    assert firstRow.Created? && firstRow.holder.ListItemHolder?;
    assert secondRow.Created? && secondRow.holder.ListItemHolder?;

    var indexed := adapter.OnBindViewHolder(deleteRow.holder, 0);
    indexed := adapter.OnBindViewHolder(headerRow.holder, 1);
    indexed := adapter.OnBindViewHolder(firstRow.holder, 2);
    indexed := adapter.OnBindViewHolder(secondRow.holder, 3);
    caption := deleteRow.holder.delete.text;
    header := headerRow.holder.header.title;
    shown := [firstRow.holder.listItem.item, secondRow.holder.listItem.item];

    firstRow.holder.listItem.OnClick();
    emitted := emitter.actions;
  }

  /** Two entries in `Editing` with both picked: the delete control counts the two,
      an entry row's checkbox is shown and checked, and a click on the control emits one
      `DeleteSome` of the selection. */
  method EditingDeleteScenario(a: HistoryItem, b: HistoryItem, view: ItemView)
    returns (caption: Option<DeleteLabel>, firstChecked: bool, emitted: seq<HistoryAction>)
    requires a != b
    ensures caption == Some(DeleteSomeLabel(2))
    ensures firstChecked
    ensures emitted == [DeleteSome({a, b})]
  {
    var emitter := new ActionEmitter();
    var adapter := new HistoryAdapter(emitter);
    adapter.UpdateData([a, b], Editing({a, b}));

    var deleteRow := adapter.OnCreateViewHolder(ItemViewType(0), view);
    var firstRow := adapter.OnCreateViewHolder(ItemViewType(2), view);
    assert deleteRow.Created? && deleteRow.holder.DeleteHolder?;
    assert firstRow.Created? && firstRow.holder.ListItemHolder?;

    var indexed := adapter.OnBindViewHolder(deleteRow.holder, 0);
    indexed := adapter.OnBindViewHolder(firstRow.holder, 2);
    caption := deleteRow.holder.delete.text;
    firstChecked := firstRow.holder.listItem.checked;

    var initialized := deleteRow.holder.delete.OnClick();
    emitted := emitter.actions;
  }
}
