/** The history list adapter: a virtual list made of the delete control, one header and
    then one row per history entry, and the dispatch from row positions to view types,
    from view types to view holders, and from holders to what they are bound to. */
module Adapter {
  import opened HistoryTypes
  import opened ListItemRow
  import opened DeleteRow
  import opened HeaderRow

  /** The delete control and the header come before the entries. */
  const NUMBER_OF_SECTIONS: nat := 2

  /** The three kinds of row, each with its own layout. */
  datatype RowKind = DeleteRowKind | HeaderRowKind | ListItemRowKind

  /** A view type is the layout resource id of its row kind. The three ids are distinct
      resource constants whose values are fixed by the build, not by this model. */
  function LayoutId(kind: RowKind): int
  {
    match kind
    case DeleteRowKind => 1
    case HeaderRowKind => 2
    case ListItemRowKind => 3
  }

  /** The view type of the row at `position`. */
  function ItemViewType(position: int): (viewType: int)
    ensures viewType == LayoutId(DeleteRowKind) <==> position == 0
    ensures viewType == LayoutId(HeaderRowKind) <==> position == 1
    ensures viewType == LayoutId(ListItemRowKind) <==> position != 0 && position != 1
  {
    if position == 0 then LayoutId(DeleteRowKind)
    else if position == 1 then LayoutId(HeaderRowKind)
    else LayoutId(ListItemRowKind)
  }

  /** The row kind a view type stands for. `None` is holder creation failing: inflating a
      view type that is no layout throws, and a layout other than the three reaches the
      `else` branch that throws an illegal-state error; the model does not tell the two
      apart. */
  function KindOfViewType(viewType: int): (kind: Option<RowKind>)
    ensures kind.Some? ==> LayoutId(kind.value) == viewType
    ensures kind.None? ==> forall k: RowKind :: LayoutId(k) != viewType
  {
    if viewType == LayoutId(DeleteRowKind) then Some(DeleteRowKind)
    else if viewType == LayoutId(HeaderRowKind) then Some(HeaderRowKind)
    else if viewType == LayoutId(ListItemRowKind) then Some(ListItemRowKind)
    else None
  }

  /** The failure branch of holder creation is unreachable from the adapter's own view
      types: every position maps to a view type that has a holder, and that holder's kind
      is the delete control at 0, the header at 1 and an entry row elsewhere. */
  lemma EveryPositionHasHolder(position: int)
    ensures KindOfViewType(ItemViewType(position)).Some?
    ensures KindOfViewType(ItemViewType(position)).value ==
      if position == 0 then DeleteRowKind
      else if position == 1 then HeaderRowKind
      else ListItemRowKind
  {
  }

  /** The number of rows the list shows for `items`. */
  function ItemCount(items: seq<HistoryItem>): nat
  {
    |items| + NUMBER_OF_SECTIONS
  }

  /** The entry an entry row at `position` is bound to; `None` where indexing the entries
      fails. */
  function BoundItem(items: seq<HistoryItem>, position: int): (bound: Option<HistoryItem>)
    ensures bound.Some? <==> NUMBER_OF_SECTIONS <= position < ItemCount(items)
    ensures bound.Some? ==> ItemViewType(position) == LayoutId(ListItemRowKind)
    ensures bound.Some? ==> bound.value in items
  {
    var index := position - NUMBER_OF_SECTIONS;
    if 0 <= index < |items| then Some(items[index]) else None
  }

  /** The entry rows show the entries in their order, one row each, after the two
      leading sections, and the list has no other entry rows. */
  lemma EntryRowsShowItemsInOrder(items: seq<HistoryItem>)
    ensures forall i :: 0 <= i < |items| ==> BoundItem(items, i + NUMBER_OF_SECTIONS) == Some(items[i])
    ensures forall p :: 0 <= p < ItemCount(items) && ItemViewType(p) == LayoutId(ListItemRowKind)
                        ==> BoundItem(items, p).Some?
  {
  }

  /** A holder of any of the three kinds. */
  datatype Holder =
    | DeleteHolder(delete: HistoryDeleteViewHolder)
    | HeaderHolder(header: HistoryHeaderViewHolder)
    | ListItemHolder(listItem: HistoryListItemViewHolder)

  function KindOf(holder: Holder): RowKind
  {
    match holder
    case DeleteHolder(_) => DeleteRowKind
    case HeaderHolder(_) => HeaderRowKind
    case ListItemHolder(_) => ListItemRowKind
  }

  /** The objects binding a holder may change. */
  function Footprint(holder: Holder): set<object>
  {
    match holder
    case DeleteHolder(d) => {d}
    case HeaderHolder(h) => {h}
    case ListItemHolder(r) => {r, r.emitter}
  }

  /** The outcome of holder creation: a new holder, or the failure for a view type that is
      none of the three layouts. */
  datatype Created = Created(holder: Holder) | UnknownViewType(viewType: int)

  class HistoryAdapter {
    const emitter: ActionEmitter
    var items: seq<HistoryItem>
    var mode: Mode

    constructor (emitter: ActionEmitter)
      ensures this.emitter == emitter && items == [] && mode == Normal
    {
      this.emitter := emitter;
      items := [];
      mode := Normal;
    }

    /** Replaces the entries and the mode wholesale. */
    method UpdateData(items: seq<HistoryItem>, mode: Mode)
      modifies this
      ensures this.items == items && this.mode == mode
    {
      this.items := items;
      this.mode := mode;
    }

    method GetItemCount() returns (count: int)
      ensures count - NUMBER_OF_SECTIONS == |items|
      ensures count == ItemCount(items)
    {
      count := |items| + NUMBER_OF_SECTIONS;
    }

    /** Creates the holder for `viewType` around the inflated view; an entry holder takes
        its initial widget state from `view`. Every holder that emits shares the adapter's
        emitter. */
    method OnCreateViewHolder(viewType: int, view: ItemView) returns (created: Created)
      ensures created.UnknownViewType? <==> KindOfViewType(viewType).None?
      ensures created.UnknownViewType? ==> created.viewType == viewType
      ensures created.Created? ==> KindOfViewType(viewType) == Some(KindOf(created.holder))
      ensures created.Created? ==> fresh(Footprint(created.holder) - {emitter})
      ensures created.Created? && created.holder.DeleteHolder? ==>
                created.holder.delete.emitter == emitter && created.holder.delete.mode.None?
      ensures created.Created? && created.holder.HeaderHolder? ==> created.holder.header.title.None?
      ensures created.Created? && created.holder.ListItemHolder? ==>
                created.holder.listItem.emitter == emitter &&
                created.holder.listItem.State() == Inflated(view)
    {
      if viewType == LayoutId(DeleteRowKind) {
        var d := new HistoryDeleteViewHolder(emitter);
        created := Created(DeleteHolder(d));
      } else if viewType == LayoutId(HeaderRowKind) {
        var h := new HistoryHeaderViewHolder();
        created := Created(HeaderHolder(h));
      } else if viewType == LayoutId(ListItemRowKind) {
        var r := new HistoryListItemViewHolder(view, emitter);
        created := Created(ListItemHolder(r));
      } else {
        created := UnknownViewType(viewType);
      }
    }

    /** Binds `holder` for the row at `position`, by the holder's kind: the delete control
        to the mode, the header to "Today", an entry row to its entry and the mode.
        `indexed` is false when an entry holder's position has no entry, in which case
        nothing changes. Binding never emits. */
    method OnBindViewHolder(holder: Holder, position: int) returns (indexed: bool)
      modifies Footprint(holder)
      ensures indexed <==> !holder.ListItemHolder? || BoundItem(items, position).Some?
      ensures holder.DeleteHolder? ==>
                holder.delete.mode == Some(mode) && holder.delete.text == Some(DeleteLabelFor(mode)) &&
                holder.delete.contentDescription == holder.delete.text
      ensures holder.HeaderHolder? ==> holder.header.title == Some(TODAY)
      ensures holder.ListItemHolder? && indexed ==>
                holder.listItem.State() ==
                BindEffect(old(holder.listItem.State()), BoundItem(items, position).value, mode).row
      ensures holder.ListItemHolder? && !indexed ==>
                holder.listItem.State() == old(holder.listItem.State())
      ensures holder.ListItemHolder? ==>
                holder.listItem.emitter.actions == old(holder.listItem.emitter.actions)
    {
      match holder {
        case DeleteHolder(d) =>
          d.Bind(mode);
          indexed := true;
        case HeaderHolder(h) =>
          h.Bind(TODAY);
          indexed := true;
        case ListItemHolder(r) =>
          var index := position - NUMBER_OF_SECTIONS;
          if 0 <= index < |items| {
            r.Bind(items[index], mode);
            indexed := true;
          } else {
            indexed := false;
          }
      }
    }
  }
}
