/** The history entry row: what each gesture and each bind does to the row's widgets
    and which actions it emits. The functions below give the effect of one event on the
    row's state; the class performs the same events step by step, as the view holder
    does, and is proved to have exactly those effects. */
module ListItemRow {
  import opened HistoryTypes

  datatype Visibility = Visible | Invisible | Gone

  /** The widgets of a freshly inflated entry row, as the layout sets them up. */
  datatype ItemView = ItemView(
    title: string,
    url: string,
    checked: bool,
    checkboxVisibility: Visibility,
    faviconVisibility: Visibility)

  /** Everything the view holder keeps: the bound entry and mode, the widgets it writes,
      the number of change requests made to the checkbox's checked state (by the holder or
      by the user toggling it), and whether the checkbox's
      change listener is attached. */
  datatype RowView = RowView(
    item: Option<HistoryItem>,
    mode: Mode,
    title: string,
    url: string,
    checkboxVisibility: Visibility,
    faviconVisibility: Visibility,
    checked: bool,
    checkboxWrites: nat,
    listening: bool)

  /** The row after an event, and the actions the event sent to the sink, in order. */
  datatype Step = Step(row: RowView, emitted: seq<HistoryAction>)

  /** A new holder: no entry bound yet, `Normal` mode, listener attached by `init`. */
  function Inflated(view: ItemView): (v: RowView)
    ensures v.item.None? && v.mode.Normal? && v.listening && v.checkboxWrites == 0
    ensures v.checked == view.checked
  {
    RowView(None, Normal, view.title, view.url, view.checkboxVisibility,
            view.faviconVisibility, view.checked, 0, true)
  }

  /** The actions the checkbox listener emits when the checkbox turns to `isChecked`. */
  function CheckedChangeActions(v: RowView, isChecked: bool): (emitted: seq<HistoryAction>)
    ensures emitted == [] <==> v.mode.Normal? || v.item.None?
    ensures emitted != [] ==>
              v.item.Some? &&
              emitted == [if isChecked then AddItemForRemoval(v.item.value)
                          else RemoveItemForRemoval(v.item.value)]
  {
    if v.mode.Normal? then []
    else match v.item
      case None => []
      case Some(it) => [if isChecked then AddItemForRemoval(it) else RemoveItemForRemoval(it)]
  }

  /** One assignment to the checkbox's checked state. The checkbox keeps the value and,
      only when the value changes and a listener is attached, calls that listener. */
  function WriteCheckedEffect(v: RowView, value: bool): (s: Step)
    ensures s.row == v.(checked := value, checkboxWrites := v.checkboxWrites + 1)
    ensures s.emitted != [] ==> v.checked != value && v.listening
    ensures v.checked != value && v.listening ==> s.emitted == CheckedChangeActions(v, value)
  {
    var written := v.(checked := value, checkboxWrites := v.checkboxWrites + 1);
    if v.checked != value && v.listening then Step(written, CheckedChangeActions(written, value))
    else Step(written, [])
  }

  /** A tap on the row. */
  function TapEffect(v: RowView): (s: Step)
    ensures v.mode.Normal? ==> s.row == v
    ensures v.mode.Normal? ==> s.emitted == if v.item.Some? then [Select(v.item.value)] else []
    ensures v.mode.Editing? ==>
      s.row == v.(checked := !v.checked, checkboxWrites := v.checkboxWrites + 1)
    ensures v.mode.Editing? ==> forall a | a in s.emitted :: !a.Select?
    ensures v.mode.Editing? && v.listening && v.item.Some? ==>
      s.emitted == [if s.row.checked then AddItemForRemoval(v.item.value)
                    else RemoveItemForRemoval(v.item.value)]
    ensures v.mode.Editing? && !v.listening ==> s.emitted == []
    ensures v.mode.Editing? && v.item.None? ==> s.emitted == []
  {
    if v.mode.Editing? then WriteCheckedEffect(v, !v.checked)
    else Step(v, if v.item.Some? then [Select(v.item.value)] else [])
  }

  /** A long press on the row; it is consumed whatever the state. */
  function LongClickEffect(v: RowView): (s: Step)
    ensures s.row == v
    ensures s.emitted == [] <==> v.item.None?
    ensures v.item.Some? ==> s.emitted == [EnterEditMode(v.item.value)]
  {
    Step(v, if v.item.Some? then [EnterEditMode(v.item.value)] else [])
  }

  /** The Delete entry of the row's overflow menu. */
  function MenuDeleteEffect(v: RowView): (s: Step)
    ensures s.row == v
    ensures s.emitted == [] <==> v.item.None?
    ensures v.item.Some? ==> s.emitted == [DeleteOne(v.item.value)]
  {
    Step(v, if v.item.Some? then [DeleteOne(v.item.value)] else [])
  }

  /** Binding `item` in `mode`. In `Editing` the listener is detached while the checkbox
      is brought in line with the selection, so binding never emits. */
  function BindEffect(v: RowView, item: HistoryItem, mode: Mode): (s: Step)
    ensures s.emitted == []
    ensures s.row.item == Some(item) && s.row.mode == mode
    ensures s.row.title == item.title && s.row.url == item.url
    ensures s.row.checkboxVisibility == Visible <==> mode.Editing?
    ensures s.row.faviconVisibility == Invisible <==> mode.Editing?
    ensures s.row.checkboxVisibility in {Visible, Gone}
    ensures s.row.faviconVisibility in {Visible, Invisible}
    ensures mode.Editing? ==> s.row.listening && s.row.checked == (item in mode.selectedItems)
    ensures mode.Editing? ==>
              s.row.checkboxWrites ==
              v.checkboxWrites + (if v.checked == (item in mode.selectedItems) then 0 else 1)
    ensures mode.Normal? ==>
      s.row.listening == v.listening && s.row.checked == v.checked &&
      s.row.checkboxWrites == v.checkboxWrites
  {
    var isEditing := mode.Editing?;
    var shown := v.(item := Some(item), mode := mode, title := item.title, url := item.url,
                    checkboxVisibility := if isEditing then Visible else Gone,
                    faviconVisibility := if isEditing then Invisible else Visible);
    if mode.Normal? then Step(shown, [])
    else
      var detached := shown.(listening := false);
      var shouldCheck := item in mode.selectedItems;
      var written := if detached.checked != shouldCheck then WriteCheckedEffect(detached, shouldCheck)
                     else Step(detached, []);
      Step(written.row.(listening := true), written.emitted)
  }

  /** Binding the same entry in the same mode twice leaves the row as the first bind left
      it: the second bind makes no assignment to the checkbox. */
  lemma RebindIsIdempotent(v: RowView, item: HistoryItem, mode: Mode)
    ensures BindEffect(BindEffect(v, item, mode).row, item, mode) == BindEffect(v, item, mode)
  {
  }

  /** The view holder of an entry row. `emitter` is the shared action sink. */
  class HistoryListItemViewHolder {
    const emitter: ActionEmitter
    var item: Option<HistoryItem>
    var mode: Mode
    var title: string
    var url: string
    var checkboxVisibility: Visibility
    var faviconVisibility: Visibility
    var checked: bool
    var checkboxWrites: nat
    var listening: bool

    /** The holder's state as a value. */
    function State(): RowView
      reads this
    {
      RowView(item, mode, title, url, checkboxVisibility, faviconVisibility,
              checked, checkboxWrites, listening)
    }

    constructor (view: ItemView, emitter: ActionEmitter)
      ensures State() == Inflated(view) && this.emitter == emitter
    {
      this.emitter := emitter;
      item := None;
      mode := Normal;
      title, url := view.title, view.url;
      checkboxVisibility, faviconVisibility := view.checkboxVisibility, view.faviconVisibility;
      checked := view.checked;
      checkboxWrites := 0;
      listening := true;
    }

    /** The checkbox's change listener. */
    method OnCheckedChanged(isChecked: bool)
      modifies emitter
      ensures emitter.actions == old(emitter.actions) + CheckedChangeActions(State(), isChecked)
    {
      if mode.Normal? {
        return;
      }
      match item {
        case None =>
        case Some(it) =>
          var action := if isChecked then AddItemForRemoval(it) else RemoveItemForRemoval(it);
          emitter.OnNext(action);
      }
    }

    /** `checkbox.isChecked = value`. */
    method WriteChecked(value: bool)
      modifies this, emitter
      ensures State() == WriteCheckedEffect(old(State()), value).row
      ensures emitter.actions == old(emitter.actions) + WriteCheckedEffect(old(State()), value).emitted
    {
      var changed := checked != value;
      checked := value;
      checkboxWrites := checkboxWrites + 1;
      if changed && listening {
        OnCheckedChanged(value);
      }
    }

    /** The row's click listener. */
    method OnClick()
      modifies this, emitter
      ensures State() == TapEffect(old(State())).row
      ensures emitter.actions == old(emitter.actions) + TapEffect(old(State())).emitted
    {
      if mode.Editing? {
        WriteChecked(!checked);
        return;
      }
      match item {
        case None =>
        case Some(it) => emitter.OnNext(Select(it));
      }
    }

    /** The row's long-click listener; always reports the gesture consumed. */
    method OnLongClick() returns (consumed: bool)
      modifies emitter
      ensures consumed
      ensures emitter.actions == old(emitter.actions) + LongClickEffect(State()).emitted
    {
      match item {
        case None =>
        case Some(it) => emitter.OnNext(EnterEditMode(it));
      }
      consumed := true;
    }

    /** The handler of the overflow menu's Delete entry. */
    method OnMenuDelete()
      modifies emitter
      ensures emitter.actions == old(emitter.actions) + MenuDeleteEffect(State()).emitted
    {
      match item {
        case None =>
        case Some(it) => emitter.OnNext(DeleteOne(it));
      }
    }

    method Bind(item: HistoryItem, mode: Mode)
      modifies this, emitter
      ensures State() == BindEffect(old(State()), item, mode).row
      ensures emitter.actions == old(emitter.actions)
    {
      this.item := Some(item);
      this.mode := mode;
      title := item.title;
      url := item.url;
      var isEditing := mode.Editing?;
      checkboxVisibility := if isEditing then Visible else Gone;
      faviconVisibility := if isEditing then Invisible else Visible;
      if mode.Editing? {
        listening := false;
        var shouldCheck := item in mode.selectedItems;
        if checked != shouldCheck {
          WriteChecked(item in mode.selectedItems);
        }
        listening := true;
      }
    }
  }
}
