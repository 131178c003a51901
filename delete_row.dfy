/** The delete control at the top of the history list: its label and the action a click
    on it emits both follow from the mode it was last bound to. */
module DeleteRow {
  import opened HistoryTypes

  /** The control's text, abstracted from the localised strings: either "delete N
      selected entries" or "delete all". */
  datatype DeleteLabel = DeleteSomeLabel(count: nat) | DeleteAllLabel

  /** Editing with at least one entry picked. */
  predicate HasSelection(mode: Mode)
  {
    mode.Editing? && mode.selectedItems != {}
  }

  /** What a click on the control asks the store to delete. */
  function DeleteActionFor(mode: Mode): (action: HistoryAction)
    ensures action.DeleteSome? || action.DeleteAll?
    ensures action.DeleteSome? <==> HasSelection(mode)
    ensures action.DeleteSome? ==> action.items == mode.selectedItems && action.items != {}
  {
    if mode.Editing? && mode.selectedItems != {} then DeleteSome(mode.selectedItems)
    else DeleteAll
  }

  /** The text the control shows. */
  function DeleteLabelFor(mode: Mode): (caption: DeleteLabel)
    ensures caption.DeleteSomeLabel? <==> HasSelection(mode)
    ensures caption.DeleteSomeLabel? ==> caption.count == |mode.selectedItems| && caption.count > 0
  {
    if mode.Editing? && mode.selectedItems != {} then DeleteSomeLabel(|mode.selectedItems|)
    else DeleteAllLabel
  }

  /** The label announces what a click does: the number of entries a `DeleteSome` would
      remove, or "delete all" exactly when the click emits `DeleteAll`. */
  lemma LabelDescribesAction(mode: Mode)
    ensures DeleteActionFor(mode).DeleteSome? ==>
              DeleteLabelFor(mode) == DeleteSomeLabel(|DeleteActionFor(mode).items|)
    ensures DeleteActionFor(mode).DeleteAll? <==> DeleteLabelFor(mode) == DeleteAllLabel
  {
  }

  /** The view holder of the delete control. `mode` is unset until the first bind; the
      text and its accessibility description show the layout's own text until then. */
  class HistoryDeleteViewHolder {
    const emitter: ActionEmitter
    var mode: Option<Mode>
    var text: Option<DeleteLabel>
    var contentDescription: Option<DeleteLabel>

    constructor (emitter: ActionEmitter)
      ensures this.emitter == emitter
      ensures mode.None? && text.None? && contentDescription.None?
    {
      this.emitter := emitter;
      mode := None;
      text := None;
      contentDescription := None;
    }

    method Bind(mode: Mode)
      modifies this
      ensures this.mode == Some(mode)
      ensures text == Some(DeleteLabelFor(mode)) && contentDescription == text
    {
      this.mode := Some(mode);
      var caption := if mode.Editing? && mode.selectedItems != {} then DeleteSomeLabel(|mode.selectedItems|)
                   else DeleteAllLabel;
      contentDescription := Some(caption);
      text := Some(caption);
    }

    /** The click listener. Reading the mode before the first bind fails, and then nothing
        is emitted (`initialized` is false). */
    method OnClick() returns (initialized: bool)
      modifies emitter
      ensures initialized <==> mode.Some?
      ensures initialized ==> emitter.actions == old(emitter.actions) + [DeleteActionFor(mode.value)]
      ensures !initialized ==> emitter.actions == old(emitter.actions)
    {
      match mode {
        case None =>
          initialized := false;
        case Some(m) =>
          initialized := true;
          if m.Editing? && m.selectedItems != {} {
            emitter.OnNext(DeleteSome(m.selectedItems));
          } else {
            emitter.OnNext(DeleteAll);
          }
      }
    }
  }
}
