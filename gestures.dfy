/** Sequences of user gestures on one entry row. The row's own effects (listener detached
    during bind, checkbox assignments calling the listener) are compared with what each
    gesture means to the user, and the Add/Remove actions a row emits are shown to keep
    the store's removal selection in step with the row's checkbox. */
module Gestures {
  import opened HistoryTypes
  import opened ListItemRow

  /** What can happen to a bound row: the three row gestures, a tap on the checkbox
      itself, and the list rebinding the row. */
  datatype Gesture =
    | Tap
    | LongPress
    | MenuDelete
    | CheckboxTap
    | Rebind(item: HistoryItem, mode: Mode)

  /** One gesture. The checkbox can be tapped only while it is shown. */
  function Apply(v: RowView, g: Gesture): (s: Step)
    ensures |s.emitted| <= 1
    ensures g.Rebind? ==> s.emitted == []
  {
    match g
    case Tap => TapEffect(v)
    case LongPress => LongClickEffect(v)
    case MenuDelete => MenuDeleteEffect(v)
    case CheckboxTap =>
      if v.checkboxVisibility == Visible then WriteCheckedEffect(v, !v.checked) else Step(v, [])
    case Rebind(item, mode) => BindEffect(v, item, mode)
  }

  /** The gestures one after another; the actions are emitted in gesture order. */
  function Run(v: RowView, gs: seq<Gesture>): (s: Step)
    ensures |s.emitted| <= |gs|
    decreases |gs|
  {
    if gs == [] then Step(v, [])
    else
      var first := Apply(v, gs[0]);
      var rest := Run(first.row, gs[1..]);
      Step(rest.row, first.emitted + rest.emitted)
  }

  /** A row the list has bound at least once: an entry is shown, the checkbox listener is
      attached, and the checkbox is shown exactly in `Editing`. */
  predicate Settled(v: RowView)
  {
    v.listening && v.item.Some? && (v.checkboxVisibility == Visible <==> v.mode.Editing?)
  }

  /** What each gesture means, stated over the shown entry, the mode and the checkbox
      alone: in `Editing` a tap (on the row or on the checkbox) picks the entry for removal
      or drops it, in `Normal` a tap on the row opens the entry and the hidden checkbox
      cannot be tapped, a long press asks for edit mode, the menu deletes the entry, and a
      rebind emits nothing and makes the checkbox show the selection. */
  function Intended(item: HistoryItem, mode: Mode, checked: bool, gs: seq<Gesture>): seq<HistoryAction>
    decreases |gs|
  {
    if gs == [] then []
    else
      var toggle := if checked then RemoveItemForRemoval(item) else AddItemForRemoval(item);
      match gs[0]
      case Tap =>
        if mode.Editing? then [toggle] + Intended(item, mode, !checked, gs[1..])
        else [Select(item)] + Intended(item, mode, checked, gs[1..])
      case CheckboxTap =>
        if mode.Editing? then [toggle] + Intended(item, mode, !checked, gs[1..])
        else Intended(item, mode, checked, gs[1..])
      case LongPress => [EnterEditMode(item)] + Intended(item, mode, checked, gs[1..])
      case MenuDelete => [DeleteOne(item)] + Intended(item, mode, checked, gs[1..])
      case Rebind(other, newMode) =>
        Intended(other, newMode,
                 if newMode.Editing? then other in newMode.selectedItems else checked, gs[1..])
  }

  /** One gesture on a settled row keeps it settled and emits what the gesture means,
      and what the later gestures mean is then read from the row it leaves. */
  lemma ApplyEmitsIntended(v: RowView, g: Gesture, rest: seq<Gesture>)
    requires Settled(v)
    ensures Settled(Apply(v, g).row)
    ensures var after := Apply(v, g);
            Intended(v.item.value, v.mode, v.checked, [g] + rest) ==
            after.emitted + Intended(after.row.item.value, after.row.mode, after.row.checked, rest)
  {
    assert ([g] + rest)[0] == g && ([g] + rest)[1..] == rest;
  }

  /** On a settled row, every sequence of gestures emits exactly the actions the gestures
      mean, one per row gesture, none for a rebind, and the row stays settled. */
  lemma {:induction false} RunEmitsIntended(v: RowView, gs: seq<Gesture>)
    requires Settled(v)
    ensures Settled(Run(v, gs).row)
    ensures Run(v, gs).emitted == Intended(v.item.value, v.mode, v.checked, gs)
    decreases |gs|
  {
    if gs != [] {
      var first := Apply(v, gs[0]);
      ApplyEmitsIntended(v, gs[0], gs[1..]);
      RunEmitsIntended(first.row, gs[1..]);
      assert [gs[0]] + gs[1..] == gs;
    }
  }

  /** From a freshly created holder, binding an entry and then any gestures emits exactly
      the actions those gestures mean. */
  lemma FreshRowEmitsIntended(view: ItemView, item: HistoryItem, mode: Mode, gs: seq<Gesture>)
    ensures Run(Inflated(view), [Rebind(item, mode)] + gs).emitted ==
            Intended(item, mode,
                     if mode.Editing? then item in mode.selectedItems else view.checked, gs)
  {
    var bound := BindEffect(Inflated(view), item, mode).row;
    RunEmitsIntended(bound, gs);
    assert ([Rebind(item, mode)] + gs)[1..] == gs;
  }

  /** The removal selection after the store applies `actions`: an Add puts the entry in,
      a Remove takes it out, and every other action leaves the selection alone. */
  function ApplyToSelection(selection: set<HistoryItem>, actions: seq<HistoryAction>): set<HistoryItem>
    decreases |actions|
  {
    if actions == [] then selection
    else
      var next := match actions[0]
        case AddItemForRemoval(it) => selection + {it}
        case RemoveItemForRemoval(it) => selection - {it}
        case _ => selection;
      ApplyToSelection(next, actions[1..])
  }

  /** Taps only: on the row or on the checkbox. */
  predicate OnlyTaps(gs: seq<Gesture>)
  {
    forall i :: 0 <= i < |gs| ==> gs[i].Tap? || gs[i].CheckboxTap?
  }

  /** In `Editing`, as long as the row's checkbox agrees with a selection, any taps keep it
      agreeing with the selection the emitted Add/Remove actions lead to, and the mode and
      the entry stay as they were. */
  lemma {:induction false} TapsKeepCheckboxInStep(v: RowView, selection: set<HistoryItem>, gs: seq<Gesture>)
    requires Settled(v) && v.mode.Editing? && OnlyTaps(gs)
    requires v.checked == (v.item.value in selection)
    ensures Run(v, gs).row.item == v.item && Run(v, gs).row.mode == v.mode
    ensures Run(v, gs).row.checked == (v.item.value in ApplyToSelection(selection, Run(v, gs).emitted))
    decreases |gs|
  {
    if gs != [] {
      var first := Apply(v, gs[0]);
      var it := v.item.value;
      assert first.emitted == [if first.row.checked then AddItemForRemoval(it) else RemoveItemForRemoval(it)];
      var next := if first.row.checked then selection + {it} else selection - {it};
      assert OnlyTaps(gs[1..]) by {
        forall i | 0 <= i < |gs[1..]| ensures gs[1..][i].Tap? || gs[1..][i].CheckboxTap? {
          assert gs[1..][i] == gs[i + 1];
        }
      }
      TapsKeepCheckboxInStep(first.row, next, gs[1..]);
      var rest := Run(first.row, gs[1..]);
      var all := first.emitted + rest.emitted;
      assert all[0] == first.emitted[0] && all[1..] == rest.emitted;
      assert ApplyToSelection(selection, all) == ApplyToSelection(next, rest.emitted);
    }
  }

  /** Whatever state a holder is in, binding an entry in `Editing(selection)` and then
      tapping keeps the checkbox showing whether the entry is in the selection that the
      emitted actions produce. */
  lemma EditingRowMirrorsSelection(v: RowView, item: HistoryItem, selection: set<HistoryItem>, gs: seq<Gesture>)
    requires OnlyTaps(gs)
    ensures var bound := BindEffect(v, item, Editing(selection)).row;
            Run(bound, gs).row.checked == (item in ApplyToSelection(selection, Run(bound, gs).emitted))
  {
    var bound := BindEffect(v, item, Editing(selection)).row;
    TapsKeepCheckboxInStep(bound, selection, gs);
  }

  /** When the store applies the Add/Remove actions of taps in `Editing` and the list binds
      the row again with the selection they produce, that bind makes no write to the
      checkbox, so the checkbox's animation is not restarted, and the checkbox keeps its
      state. */
  lemma EchoedRebindMakesNoWrite(v: RowView, item: HistoryItem, selection: set<HistoryItem>, gs: seq<Gesture>)
    requires OnlyTaps(gs)
    ensures var bound := BindEffect(v, item, Editing(selection)).row;
            var after := Run(bound, gs);
            var rebound := BindEffect(after.row, item, Editing(ApplyToSelection(selection, after.emitted))).row;
            rebound.checkboxWrites == after.row.checkboxWrites && rebound.checked == after.row.checked
  {
    EditingRowMirrorsSelection(v, item, selection, gs);
  }
}
