/**
 * The quick model switch dialog: a list of the model ids in ascending order, in
 * which the user highlights one to select, adds a custom id, or removes one.
 */
module QuickSettings {
  import opened Wrappers
  import opened StringOrder
  import opened SettingsState
  import opened ModelCatalogue

  class QuickSettingsDialog {
    const settings: Settings
    /** The list's contents. */
    var shown: seq<string>
    /** The list's selected (highlighted) entry. */
    var highlighted: Option<string>
    /** The dialog was closed with the OK exit code. */
    var closed: bool

    /** Fill the list and highlight the current model if it is listed. */
    constructor(settings: Settings)
      ensures this.settings == settings && !closed
      ensures shown == settings.AvailableModels()
      ensures highlighted == if settings.SelectedModel() in shown then Some(settings.SelectedModel()) else None
    {
      this.settings := settings;
      var list := settings.AvailableModels();
      var current := settings.SelectedModel();
      shown := list;
      highlighted := None;
      closed := false;
      new;
      Highlight(current);
    }

    /** `refreshModels`: the list is emptied and refilled, which clears its selection. */
    method RefreshModels()
      modifies this`shown, this`highlighted
      ensures shown == settings.AvailableModels() && highlighted == None
      ensures Sorted(shown) && forall m :: m in shown <==> m in settings.models
    {
      shown := settings.AvailableModels();
      highlighted := None;
    }

    /** `setSelectedValue`: highlight `m` if it is listed; an unlisted value leaves the highlight as it is. */
    method Highlight(m: string)
      modifies this`highlighted
      ensures m in shown ==> highlighted == Some(m)
      ensures m !in shown ==> highlighted == old(highlighted)
    {
      if m in shown {
        highlighted := Some(m);
      }
    }

    /** Enter, a double click and OK: select the highlighted model, if any, and close. */
    method Choose()
      modifies settings`selected, settings`notified, this`closed
      ensures closed
      ensures old(highlighted).Some? ==>
        settings.selected == old(highlighted) && settings.SelectedModel() == old(highlighted).value
      ensures old(highlighted).Some? && old(settings.selected) != old(highlighted) ==>
        settings.notified == old(settings.notified) + settings.listeners
      ensures old(highlighted).Some? && old(settings.selected) == old(highlighted) ==>
        settings.notified == old(settings.notified)
      ensures old(highlighted).None? ==>
        settings.selected == old(settings.selected) && settings.notified == old(settings.notified)
    {
      if highlighted.Some? {
        settings.SetSelectedModel(highlighted.value);
      }
      closed := true;
    }

    /**
     * The add button: `input` is what the input dialog returned (`None` when it was
     * cancelled). A new name joins the set, becomes the selected model, and the
     * dialog closes; a duplicate only warns.
     */
    method Add(input: Option<string>) returns (a: Option<Addition>)
      requires settings.Valid()
      modifies settings`models, settings`selected, settings`notified, this`shown, this`highlighted, this`closed
      ensures settings.Valid()
      ensures input.None? ==> a.None?
      ensures input.Some? ==> a == Some(Decide(old(settings.models), input.value))
      ensures a.Some? && a.value.Added? ==>
        && settings.models == old(settings.models) + [a.value.name]
        && settings.selected == Some(a.value.name)
        && shown == settings.AvailableModels()
        && highlighted == Some(a.value.name)
        && closed
      ensures a.Some? && a.value.Added? && old(settings.selected) != Some(a.value.name) ==>
        settings.notified == old(settings.notified) + settings.listeners
      ensures a.Some? && a.value.Added? && old(settings.selected) == Some(a.value.name) ==>
        settings.notified == old(settings.notified)
      ensures !(a.Some? && a.value.Added?) ==>
        && settings.models == old(settings.models) && settings.selected == old(settings.selected)
        && settings.notified == old(settings.notified)
        && shown == old(shown) && highlighted == old(highlighted) && closed == old(closed)
    {
      if input.None? {
        return None;
      }
      var decision := AddModel(settings, input.value);
      a := Some(decision);
      if decision.Added? {
        RefreshModels();
        Highlight(decision.name);
        settings.SetSelectedModel(decision.name);
        closed := true;
      }
    }

    /**
     * The remove button, on the highlighted entry: refused while at most one model
     * is left, otherwise as `RemoveModel` says, and the list is refilled.
     */
    method Remove() returns (r: Option<Removal>)
      requires settings.Valid()
      modifies settings`models, settings`selected, settings`notified, this`shown, this`highlighted
      ensures settings.Valid()
      ensures r.None? <==> old(highlighted).None?
      ensures r.None? ==>
        && settings.models == old(settings.models) && settings.selected == old(settings.selected)
        && settings.notified == old(settings.notified)
      ensures r.Some? ==> (r.value == Refused <==> |old(settings.models)| <= 1)
      ensures r == Some(Refused) ==>
        && settings.models == old(settings.models) && settings.selected == old(settings.selected)
        && settings.notified == old(settings.notified)
      ensures r.None? || r == Some(Refused) ==> shown == old(shown) && highlighted == old(highlighted)
      ensures r == Some(Removed) ==>
        && RemovedFrom(old(settings.models), settings.models, old(highlighted).value)
        && shown == settings.AvailableModels()
        && old(highlighted).value !in shown
        && highlighted == None
      ensures r == Some(Removed) && old(highlighted).value == old(settings.SelectedModel()) ==>
        && settings.selected == FirstOther(old(settings.models), old(highlighted).value)
        && settings.selected.Some? && settings.selected.value in settings.models
        && settings.notified == old(settings.notified) + settings.listeners
      ensures r == Some(Removed) && old(highlighted).value != old(settings.SelectedModel()) ==>
        settings.selected == old(settings.selected) && settings.notified == old(settings.notified)
    {
      if highlighted.None? {
        return None;
      }
      var removal := RemoveModel(settings, highlighted.value);
      r := Some(removal);
      if removal == Removed {
        RefreshModels();
      }
    }
  }
}
