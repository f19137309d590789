/**
 * The rules both settings dialogs apply to the model set: adding a typed-in
 * model id, and removing one, which is refused for the last model and moves the
 * selection off a model that is being removed.
 */
module ModelCatalogue {
  import opened Wrappers
  import opened KotlinStrings
  import opened StringOrder
  import opened SettingsState

  /** What an "add" request decides about the trimmed name. */
  datatype Addition =
    | Added(name: string)  // non-empty and new: it joins the set
    | Duplicate            // already in the set: a warning, nothing changes
    | Blank                // empty after trimming: nothing changes

  /** The decision for a name typed into an "add" field or input dialog. */
  function Decide(models: seq<string>, input: string): (a: Addition)
    ensures a.Added? <==> Trim(input) != [] && Trim(input) !in models
    ensures a.Added? ==> a.name == Trim(input)
    ensures a == Duplicate <==> Trim(input) in models
    ensures a == Blank ==> Trim(input) == []
  {
    var name := Trim(input);
    if name != [] && name !in models then Added(name)
    else if name in models then Duplicate
    else Blank
  }

  /** Adding a model: a new, non-blank trimmed name goes to the end of the set; anything else changes nothing. */
  method AddModel(settings: Settings, input: string) returns (a: Addition)
    requires settings.Valid()
    modifies settings`models
    ensures settings.Valid()
    ensures a == Decide(old(settings.models), input)
    ensures a.Added? ==> settings.models == old(settings.models) + [a.name]
    ensures !a.Added? ==> settings.models == old(settings.models)
    ensures forall m :: m in settings.models <==> m in old(settings.models) || (a.Added? && m == a.name)
  {
    a := Decide(settings.models, input);
    if a.Added? {
      settings.models := settings.models + [a.name];
    }
  }

  /** `after` is the set `before` without `model`, in the same order, and not empty. */
  ghost predicate RemovedFrom(before: seq<string>, after: seq<string>, model: string)
  {
    && after == RemoveFirst(before, model)
    && |after| >= 1
    && (forall m :: m in after <==> m in before && m != model)
  }

  datatype Removal = Refused | Removed

  /**
   * Removing `model`: refused while at most one model is left; otherwise, if it is
   * the selected model, the first other model in the set is selected first (which
   * notifies the listeners), and then it is removed.
   */
  method RemoveModel(settings: Settings, model: string) returns (r: Removal)
    requires settings.Valid()
    modifies settings`models, settings`selected, settings`notified
    ensures settings.Valid()
    ensures r == Refused <==> |old(settings.models)| <= 1
    ensures r == Refused ==>
      settings.models == old(settings.models) && settings.selected == old(settings.selected)
      && settings.notified == old(settings.notified)
    ensures r == Removed ==> RemovedFrom(old(settings.models), settings.models, model)
    ensures r == Removed && model == old(settings.SelectedModel()) ==>
      && settings.selected == FirstOther(old(settings.models), model)
      && settings.selected.Some?
      && settings.selected.value in settings.models
      && settings.selected.value != model
      && settings.notified == old(settings.notified) + settings.listeners
    ensures r == Removed && model != old(settings.SelectedModel()) ==>
      settings.selected == old(settings.selected) && settings.notified == old(settings.notified)
  {
    if |settings.models| <= 1 {
      return Refused;
    }
    if model == settings.SelectedModel() {
      RemoveSelected(settings, model);
    } else {
      RemoveFromModels(settings, model);
    }
    r := Removed;
  }

  /** Removing the selected model: select the first other one, then remove it. */
  method RemoveSelected(settings: Settings, model: string)
    requires settings.Valid() && |settings.models| >= 2 && model == settings.SelectedModel()
    modifies settings`models, settings`selected, settings`notified
    ensures settings.Valid()
    ensures RemovedFrom(old(settings.models), settings.models, model)
    ensures settings.selected == FirstOther(old(settings.models), model)
    ensures settings.selected.Some? && settings.selected.value in settings.models && settings.selected.value != model
    ensures settings.notified == old(settings.notified) + settings.listeners
  {
    SelectOther(settings, model);
    RemoveFromModels(settings, model);
  }

  /** `models.remove(model)` on a set of two or more; the selection is left as it is. */
  method RemoveFromModels(settings: Settings, model: string)
    requires settings.Valid() && |settings.models| >= 2
    modifies settings`models
    ensures settings.Valid()
    ensures RemovedFrom(old(settings.models), settings.models, model)
  {
    RemoveFromSet(settings.models, model);
    settings.models := RemoveFirst(settings.models, model);
  }

  /** Moving the selection off `model` to the first other model; with two or more models there is one. */
  method SelectOther(settings: Settings, model: string)
    requires settings.Valid() && |settings.models| >= 2 && model == settings.SelectedModel()
    modifies settings`selected, settings`notified
    ensures settings.selected == FirstOther(settings.models, model) && settings.selected.Some?
    ensures settings.notified == old(settings.notified) + settings.listeners
  {
    OtherExists(settings.models, model);
    var next := FirstOther(settings.models, model).value;
    assert old(settings.selected) != Some(next);
    settings.SetSelectedModel(next);
  }

  /** Removing any value from a set keeps it a set and removes exactly that value. */
  lemma RemoveFromSet(models: seq<string>, model: string)
    requires NoDuplicates(models)
    ensures NoDuplicates(RemoveFirst(models, model))
    ensures forall m :: m in RemoveFirst(models, model) <==> m in models && m != model
    ensures model in models ==> |RemoveFirst(models, model)| == |models| - 1
  {
    if model in models {
      var i :| 0 <= i < |models| && models[i] == model;
      RemoveFirstFromSet(models, model, i);
    } else {
      RemoveFirstAbsent(models, model);
    }
  }
}
