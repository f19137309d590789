/**
 * The settings page: a component holding the edited values (API key, model
 * combo box, system prompt, custom-model field), the `isModified`/`apply`/`reset`
 * protocol between it and the stored settings, and the model management dialog.
 */
module SettingsConfigurable {
  import opened Wrappers
  import opened KotlinStrings
  import opened StringOrder
  import opened SettingsState
  import opened ModelCatalogue

  /**
   * `setSelectedItem` on a non-editable combo box: a listed item becomes the
   * selection; an unlisted one is ignored and the selection stays as it was.
   */
  function ComboSelect(items: seq<string>, current: Option<string>, item: string): (r: Option<string>)
    ensures item in items ==> r == Some(item)
    ensures item !in items ==> r == current
  {
    if item in items then Some(item) else current
  }

  /** The edited values of the settings page. */
  class SettingsComponent {
    const settings: Settings
    var apiKeyText: string
    var systemPromptText: string
    /** The combo box's entries and its selected item (`None` when nothing is selected). */
    var comboItems: seq<string>
    var comboSelection: Option<string>
    /** The model the combo box falls back to when it has no selection. */
    var initialModel: string
    var customModelText: string

    /** The combo box selects nothing or one of its entries. */
    predicate ComboValid()
      reads this
    {
      comboSelection.Some? ==> comboSelection.value in comboItems
    }

    /** The fields start empty; the combo box lists the models and shows the current model if it is listed. */
    constructor(settings: Settings)
      ensures this.settings == settings && ComboValid()
      ensures apiKeyText == [] && systemPromptText == [] && customModelText == []
      ensures initialModel == settings.SelectedModel()
      ensures comboItems == settings.AvailableModels()
      ensures comboSelection == ComboSelect(comboItems, FirstOrNull(comboItems), initialModel)
    {
      this.settings := settings;
      apiKeyText := [];
      systemPromptText := [];
      customModelText := [];
      comboSelection := None;
      comboItems := [];
      initialModel := settings.SelectedModel();
      new;
      UpdateModelComboBox();
    }

    /**
     * `updateModelComboBox`: a new combo model of the model ids in ascending order,
     * which selects its first entry, and then the previous selection, or
     * `initialModel` when there was none, is selected if it is listed.
     */
    method UpdateModelComboBox()
      modifies this`comboItems, this`comboSelection
      ensures ComboValid()
      ensures comboItems == settings.AvailableModels()
      ensures Sorted(comboItems) && forall m :: m in comboItems <==> m in settings.models
      ensures comboSelection == ComboSelect(comboItems, FirstOrNull(comboItems), old(comboSelection).GetOr(initialModel))
      ensures comboSelection.None? <==> settings.models == []
    {
      var currentSelection := comboSelection;
      comboItems := settings.AvailableModels();
      comboSelection := FirstOrNull(comboItems);
      comboSelection := ComboSelect(comboItems, comboSelection, currentSelection.GetOr(initialModel));
    }

    /** `setSelectedModel`: select `model` if it is listed, and make it the fallback in any case. */
    method SetSelectedModel(model: string)
      modifies this`comboSelection, this`initialModel
      ensures old(ComboValid()) ==> ComboValid()
      ensures comboSelection == ComboSelect(comboItems, old(comboSelection), model)
      ensures initialModel == model
    {
      comboSelection := ComboSelect(comboItems, comboSelection, model);
      initialModel := model;
    }

    /** The "Add" button next to the custom-model field: a new trimmed name joins the set, is selected, and the field is cleared. */
    method AddCustom() returns (a: Addition)
      requires settings.Valid()
      modifies settings`models, this`comboItems, this`comboSelection, this`customModelText
      ensures settings.Valid()
      ensures a == Decide(old(settings.models), old(customModelText))
      ensures a.Added? ==>
        && settings.models == old(settings.models) + [a.name]
        && comboItems == settings.AvailableModels()
        && comboSelection == Some(a.name)
        && ComboValid()
        && customModelText == []
      ensures !a.Added? ==>
        && settings.models == old(settings.models)
        && comboItems == old(comboItems) && comboSelection == old(comboSelection)
        && customModelText == old(customModelText)
    {
      a := AddModel(settings, customModelText);
      if a.Added? {
        UpdateModelComboBox();
        comboSelection := ComboSelect(comboItems, comboSelection, a.name);
        customModelText := [];
      }
    }

    /** "Restore Default": the prompt field gets the default system prompt. */
    method RestoreDefaultPrompt()
      modifies this`systemPromptText
      ensures systemPromptText == DefaultSystemPrompt
    {
      systemPromptText := DefaultSystemPrompt;
    }
  }

  /** The settings page, with its component while the page is open. */
  class Configurable {
    const settings: Settings
    var component: SettingsComponent?

    constructor(settings: Settings)
      ensures this.settings == settings && component == null
    {
      this.settings := settings;
      component := null;
    }

    /**
     * `isModified`: some field of the open page differs from the stored settings;
     * a closed page is never modified, and an unmodified open page shows the
     * current model in its combo box.
     */
    predicate IsModified(): (r: bool)
      reads this, settings, component
      ensures component == null ==> !r
      ensures component != null && !r ==>
        && component.comboSelection == Some(settings.SelectedModel())
        && component.apiKeyText == settings.apiKey && component.systemPromptText == settings.systemPrompt
    {
      component != null &&
        (settings.apiKey != component.apiKeyText
         || Some(settings.SelectedModel()) != component.comboSelection
         || settings.systemPrompt != component.systemPromptText)
    }

    /**
     * `createComponent`: a fresh component for this page's settings, loaded by `reset`;
     * right afterwards the page counts as modified exactly when the current model is
     * not in the model set, since the combo box cannot show it.
     */
    method CreateComponent()
      modifies this`component
      ensures component != null && fresh(component) && component.settings == settings
      ensures component.ComboValid()
      ensures !IsModified() <==> settings.SelectedModel() in settings.models
      ensures component.apiKeyText == settings.apiKey && component.systemPromptText == settings.systemPrompt
      ensures component.initialModel == settings.SelectedModel() && component.comboItems == settings.AvailableModels()
      ensures component.customModelText == []
      ensures component.comboSelection == ComboSelect(component.comboItems, FirstOrNull(component.comboItems), settings.SelectedModel())
    {
      var c := new SettingsComponent(settings);
      component := c;
      Reset();
    }

    /**
     * `reset`: copy the stored key, selected model and prompt into the open page;
     * afterwards the page is unmodified unless the combo box could not show the model.
     */
    method Reset()
      requires component != null ==> component.settings == settings
      modifies component
      ensures component != null ==>
        && component.apiKeyText == settings.apiKey
        && component.comboSelection == ComboSelect(component.comboItems, old(component.comboSelection), settings.SelectedModel())
        && component.initialModel == settings.SelectedModel()
        && component.systemPromptText == settings.systemPrompt
        && component.comboItems == old(component.comboItems)
        && component.customModelText == old(component.customModelText)
        && (old(component.ComboValid()) ==> component.ComboValid())
      ensures component != null ==>
        (!IsModified() <==>
           settings.SelectedModel() in component.comboItems || old(component.comboSelection) == Some(settings.SelectedModel()))
      ensures component == null ==> !IsModified()
    {
      var c := component;
      if c == null {
        return;
      }
      c.apiKeyText := settings.apiKey;
      c.SetSelectedModel(settings.SelectedModel());
      c.systemPromptText := settings.systemPrompt;
    }

    /**
     * `apply`: store the page's key and prompt, and its selected model through the
     * setter, or the current model again when the combo box has no selection.
     */
    method Apply()
      requires component != null ==> component.settings == settings
      modifies settings`apiKey, settings`selected, settings`systemPrompt, settings`notified
      ensures component == null ==>
        settings.apiKey == old(settings.apiKey) && settings.selected == old(settings.selected)
        && settings.systemPrompt == old(settings.systemPrompt) && settings.notified == old(settings.notified)
      ensures component != null ==>
        && settings.apiKey == component.apiKeyText
        && settings.systemPrompt == component.systemPromptText
        && settings.selected == Some(component.comboSelection.GetOr(old(settings.SelectedModel())))
      ensures component != null && settings.selected == old(settings.selected) ==>
        settings.notified == old(settings.notified)
      ensures component != null && settings.selected != old(settings.selected) ==>
        settings.notified == old(settings.notified) + settings.listeners
      ensures component != null ==> (!IsModified() <==> component.comboSelection.Some?)
    {
      var c := component;
      if c == null {
        return;
      }
      var model := c.comboSelection.GetOr(settings.SelectedModel());
      settings.apiKey := c.apiKeyText;
      settings.SetSelectedModel(model);
      settings.systemPrompt := c.systemPromptText;
      assert settings.SelectedModel() == model;
    }

    /** `disposeUIResources`: the page is closed. */
    method DisposeUIResources()
      modifies this`component
      ensures component == null
      ensures !IsModified()
    {
      component := null;
    }

    /**
     * `reset` followed by `apply` with nothing edited in between leaves the stored
     * settings as they were when the combo box lists the stored model, and otherwise
     * stores the combo box's selection as the selected model.
     */
    method ResetThenApply()
      requires component != null && component.settings == settings
      modifies component, settings`apiKey, settings`selected, settings`systemPrompt, settings`notified
      ensures settings.apiKey == old(settings.apiKey) && settings.systemPrompt == old(settings.systemPrompt)
      ensures old(settings.selected).Some? && old(settings.SelectedModel()) in component.comboItems ==>
        settings.selected == old(settings.selected) && settings.notified == old(settings.notified)
      ensures old(settings.SelectedModel()) !in component.comboItems && old(component.comboSelection).Some? ==>
        settings.selected == old(component.comboSelection)
    {
      Reset();
      Apply();
    }
  }

  /** The model management dialog: the model ids in ascending order, with add and remove. */
  class ManageModelsDialog {
    const settings: Settings
    var shown: seq<string>
    var highlighted: Option<string>

    constructor(settings: Settings)
      ensures this.settings == settings
      ensures shown == settings.AvailableModels() && highlighted == None
    {
      this.settings := settings;
      shown := settings.AvailableModels();
      highlighted := None;
    }

    /** `refreshModels`: the list shows `availableModels`; its selection is cleared. */
    method RefreshModels()
      modifies this`shown, this`highlighted
      ensures shown == settings.AvailableModels() && highlighted == None
      ensures Sorted(shown) && forall m :: m in shown <==> m in settings.models
    {
      shown := settings.AvailableModels();
      highlighted := None;
    }

    /** The user clicks a listed entry, which becomes the list's selection. */
    method Highlight(m: string)
      requires m in shown
      modifies this`highlighted
      ensures highlighted == Some(m)
    {
      highlighted := Some(m);
    }

    /** The add button: a new trimmed name joins the set and the list is refilled; nothing else happens. */
    method Add(input: Option<string>) returns (a: Option<Addition>)
      requires settings.Valid()
      modifies settings`models, this`shown, this`highlighted
      ensures settings.Valid()
      ensures input.None? ==> a.None?
      ensures input.Some? ==> a == Some(Decide(old(settings.models), input.value))
      ensures a.Some? && a.value.Added? ==>
        settings.models == old(settings.models) + [a.value.name] && shown == settings.AvailableModels()
        && highlighted == None
      ensures !(a.Some? && a.value.Added?) ==>
        settings.models == old(settings.models) && shown == old(shown) && highlighted == old(highlighted)
    {
      if input.None? {
        return None;
      }
      var decision := AddModel(settings, input.value);
      a := Some(decision);
      if decision.Added? {
        RefreshModels();
      }
    }

    /** The remove button, on the highlighted entry: as `RemoveModel` says, then the list is refilled. */
    method Remove() returns (r: Option<Removal>)
      requires settings.Valid()
      modifies settings`models, settings`selected, settings`notified, this`shown, this`highlighted
      ensures settings.Valid()
      ensures r.None? <==> old(highlighted).None?
      ensures r.None? ==>
        && settings.models == old(settings.models) && settings.selected == old(settings.selected)
        && settings.notified == old(settings.notified)
      ensures r.Some? ==> (r.value == Refused <==> |old(settings.models)| <= 1)
      ensures r == Some(Refused) ==>
        && settings.models == old(settings.models) && settings.selected == old(settings.selected)
        && settings.notified == old(settings.notified)
      ensures r.None? || r == Some(Refused) ==> shown == old(shown) && highlighted == old(highlighted)
      ensures r == Some(Removed) ==>
        && RemovedFrom(old(settings.models), settings.models, old(highlighted).value)
        && shown == settings.AvailableModels()
        && old(highlighted).value !in shown
        && highlighted == None
      ensures r == Some(Removed) && old(highlighted).value == old(settings.SelectedModel()) ==>
        && settings.selected == FirstOther(old(settings.models), old(highlighted).value)
        && settings.selected.Some? && settings.selected.value in settings.models
        && settings.notified == old(settings.notified) + settings.listeners
      ensures r == Some(Removed) && old(highlighted).value != old(settings.SelectedModel()) ==>
        settings.selected == old(settings.selected) && settings.notified == old(settings.notified)
    {
      if highlighted.None? {
        return None;
      }
      var removal := RemoveModel(settings, highlighted.value);
      r := Some(removal);
      if removal == Removed {
        RefreshModels();
      }
    }
  }
}
