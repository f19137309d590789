/**
 * The persisted plugin settings: the API key, the selected model with its
 * change listeners, the system prompt and the set of model ids, kept in
 * insertion order as a `LinkedHashSet` keeps them.
 */
module SettingsState {
  import opened Wrappers
  import opened StringOrder

  const DefaultSystemPrompt: string := "You are a helpful AI assistant."

  /** The state `loadState` receives; `selectedModel` is what that state's getter returns. */
  datatype StoredSettings = StoredSettings(apiKey: string, selectedModel: string, systemPrompt: string, models: seq<string>)

  /** `addAll` on a `LinkedHashSet`: each new element goes to the end, in order; present ones are skipped. */
  function AddAll(s: seq<string>, xs: seq<string>): (r: seq<string>)
    ensures forall x :: x in r <==> x in s || x in xs
    ensures |s| <= |r| && r[..|s|] == s
    ensures NoDuplicates(s) ==> NoDuplicates(r)
    decreases |xs|
  {
    if xs == [] then s
    else
      var s' := if xs[0] in s then s else s + [xs[0]];
      assert s'[..|s|] == s;
      AddAll(s', xs[1..])
  }

  /** Filling an empty set from a non-empty list puts the list's first element first. */
  lemma AddAllToEmptyStartsWithFirst(xs: seq<string>)
    requires xs != []
    ensures AddAll([], xs) != [] && AddAll([], xs)[0] == xs[0]
  {
    var s': seq<string> := [] + [xs[0]];
    assert s' == [xs[0]];
  }

  /**
   * The elements are taken in the order of `xs`: adding one more element at the
   * end of `xs` appends it to the result unless it is already there.
   */
  lemma {:induction false} AddAllSnoc(s: seq<string>, xs: seq<string>, x: string)
    ensures AddAll(s, xs + [x]) == if x in AddAll(s, xs) then AddAll(s, xs) else AddAll(s, xs) + [x]
    decreases |xs|
  {
    if xs == [] {
      assert xs + [x] == [x] && [x][1..] == [];
    } else {
      var s' := if xs[0] in s then s else s + [xs[0]];
      assert (xs + [x])[0] == xs[0] && (xs + [x])[1..] == xs[1..] + [x];
      AddAllSnoc(s', xs[1..], x);
    }
  }

  /** The first element of `s` different from `x`: `first { it != x }`, which throws when there is none. */
  function FirstOther(s: seq<string>, x: string): (r: Option<string>)
    ensures r.None? <==> forall y :: y in s ==> y == x
    ensures r.Some? ==> r.value in s && r.value != x
    ensures r.Some? ==> exists i :: 0 <= i < |s| && s[i] == r.value && forall j :: 0 <= j < i ==> s[j] == x
  {
    if s == [] then None
    else if s[0] != x then
      assert s[0] in s;
      Some(s[0])
    else
      var r := FirstOther(s[1..], x);
      assert forall y :: y in s ==> y == x || y in s[1..];
      if r.Some? then
        var i :| 0 <= i < |s[1..]| && s[1..][i] == r.value && forall j :: 0 <= j < i ==> s[1..][j] == x;
        assert s[i + 1] == r.value && forall j :: 0 <= j < i + 1 ==> s[j] == x;
        r
      else r
  }

  /** A list without duplicates with two or more elements has one different from any `x`. */
  lemma OtherExists(s: seq<string>, x: string)
    requires NoDuplicates(s) && |s| >= 2
    ensures exists y :: y in s && y != x
  {
    if s[0] == x {
      assert s[1] in s && s[1] != x;
    } else {
      assert s[0] in s;
    }
  }

  /** `remove` on a list: the first occurrence of `x` goes, the rest keep their order. */
  function RemoveFirst<T(==)>(s: seq<T>, x: T): (r: seq<T>)
    ensures x !in s ==> r == s
    ensures x in s ==> |r| == |s| - 1
    ensures multiset(r) == multiset(s) - multiset{x}
  {
    if s == [] then []
    else if s[0] == x then
      assert s == [s[0]] + s[1..];
      s[1..]
    else
      assert s == [s[0]] + s[1..];
      [s[0]] + RemoveFirst(s[1..], x)
  }

  /** Removing the first occurrence at `i`: the elements before and after it, in order. */
  lemma {:induction false} RemoveFirstAt<T>(s: seq<T>, x: T, i: nat)
    requires i < |s| && s[i] == x && x !in s[..i]
    ensures RemoveFirst(s, x) == s[..i] + s[i + 1..]
  {
    if i > 0 {
      assert s[0] in s[..i];
      assert s[1..][..i - 1] == s[1..i];
      RemoveFirstAt(s[1..], x, i - 1);
      assert s[..i] == [s[0]] + s[1..i];
      assert s[1..][i..] == s[i + 1..];
    }
  }

  /** Removing from a list without duplicates: exactly `x` is gone and the order of the rest is kept. */
  lemma RemoveFirstFromSet(s: seq<string>, x: string, i: nat)
    requires NoDuplicates(s) && i < |s| && s[i] == x
    ensures RemoveFirst(s, x) == s[..i] + s[i + 1..]
    ensures NoDuplicates(RemoveFirst(s, x))
    ensures forall y :: y in RemoveFirst(s, x) <==> y in s && y != x
  {
    assert x !in s[..i] by {
      forall j | 0 <= j < i ensures s[..i][j] != x {
        assert s[..i][j] == s[j];
      }
    }
    RemoveFirstAt(s, x, i);
    var r := s[..i] + s[i + 1..];
    forall j | 0 <= j < |r| ensures r[j] == s[Skip(j, i)] {
      if j < i {
        assert r[j] == s[..i][j];
      } else {
        assert r[j] == s[i + 1..][j - i];
      }
    }
    forall a, b | 0 <= a < b < |r| ensures r[a] != r[b] {
      assert s[Skip(a, i)] != s[Skip(b, i)];
    }
    forall y ensures y in r <==> y in s && y != x {
      if y in s && y != x {
        var k :| 0 <= k < |s| && s[k] == y;
        assert k != i;
        assert r[if k < i then k else k - 1] == y;
      }
    }
  }

  /** The position in the original list of position `j` once position `i` is gone. */
  function Skip(j: nat, i: nat): (k: nat)
    ensures k != i
  {
    if j < i then j else j + 1
  }

  /** Removing a value that is not there changes nothing. */
  lemma RemoveFirstAbsent(s: seq<string>, x: string)
    requires x !in s
    ensures RemoveFirst(s, x) == s
  {
  }

  class Settings {
    /** The default model ids; they stand for the model configuration read at start-up. */
    const defaults: seq<string>

    var apiKey: string
    /** `_selectedModel`: `None` until a model is chosen. */
    var selected: Option<string>
    var systemPrompt: string
    /** The model ids in insertion order. */
    var models: seq<string>
    /** Registered listeners, by identity, in registration order. */
    var listeners: seq<nat>
    /** Every listener invocation so far, in order. */
    var notified: seq<nat>

    /** The model ids form a set. */
    predicate Valid()
      reads this
    {
      NoDuplicates(models)
    }

    /** The initial state, then `initializeModels`. */
    constructor(defaults: seq<string>)
      ensures this.defaults == defaults && Valid()
      ensures apiKey == [] && systemPrompt == DefaultSystemPrompt
      ensures listeners == [] && notified == []
      ensures models == AddAll([], defaults)
      ensures selected == FirstOrNull(defaults)
      ensures defaults != [] ==> models != [] && selected == Some(models[0])
    {
      this.defaults := defaults;
      apiKey := [];
      selected := None;
      systemPrompt := DefaultSystemPrompt;
      models := [];
      listeners := [];
      notified := [];
      new;
      InitializeModels();
      if defaults != [] {
        AddAllToEmptyStartsWithFirst(defaults);
      }
    }

    /** `availableModels`: the model ids in ascending order. */
    function AvailableModels(): (r: seq<string>)
      reads this
      ensures Sorted(r) && |r| == |models|
      ensures forall x :: x in r <==> x in models
      ensures NoDuplicates(models) ==> StrictlySorted(r)
    {
      SortKeepsElements(models);
      Sort(models)
    }

    /** The `selectedModel` getter: the stored id, else the first available model, else "". */
    function SelectedModel(): (m: string)
      reads this
      ensures selected.Some? ==> m == selected.value
      ensures selected.None? && models == [] ==> m == ""
      ensures selected.None? && models != [] ==> m == AvailableModels()[0]
    {
      selected.GetOr(FirstOrNull(AvailableModels()).GetOr(""))
    }

    /** Without a stored id the getter falls back to the least model id. */
    lemma FallbackIsLeast()
      requires selected.None? && models != []
      ensures SelectedModel() in models
      ensures forall x :: x in models ==> LexLe(SelectedModel(), x)
    {
      var sorted := AvailableModels();
      forall x | x in models ensures LexLe(sorted[0], x) {
        SortedHeadIsLeast(sorted, x);
      }
    }

    /** The `selectedModel` setter: store the id; if it differs from the stored one, call every listener once, in order. */
    method SetSelectedModel(value: string)
      modifies this`selected, this`notified
      ensures selected == Some(value)
      ensures old(selected) != Some(value) ==> notified == old(notified) + listeners
      ensures old(selected) == Some(value) ==> notified == old(notified)
    {
      var oldValue := selected;
      selected := Some(value);
      if oldValue != Some(value) {
        var i := 0;
        while i < |listeners|
          invariant 0 <= i <= |listeners|
          invariant notified == old(notified) + listeners[..i]
          invariant selected == Some(value)
        {
          assert listeners[..i + 1] == listeners[..i] + [listeners[i]];
          notified := notified + [listeners[i]];
          i := i + 1;
        }
        assert listeners[..|listeners|] == listeners;
      }
    }

    /**
     * `initializeModels`: only an empty set is filled, from the defaults; then a
     * stored selection that is missing or not among the models is replaced by the
     * first default, without notifying the listeners.
     */
    method InitializeModels()
      modifies this`models, this`selected
      ensures old(models) != [] ==> models == old(models) && selected == old(selected)
      ensures old(models) == [] ==> models == AddAll([], defaults)
      ensures old(models) == [] && old(selected).Some? && old(selected).value in models ==> selected == old(selected)
      ensures old(models) == [] && (old(selected).None? || old(selected).value !in models) ==> selected == FirstOrNull(defaults)
      ensures old(models) == [] && defaults != [] ==> models != [] && selected.Some? && selected.value in models
      ensures old(NoDuplicates(models)) ==> Valid()
    {
      if models == [] {
        models := AddAll(models, defaults);
        if selected.None? || selected.value !in models {
          selected := FirstOrNull(defaults);
        }
      }
    }

    /** `addListener` */
    method AddListener(listener: nat)
      modifies this`listeners
      ensures listeners == old(listeners) + [listener]
    {
      listeners := listeners + [listener];
    }

    /** `removeListener`: the first registration of `listener` goes; the others keep their order. */
    method RemoveListener(listener: nat)
      modifies this`listeners
      ensures listeners == RemoveFirst(old(listeners), listener)
      ensures multiset(listeners) == multiset(old(listeners)) - multiset{listener}
    {
      listeners := RemoveFirst(listeners, listener);
    }

    /**
     * `loadState`: copy the stored properties (the selected model through its
     * setter), then `initializeModels`, which fills an empty model set from the
     * defaults.
     */
    method LoadState(state: StoredSettings)
      requires NoDuplicates(state.models)
      modifies this`apiKey, this`selected, this`systemPrompt, this`models, this`notified
      ensures Valid()
      ensures apiKey == state.apiKey && systemPrompt == state.systemPrompt
      ensures old(selected) != Some(state.selectedModel) ==> notified == old(notified) + listeners
      ensures old(selected) == Some(state.selectedModel) ==> notified == old(notified)
      ensures state.models != [] ==> models == state.models && selected == Some(state.selectedModel)
      ensures state.models == [] ==> models == AddAll([], defaults)
      ensures state.models == [] && state.selectedModel in defaults ==> selected == Some(state.selectedModel)
      ensures state.models == [] && state.selectedModel !in defaults ==> selected == FirstOrNull(defaults)
      ensures defaults != [] ==> models != []
    {
      apiKey := state.apiKey;
      SetSelectedModel(state.selectedModel);
      systemPrompt := state.systemPrompt;
      models := state.models;
      InitializeModels();
      if state.models == [] && defaults != [] {
        AddAllToEmptyStartsWithFirst(defaults);
      }
    }
  }
}
