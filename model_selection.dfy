/**
 * The `useModelSelection` hook of src/hooks/useModelSelection.ts: the
 * selected model, starting at the default, restored once from browser
 * storage when the component mounts, and changed (and persisted) by
 * `changeModel`. Browser storage is the field `storage`, a map from key to
 * stored string.
 */
module ModelSelectionHook {
  import opened Wrappers
  import opened ModelRegistry

  /** The storage key under which the chosen model's id is kept. */
  const ModelStorageKey: string := "selected-model"

  /**
   * The catalog entry a stored id restores, if any: the key must be present,
   * its value non-empty (a JavaScript-truthy string), and the id known.
   */
  function SavedModel(storage: map<string, string>): (r: Option<ModelConfig>)
    ensures r.Some? <==> ModelStorageKey in storage && storage[ModelStorageKey] != ""
                         && exists m :: m in AvailableModels && m.id == storage[ModelStorageKey]
    ensures r.Some? ==> r.value in AvailableModels && r.value.id == storage[ModelStorageKey]
  {
    if ModelStorageKey in storage && storage[ModelStorageKey] != "" then
      var found := Find(AvailableModels, storage[ModelStorageKey]);
      if found.None? then
        assert forall m :: m in AvailableModels ==> m.id != storage[ModelStorageKey];
        None
      else
        found
    else
      None
  }

  /** After `changeModel(m)` with a catalog entry, the stored id restores exactly `m`. */
  lemma SavedAfterChange(storage: map<string, string>, m: ModelConfig)
    requires m in AvailableModels
    ensures SavedModel(storage[ModelStorageKey := m.id]) == Some(m)
  {
    CatalogContents();
    CatalogLookup(m);
  }

  /** A missing, empty or unknown stored id restores nothing. */
  lemma NothingSavedOtherwise(storage: map<string, string>)
    requires ModelStorageKey !in storage || storage[ModelStorageKey] == ""
             || storage[ModelStorageKey] !in {"gemini-2.0-flash", "gemini-2.5-pro", "gemini-2.5-flash"}
    ensures SavedModel(storage) == None
  {
    CatalogContents();
  }

  class ModelSelection {
    var selectedModel: ModelConfig
    var storage: map<string, string>
    /** `availableModels`: the catalog itself. */
    const availableModels: seq<ModelConfig>

    /** The selection is a catalog entry. */
    predicate SelectionInCatalog()
      reads this
    {
      selectedModel in AvailableModels
    }

    /** `useState(DEFAULT_MODEL)`, over whatever the browser has stored. */
    constructor (storage: map<string, string>)
      ensures selectedModel == DefaultModel && this.storage == storage
      ensures availableModels == AvailableModels
      ensures SelectionInCatalog()
    {
      selectedModel := DefaultModel;
      this.storage := storage;
      availableModels := AvailableModels;
    }

    /** The mount effect: a stored id that names a catalog entry replaces the selection; anything else leaves it. */
    method RestoreSaved()
      modifies this`selectedModel
      ensures SavedModel(storage).Some? ==> selectedModel == SavedModel(storage).value
      ensures SavedModel(storage).None? ==> selectedModel == old(selectedModel)
      ensures old(SelectionInCatalog()) ==> SelectionInCatalog()
    {
      if ModelStorageKey in storage {
        var savedModelId := storage[ModelStorageKey];
        if savedModelId != "" {
          var savedModel := Find(AvailableModels, savedModelId);
          if savedModel.Some? {
            selectedModel := savedModel.value;
          }
        }
      }
    }

    /** `changeModel`: selects `model` and stores its id; every other stored entry is kept. */
    method ChangeModel(model: ModelConfig)
      modifies this`selectedModel, this`storage
      ensures selectedModel == model
      ensures storage == old(storage)[ModelStorageKey := model.id]
      ensures SelectionInCatalog() <==> model in AvailableModels
    {
      selectedModel := model;
      storage := storage[ModelStorageKey := model.id];
    }
  }

  /** A fresh mount over empty storage settles on the default model. */
  method MountFresh() returns (selected: ModelConfig)
    ensures selected == DefaultModel
  {
    var hook := new ModelSelection(map[]);
    hook.RestoreSaved();
    selected := hook.selectedModel;
  }

  /** Changing to a catalog entry, then mounting again over the same storage, selects that entry. */
  method RemountAfterChange(storage: map<string, string>, model: ModelConfig) returns (selected: ModelConfig)
    requires model in AvailableModels
    ensures selected == model
  {
    var first := new ModelSelection(storage);
    first.RestoreSaved();
    first.ChangeModel(model);
    var second := new ModelSelection(first.storage);
    second.RestoreSaved();
    SavedAfterChange(storage, model);
    selected := second.selectedModel;
  }
}
