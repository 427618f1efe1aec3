/**
 * The model drop-down of src/components/ModelSelector.tsx: one option per
 * catalog entry, the control showing the selected model, and the change
 * rule that notifies the parent only when the chosen id names an entry.
 */
module ModelSelector {
  import opened Wrappers
  import opened ModelRegistry

  /** One `<option>`: its value and its visible label. */
  datatype SelectOption = SelectOption(value: string, text: string)

  /** The `<select>`: its current value, its tooltip and its options. */
  datatype SelectControl = SelectControl(value: string, title: string, options: seq<SelectOption>)

  /** The options, one per entry of `models` in the same order. */
  function Options(models: seq<ModelConfig>): (r: seq<SelectOption>)
    ensures |r| == |models|
    ensures forall i :: 0 <= i < |r| ==> r[i].value == models[i].id && r[i].text == models[i].name
  {
    if models == [] then [] else [SelectOption(models[0].id, models[0].name)] + Options(models[1..])
  }

  /** `onChange`: the model passed to `onModelChange`, or `None` when it is not called. */
  function OnChange(value: string): (r: Option<ModelConfig>)
    ensures r.None? <==> forall m :: m in AvailableModels ==> m.id != value
    ensures r.Some? ==> r.value in AvailableModels && r.value.id == value
    ensures r.Some? ==> forall j :: 0 <= j < |AvailableModels| && AvailableModels[j].id == value
                                    ==> AvailableModels[j] == r.value
  {
    var r := Find(AvailableModels, value);
    CatalogIdsDistinct();
    r
  }

  /** Choosing any offered option notifies the parent with the entry it was rendered from. */
  lemma ChoosingOptionSelectsIt(i: nat)
    requires i < |AvailableModels|
    ensures OnChange(Options(AvailableModels)[i].value) == Some(AvailableModels[i])
  {
    CatalogLookup(AvailableModels[i]);
  }

  /**
   * The control rendered for `selected`: a catalog selection shows one of its
   * own options, and every option, when chosen, selects the entry it shows.
   */
  function Control(selected: ModelConfig): (r: SelectControl)
    ensures r.value == selected.id && r.title == selected.description
    ensures selected in AvailableModels ==>
              exists i :: 0 <= i < |r.options| && r.options[i].value == r.value && r.options[i].text == selected.name
    ensures |r.options| == |AvailableModels|
    ensures forall i :: 0 <= i < |r.options| ==> OnChange(r.options[i].value) == Some(AvailableModels[i])
  {
    var r := SelectControl(selected.id, selected.description, Options(AvailableModels));
    forall i | 0 <= i < |r.options| ensures OnChange(r.options[i].value) == Some(AvailableModels[i]) {
      ChoosingOptionSelectsIt(i);
    }
    r
  }

  /** Re-choosing the value the control shows notifies with the selected model itself. */
  lemma ReselectingCurrentIsStable(selected: ModelConfig)
    requires selected in AvailableModels
    ensures OnChange(Control(selected).value) == Some(selected)
  {
    CatalogLookup(selected);
  }

  /** An id outside the catalog never notifies the parent. */
  lemma UnknownIdIgnored(value: string)
    requires value !in {"gemini-2.0-flash", "gemini-2.5-pro", "gemini-2.5-flash"}
    ensures OnChange(value) == None
  {
    CatalogContents();
  }
}
