/**
 * The model catalog of src/utils/modelConfig.ts: a constant ordered list of
 * model configurations and its first entry as the default, with the
 * first-match lookup by id (`Array.prototype.find`) that its users apply.
 */
module ModelRegistry {
  import opened Wrappers

  /** A model configuration; `maxTokens` is optional and set by no catalog entry. */
  datatype ModelConfig = ModelConfig(id: string, name: string, description: string, maxTokens: Option<int>)

  const AvailableModels: seq<ModelConfig> := [
    ModelConfig("gemini-2.0-flash", "Gemini 2.0 Flash", "新一代功能、速度和即時串流。", None),
    ModelConfig("gemini-2.5-pro", "Gemini 2.5 Pro", "更強大的思考和推理能力、多模態理解能力、進階程式設計能力等", None),
    ModelConfig("gemini-2.5-flash", "Gemini 2.5 Flash", "適應性思維、成本效益", None)
  ]

  const DefaultModel: ModelConfig := AvailableModels[0]

  /** No two entries of `models` share an id. */
  predicate DistinctIds(models: seq<ModelConfig>) {
    forall i, j :: 0 <= i < j < |models| ==> models[i].id != models[j].id
  }

  /** `models.find(m => m.id === id)`: the first entry with that id, or nothing. */
  function Find(models: seq<ModelConfig>, id: string): (r: Option<ModelConfig>)
    ensures r.None? <==> forall i :: 0 <= i < |models| ==> models[i].id != id
    ensures r.Some? ==> exists k :: 0 <= k < |models| && models[k] == r.value
                                    && r.value.id == id
                                    && forall j :: 0 <= j < k ==> models[j].id != id
  {
    if models == [] then None
    else if models[0].id == id then Some(models[0])
    else
      var r := Find(models[1..], id);
      if r.Some? then
        var k :| 0 <= k < |models[1..]| && models[1..][k] == r.value
                 && r.value.id == id && forall j :: 0 <= j < k ==> models[1..][j].id != id;
        assert models[k + 1] == r.value;
        r
      else
        r
  }

  /** With distinct ids, looking up an entry's id finds that very entry. */
  lemma FindOwnId(models: seq<ModelConfig>, i: nat)
    requires DistinctIds(models) && i < |models|
    ensures Find(models, models[i].id) == Some(models[i])
  {
    var r := Find(models, models[i].id);
    var k :| 0 <= k < |models| && models[k] == r.value && r.value.id == models[i].id
             && forall j :: 0 <= j < k ==> models[j].id != models[i].id;
    assert k == i;
  }

  /** The catalog: three entries, in this order, none with `maxTokens`. */
  lemma CatalogContents()
    ensures |AvailableModels| == 3
    ensures AvailableModels[0].id == "gemini-2.0-flash"
    ensures AvailableModels[1].id == "gemini-2.5-pro"
    ensures AvailableModels[2].id == "gemini-2.5-flash"
    ensures forall m :: m in AvailableModels ==> m.maxTokens.None? && m.id != ""
  {
  }

  /** Catalog ids are pairwise distinct. */
  lemma CatalogIdsDistinct()
    ensures DistinctIds(AvailableModels)
  {
  }

  /** The default is the first catalog entry, and no other entry equals it. */
  lemma DefaultIsFirst()
    ensures DefaultModel.id == "gemini-2.0-flash" && DefaultModel.name == "Gemini 2.0 Flash"
    ensures DefaultModel in AvailableModels
    ensures forall i :: 0 <= i < |AvailableModels| && AvailableModels[i] == DefaultModel ==> i == 0
  {
  }

  /** Every catalog entry is found by its own id. */
  lemma CatalogLookup(m: ModelConfig)
    requires m in AvailableModels
    ensures Find(AvailableModels, m.id) == Some(m)
  {
    var i :| 0 <= i < |AvailableModels| && AvailableModels[i] == m;
    FindOwnId(AvailableModels, i);
  }
}
