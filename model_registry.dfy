/** The model registry (shared/models/model_registry.py): model configurations with
    their resource test and quantization choice, and a registry that lists,
    recommends, configures, adds and removes models.

    The registry file (YAML or JSON) is not read: the registry starts as the default
    registry the source falls back on when the file is missing or unreadable. */
module ModelRegistering {
  import opened Common

  datatype ModelConfig = ModelConfig(
    hfRepo: string,
    modelType: string,
    sizeGb: real,
    minRamGb: int,
    recommendedRamGb: int,
    quantizedVersions: seq<string>,
    supportsGpu: bool,
    supportsCpu: bool,
    description: string,
    tags: seq<string>)

  /** `is_compatible_with_resources`: enough RAM, and a GPU unless the model runs on
      the CPU. */
  function IsCompatible(m: ModelConfig, ramGb: real, hasGpu: bool): (r: bool)
    ensures r <==> ramGb >= m.minRamGb as real && (hasGpu || m.supportsCpu)
  {
    if ramGb < m.minRamGb as real then false
    else if !hasGpu && !m.supportsCpu then false
    else true
  }

  /** `get_best_quantization`: nothing when the recommended RAM is there; otherwise
      8bit when there is half again the minimum RAM and 8bit is offered, then 4bit,
      then q4_0, then whatever is listed first. */
  function BestQuantization(m: ModelConfig, ramGb: real): (r: Option<string>)
    ensures ramGb >= m.recommendedRamGb as real ==> r == None
    ensures ramGb < m.recommendedRamGb as real ==> (r.None? <==> |m.quantizedVersions| == 0)
    ensures r.Some? ==> r.value in m.quantizedVersions
    ensures ramGb < m.recommendedRamGb as real && ramGb >= m.minRamGb as real * 1.5 && "8bit" in m.quantizedVersions ==>
              r == Some("8bit")
    ensures r.Some? && r.value != "8bit" ==> ramGb < m.minRamGb as real * 1.5 || "8bit" !in m.quantizedVersions
    ensures r.Some? && r.value != "4bit" && r.value != "8bit" ==> "4bit" !in m.quantizedVersions
    ensures r.Some? && r.value != "4bit" && r.value != "8bit" && r.value != "q4_0" ==>
              "q4_0" !in m.quantizedVersions && r.value == m.quantizedVersions[0]
  {
    var offered := m.quantizedVersions;
    if ramGb >= m.recommendedRamGb as real then None
    else if ramGb >= m.minRamGb as real * 1.5 && "8bit" in offered then Some("8bit")
    else if "4bit" in offered then Some("4bit")
    else if "q4_0" in offered then Some("q4_0")
    else if |offered| > 0 then Some(offered[0])
    else None
  }

  /** 8bit below half again the minimum RAM is only ever the fallback: the model
      offers neither 4bit nor q4_0 and lists 8bit first. */
  lemma EightBitFallback(m: ModelConfig, ramGb: real)
    requires BestQuantization(m, ramGb) == Some("8bit") && ramGb < m.minRamGb as real * 1.5
    ensures "4bit" !in m.quantizedVersions && "q4_0" !in m.quantizedVersions
    ensures m.quantizedVersions[0] == "8bit"
  {
  }

  /** The resources `list_models` may be asked to fit. */
  datatype Resources = Resources(ramGb: real, hasGpu: bool)

  /** The two filters of `list_models`: the category one only for a non-empty,
      known category, the compatibility one only when resources are given. */
  predicate Passes(models: map<string, ModelConfig>, categories: map<string, seq<string>>, id: string,
                   category: string, compatibleWith: Option<Resources>)
    requires id in models
  {
    && (category == "" || category !in categories || id in categories[category])
    && (compatibleWith.None? || IsCompatible(models[id], compatibleWith.value.ramGb, compatibleWith.value.hasGpu))
  }

  /** The ids of `ids` that pass, in order. */
  function Listed(ids: seq<string>, models: map<string, ModelConfig>, categories: map<string, seq<string>>,
                  category: string, compatibleWith: Option<Resources>): (r: seq<string>)
    requires forall x :: x in ids ==> x in models
    ensures forall x :: x in r <==> x in ids && Passes(models, categories, x, category, compatibleWith)
    ensures Distinct(ids) ==> Distinct(r)
    ensures Distinct(ids) ==> forall i, j :: 0 <= i < j < |r| ==> Position(ids, r[i]) < Position(ids, r[j])
  {
    if |ids| == 0 then []
    else
      var rest := Listed(ids[1..], models, categories, category, compatibleWith);
      assert forall x :: x in ids <==> x == ids[0] || x in ids[1..];
      DistinctTail(ids);
      if Passes(models, categories, ids[0], category, compatibleWith) then
        var r := [ids[0]] + rest;
        assert forall i :: 1 <= i < |r| ==> r[i] == rest[i - 1];
        r
      else rest
  }

  /** `get_recommended_model`'s score. */
  function Score(m: ModelConfig, ramGb: real, hasGpu: bool, taskType: string): real
  {
    m.sizeGb
    + (if hasGpu && m.supportsGpu then 5.0 else 0.0)
    + (if taskType != "" && taskType in m.tags then 10.0 else 0.0)
    - (if ramGb < m.recommendedRamGb as real then 2.0 else 0.0)
  }

  function Scores(ids: seq<string>, models: map<string, ModelConfig>, ramGb: real, hasGpu: bool, taskType: string)
    : (r: seq<real>)
    requires forall x :: x in ids ==> x in models
    ensures |r| == |ids|
    ensures forall i :: 0 <= i < |ids| ==> r[i] == Score(models[ids[i]], ramGb, hasGpu, taskType)
  {
    if |ids| == 0 then []
    else Scores(ids[..|ids| - 1], models, ramGb, hasGpu, taskType) + [Score(models[ids[|ids| - 1]], ramGb, hasGpu, taskType)]
  }

  /** The first maximal position: what a stable descending sort puts first. */
  function FirstMax(scores: seq<real>): (k: nat)
    requires |scores| > 0
    ensures k < |scores|
    ensures forall i :: 0 <= i < |scores| ==> scores[i] <= scores[k]
    ensures forall i :: 0 <= i < k ==> scores[i] < scores[k]
  {
    if |scores| == 1 then 0
    else
      var k := FirstMax(scores[..|scores| - 1]);
      assert forall i :: 0 <= i < |scores| - 1 ==> scores[..|scores| - 1][i] == scores[i];
      if scores[k] < scores[|scores| - 1] then |scores| - 1 else k
  }

  /** The body of `get_recommended_model` over the registry's contents. */
  function Recommend(ids: seq<string>, models: map<string, ModelConfig>, categories: map<string, seq<string>>,
                     ramGb: real, hasGpu: bool, taskType: string): Option<string>
    requires forall x :: x in ids ==> x in models
  {
    var compatible := Listed(ids, models, categories, "", Some(Resources(ramGb, hasGpu)));
    if |compatible| == 0 then None
    else Some(compatible[FirstMax(Scores(compatible, models, ramGb, hasGpu, taskType))])
  }

  /** No recommendation iff nothing is compatible; otherwise a compatible model that
      no compatible model outscores, and that every earlier compatible model scores
      strictly below. */
  lemma RecommendChosen(ids: seq<string>, models: map<string, ModelConfig>, categories: map<string, seq<string>>,
                        ramGb: real, hasGpu: bool, taskType: string)
    requires Distinct(ids) && forall x :: x in ids <==> x in models
    ensures var r := Recommend(ids, models, categories, ramGb, hasGpu, taskType);
            && (r.None? <==> forall x :: x in models ==> !IsCompatible(models[x], ramGb, hasGpu))
            && (r.Some? ==> r.value in models && IsCompatible(models[r.value], ramGb, hasGpu))
            && (r.Some? ==> forall x :: x in models && IsCompatible(models[x], ramGb, hasGpu) ==>
                  Score(models[x], ramGb, hasGpu, taskType) <= Score(models[r.value], ramGb, hasGpu, taskType))
            && (r.Some? ==> forall x :: (x in models && IsCompatible(models[x], ramGb, hasGpu)
                                          && Position(ids, x) < Position(ids, r.value)) ==>
                  Score(models[x], ramGb, hasGpu, taskType) < Score(models[r.value], ramGb, hasGpu, taskType))
  {
    var compatible := Listed(ids, models, categories, "", Some(Resources(ramGb, hasGpu)));
    assert forall x :: x in compatible <==> x in models && IsCompatible(models[x], ramGb, hasGpu);
    if |compatible| > 0 {
      FirstMaxChosen(ids, compatible, models, ramGb, hasGpu, taskType);
    }
  }

  /** In a list in registry order, the first maximal score is at least every score in
      the list and strictly above every score earlier in the registry. */
  lemma FirstMaxChosen(ids: seq<string>, c: seq<string>, models: map<string, ModelConfig>,
                       ramGb: real, hasGpu: bool, taskType: string)
    requires |c| > 0 && forall x :: x in c ==> x in models
    requires forall i, j :: 0 <= i < j < |c| ==> Position(ids, c[i]) < Position(ids, c[j])
    ensures var best := c[FirstMax(Scores(c, models, ramGb, hasGpu, taskType))];
            && (forall x :: x in c ==> Score(models[x], ramGb, hasGpu, taskType) <= Score(models[best], ramGb, hasGpu, taskType))
            && (forall x :: x in c && Position(ids, x) < Position(ids, best) ==>
                  Score(models[x], ramGb, hasGpu, taskType) < Score(models[best], ramGb, hasGpu, taskType))
  {
    var scores := Scores(c, models, ramGb, hasGpu, taskType);
    var k := FirstMax(scores);
    forall x | x in c
      ensures Score(models[x], ramGb, hasGpu, taskType) <= Score(models[c[k]], ramGb, hasGpu, taskType)
      ensures Position(ids, x) < Position(ids, c[k]) ==>
                Score(models[x], ramGb, hasGpu, taskType) < Score(models[c[k]], ramGb, hasGpu, taskType)
    {
      var i :| 0 <= i < |c| && c[i] == x;
      assert scores[i] <= scores[k];
      if Position(ids, x) < Position(ids, c[k]) {
        assert i < k;
        assert scores[i] < scores[k];
      }
    }
  }

  /** A value in the loading configuration. */
  datatype ConfigValue = Text(text: string) | Flag(flag: bool)

  type LoadingConfig = map<string, ConfigValue>

  const DefaultModelId: string := "dialogpt_medium"

  const DefaultModel: ModelConfig :=
    ModelConfig("microsoft/DialoGPT-medium", "causal_lm", 1.4, 3, 6, ["8bit"], true, true,
                "Default conversational model", ["default", "conversation"])

  const DefaultDefaults: LoadingConfig :=
    map["quantization" := Text("8bit"), "torch_dtype" := Text("auto"), "trust_remote_code" := Flag(true)]

  const BaseKeys: set<string> := {"model_name_or_path", "torch_dtype", "device_map"}

  /** The entry a quantization choice sets, if any: a `load_in_*` flag for 4bit and
      8bit, "quantization" for anything else, nothing for no (or an empty) choice. */
  function QuantizationKey(q: Option<string>): (k: Option<string>)
    ensures q.None? || q == Some("") <==> k.None?
    ensures k.Some? && (q.value == "4bit" || q.value == "8bit") ==> k.value == "load_in_" + q.value
    ensures k.Some? && q.value != "4bit" && q.value != "8bit" ==> k.value == "quantization"
    ensures k.Some? ==> k.value !in BaseKeys
  {
    if q.None? || q.value == "" then None
    else if q.value == "4bit" || q.value == "8bit" then Some("load_in_" + q.value)
    else Some("quantization")
  }

  class ModelRegistry {
    /** The keys of `models` in the dictionary's insertion order. */
    var ids: seq<string>
    var models: map<string, ModelConfig>
    var categories: map<string, seq<string>>
    var defaults: LoadingConfig

    ghost predicate Valid()
      reads this
    {
      Distinct(ids) && forall x :: x in ids <==> x in models
    }

    /** `_create_default_registry`: one conversational model in category "default". */
    constructor ()
      ensures Valid()
      ensures ids == [DefaultModelId] && models == map[DefaultModelId := DefaultModel]
      ensures categories == map["default" := [DefaultModelId]] && defaults == DefaultDefaults
    {
      ids := [DefaultModelId];
      models := map[DefaultModelId := DefaultModel];
      categories := map["default" := [DefaultModelId]];
      defaults := DefaultDefaults;
    }

    /** `get_model`. */
    function GetModel(id: string): (r: Option<ModelConfig>)
      reads this
      ensures r.Some? <==> id in models
      ensures r.Some? ==> r.value == models[id]
    {
      if id in models then Some(models[id]) else None
    }

    /** `list_models`: the models passing both filters, in registry order. */
    function ListModels(category: string, compatibleWith: Option<Resources>): (r: seq<string>)
      reads this
      requires Valid()
      ensures forall x :: x in r <==> x in models && Passes(models, categories, x, category, compatibleWith)
      ensures Distinct(r)
      ensures forall i, j :: 0 <= i < j < |r| ==> Position(ids, r[i]) < Position(ids, r[j])
    {
      Listed(ids, models, categories, category, compatibleWith)
    }

    /** `get_recommended_model`: the best-scoring compatible model, the earliest one
        on a tie (see `RecommendChosen`). */
    function GetRecommendedModel(ramGb: real, hasGpu: bool, taskType: string): (r: Option<string>)
      reads this
      requires Valid()
      ensures r.None? <==> forall x :: x in models ==> !IsCompatible(models[x], ramGb, hasGpu)
      ensures r.Some? ==> r.value in models && IsCompatible(models[r.value], ramGb, hasGpu)
      ensures r.Some? ==> forall x :: x in models && IsCompatible(models[x], ramGb, hasGpu) ==>
                            Score(models[x], ramGb, hasGpu, taskType) <= Score(models[r.value], ramGb, hasGpu, taskType)
      ensures r.Some? ==> forall x :: (x in models && IsCompatible(models[x], ramGb, hasGpu)
                                        && Position(ids, x) < Position(ids, r.value)) ==>
                            Score(models[x], ramGb, hasGpu, taskType) < Score(models[r.value], ramGb, hasGpu, taskType)
    {
      RecommendChosen(ids, models, categories, ramGb, hasGpu, taskType);
      Recommend(ids, models, categories, ramGb, hasGpu, taskType)
    }

    /** `get_loading_config`: ValueError for an unknown model; otherwise the defaults
        overlaid with the repository, dtype "auto" and the device map, and then the
        chosen quantization. */
    function GetLoadingConfig(id: string, ramGb: real, hasGpu: bool): (r: Result<LoadingConfig>)
      reads this
      ensures id !in models <==> r == Err("ValueError")
      ensures id in models ==>
                var m := models[id];
                var q := BestQuantization(m, ramGb);
                && r.Ok?
                && BaseKeys <= r.value.Keys
                && r.value["model_name_or_path"] == Text(m.hfRepo)
                && r.value["torch_dtype"] == Text("auto")
                && r.value["device_map"] == (if hasGpu then Text("auto") else Text("cpu"))
                && (q == Some("4bit") ==> "load_in_4bit" in r.value && r.value["load_in_4bit"] == Flag(true))
                && (q == Some("8bit") ==> "load_in_8bit" in r.value && r.value["load_in_8bit"] == Flag(true))
                && (q.Some? && q.value !in {"", "4bit", "8bit"} ==>
                      "quantization" in r.value && r.value["quantization"] == Text(q.value))
                && (forall k :: k in r.value <==> k in defaults || k in BaseKeys || Some(k) == QuantizationKey(q))
                && (forall k :: k in defaults && k !in BaseKeys && Some(k) != QuantizationKey(q) ==>
                      r.value[k] == defaults[k])
    {
      if id !in models then Err("ValueError")
      else
        var m := models[id];
        var config := defaults + map["model_name_or_path" := Text(m.hfRepo), "torch_dtype" := Text("auto"),
                                     "device_map" := Text(if hasGpu then "auto" else "cpu")];
        var q := BestQuantization(m, ramGb);
        assert "load_in_" + "4bit" == "load_in_4bit" && "load_in_" + "8bit" == "load_in_8bit";
        if q.Some? && q.value != "" then
          if q.value == "4bit" || q.value == "8bit" then Ok(config["load_in_" + q.value := Flag(true)])
          else Ok(config["quantization" := Text(q.value)])
        else Ok(config)
    }

    /** `add_model`: store under the id, replacing any model there; a new id goes last
        in registry order, a known one keeps its place. */
    method AddModel(id: string, m: ModelConfig)
      modifies this
      requires Valid()
      ensures Valid()
      ensures models == old(models)[id := m]
      ensures ids == if id in old(models) then old(ids) else old(ids) + [id]
      ensures categories == old(categories) && defaults == old(defaults)
    {
      if id !in models {
        ids := ids + [id];
      }
      models := models[id := m];
    }

    /** `remove_model`: true iff the id was present; the others keep their order. */
    method RemoveModel(id: string) returns (removed: bool)
      modifies this
      requires Valid()
      ensures Valid()
      ensures removed <==> id in old(models)
      ensures models == old(models) - {id}
      ensures ids == Without(old(ids), id)
      ensures categories == old(categories) && defaults == old(defaults)
    {
      if id in models {
        ids := Without(ids, id);
        models := models - {id};
        return true;
      }
      return false;
    }
  }

  /** `s` with `x` dropped, the rest in order. */
  function Without(s: seq<string>, x: string): (r: seq<string>)
    ensures forall y :: y in r <==> y in s && y != x
    ensures x !in s ==> r == s
    ensures Distinct(s) ==> Distinct(r)
  {
    if |s| == 0 then []
    else
      var rest := Without(s[1..], x);
      assert forall y :: y in s <==> y == s[0] || y in s[1..];
      DistinctTail(s);
      if s[0] == x then rest
      else
        var r := [s[0]] + rest;
        assert forall i :: 1 <= i < |r| ==> r[i] == rest[i - 1];
        r
  }
}
