/** The sequential part of the search in backend/automl/orchestrator.py:
    drawing configurations from the search space and repairing them,
    building a retriever and a chunker configuration from a configuration,
    the per-query retrieval evaluation, the score formula, the record of an
    evaluation, and the selection of the best configuration. */
module Orchestrator {
  import opened Util
  import opened Models
  import opened Retrieval
  import opened Evaluation
  import opened Prompts
  import Text

  /** A configuration dictionary. */
  type Config = map<string, Value>

  /** `config.get(key, default)` */
  function GetOr(c: Config, key: string, otherwise: Value): Value
  {
    if key in c then c[key] else otherwise
  }

  // ---------------------------------------------------------------------
  // The search space

  const DefaultEmbeddingModel: string := "sentence-transformers/all-MiniLM-L6-v2"

  const EmbeddingModels: seq<Value> := [
    VStr(DefaultEmbeddingModel),
    VStr("sentence-transformers/all-mpnet-base-v2"),
    VStr("sentence-transformers/multi-qa-mpnet-base-dot-v1")]

  const RetrieverTypes: seq<Value> := [VStr("faiss"), VStr("bm25"), VStr("hybrid")]

  const Strategies: seq<Value> := [VStr("fixed"), VStr("sentence"), VStr("paragraph")]

  const Sizes: seq<Value> := [VInt(128), VInt(256), VInt(512), VInt(1024)]

  const Overlaps: seq<Value> := [VInt(0), VInt(25), VInt(50)]

  const TopKs: seq<Value> := [VInt(3), VInt(5), VInt(10)]

  const Weights: seq<Value> := [VReal(0.3), VReal(0.5), VReal(0.7)]

  /** The template types' values as configuration values. */
  const TemplateOptions: seq<Value> := [VStr("simple"), VStr("detailed"), VStr("step_by_step"), VStr("context_first"), VStr("question_first")]

  /** The search space: each parameter with its options, in order. */
  const SearchSpace: seq<(string, seq<Value>)> := [
    ("retriever_type", RetrieverTypes),
    ("chunk_size", Sizes),
    ("chunk_overlap", Overlaps),
    ("chunking_strategy", Strategies),
    ("embedding_model", EmbeddingModels),
    ("normalize_embeddings", [VBool(true), VBool(false)]),
    ("top_k", TopKs),
    ("bm25_weight", Weights),
    ("faiss_weight", Weights),
    ("prompt_template", TemplateOptions)]

  /** The parameters drawn afresh even when the base configuration sets
      them. */
  const Redrawn: set<string> := {"chunk_size", "chunk_overlap", "top_k", "bm25_weight", "faiss_weight", "prompt_template"}

  /** Whether parameter `p` is drawn for base configuration `base`. */
  predicate IsDrawn(base: Config, p: string)
  {
    p !in base || p in Redrawn
  }

  /** The draws of one configuration: for the parameters among the first
      `upTo` of the search space, exactly the drawn ones, each from its own
      options, and nothing else. */
  ghost predicate PicksUpTo(base: Config, picks: Config, upTo: nat)
    requires upTo <= |SearchSpace|
  {
    (forall i :: 0 <= i < upTo ==>
      (SearchSpace[i].0 in picks <==> IsDrawn(base, SearchSpace[i].0))
      && (SearchSpace[i].0 in picks ==> picks[SearchSpace[i].0] in SearchSpace[i].1))
    && forall p :: p in picks ==> exists i :: 0 <= i < upTo && SearchSpace[i].0 == p
  }

  ghost predicate Picks(base: Config, picks: Config)
  {
    PicksUpTo(base, picks, |SearchSpace|)
  }

  /** The parameters of the search space are distinct. */
  lemma SearchSpaceDistinct()
    ensures forall i, j :: 0 <= i < j < |SearchSpace| ==> SearchSpace[i].0 != SearchSpace[j].0
  {
    var s := SearchSpace;
    assert s[0].0[0] == 'r' && s[4].0[0] == 'e' && s[5].0[0] == 'n' && s[6].0[0] == 't';
    assert s[7].0[0] == 'b' && s[8].0[0] == 'f' && s[9].0[0] == 'p';
    assert s[1].0[6] == 's' && s[2].0[6] == 'o' && s[3].0[5] == 'i' && s[1].0[5] == '_' && s[2].0[5] == '_';
  }

  // ---------------------------------------------------------------------
  // The repairs

  /** What the repairs read: integer sizes and, for a hybrid retriever,
      numeric weights that do not cancel. */
  predicate Repairable(c: Config)
  {
    "chunk_size" in c && c["chunk_size"].VInt? && "chunk_overlap" in c && c["chunk_overlap"].VInt?
    && "retriever_type" in c
    && (c["retriever_type"] == VStr("hybrid") ==>
          GetOr(c, "bm25_weight", VReal(0.5)).VReal? && GetOr(c, "faiss_weight", VReal(0.5)).VReal?
          && GetOr(c, "bm25_weight", VReal(0.5)).r + GetOr(c, "faiss_weight", VReal(0.5)).r != 0.0)
  }

  /** The overlap repair: an overlap not below the size becomes
      `max(0, chunk_size - 10)`, which is below any size of at least 1. */
  function RepairOverlap(c: Config): (r: Config)
    requires Repairable(c)
    ensures Repairable(r) && r.Keys == c.Keys
    ensures forall k :: k in c && k != "chunk_overlap" ==> r[k] == c[k]
    ensures c["chunk_size"].i >= 1 ==> r["chunk_overlap"].i < r["chunk_size"].i
    ensures c["chunk_overlap"].i >= 0 ==> r["chunk_overlap"].i >= 0
    ensures c["chunk_overlap"].i < c["chunk_size"].i ==> r == c
  {
    if c["chunk_overlap"].i >= c["chunk_size"].i then c["chunk_overlap" := VInt(Max(0, c["chunk_size"].i - 10))]
    else c
  }

  lemma DivideBySum(b: real, f: real)
    requires b + f != 0.0
    ensures b / (b + f) + f / (b + f) == 1.0
  {
    assert b / (b + f) + f / (b + f) == (b + f) / (b + f);
  }

  /** The weight repair: a hybrid retriever's weights are divided by their
      sum, so they sum to 1; other retrievers keep their weights. */
  function RepairWeights(c: Config): (r: Config)
    requires Repairable(c)
    ensures "retriever_type" in r && r["retriever_type"] == c["retriever_type"]
    ensures forall k :: k in c && k != "bm25_weight" && k != "faiss_weight" ==> k in r && r[k] == c[k]
    ensures c["retriever_type"] != VStr("hybrid") ==> r == c
    ensures c["retriever_type"] == VStr("hybrid") ==>
      r.Keys == c.Keys + {"bm25_weight", "faiss_weight"}
      && r["bm25_weight"].VReal? && r["faiss_weight"].VReal?
      && r["bm25_weight"].r + r["faiss_weight"].r == 1.0
  {
    if c["retriever_type"] == VStr("hybrid") then
      var b, f := GetOr(c, "bm25_weight", VReal(0.5)).r, GetOr(c, "faiss_weight", VReal(0.5)).r;
      var total := b + f;
      DivideBySum(b, f);
      c["bm25_weight" := VReal(b / total)]["faiss_weight" := VReal(f / total)]
    else c
  }

  /** The template repair: a template that is no type's value is replaced by
      `pick`, the value `random.choice` returns; a valid one stays. */
  function RepairTemplate(c: Config, pick: string): (r: Config)
    ensures r.Keys == c.Keys
    ensures forall k :: k in c && k != "prompt_template" ==> r[k] == c[k]
    ensures "prompt_template" in c && pick in TemplateValues ==> r["prompt_template"] in TemplateOptions
    ensures "prompt_template" in c && c["prompt_template"] in TemplateOptions ==> r == c
  {
    TemplateOptionsSpec();
    if "prompt_template" in c && c["prompt_template"] !in TemplateOptions then c["prompt_template" := VStr(pick)]
    else c
  }

  /** The template options are the template types' values. */
  lemma TemplateOptionsSpec()
    ensures |TemplateOptions| == |TemplateValues|
    ensures forall i :: 0 <= i < |TemplateValues| ==> TemplateOptions[i] == VStr(TemplateValues[i])
    ensures forall v: Value :: v in TemplateOptions <==> v.VStr? && v.s in TemplateValues
  {
    forall v: Value | v.VStr? && v.s in TemplateValues ensures v in TemplateOptions {
      var i :| 0 <= i < |TemplateValues| && TemplateValues[i] == v.s;
      assert TemplateOptions[i] == v;
    }
  }

  /** The three repairs in the source's order. */
  function Repair(c: Config, pick: string): Config
    requires Repairable(c)
  {
    RepairTemplate(RepairWeights(RepairOverlap(c)), pick)
  }

  // ---------------------------------------------------------------------
  // Drawing configurations

  /** Every parameter has options to draw from. */
  lemma OptionsNonEmpty()
    ensures forall i :: 0 <= i < |SearchSpace| ==> SearchSpace[i].1 != []
  {
    var s := SearchSpace;
    assert s[4].1 == EmbeddingModels && s[7].1 == Weights && s[8].1 == Weights && s[9].1 == TemplateOptions;
  }

  /** The parameters drawn for a configuration; every other parameter keeps
      the base configuration's value. */
  lemma PicksSpec(base: Config, picks: Config, i: nat)
    requires Picks(base, picks) && i < |SearchSpace|
    ensures SearchSpace[i].0 in base + picks
    ensures IsDrawn(base, SearchSpace[i].0) ==> (base + picks)[SearchSpace[i].0] in SearchSpace[i].1
    ensures !IsDrawn(base, SearchSpace[i].0) ==> (base + picks)[SearchSpace[i].0] == base[SearchSpace[i].0]
  {
  }

  /** What every drawn configuration holds: the six redrawn parameters
      from their options, and a retriever type. */
  ghost predicate Shaped(d: Config)
  {
    "chunk_size" in d && d["chunk_size"] in Sizes && "chunk_overlap" in d && d["chunk_overlap"] in Overlaps
    && "top_k" in d && d["top_k"] in TopKs && "bm25_weight" in d && d["bm25_weight"] in Weights
    && "faiss_weight" in d && d["faiss_weight"] in Weights
    && "prompt_template" in d && d["prompt_template"] in TemplateOptions && "retriever_type" in d
  }

  lemma PicksShaped(base: Config, picks: Config)
    requires Picks(base, picks)
    ensures Shaped(base + picks)
  {
    var s := SearchSpace;
    assert s[1] == ("chunk_size", Sizes) && s[2] == ("chunk_overlap", Overlaps) && s[6] == ("top_k", TopKs);
    assert s[7] == ("bm25_weight", Weights) && s[8] == ("faiss_weight", Weights);
    assert s[9] == ("prompt_template", TemplateOptions);
    PicksSpec(base, picks, 0);
    PicksSpec(base, picks, 1);
    PicksSpec(base, picks, 2);
    PicksSpec(base, picks, 6);
    PicksSpec(base, picks, 7);
    PicksSpec(base, picks, 8);
    PicksSpec(base, picks, 9);
  }

  /** A drawn configuration can be repaired. */
  lemma ShapedRepairable(d: Config)
    requires Shaped(d)
    ensures Repairable(d)
  {
  }

  lemma MergeUpdate(m: Config, n: Config, k: string, v: Value)
    ensures (m + n)[k := v] == m + n[k := v]
  {
  }

  /** One more parameter of the search space: drawn from its options when
      it must be, otherwise left out of the picks. */
  lemma PicksStep(base: Config, picks: Config, j: nat, v: Option<Value>)
    requires j < |SearchSpace| && PicksUpTo(base, picks, j)
    requires v.Some? <==> IsDrawn(base, SearchSpace[j].0)
    requires v.Some? ==> v.value in SearchSpace[j].1
    ensures PicksUpTo(base, if v.Some? then picks[SearchSpace[j].0 := v.value] else picks, j + 1)
  {
    PicksStepDrawn(base, picks, j, v);
    PicksStepKeys(picks, j, v);
  }

  lemma PicksStepDrawn(base: Config, picks: Config, j: nat, v: Option<Value>)
    requires j < |SearchSpace| && PicksUpTo(base, picks, j)
    requires v.Some? <==> IsDrawn(base, SearchSpace[j].0)
    requires v.Some? ==> v.value in SearchSpace[j].1
    ensures var next := if v.Some? then picks[SearchSpace[j].0 := v.value] else picks;
      forall i :: 0 <= i < j + 1 ==>
        (SearchSpace[i].0 in next <==> IsDrawn(base, SearchSpace[i].0))
        && (SearchSpace[i].0 in next ==> next[SearchSpace[i].0] in SearchSpace[i].1)
  {
    SearchSpaceDistinct();
  }

  lemma PicksStepKeys(picks: Config, j: nat, v: Option<Value>)
    requires j < |SearchSpace|
    requires forall p :: p in picks ==> exists i :: 0 <= i < j && SearchSpace[i].0 == p
    ensures var next := if v.Some? then picks[SearchSpace[j].0 := v.value] else picks;
      forall p :: p in next ==> exists i :: 0 <= i < j + 1 && SearchSpace[i].0 == p
  {
    var next := if v.Some? then picks[SearchSpace[j].0 := v.value] else picks;
    forall q | q in next ensures exists i :: 0 <= i < j + 1 && SearchSpace[i].0 == q {
      if q != SearchSpace[j].0 {
        var i :| 0 <= i < j && SearchSpace[i].0 == q;
      }
    }
  }

  /** One parameter of the search space, drawn from its options when it is
      missing from the base configuration or always redrawn. */
  method DrawParam(base: Config, config: Config, ghost picks: Config, j: nat) returns (next: Config, ghost nextPicks: Config)
    requires j < |SearchSpace| && PicksUpTo(base, picks, j) && config == base + picks
    ensures PicksUpTo(base, nextPicks, j + 1) && next == base + nextPicks
  {
    OptionsNonEmpty();
    var param, values := SearchSpace[j].0, SearchSpace[j].1;
    if param !in config || param in Redrawn {
      assert values[0] in values;
      var v :| v in values;
      PicksStep(base, picks, j, Some(v));
      MergeUpdate(base, picks, param, v);
      next, nextPicks := config[param := v], picks[param := v];
    } else {
      PicksStep(base, picks, j, None);
      next, nextPicks := config, picks;
    }
  }

  /** The base configuration with each parameter drawn where it must be. */
  method Draw(base: Config) returns (config: Config, ghost picks: Config)
    ensures Picks(base, picks) && config == base + picks
  {
    config := base;
    picks := map[];
    for j := 0 to |SearchSpace|
      invariant PicksUpTo(base, picks, j)
      invariant config == base + picks
    {
      config, picks := DrawParam(base, config, picks, j);
    }
  }

  /** The three repairs, applied in place. */
  method RepairDrawn(drawn: Config) returns (config: Config, ghost pick: string)
    requires Repairable(drawn)
    ensures pick in TemplateValues && config == Repair(drawn, pick)
  {
    config := drawn;
    if config["chunk_overlap"].i >= config["chunk_size"].i {
      config := config["chunk_overlap" := VInt(Max(0, config["chunk_size"].i - 10))];
    }
    assert config == RepairOverlap(drawn);
    ghost var fixed := config;
    if config["retriever_type"] == VStr("hybrid") {
      var b, f := GetOr(config, "bm25_weight", VReal(0.5)).r, GetOr(config, "faiss_weight", VReal(0.5)).r;
      var total := b + f;
      config := config["bm25_weight" := VReal(b / total)];
      config := config["faiss_weight" := VReal(f / total)];
    }
    assert config == RepairWeights(fixed);
    ghost var weighted := config;
    pick := "simple";
    if "prompt_template" in config && config["prompt_template"] !in TemplateOptions {
      assert TemplateValues[0] in TemplateValues;
      var t :| t in TemplateValues;
      pick := t;
      config := config["prompt_template" := VStr(t)];
    }
    assert config == RepairTemplate(weighted, pick);
  }

  /** One configuration: a copy of the base, drawn, then repaired. */
  method GenerateOne(base: Config) returns (config: Config, ghost picks: Config, ghost pick: string)
    ensures Picks(base, picks) && pick in TemplateValues
    ensures Repairable(base + picks) && config == Repair(base + picks, pick)
  {
    var drawn;
    drawn, picks := Draw(base);
    PicksShaped(base, picks);
    ShapedRepairable(drawn);
    config, pick := RepairDrawn(drawn);
  }

  /** A generated configuration holds every parameter of the search space
      and every key of the base, and nothing else; a parameter that is not
      drawn keeps the base value. */
  lemma GeneratedKeys(base: Config, picks: Config, pick: string)
    requires Picks(base, picks) && Repairable(base + picks)
    ensures forall i :: 0 <= i < |SearchSpace| ==> SearchSpace[i].0 in Repair(base + picks, pick)
    ensures forall k :: k in Repair(base + picks, pick) <==> k in base || k in picks
    ensures forall k :: k in base && !IsDrawn(base, k) ==> Repair(base + picks, pick)[k] == base[k]
  {
    var c := base + picks;
    var r := Repair(c, pick);
    forall i | 0 <= i < |SearchSpace| ensures SearchSpace[i].0 in r {
      PicksSpec(base, picks, i);
    }
    PicksSpec(base, picks, 7);
    PicksSpec(base, picks, 8);
    assert forall k :: k in r <==> k in c;
    forall k | k in base && !IsDrawn(base, k) ensures r[k] == base[k] {
      assert k !in picks;
    }
  }

  /** The sizes and the number of results are drawn from their options and
      never repaired: the drawn overlap is always below the drawn size. */
  lemma GeneratedSizes(d: Config, pick: string)
    requires Shaped(d)
    ensures Repairable(d) && RepairOverlap(d) == d
    ensures Repair(d, pick)["chunk_size"] in Sizes && Repair(d, pick)["chunk_overlap"] in Overlaps
    ensures 0 <= Repair(d, pick)["chunk_overlap"].i < Repair(d, pick)["chunk_size"].i
    ensures Repair(d, pick)["top_k"] in TopKs
  {
  }

  /** The template is always one of the template types' values, the drawn
      one. */
  lemma GeneratedTemplate(d: Config, pick: string)
    requires Shaped(d)
    ensures Repairable(d)
    ensures Repair(d, pick)["prompt_template"] in TemplateOptions
    ensures Repair(d, pick)["prompt_template"] == d["prompt_template"]
  {
  }

  /** A hybrid configuration's weights are positive and sum to 1; any other
      keeps the drawn weights. */
  lemma GeneratedWeights(d: Config, pick: string)
    requires Shaped(d)
    ensures Repairable(d)
    ensures Repair(d, pick)["retriever_type"] == VStr("hybrid") ==>
      Repair(d, pick)["bm25_weight"].r + Repair(d, pick)["faiss_weight"].r == 1.0
      && Repair(d, pick)["bm25_weight"].r > 0.0 && Repair(d, pick)["faiss_weight"].r > 0.0
    ensures Repair(d, pick)["retriever_type"] != VStr("hybrid") ==>
      Repair(d, pick)["bm25_weight"] in Weights && Repair(d, pick)["faiss_weight"] in Weights
  {
    GeneratedSizes(d, pick);
    var w := RepairWeights(d);
    assert "bm25_weight" in w && "faiss_weight" in w && "prompt_template" != "bm25_weight";
    if d["retriever_type"] == VStr("hybrid") {
      HybridWeightsPositive(d);
    }
  }

  /** Drawn weights are positive, so their shares of their sum are too. */
  lemma HybridWeightsPositive(c: Config)
    requires Repairable(c) && c["retriever_type"] == VStr("hybrid")
    requires "bm25_weight" in c && c["bm25_weight"] in Weights && "faiss_weight" in c && c["faiss_weight"] in Weights
    ensures RepairWeights(c)["bm25_weight"].r > 0.0 && RepairWeights(c)["faiss_weight"].r > 0.0
  {
    var b, f := c["bm25_weight"].r, c["faiss_weight"].r;
    assert b > 0.0 && f > 0.0;
    PositiveShare(b, f);
    PositiveShare(f, b);
  }

  lemma PositiveShare(x: real, y: real)
    requires x > 0.0 && y > 0.0
    ensures x / (x + y) > 0.0
  {
  }

  /** `_generate_configurations`: `numConfigs` configurations (none for a
      count below 1), each drawn and repaired afresh from the base. */
  method GenerateConfigurations(base: Config, numConfigs: int)
    returns (configs: seq<Config>, ghost picks: seq<Config>, ghost templatePicks: seq<string>)
    ensures |configs| == Max(0, numConfigs) && |picks| == |configs| && |templatePicks| == |configs|
    ensures forall i :: 0 <= i < |configs| ==>
      Picks(base, picks[i]) && templatePicks[i] in TemplateValues
      && Repairable(base + picks[i]) && configs[i] == Repair(base + picks[i], templatePicks[i])
  {
    configs, picks, templatePicks := [], [], [];
    var n := 0;
    while n < numConfigs
      invariant n == |configs| == |picks| == |templatePicks|
      invariant numConfigs >= 0 ==> n <= numConfigs
      invariant numConfigs < 0 ==> n == 0
      invariant forall i :: 0 <= i < n ==>
        Picks(base, picks[i]) && templatePicks[i] in TemplateValues
        && Repairable(base + picks[i]) && configs[i] == Repair(base + picks[i], templatePicks[i])
    {
      var c, p, t := GenerateOne(base);
      configs, picks, templatePicks := configs + [c], picks + [p], templatePicks + [t];
      n := n + 1;
    }
  }

  // ---------------------------------------------------------------------
  // Building the parts of a configuration

  /** What building or evaluating a configuration can raise. */
  datatype EvalError =
    | UnsupportedRetriever(retrieverType: Value)
    | AbstractRetriever(className: string)
    | UnknownStrategy(strategy: Value)
    | NotAnInteger(key: string)
    | InvalidConfig(errors: seq<ConfigError>)
    | Unhashable(typeName: string)
    | MissingKey(key: string)

  /** The retriever `_create_retriever` builds, with the arguments it passes. */
  datatype RetrieverChoice =
    | FaissChoice(modelName: Value, normalize: Value)
    | Bm25Choice
    | HybridChoice(bm25Weight: Value, faissWeight: Value, modelName: Value, normalize: Value)

  function RetrieverType(c: Config): Value
  {
    GetOr(c, "retriever_type", VStr("faiss"))
  }

  /** `_create_retriever` with retrievers that can be instantiated: the
      retriever named by the configuration ("faiss" when unset), built with
      the configuration's settings or the defaults; any other name is
      refused. */
  function CreateRetriever(c: Config): (r: Result<RetrieverChoice, EvalError>)
    ensures r.Success? <==> RetrieverType(c) in RetrieverTypes
    ensures r.Failure? ==> r.error == UnsupportedRetriever(RetrieverType(c))
    ensures r.Success? ==>
      (r.value.FaissChoice? <==> RetrieverType(c) == VStr("faiss")) && (r.value.HybridChoice? <==> RetrieverType(c) == VStr("hybrid"))
    ensures r.Success? && !r.value.Bm25Choice? ==>
      r.value.modelName == GetOr(c, "embedding_model", VStr(DefaultEmbeddingModel))
      && r.value.normalize == GetOr(c, "normalize_embeddings", VBool(true))
    ensures r.Success? && r.value.HybridChoice? ==>
      r.value.bm25Weight == GetOr(c, "bm25_weight", VReal(0.5))
      && r.value.faissWeight == GetOr(c, "faiss_weight", VReal(0.5))
  {
    var t := RetrieverType(c);
    var model := GetOr(c, "embedding_model", VStr(DefaultEmbeddingModel));
    var normalize := GetOr(c, "normalize_embeddings", VBool(true));
    if t == VStr("faiss") then Success(FaissChoice(model, normalize))
    else if t == VStr("bm25") then Success(Bm25Choice)
    else if t == VStr("hybrid") then
      Success(HybridChoice(GetOr(c, "bm25_weight", VReal(0.5)), GetOr(c, "faiss_weight", VReal(0.5)), model, normalize))
    else Failure(UnsupportedRetriever(t))
  }

  /** `_create_retriever` as written: BM25Retriever and HybridRetriever do
      not implement the abstract property `name` of BaseRetriever, so
      instantiating either raises TypeError. */
  function CreateRetrieverAsWritten(c: Config): (r: Result<RetrieverChoice, EvalError>)
    ensures r.Success? <==> RetrieverType(c) == VStr("faiss")
    ensures r.Success? ==> r == CreateRetriever(c)
    ensures r.Failure? ==> r.error.AbstractRetriever? || r == CreateRetriever(c)
  {
    var t := RetrieverType(c);
    if t == VStr("bm25") then Failure(AbstractRetriever("BM25Retriever"))
    else if t == VStr("hybrid") then Failure(AbstractRetriever("HybridRetriever"))
    else CreateRetriever(c)
  }

  /** As written, every "bm25" or "hybrid" configuration fails to build its
      retriever, though the dispatch accepts it. */
  lemma AbstractRetrieverFinding(c: Config)
    requires RetrieverType(c) == VStr("bm25") || RetrieverType(c) == VStr("hybrid")
    ensures CreateRetrieverAsWritten(c).Failure? && CreateRetrieverAsWritten(c).error.AbstractRetriever?
    ensures CreateRetriever(c).Success?
  {
  }

  /** A drawn retriever type always builds. */
  lemma GeneratedRetriever(d: Config)
    requires "retriever_type" in d && d["retriever_type"] in RetrieverTypes
    ensures CreateRetriever(d).Success?
    ensures CreateRetrieverAsWritten(d).Success? <==> d["retriever_type"] == VStr("faiss")
  {
  }

  /** `_create_processor_config`: the configuration's chunk size, overlap
      and strategy (256, 50 and "fixed" when unset); the strategy is parsed
      first, then the fields are validated. The integer fields accept a
      boolean as 1 or 0, as a lax integer field does. */
  function CreateProcessorConfig(c: Config): (r: Result<ProcessorConfig, EvalError>)
    ensures var size, overlap, strategy :=
      GetOr(c, "chunk_size", VInt(256)), GetOr(c, "chunk_overlap", VInt(50)), GetOr(c, "chunking_strategy", VStr("fixed"));
      (r.Success? <==> strategy in Strategies && AsInt(size).Some? && AsInt(overlap).Some?
                       && 1 <= AsInt(size).value <= 4096 && AsInt(overlap).value >= 0)
      && (r.Success? ==> r.value.Valid() && r.value.chunkSize == AsInt(size).value
                         && r.value.chunkOverlap == AsInt(overlap).value
                         && r.value.strategy.Value() == strategy.s)
      && (strategy in Strategies && AsInt(size).None? ==> r == Failure(NotAnInteger("chunk_size")))
      && (strategy !in Strategies ==> r == Failure(UnknownStrategy(strategy)))
  {
    var size := GetOr(c, "chunk_size", VInt(256));
    var overlap := GetOr(c, "chunk_overlap", VInt(50));
    var strategy := GetOr(c, "chunking_strategy", VStr("fixed"));
    ChunkingStrategyValues(if strategy.VStr? then strategy.s else []);
    if !(strategy.VStr? && ParseChunkingStrategy(strategy.s).Some?) then Failure(UnknownStrategy(strategy))
    else if AsInt(size).None? then Failure(NotAnInteger("chunk_size"))
    else if AsInt(overlap).None? then Failure(NotAnInteger("chunk_overlap"))
    else
      match MakeProcessorConfig(AsInt(size).value, AsInt(overlap).value, ParseChunkingStrategy(strategy.s).value)
      case Success(pc) => Success(pc)
      case Failure(errs) => Failure(InvalidConfig(errs))
  }

  /** An empty configuration gives the default chunker configuration. */
  lemma ProcessorConfigDefaults()
    ensures CreateProcessorConfig(map[]) == Success(DefaultProcessorConfig())
  {
    ChunkingStrategyValues("fixed");
  }

  /** A drawn configuration with a known strategy gives a chunker
      configuration whose overlap is below its size, which the fixed-size
      chunker needs. */
  lemma GeneratedProcessorConfig(d: Config, pick: string)
    requires Shaped(d) && GetOr(d, "chunking_strategy", VStr("fixed")) in Strategies
    ensures Repairable(d)
    ensures CreateProcessorConfig(Repair(d, pick)).Success?
    ensures var pc := CreateProcessorConfig(Repair(d, pick)).value;
      MakeCheckedProcessorConfig(pc.chunkSize, pc.chunkOverlap, pc.strategy).Success?
  {
    GeneratedSizes(d, pick);
    var r := Repair(d, pick);
    assert GetOr(r, "chunking_strategy", VStr("fixed")) == GetOr(d, "chunking_strategy", VStr("fixed"));
  }

  /** The template step of `_evaluate_configuration`: the configured
      template ("simple" when unset) is looked up in a fresh store; a key the
      store does not hold falls back to "simple"; either way the template's
      name is written back into the configuration. A list or dictionary is
      no key at all, and its TypeError is not caught. */
  function SelectTemplate(c: Config): (r: Result<Config, EvalError>)
    ensures r.Failure? <==> GetOr(c, "prompt_template", VStr("simple")).VList? || GetOr(c, "prompt_template", VStr("simple")).VDict?
    ensures r.Success? ==> r.value.Keys == c.Keys + {"prompt_template"}
    ensures r.Success? ==> forall k :: k in c && k != "prompt_template" ==> r.value[k] == c[k]
    ensures var key := GetOr(c, "prompt_template", VStr("simple"));
      r.Success? ==> r.value["prompt_template"] == if key.VStr? && key.s in TemplateValues then key else VStr("simple")
  {
    var key := GetOr(c, "prompt_template", VStr("simple"));
    if key.VList? then Failure(Unhashable("list"))
    else if key.VDict? then Failure(Unhashable("dict"))
    else if key.VStr? && key.s in TemplateValues then Success(c["prompt_template" := key])
    else Success(c["prompt_template" := VStr("simple")])
  }

  /** The stored template names a default template of the store, whose
      name it is. */
  lemma SelectTemplateSpec(c: Config)
    requires SelectTemplate(c).Success?
    ensures var v := SelectTemplate(c).value["prompt_template"];
      v.VStr? && v.s in DefaultTemplates() && DefaultTemplates()[v.s].name == v.s
  {
    DefaultTemplatesSpec();
    assert TemplateValues[0] == "simple";
  }

  // ---------------------------------------------------------------------
  // Retrieval evaluation

  /** A test query: its text, its relevant documents and, optionally, a
      reference answer. */
  datatype Query = Query(text: string, relevant: seq<Document>, reference: Option<string>)

  /** One query's metrics entry. */
  datatype QueryMetrics = QueryMetrics(query: string, scores: Scores, mrr: real)
  {
    function Dump(): map<string, Value>
    {
      scores.Dict()["query" := VStr(query)]["mrr" := VReal(mrr)]
    }
  }

  /** A document as the chunk the metrics compare: its id as chunk and
      document id, index 0, the fixed strategy. */
  function AsChunk(d: Document): DocumentChunk
  {
    DocumentChunk(d.id, d.id, d.content, d.metadata, 0, Fixed)
  }

  function HitChunks(hs: seq<Hit>): (cs: seq<DocumentChunk>)
    ensures |cs| == |hs| && forall i :: 0 <= i < |hs| ==> cs[i].id == hs[i].document.id
  {
    if hs == [] then [] else [AsChunk(hs[0].document)] + HitChunks(hs[1..])
  }

  function DocChunks(ds: seq<Document>): (cs: seq<DocumentChunk>)
    ensures |cs| == |ds| && forall i :: 0 <= i < |ds| ==> cs[i].id == ds[i].id
  {
    if ds == [] then [] else [AsChunk(ds[0])] + DocChunks(ds[1..])
  }

  /** The entry of one query: precision, recall and F1 at `topK`, and MRR,
      of the retrieved documents against the relevant ones, all in [0, 1]. */
  function QueryEntry(q: Query, hits: seq<Hit>, topK: int): (m: QueryMetrics)
    ensures m.query == q.text && m.scores.InUnit() && 0.0 <= m.mrr <= 1.0
  {
    var retrieved, relevant := HitChunks(hits), DocChunks(q.relevant);
    PrecisionRecallSpec(retrieved, relevant, Some(topK));
    MrrSpec(retrieved, relevant);
    QueryMetrics(q.text, PrecisionRecall(retrieved, relevant, Some(topK)), Mrr(retrieved, relevant))
  }

  /** The metrics averaged over the queries, in this order. */
  const MetricNames: seq<string> := ["precision", "recall", "f1", "mrr"]

  function Metric(m: QueryMetrics, name: string): real
  {
    if name == "precision" then m.scores.precision
    else if name == "recall" then m.scores.recall
    else if name == "f1" then m.scores.f1
    else m.mrr
  }

  /** `[m[metric] for m in metrics if metric in m]`: every entry holds every
      metric. */
  function MetricValues(ms: seq<QueryMetrics>, name: string): (vs: seq<real>)
    ensures |vs| == |ms| && forall i :: 0 <= i < |ms| ==> vs[i] == Metric(ms[i], name)
  {
    seq(|ms|, i requires 0 <= i < |ms| => Metric(ms[i], name))
  }

  /** The means of the first `j` metrics, each under `mean_<metric>`, when
      there is at least one entry. */
  function MeansUpTo(ms: seq<QueryMetrics>, j: nat): map<string, real>
    requires j <= |MetricNames|
  {
    if j == 0 then map[]
    else if ms == [] then MeansUpTo(ms, j - 1)
    else MeansUpTo(ms, j - 1)[MeanKey(MetricNames[j - 1]) := Mean(MetricValues(ms, MetricNames[j - 1]))]
  }

  function MeanMetrics(ms: seq<QueryMetrics>): map<string, real>
  {
    MeansUpTo(ms, |MetricNames|)
  }

  ghost predicate UnitEntries(ms: seq<QueryMetrics>)
  {
    forall i :: 0 <= i < |ms| ==> ms[i].scores.InUnit() && 0.0 <= ms[i].mrr <= 1.0
  }

  ghost predicate UnitValues(m: map<string, real>)
  {
    forall k :: k in m ==> 0.0 <= m[k] <= 1.0
  }

  /** The mean of each metric lies in [0, 1] when every entry does. */
  lemma MetricMeanBounds(ms: seq<QueryMetrics>, name: string)
    requires UnitEntries(ms) && ms != []
    ensures 0.0 <= Mean(MetricValues(ms, name)) <= 1.0
  {
    MeanBounds(MetricValues(ms, name), 0.0, 1.0);
  }

  /** The means hold one `mean_<metric>` entry per metric exactly when there
      are entries, each the mean of that metric over all entries. */
  lemma {:induction false} MeansUpToSpec(ms: seq<QueryMetrics>, j: nat)
    requires j <= |MetricNames|
    ensures forall k :: k in MeansUpTo(ms, j) <==> ms != [] && exists i :: 0 <= i < j && k == MeanKey(MetricNames[i])
    ensures forall i :: 0 <= i < j && ms != [] ==> MeansUpTo(ms, j)[MeanKey(MetricNames[i])] == Mean(MetricValues(ms, MetricNames[i]))
  {
    if j > 0 {
      MeansUpToSpec(ms, j - 1);
      MeanKeyInjective();
      MetricNamesDistinct();
    }
  }

  lemma MetricNamesDistinct()
    ensures forall i, j :: 0 <= i < j < |MetricNames| ==> MetricNames[i] != MetricNames[j]
  {
    assert MetricNames[0][0] == 'p' && MetricNames[1][0] == 'r' && MetricNames[2][0] == 'f' && MetricNames[3][0] == 'm';
  }

  /** Each mean lies in [0, 1] when every entry does. */
  lemma {:induction false} MeansUpToBounds(ms: seq<QueryMetrics>, j: nat)
    requires j <= |MetricNames| && UnitEntries(ms)
    ensures UnitValues(MeansUpTo(ms, j))
  {
    if j > 0 {
      MeansUpToBounds(ms, j - 1);
      if ms != [] {
        MetricMeanBounds(ms, MetricNames[j - 1]);
      }
    }
  }

  /** The per-query loop of `_evaluate_retrieval`. */
  method QueryEntries(queries: seq<Query>, hits: seq<seq<Hit>>, topK: int) returns (metrics: seq<QueryMetrics>)
    requires |hits| == |queries|
    ensures |metrics| == |queries|
    ensures forall i :: 0 <= i < |queries| ==> metrics[i] == QueryEntry(queries[i], hits[i], topK)
  {
    metrics := [];
    for i := 0 to |queries|
      invariant |metrics| == i
      invariant forall j :: 0 <= j < i ==> metrics[j] == QueryEntry(queries[j], hits[j], topK)
    {
      var e := QueryEntry(queries[i], hits[i], topK);
      EntriesSnoc(queries, hits, topK, i, metrics, e);
      metrics := metrics + [e];
    }
  }

  /** One more iteration of the per-query loop. */
  lemma EntriesSnoc(queries: seq<Query>, hits: seq<seq<Hit>>, topK: int, i: nat, metrics: seq<QueryMetrics>, e: QueryMetrics)
    requires |hits| == |queries| && i < |queries| && |metrics| == i
    requires forall j :: 0 <= j < i ==> metrics[j] == QueryEntry(queries[j], hits[j], topK)
    requires e == QueryEntry(queries[i], hits[i], topK)
    ensures forall j :: 0 <= j <= i ==> (metrics + [e])[j] == QueryEntry(queries[j], hits[j], topK)
  {
    forall j | 0 <= j <= i ensures (metrics + [e])[j] == QueryEntry(queries[j], hits[j], topK) {
      if j < i {
        assert (metrics + [e])[j] == metrics[j];
      }
    }
  }

  /** The loop over the four metrics of `_evaluate_retrieval`. */
  method MeansOf(metrics: seq<QueryMetrics>) returns (means: map<string, real>)
    ensures means == MeanMetrics(metrics)
  {
    means := map[];
    for j := 0 to |MetricNames|
      invariant means == MeansUpTo(metrics, j)
    {
      var name := MetricNames[j];
      var values := MetricValues(metrics, name);
      if values != [] {
        means := means[MeanKey(name) := Mean(values)];
      }
    }
  }

  /** `_evaluate_retrieval`: one entry per query, in order, and the means of
      the four metrics. `hits[i]` is what the retriever returns for query
      `i`. */
  method EvaluateRetrieval(queries: seq<Query>, hits: seq<seq<Hit>>, topK: int)
    returns (metrics: seq<QueryMetrics>, means: map<string, real>)
    requires |hits| == |queries|
    ensures |metrics| == |queries|
    ensures forall i :: 0 <= i < |queries| ==> metrics[i] == QueryEntry(queries[i], hits[i], topK)
    ensures means == MeanMetrics(metrics)
  {
    metrics := QueryEntries(queries, hits, topK);
    means := MeansOf(metrics);
  }

  // ---------------------------------------------------------------------
  // The score

  function MetricOr0(m: map<string, real>, key: string): real
  {
    if key in m then m[key] else 0.0
  }

  /** 0.4 mean precision + 0.4 mean recall + 0.2 mean MRR, a missing mean
      counting as 0. */
  function RetrievalScore(means: map<string, real>): (s: real)
    ensures UnitValues(means) ==> 0.0 <= s <= 1.0
    ensures means == map[] ==> s == 0.0
  {
    0.4 * MetricOr0(means, "mean_precision") + 0.4 * MetricOr0(means, "mean_recall") + 0.2 * MetricOr0(means, "mean_mrr")
  }

  /** 0.5 ROUGE-1 F1 + 0.3 ROUGE-2 F1 + 0.2 BLEU, means over the queries. */
  function AnswerScore(am: map<string, real>): (s: real)
    ensures UnitValues(am) ==> 0.0 <= s <= 1.0
  {
    0.5 * MetricOr0(am, "mean_rouge_1_f1") + 0.3 * MetricOr0(am, "mean_rouge_2_f1") + 0.2 * MetricOr0(am, "mean_bleu")
  }

  /** The overall score: 0.6 retrieval + 0.4 answer quality when there are
      answer metrics, the retrieval score alone otherwise. */
  function Score(means: map<string, real>, am: map<string, real>): (s: real)
    ensures UnitValues(means) && UnitValues(am) ==> 0.0 <= s <= 1.0
    ensures am == map[] ==> s == RetrievalScore(means)
    ensures am != map[] ==> s == 0.6 * RetrievalScore(means) + 0.4 * AnswerScore(am)
  {
    if am != map[] then 0.6 * RetrievalScore(means) + 0.4 * AnswerScore(am) else RetrievalScore(means)
  }

  /** Perfect retrieval scores 1 on its own, and with perfect answers. */
  lemma ScorePerfect(means: map<string, real>, am: map<string, real>)
    requires "mean_precision" in means && "mean_recall" in means && "mean_mrr" in means
    requires means["mean_precision"] == 1.0 && means["mean_recall"] == 1.0 && means["mean_mrr"] == 1.0
    requires am == map[] || ("mean_rouge_1_f1" in am && "mean_rouge_2_f1" in am && "mean_bleu" in am
                             && am["mean_rouge_1_f1"] == 1.0 && am["mean_rouge_2_f1"] == 1.0 && am["mean_bleu"] == 1.0)
    ensures Score(means, am) == 1.0
  {
  }

  // ---------------------------------------------------------------------
  // Answer quality

  /** The answer `_evaluate_answer_quality` scores: a placeholder built
      from the query, in place of a language model's answer. */
  function PlaceholderAnswer(query: string): string
  {
    "Generated answer for: " + query
  }

  /** `calculate_rouge(generated, reference, n)["rouge_<n>"]["f1"]`: the
      F1 score, or the KeyError raised when the flat all-zero dictionary
      comes back, that is when either text has fewer than `n` words. */
  function RougeF1(generated: string, reference: string, n: nat): (r: Result<real, EvalError>)
    ensures r.Success? <==> |Text.Words(Text.Lower(generated))| >= n && |Text.Words(Text.Lower(reference))| >= n
    ensures r.Failure? ==> r.error == MissingKey("rouge_" + NatToString(n))
    ensures r.Success? ==> 0.0 <= r.value <= 1.0
  {
    var key := "rouge_" + NatToString(n);
    var d := Rouge(generated, reference, n);
    RougeKey(generated, reference, n);
    RougeTooShort(generated, reference, n);
    RougeBounds(generated, reference, n);
    if key !in d then Failure(MissingKey(key)) else Success(d[key].entries["f1"].r)
  }

  /** `calculate_bleu(generated, reference)["bleu"]` with the default four
      orders; `combined` stands for the brevity penalty times the geometric
      mean of the precisions. */
  function BleuValue(generated: string, reference: string, combined: real): (b: real)
    ensures Bleu(generated, reference, 4, combined).Success?
    ensures "bleu" in Bleu(generated, reference, 4, combined).value
    ensures Bleu(generated, reference, 4, combined).value["bleu"] == VReal(b)
    ensures b == 0.0 || b == combined
  {
    var ps := Precisions(generated, reference, 4);
    var b := if 0.0 in ps then 0.0 else combined;
    OrderEntriesKeep(map["bleu" := VReal(b)], ps);
    b
  }

  /** The three scores of one answer. */
  datatype AnswerScores = AnswerScores(rouge1: real, rouge2: real, bleu: real)

  /** An answer's ROUGE-1 F1, ROUGE-2 F1 and BLEU against a reference,
      or the KeyError of the first ROUGE lookup that fails: scoring fails
      exactly when one of the texts has fewer than two words, on `rouge_1`
      when one has none. The ROUGE scores are fractions; BLEU is 0 or
      `combined`. */
  function ScoreAnswer(generated: string, reference: string, combined: real): (r: Result<AnswerScores, EvalError>)
    ensures r.Failure? <==> |Text.Words(Text.Lower(generated))| < 2 || |Text.Words(Text.Lower(reference))| < 2
    ensures r.Failure? ==>
      r.error == (if |Text.Words(Text.Lower(generated))| == 0 || |Text.Words(Text.Lower(reference))| == 0
                  then MissingKey("rouge_1") else MissingKey("rouge_2"))
    ensures r.Success? ==> 0.0 <= r.value.rouge1 <= 1.0 && 0.0 <= r.value.rouge2 <= 1.0
    ensures r.Success? ==> r.value.bleu == 0.0 || r.value.bleu == combined
  {
    RougeKeyNames();
    match RougeF1(generated, reference, 1)
    case Failure(e) => Failure(e)
    case Success(r1) =>
      match RougeF1(generated, reference, 2)
      case Failure(e) => Failure(e)
      case Success(r2) => Success(AnswerScores(r1, r2, BleuValue(generated, reference, combined)))
  }

  lemma RougeKeyNames()
    ensures "rouge_" + NatToString(1) == "rouge_1" && "rouge_" + NatToString(2) == "rouge_2"
  {
    assert NatToString(1) == "1" && NatToString(2) == "2";
  }

  /** One query of `_evaluate_answer_quality`: nothing when it has no
      reference answer or an empty one, the placeholder answer's scores
      otherwise, or the error raised. `combined(g, r)` is BLEU's
      `exp`/`log` part for the answer `g` and the reference `r`. */
  function AnswerEntry(q: Query, combined: (string, string) -> real): Result<Option<AnswerScores>, EvalError>
  {
    if q.reference.None? || q.reference.value == [] then Success(None)
    else
      var generated := PlaceholderAnswer(q.text);
      var reference := q.reference.value;
      match ScoreAnswer(generated, reference, combined(generated, reference))
      case Failure(e) => Failure(e)
      case Success(a) => Success(Some(a))
  }

  /** The three lists `_evaluate_answer_quality` appends to. */
  datatype AnswerLists = AnswerLists(rouge1: seq<real>, rouge2: seq<real>, bleu: seq<real>)
  {
    predicate Aligned()
    {
      |rouge1| == |rouge2| == |bleu|
    }

    function Append(e: AnswerScores): AnswerLists
    {
      AnswerLists(rouge1 + [e.rouge1], rouge2 + [e.rouge2], bleu + [e.bleu])
    }
  }

  /** The lists after the queries, or the first error raised. */
  function AnswerListsOf(queries: seq<Query>, combined: (string, string) -> real): (r: Result<AnswerLists, EvalError>)
    ensures r.Success? ==> r.value.Aligned()
  {
    if queries == [] then Success(AnswerLists([], [], []))
    else
      match AnswerListsOf(queries[..|queries| - 1], combined)
      case Failure(e) => Failure(e)
      case Success(ls) =>
        match AnswerEntry(queries[|queries| - 1], combined)
        case Failure(e) => Failure(e)
        case Success(None) => Success(ls)
        case Success(Some(e)) => Success(ls.Append(e))
  }

  /** `mean_<metric>` for a list that is not empty. */
  function MeanInto(m: map<string, real>, metric: string, values: seq<real>): map<string, real>
  {
    if values == [] then m else m[MeanKey(metric) := Mean(values)]
  }

  function AnswerMeans(ls: AnswerLists): map<string, real>
  {
    MeanInto(MeanInto(MeanInto(map[], "rouge_1_f1", ls.rouge1), "rouge_2_f1", ls.rouge2), "bleu", ls.bleu)
  }

  /** `_evaluate_answer_quality`: the means of the three lists, or the
      error raised. */
  function AnswerQuality(queries: seq<Query>, combined: (string, string) -> real): Result<map<string, real>, EvalError>
  {
    match AnswerListsOf(queries, combined)
    case Failure(e) => Failure(e)
    case Success(ls) => Success(AnswerMeans(ls))
  }

  /** The loop of `_evaluate_answer_quality`. */
  method EvaluateAnswerQuality(queries: seq<Query>, combined: (string, string) -> real)
    returns (r: Result<map<string, real>, EvalError>)
    ensures r == AnswerQuality(queries, combined)
  {
    var rouge1, rouge2, bleu := [], [], [];
    for i := 0 to |queries|
      invariant AnswerListsOf(queries[..i], combined) == Success(AnswerLists(rouge1, rouge2, bleu))
    {
      assert queries[..i + 1][..i] == queries[..i];
      match AnswerEntry(queries[i], combined)
      case Failure(e) =>
        FailureSticks(queries, i + 1, combined);
        return Failure(e);
      case Success(None) =>
      case Success(Some(e)) =>
        rouge1, rouge2, bleu := rouge1 + [e.rouge1], rouge2 + [e.rouge2], bleu + [e.bleu];
    }
    assert queries[..|queries|] == queries;
    r := Success(AnswerMeans(AnswerLists(rouge1, rouge2, bleu)));
  }

  /** An error raised at some query is the error of the whole loop. */
  lemma {:induction false} FailureSticks(queries: seq<Query>, j: nat, combined: (string, string) -> real)
    requires j <= |queries| && AnswerListsOf(queries[..j], combined).Failure?
    ensures AnswerListsOf(queries, combined) == AnswerListsOf(queries[..j], combined)
    decreases |queries| - j
  {
    if j < |queries| {
      assert queries[..j + 1][..j] == queries[..j];
      FailureSticks(queries, j + 1, combined);
    } else {
      assert queries[..j] == queries;
    }
  }

  /** A reference answer the placeholder answer can be scored against: an
      empty one is skipped, any other needs two words for ROUGE-2. */
  predicate Scorable(q: Query)
  {
    q.reference.Some? && q.reference.value != [] ==> |Text.Words(Text.Lower(q.reference.value))| >= 2
  }

  /** The placeholder answer has at least two words. */
  lemma PlaceholderWords(query: string)
    ensures |Text.Words(Text.Lower(PlaceholderAnswer(query)))| >= 2
  {
    var answer := PlaceholderAnswer(query);
    assert answer[0] == 'G' && answer[9] == ' ' && answer[10] == 'a';
    var low := Text.Lower(answer);
    assert low[0] == 'g' && low[9] == ' ' && low[10] == 'a';
    TwoWordsAt(low, 9);
  }

  /** A text with a word before and after the space at `k` has two words or
      more. */
  lemma TwoWordsAt(t: string, k: nat)
    requires 0 < k < |t| - 1 && !Text.IsSpace(t[0]) && t[k] == ' ' && !Text.IsSpace(t[k + 1])
    ensures |Text.Words(t)| >= 2
  {
    assert t == t[..k] + " " + t[k + 1..];
    TwoWords(t[..k], t[k + 1..]);
  }

  /** Two texts that are not blank, joined by a space, have two words or more. */
  lemma TwoWords(a: string, b: string)
    requires a != [] && !Text.IsSpace(a[0]) && b != [] && !Text.IsSpace(b[0])
    ensures |Text.Words(a + " " + b)| >= 2
  {
    Text.WordsAppendSep(a, b);
    Text.WordsEmptyIff(a);
    Text.WordsEmptyIff(b);
  }

  /** One query's entry fails exactly when its reference is not scorable. */
  lemma AnswerEntryFails(q: Query, combined: (string, string) -> real)
    ensures AnswerEntry(q, combined).Failure? <==> !Scorable(q)
  {
    PlaceholderWords(q.text);
  }

  /** The error is the `rouge_1` KeyError when the reference has no word and
      the `rouge_2` one when it has one. */
  lemma AnswerEntryError(q: Query, combined: (string, string) -> real)
    ensures AnswerEntry(q, combined).Failure? ==>
      AnswerEntry(q, combined).error ==
        (if |Text.Words(Text.Lower(q.reference.value))| == 0 then MissingKey("rouge_1") else MissingKey("rouge_2"))
  {
    if q.reference.Some? && q.reference.value != [] {
      var g := PlaceholderAnswer(q.text);
      PlaceholderWords(q.text);
      ScoreAnswerError(g, q.reference.value, combined(g, q.reference.value));
    }
  }

  lemma ScoreAnswerError(generated: string, reference: string, combined: real)
    requires |Text.Words(Text.Lower(generated))| >= 2
    ensures ScoreAnswer(generated, reference, combined).Failure? ==>
      ScoreAnswer(generated, reference, combined).error ==
        (if |Text.Words(Text.Lower(reference))| == 0 then MissingKey("rouge_1") else MissingKey("rouge_2"))
  {
  }

  /** A query's scores are fractions, BLEU when `combined` is one for the
      placeholder answer and the reference. */
  lemma AnswerEntryBounds(q: Query, combined: (string, string) -> real)
    requires AnswerEntry(q, combined).Success? && AnswerEntry(q, combined).value.Some?
    ensures q.reference.Some?
    ensures var e := AnswerEntry(q, combined).value.value;
      0.0 <= e.rouge1 <= 1.0 && 0.0 <= e.rouge2 <= 1.0
      && (0.0 <= combined(PlaceholderAnswer(q.text), q.reference.value) <= 1.0 ==> 0.0 <= e.bleu <= 1.0)
  {
  }

  predicate UnitList(xs: seq<real>)
  {
    forall i :: 0 <= i < |xs| ==> 0.0 <= xs[i] <= 1.0
  }

  lemma UnitListSnoc(xs: seq<real>, x: real)
    requires UnitList(xs) && 0.0 <= x <= 1.0
    ensures UnitList(xs + [x])
  {
    assert forall i :: 0 <= i < |xs| ==> (xs + [x])[i] == xs[i];
  }

  /** When `combined` is always a fraction, so is every listed score. */
  lemma {:induction false} AnswerListsBounds(queries: seq<Query>, combined: (string, string) -> real)
    requires forall g, r :: 0.0 <= combined(g, r) <= 1.0
    ensures AnswerListsOf(queries, combined).Success? ==>
      var ls := AnswerListsOf(queries, combined).value;
      UnitList(ls.rouge1) && UnitList(ls.rouge2) && UnitList(ls.bleu)
  {
    if queries != [] {
      var init, last := queries[..|queries| - 1], queries[|queries| - 1];
      AnswerListsBounds(init, combined);
      var entry := AnswerEntry(last, combined);
      if AnswerListsOf(init, combined).Success? && entry.Success? && entry.value.Some? {
        var ls, e := AnswerListsOf(init, combined).value, entry.value.value;
        AnswerEntryBounds(last, combined);
        UnitListSnoc(ls.rouge1, e.rouge1);
        UnitListSnoc(ls.rouge2, e.rouge2);
        UnitListSnoc(ls.bleu, e.bleu);
      }
    }
  }

  /** The answer metrics are empty exactly when no score was listed, and
      otherwise hold the three means and nothing else; they are fractions
      when the scores are. */
  lemma AnswerMeansSpec(ls: AnswerLists)
    requires ls.Aligned()
    ensures AnswerMeans(ls) == map[] <==> ls.rouge1 == []
    ensures ls.rouge1 != [] ==>
      AnswerMeans(ls).Keys == {"mean_rouge_1_f1", "mean_rouge_2_f1", "mean_bleu"}
      && AnswerMeans(ls)["mean_rouge_1_f1"] == Mean(ls.rouge1)
      && AnswerMeans(ls)["mean_rouge_2_f1"] == Mean(ls.rouge2)
      && AnswerMeans(ls)["mean_bleu"] == Mean(ls.bleu)
    ensures UnitList(ls.rouge1) && UnitList(ls.rouge2) && UnitList(ls.bleu) ==> UnitValues(AnswerMeans(ls))
  {
    if ls.rouge1 != [] {
      assert MeanKey("rouge_1_f1") == "mean_rouge_1_f1" && MeanKey("rouge_2_f1") == "mean_rouge_2_f1";
      assert MeanKey("bleu") == "mean_bleu";
      assert "mean_bleu" in AnswerMeans(ls);
      if UnitList(ls.rouge1) && UnitList(ls.rouge2) && UnitList(ls.bleu) {
        MeanBounds(ls.rouge1, 0.0, 1.0);
        MeanBounds(ls.rouge2, 0.0, 1.0);
        MeanBounds(ls.bleu, 0.0, 1.0);
      }
    }
  }

  /** When `combined` is always a fraction, so is every answer metric. */
  lemma AnswerQualityBounds(queries: seq<Query>, combined: (string, string) -> real)
    requires forall g, r :: 0.0 <= combined(g, r) <= 1.0
    ensures AnswerQuality(queries, combined).Success? ==> UnitValues(AnswerQuality(queries, combined).value)
  {
    AnswerListsBounds(queries, combined);
    if AnswerListsOf(queries, combined).Success? {
      AnswerMeansSpec(AnswerListsOf(queries, combined).value);
    }
  }

  /** `_evaluate_answer_quality` fails exactly when some reference answer
      is not scorable, and then with that query's KeyError. */
  lemma {:induction false} AnswerQualityFails(queries: seq<Query>, combined: (string, string) -> real)
    ensures AnswerQuality(queries, combined).Success? <==> forall i :: 0 <= i < |queries| ==> Scorable(queries[i])
    ensures AnswerQuality(queries, combined).Failure? ==>
      exists i :: 0 <= i < |queries| && !Scorable(queries[i])
        && AnswerQuality(queries, combined) == Failure(AnswerEntry(queries[i], combined).error)
  {
    AnswerListsFails(queries, combined);
  }

  lemma AnswerListsFails(queries: seq<Query>, combined: (string, string) -> real)
    ensures AnswerListsOf(queries, combined).Success? <==> forall i :: 0 <= i < |queries| ==> Scorable(queries[i])
    ensures AnswerListsOf(queries, combined).Failure? ==>
      exists i :: 0 <= i < |queries| && !Scorable(queries[i])
        && AnswerListsOf(queries, combined).error == AnswerEntry(queries[i], combined).error
  {
    AnswerListsError(queries, combined);
    if forall i :: 0 <= i < |queries| ==> Scorable(queries[i]) {
      AnswerListsSucceed(queries, combined);
    } else {
      var j :| 0 <= j < |queries| && !Scorable(queries[j]);
      AnswerListsBad(queries, j, combined);
    }
  }

  /** A query whose reference is not scorable makes the loop fail. */
  lemma AnswerListsBad(queries: seq<Query>, j: nat, combined: (string, string) -> real)
    requires j < |queries| && !Scorable(queries[j])
    ensures AnswerListsOf(queries, combined).Failure?
  {
    FailsAt(queries, j, combined);
    FailureSticks(queries, j + 1, combined);
  }

  lemma FailsAt(queries: seq<Query>, j: nat, combined: (string, string) -> real)
    requires j < |queries| && !Scorable(queries[j])
    ensures AnswerListsOf(queries[..j + 1], combined).Failure?
  {
    var upto := queries[..j + 1];
    assert upto[|upto| - 1] == queries[j];
    AnswerEntryFails(queries[j], combined);
    FailsAtLast(upto, combined);
  }

  lemma FailsAtLast(queries: seq<Query>, combined: (string, string) -> real)
    requires queries != [] && AnswerEntry(queries[|queries| - 1], combined).Failure?
    ensures AnswerListsOf(queries, combined).Failure?
  {
  }

  /** Queries whose references are all scorable are scored without error. */
  lemma {:induction false} AnswerListsSucceed(queries: seq<Query>, combined: (string, string) -> real)
    requires forall i :: 0 <= i < |queries| ==> Scorable(queries[i])
    ensures AnswerListsOf(queries, combined).Success?
  {
    if queries != [] {
      var init, last := queries[..|queries| - 1], queries[|queries| - 1];
      assert forall i :: 0 <= i < |init| ==> init[i] == queries[i];
      AnswerListsSucceed(init, combined);
      AnswerEntryFails(last, combined);
    }
  }

  /** An error comes from a query whose reference is not scorable. */
  lemma {:induction false} AnswerListsError(queries: seq<Query>, combined: (string, string) -> real)
    ensures AnswerListsOf(queries, combined).Failure? ==>
      exists i :: 0 <= i < |queries| && !Scorable(queries[i])
        && AnswerListsOf(queries, combined).error == AnswerEntry(queries[i], combined).error
  {
    if queries != [] {
      var init, last := queries[..|queries| - 1], queries[|queries| - 1];
      AnswerListsError(init, combined);
      AnswerEntryFails(last, combined);
      if AnswerListsOf(init, combined).Failure? {
        var i :| 0 <= i < |init| && !Scorable(init[i]) && AnswerListsOf(init, combined).error == AnswerEntry(init[i], combined).error;
        assert queries[i] == init[i];
      } else if AnswerEntry(last, combined).Failure? {
        assert queries[|queries| - 1] == last;
      }
    }
  }

  // ---------------------------------------------------------------------
  // Evaluating a configuration

  /** The record of one evaluation: a score with the metrics, or the error
      raised. */
  datatype EvalRecord =
    | Scored(config: Config, score: real, retrievalMetrics: map<string, real>, answerMetrics: map<string, real>)
    | Errored(config: Config, error: EvalError)
  {
    /** The keys of the result dictionary. */
    function Keys(): (ks: set<string>)
      ensures "config" in ks && "evaluation_time" in ks && "timestamp" in ks
      ensures "score" in ks <==> Scored?
      ensures "error" in ks <==> Errored?
      ensures "answer_metrics" in ks <==> Scored? && answerMetrics != map[]
    {
      match this
      case Scored(_, _, _, am) =>
        {"config", "score", "retrieval_metrics", "evaluation_time", "timestamp"} + (if am != map[] then {"answer_metrics"} else {})
      case Errored(_, _) => {"config", "error", "evaluation_time", "timestamp"}
    }
  }

  predicate HasReference(queries: seq<Query>)
  {
    exists i :: 0 <= i < |queries| && queries[i].reference.Some?
  }

  /** A value Python accepts as a slice bound: an integer, or a bool
      (`True` is 1, `False` is 0). */
  function AsInt(v: Value): (r: Option<int>)
    ensures r.Some? <==> v.VInt? || v.VBool?
    ensures v.VInt? ==> r == Some(v.i)
    ensures v.VBool? ==> r == Some(if v.b then 1 else 0)
  {
    match v
    case VInt(i) => Some(i)
    case VBool(b) => Some(if b then 1 else 0)
    case _ => None
  }

  /** `top_k` is used only by the per-query retrieval (the retriever and
      the slice `retrieved[:k]`), so a value that is not an integer fails
      only when there is a query. */
  predicate TopKUsable(c: Config, queries: seq<Query>)
  {
    queries != [] ==> AsInt(GetOr(c, "top_k", VInt(5))).Some?
  }

  /** `_evaluate_configuration` with the retriever built by `create`: what
      `retrieve(config, query, k)` returns stands for the trained retriever
      of `config`, and `combined(g, r)` for BLEU's brevity-penalised
      geometric mean of `g` against `r`. */
  function EvaluateWith(create: Config -> Result<RetrieverChoice, EvalError>, config: Config, queries: seq<Query>,
                        retrieve: (Config, string, int) -> seq<Hit>, combined: (string, string) -> real): (r: EvalRecord)
    ensures r.config == config || (SelectTemplate(config).Success? && r.config == SelectTemplate(config).value)
    ensures r.Scored? ==> r.score == Score(r.retrievalMetrics, r.answerMetrics)
    ensures r.Scored? && r.answerMetrics != map[] ==> HasReference(queries)
    ensures create(config).Failure? ==> r == Errored(config, create(config).error)
  {
    match create(config)
    case Failure(e) => Errored(config, e)
    case Success(_) =>
      match CreateProcessorConfig(config)
      case Failure(e) => Errored(config, e)
      case Success(_) =>
        match SelectTemplate(config)
        case Failure(e) => Errored(config, e)
        case Success(c) =>
          var k := AsInt(GetOr(c, "top_k", VInt(5)));
          if queries != [] && k.None? then Errored(c, NotAnInteger("top_k"))
          else ScoredRecord(c, queries, retrieve, combined, if k.Some? then k.value else 0)
  }

  /** The evaluation of a configuration with the corrected dispatch
      `CreateRetriever`, which the orchestrator below uses. */
  function Evaluate(config: Config, queries: seq<Query>, retrieve: (Config, string, int) -> seq<Hit>,
                    combined: (string, string) -> real): (r: EvalRecord)
    ensures r.config == config || (SelectTemplate(config).Success? && r.config == SelectTemplate(config).value)
    ensures r.Scored? ==> r.score == Score(r.retrievalMetrics, r.answerMetrics)
    ensures r.Scored? && r.answerMetrics != map[] ==> HasReference(queries)
    ensures CreateRetriever(config).Failure? ==> r == Errored(config, UnsupportedRetriever(RetrieverType(config)))
  {
    EvaluateWith(CreateRetriever, config, queries, retrieve, combined)
  }

  /** The evaluation of a configuration as written, with
      `CreateRetrieverAsWritten`. */
  function EvaluateAsWritten(config: Config, queries: seq<Query>, retrieve: (Config, string, int) -> seq<Hit>,
                             combined: (string, string) -> real): (r: EvalRecord)
    ensures RetrieverType(config) != VStr("faiss") ==> r.Errored? && r.config == config
  {
    EvaluateWith(CreateRetrieverAsWritten, config, queries, retrieve, combined)
  }

  /** The record of a configuration whose components can all be built:
      the retrieval means over the queries with `top_k` results each, the
      answer metrics when some query has a reference answer, and the
      score combining them; or the error the answer-quality step raised. */
  function ScoredRecord(c: Config, queries: seq<Query>, retrieve: (Config, string, int) -> seq<Hit>,
                        combined: (string, string) -> real, topK: int): (r: EvalRecord)
    ensures r.config == c
    ensures r.Scored? ==> r.score == Score(r.retrievalMetrics, r.answerMetrics)
    ensures !HasReference(queries) ==> r.Scored? && r.answerMetrics == map[]
    ensures r.Errored? <==> HasReference(queries) && AnswerQuality(queries, combined).Failure?
  {
    var ms := seq(|queries|, i requires 0 <= i < |queries| => QueryEntry(queries[i], retrieve(c, queries[i].text, topK), topK));
    var means := MeanMetrics(ms);
    if !HasReference(queries) then Scored(c, Score(means, map[]), means, map[])
    else
      match AnswerQuality(queries, combined)
      case Failure(e) => Errored(c, e)
      case Success(am) => Scored(c, Score(means, am), means, am)
  }

  /** The retrieval and answer-quality evaluations and the scoring of a
      configuration whose components can all be built. */
  method Assess(c: Config, queries: seq<Query>, retrieve: (Config, string, int) -> seq<Hit>,
                combined: (string, string) -> real, topK: int) returns (r: EvalRecord)
    ensures r == ScoredRecord(c, queries, retrieve, combined, topK)
  {
    var hits := seq(|queries|, i requires 0 <= i < |queries| => retrieve(c, queries[i].text, topK));
    var metrics, means := EvaluateRetrieval(queries, hits, topK);
    assert metrics == seq(|queries|, i requires 0 <= i < |queries| => QueryEntry(queries[i], retrieve(c, queries[i].text, topK), topK));
    var am: map<string, real> := map[];
    if HasReference(queries) {
      var quality := EvaluateAnswerQuality(queries, combined);
      if quality.Failure? {
        return Errored(c, quality.error);
      }
      am := quality.value;
    }
    r := Scored(c, Score(means, am), means, am);
  }

  /** An evaluation is scored exactly when the retriever, the chunker
      configuration and the template can be built, `top_k` is an integer
      or there is no query and, when some query has a reference answer,
      every reference can be scored; past the components, the error is the
      answer-quality one. */
  lemma EvaluateSpec(config: Config, queries: seq<Query>, retrieve: (Config, string, int) -> seq<Hit>,
                     combined: (string, string) -> real)
    ensures Evaluate(config, queries, retrieve, combined).Scored? <==>
      CreateRetriever(config).Success? && CreateProcessorConfig(config).Success?
      && SelectTemplate(config).Success? && TopKUsable(config, queries)
      && (HasReference(queries) ==> forall i :: 0 <= i < |queries| ==> Scorable(queries[i]))
    ensures var r := Evaluate(config, queries, retrieve, combined);
      r.Errored? && CreateRetriever(config).Success? && CreateProcessorConfig(config).Success?
      && SelectTemplate(config).Success? && TopKUsable(config, queries) ==>
        AnswerQuality(queries, combined).Failure? && r.error == AnswerQuality(queries, combined).error
    ensures var r := Evaluate(config, queries, retrieve, combined);
      r.Errored? && CreateRetriever(config).Failure? ==> r.config == config
  {
    if CreateRetriever(config).Success? && CreateProcessorConfig(config).Success? && SelectTemplate(config).Success? {
      EvaluateWithBuilt(CreateRetriever, config, queries, retrieve, combined);
      if TopKUsable(config, queries) {
        AnswerQualityFails(queries, combined);
      }
    }
  }

  /** Once the components are built, the evaluation checks `top_k` and
      scores the configuration with the template name written back. */
  lemma EvaluateWithBuilt(create: Config -> Result<RetrieverChoice, EvalError>, config: Config, queries: seq<Query>,
                          retrieve: (Config, string, int) -> seq<Hit>, combined: (string, string) -> real)
    requires create(config).Success? && CreateProcessorConfig(config).Success? && SelectTemplate(config).Success?
    ensures var c, k := SelectTemplate(config).value, AsInt(GetOr(config, "top_k", VInt(5)));
      EvaluateWith(create, config, queries, retrieve, combined) ==
        if queries != [] && k.None? then Errored(c, NotAnInteger("top_k"))
        else ScoredRecord(c, queries, retrieve, combined, if k.Some? then k.value else 0)
  {
    var c := SelectTemplate(config).value;
    assert GetOr(c, "top_k", VInt(5)) == GetOr(config, "top_k", VInt(5));
  }

  /** A scored record's retrieval means lie in [0, 1], and so does its
      score when the answer metrics do, as they do when BLEU's `combined`
      part is always a fraction. */
  lemma EvaluateBounds(config: Config, queries: seq<Query>, retrieve: (Config, string, int) -> seq<Hit>,
                       combined: (string, string) -> real)
    ensures var r := Evaluate(config, queries, retrieve, combined);
      r.Scored? ==> UnitValues(r.retrievalMetrics) && (UnitValues(r.answerMetrics) ==> 0.0 <= r.score <= 1.0)
    ensures var r := Evaluate(config, queries, retrieve, combined);
      r.Scored? && (forall g, t :: 0.0 <= combined(g, t) <= 1.0) ==> 0.0 <= r.score <= 1.0
  {
    if CreateRetriever(config).Success? && CreateProcessorConfig(config).Success? && SelectTemplate(config).Success? {
      EvaluateWithBuilt(CreateRetriever, config, queries, retrieve, combined);
      var k := AsInt(GetOr(config, "top_k", VInt(5)));
      ScoredRecordBounds(SelectTemplate(config).value, queries, retrieve, combined, if k.Some? then k.value else 0);
    }
  }

  /** The bounds of a scored record, for any `top_k`. */
  lemma ScoredRecordBounds(c: Config, queries: seq<Query>, retrieve: (Config, string, int) -> seq<Hit>,
                           combined: (string, string) -> real, topK: int)
    ensures var r := ScoredRecord(c, queries, retrieve, combined, topK);
      r.Scored? ==> UnitValues(r.retrievalMetrics) && (UnitValues(r.answerMetrics) ==> 0.0 <= r.score <= 1.0)
    ensures var r := ScoredRecord(c, queries, retrieve, combined, topK);
      r.Scored? && (forall g, t :: 0.0 <= combined(g, t) <= 1.0) ==> 0.0 <= r.score <= 1.0
  {
    if forall g, t :: 0.0 <= combined(g, t) <= 1.0 {
      AnswerQualityBounds(queries, combined);
    }
    var ms := seq(|queries|, i requires 0 <= i < |queries| => QueryEntry(queries[i], retrieve(c, queries[i].text, topK), topK));
    forall i | 0 <= i < |ms| ensures ms[i].scores.InUnit() && 0.0 <= ms[i].mrr <= 1.0 {
      var e := QueryEntry(queries[i], retrieve(c, queries[i].text, topK), topK);
      assert ms[i] == e;
    }
    MeansUpToBounds(ms, |MetricNames|);
  }

  /** A configuration drawn with a known retriever type and strategy is
      scored whenever every reference answer can be scored. */
  lemma GeneratedEvaluates(d: Config, pick: string, queries: seq<Query>, retrieve: (Config, string, int) -> seq<Hit>,
                           combined: (string, string) -> real)
    requires Shaped(d) && d["retriever_type"] in RetrieverTypes
    requires GetOr(d, "chunking_strategy", VStr("fixed")) in Strategies
    requires forall i :: 0 <= i < |queries| ==> Scorable(queries[i])
    ensures Repairable(d)
    ensures Evaluate(Repair(d, pick), queries, retrieve, combined).Scored?
  {
    GeneratedSizes(d, pick);
    GeneratedTemplate(d, pick);
    GeneratedProcessorConfig(d, pick);
    var r := Repair(d, pick);
    assert r["retriever_type"] == d["retriever_type"];
    GeneratedRetriever(r);
    assert "top_k" in r && r["top_k"].VInt?;
    TemplateOptionsSpec();
    assert r["prompt_template"].VStr?;
    EvaluateScored(r, queries, retrieve, combined);
  }

  /** A configuration whose retriever, chunker configuration and template
      can be built, and whose `top_k` is an integer, is scored when every
      reference answer can be scored. */
  lemma EvaluateScored(config: Config, queries: seq<Query>, retrieve: (Config, string, int) -> seq<Hit>,
                       combined: (string, string) -> real)
    requires CreateRetriever(config).Success? && CreateProcessorConfig(config).Success?
    requires "prompt_template" in config && config["prompt_template"].VStr?
    requires "top_k" in config && config["top_k"].VInt?
    requires forall i :: 0 <= i < |queries| ==> Scorable(queries[i])
    ensures Evaluate(config, queries, retrieve, combined).Scored?
  {
    var c := SelectTemplate(config).value;
    assert c["top_k"] == config["top_k"];
    AnswerQualityFails(queries, combined);
  }

  /** As written, a "bm25" or "hybrid" configuration is recorded with the
      TypeError of its abstract retriever class, and a "faiss" one is
      evaluated as with the corrected dispatch; so only "faiss"
      configurations are ever scored. */
  lemma EvaluateAsWrittenSpec(config: Config, queries: seq<Query>, retrieve: (Config, string, int) -> seq<Hit>,
                              combined: (string, string) -> real)
    ensures EvaluateAsWritten(config, queries, retrieve, combined).Scored? ==> RetrieverType(config) == VStr("faiss")
    ensures RetrieverType(config) == VStr("faiss") ==>
      EvaluateAsWritten(config, queries, retrieve, combined) == Evaluate(config, queries, retrieve, combined)
    ensures RetrieverType(config) == VStr("bm25") ==>
      EvaluateAsWritten(config, queries, retrieve, combined) == Errored(config, AbstractRetriever("BM25Retriever"))
    ensures RetrieverType(config) == VStr("hybrid") ==>
      EvaluateAsWritten(config, queries, retrieve, combined) == Errored(config, AbstractRetriever("HybridRetriever"))
  {
    if RetrieverType(config) == VStr("faiss") {
      assert CreateRetrieverAsWritten(config) == CreateRetriever(config);
    }
  }

  // ---------------------------------------------------------------------
  // Choosing the best configuration

  /** A score or minus infinity. */
  datatype Extended = NegInf | Finite(value: real)

  predicate Exceeds(s: real, best: Extended)
  {
    best.NegInf? || s > best.value
  }

  /** `max(valid_results, key=score)`: the first scored record with the
      highest score, if any record is scored. */
  function FirstBest(rs: seq<EvalRecord>): (r: Option<nat>)
    ensures r.None? <==> forall i :: 0 <= i < |rs| ==> !rs[i].Scored?
    ensures r.Some? ==> r.value < |rs| && rs[r.value].Scored?
    ensures r.Some? ==> forall i :: 0 <= i < |rs| && rs[i].Scored? ==> rs[i].score <= rs[r.value].score
    ensures r.Some? ==> forall i :: 0 <= i < r.value && rs[i].Scored? ==> rs[i].score < rs[r.value].score
  {
    if rs == [] then None
    else
      var prev := FirstBest(rs[..|rs| - 1]);
      var last := rs[|rs| - 1];
      if last.Scored? && (prev.None? || last.score > rs[prev.value].score) then Some(|rs| - 1) else prev
  }

  /** As written, the best of a run's records is always a "faiss"
      configuration, and a run of "bm25" and "hybrid" configurations only
      has no best. */
  lemma {:induction false} AsWrittenBest(configs: seq<Config>, rs: seq<EvalRecord>, queries: seq<Query>,
                                         retrieve: (Config, string, int) -> seq<Hit>, combined: (string, string) -> real)
    requires |rs| == |configs|
    requires forall i :: 0 <= i < |rs| ==> rs[i] == EvaluateAsWritten(configs[i], queries, retrieve, combined)
    ensures FirstBest(rs).Some? ==> RetrieverType(configs[FirstBest(rs).value]) == VStr("faiss")
    ensures (forall i :: 0 <= i < |configs| ==> RetrieverType(configs[i]) != VStr("faiss")) ==> FirstBest(rs).None?
  {
    var best := FirstBest(rs);
    if best.Some? {
      EvaluateAsWrittenSpec(configs[best.value], queries, retrieve, combined);
    }
    if forall i :: 0 <= i < |configs| ==> RetrieverType(configs[i]) != VStr("faiss") {
      forall i | 0 <= i < |rs| ensures !rs[i].Scored? {
        EvaluateAsWrittenSpec(configs[i], queries, retrieve, combined);
      }
    }
  }

  /** What `run` returns. */
  datatype RunResult = RunResult(bestConfig: Option<Config>, bestScore: Extended, allResults: seq<EvalRecord>)
  {
    function Keys(): set<string>
    {
      {"best_config", "best_score", "all_results"}
    }
  }

  /** One more iteration of the loop over the configurations. */
  lemma RecordsSnoc(configs: seq<Config>, queries: seq<Query>, retrieve: (Config, string, int) -> seq<Hit>,
                    combined: (string, string) -> real, i: nat, results: seq<EvalRecord>, r: EvalRecord)
    requires i < |configs| && |results| == i
    requires forall j :: 0 <= j < i ==> results[j] == Evaluate(configs[j], queries, retrieve, combined)
    requires r == Evaluate(configs[i], queries, retrieve, combined)
    ensures forall j :: 0 <= j <= i ==> (results + [r])[j] == Evaluate(configs[j], queries, retrieve, combined)
  {
    forall j | 0 <= j <= i ensures (results + [r])[j] == Evaluate(configs[j], queries, retrieve, combined) {
      if j < i {
        assert (results + [r])[j] == results[j];
      }
    }
  }

  /** `AutoMLOrchestrator`: the best configuration and score found so far. */
  class AutoMLOrchestrator {
    var bestConfig: Option<Config>
    var bestScore: Extended

    constructor()
      ensures bestConfig == None && bestScore == NegInf
    {
      bestConfig := None;
      bestScore := NegInf;
    }

    /** `_evaluate_configuration`: the record of the configuration; a score
        above the best so far becomes the best, with its configuration. */
    method EvaluateConfiguration(config: Config, queries: seq<Query>, retrieve: (Config, string, int) -> seq<Hit>,
                                 combined: (string, string) -> real) returns (r: EvalRecord)
      modifies this
      ensures r == Evaluate(config, queries, retrieve, combined)
      ensures r.Scored? && Exceeds(r.score, old(bestScore)) ==> bestScore == Finite(r.score) && bestConfig == Some(r.config)
      ensures !(r.Scored? && Exceeds(r.score, old(bestScore))) ==> bestScore == old(bestScore) && bestConfig == old(bestConfig)
    {
      var retriever := CreateRetriever(config);
      if retriever.Failure? {
        return Errored(config, retriever.error);
      }
      var processorConfig := CreateProcessorConfig(config);
      if processorConfig.Failure? {
        return Errored(config, processorConfig.error);
      }
      var selected := SelectTemplate(config);
      if selected.Failure? {
        return Errored(config, selected.error);
      }
      var c := selected.value;
      var k := AsInt(GetOr(c, "top_k", VInt(5)));
      if queries != [] && k.None? {
        return Errored(c, NotAnInteger("top_k"));
      }
      r := Assess(c, queries, retrieve, combined, if k.Some? then k.value else 0);
      if r.Scored? && Exceeds(r.score, bestScore) {
        bestScore := Finite(r.score);
        bestConfig := Some(c);
      }
    }

    /** The configurations evaluated one after another, in order; the best
        changes only when some record is scored. */
    method EvaluateAll(configs: seq<Config>, queries: seq<Query>, retrieve: (Config, string, int) -> seq<Hit>,
                       combined: (string, string) -> real) returns (results: seq<EvalRecord>)
      modifies this
      ensures |results| == |configs|
      ensures forall i :: 0 <= i < |configs| ==> results[i] == Evaluate(configs[i], queries, retrieve, combined)
      ensures (forall i :: 0 <= i < |results| ==> !results[i].Scored?) ==> bestConfig == old(bestConfig) && bestScore == old(bestScore)
    {
      results := [];
      for i := 0 to |configs|
        invariant |results| == i
        invariant forall j :: 0 <= j < i ==> results[j] == Evaluate(configs[j], queries, retrieve, combined)
        invariant (forall j :: 0 <= j < i ==> !results[j].Scored?) ==> bestConfig == old(bestConfig) && bestScore == old(bestScore)
      {
        var r := EvaluateConfiguration(configs[i], queries, retrieve, combined);
        RecordsSnoc(configs, queries, retrieve, combined, i, results, r);
        results := results + [r];
      }
    }

    /** `run`, one configuration after another: the generated
        configurations are evaluated in order, and when any is scored the
        first with the highest score becomes the best; otherwise the best
        is left as it was. */
    method Run(base: Config, numConfigs: int, queries: seq<Query>, retrieve: (Config, string, int) -> seq<Hit>,
               combined: (string, string) -> real)
      returns (result: RunResult, ghost configs: seq<Config>)
      modifies this
      ensures |configs| == |result.allResults| == Max(0, numConfigs)
      ensures forall i :: 0 <= i < |configs| ==>
        (exists picks, pick :: Picks(base, picks) && pick in TemplateValues && Repairable(base + picks)
                               && configs[i] == Repair(base + picks, pick))
      ensures forall i :: 0 <= i < |configs| ==> result.allResults[i] == Evaluate(configs[i], queries, retrieve, combined)
      ensures FirstBest(result.allResults).Some? ==>
        bestConfig == Some(result.allResults[FirstBest(result.allResults).value].config)
        && bestScore == Finite(result.allResults[FirstBest(result.allResults).value].score)
      ensures FirstBest(result.allResults).None? ==> bestConfig == old(bestConfig) && bestScore == old(bestScore)
      ensures result.bestConfig == bestConfig && result.bestScore == bestScore
    {
      var generated, picks, templatePicks := GenerateConfigurations(base, numConfigs);
      configs := generated;
      var results := EvaluateAll(generated, queries, retrieve, combined);
      var best := FirstBest(results);
      if best.Some? {
        bestConfig := Some(results[best.value].config);
        bestScore := Finite(results[best.value].score);
      }
      result := RunResult(bestConfig, bestScore, results);
    }

    /** `get_best_config` */
    function GetBestConfig(): (r: (Option<Config>, Extended))
      reads this
      ensures r.0 == bestConfig && r.1 == bestScore
    {
      (bestConfig, bestScore)
    }
  }
}
