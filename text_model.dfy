/** The text model itself: its configuration, its fitted state and the
    operations that read and update it (`fit`, `_convert_params`,
    `_preprocess_data`, `predict_proba`, `predict_log_proba`, `__getstate__`).
    The scikit-learn estimators, the label encoder, feature extraction,
    cross-validation and the classifiers' scores enter as parameters. */
module TextModels {
  import opened Wrappers
  import opened Dicts
  import opened Values
  import opened Kinds
  import opened ClassEncoder
  import opened Params
  import opened Shuffle
  import opened Decoding
  import opened Pipeline

  /** An example, as the text of the query; only `_extract_features` looks inside. */
  type Example = string

  /** A parameter dict, shared by reference between the configuration, the
      caller of `fit` and the model's `_current_params`. */
  class ParamDict {
    var entries: ParamEntries

    constructor(entries: ParamEntries)
      ensures this.entries == entries
    {
      this.entries := entries;
    }
  }

  /** What the text model reads of its configuration. Only the presence of a
      parameter-selection setting matters here. */
  datatype ModelConfig = ModelConfig(modelSettings: Settings, params: ParamDict?, paramSelection: Option<ParamEntries>)

  /** A trained classifier: `model_class(**params).fit(X, y)`. Cross-validation
      returns classifiers of the same type. */
  datatype Classifier = Trained(kind: ClassifierKind, params: ParamEntries, x: Matrix, y: seq<nat>)

  /** The external cross-validated search: `_fit_cv(X, y, groups)` returns the
      best classifier and its parameters. */
  type Search = (Matrix, seq<nat>, seq<nat>) -> (Classifier, ParamEntries)

  /** A classifier's scores for a matrix, one row per example, one column per
      class index (`predict_proba` or `predict_log_proba`). */
  type Predictor = (Classifier, Matrix) -> seq<seq<Score>>

  /** An entry of the model's resource cache. */
  datatype Resource = FreqTable(counts: map<string, nat>) | OtherResource(name: string)

  const WORD_FREQ_RSC := "w_freq"
  const QUERY_FREQ_RSC := "q_freq"
  /** `{}`, what a pruned resource defaults to. */
  const EMPTY_RESOURCE := FreqTable(map[])

  /** One of the two resources that survive pickling. */
  function KeptResource(rs: map<string, Resource>, name: string): Resource {
    if name in rs then rs[name] else EMPTY_RESOURCE
  }

  /** `_resources` as `__getstate__` stores it. */
  function PruneResources(rs: map<string, Resource>): (r: map<string, Resource>)
    ensures r.Keys == {WORD_FREQ_RSC, QUERY_FREQ_RSC}
    ensures forall name :: name in rs && name in r ==> r[name] == rs[name]
    ensures forall name :: name !in rs && name in r ==> r[name] == EMPTY_RESOURCE
  {
    map[WORD_FREQ_RSC := KeptResource(rs, WORD_FREQ_RSC), QUERY_FREQ_RSC := KeptResource(rs, QUERY_FREQ_RSC)]
  }

  /** Pruning a pruned cache changes nothing, so a pickled and reloaded model
      pickles to the same resources. */
  lemma PruneIdempotent(rs: map<string, Resource>)
    ensures PruneResources(PruneResources(rs)) == PruneResources(rs)
  {
  }

  /** A cache holding exactly the two kept entries is stored unchanged; any other
      entry is dropped. */
  lemma PruneKeepsOnlyNamed(rs: map<string, Resource>)
    ensures rs.Keys == {WORD_FREQ_RSC, QUERY_FREQ_RSC} ==> PruneResources(rs) == rs
    ensures forall name :: name in rs && name != WORD_FREQ_RSC && name != QUERY_FREQ_RSC ==>
                           name !in PruneResources(rs)
  {
  }

  /** The attributes `__getstate__` returns. */
  datatype State = State(
    config: ModelConfig,
    selector: Option<SelectorKind>,
    scaler: Option<ScalerKind>,
    classes: Option<seq<string>>,
    pipeline: Option<FittedPipeline>,
    clf: Option<Classifier>,
    currentParams: ParamDict?,
    resources: map<string, Resource>)

  /** `params or config.params`: a missing or empty dict falls back to the
      configuration's. */
  function EffectiveParams(params: ParamDict?, config: ModelConfig): (eff: ParamDict?)
    reads params
    ensures params != null && params.entries != [] ==> eff == params
    ensures (params == null || params.entries == []) ==> eff == config.params
  {
    if params != null && params.entries != [] then params else config.params
  }

  /** The number of distinct labels, `len(set(labels))`. */
  function CountDistinct(labels: seq<string>): (r: nat)
    ensures r == 0 <==> labels == []
    ensures r <= 1 <==> forall i :: 0 <= i < |labels| ==> labels[i] == labels[0]
  {
    var distinct := set l | l in labels;
    if labels == [] then
      assert distinct == {};
      |distinct|
    else if forall i :: 0 <= i < |labels| ==> labels[i] == labels[0] then
      assert distinct == {labels[0]};
      |distinct|
    else
      var i :| 0 <= i < |labels| && labels[i] != labels[0];
      assert labels[0] in distinct && labels[i] in distinct;
      assert {labels[0], labels[i]} <= distinct;
      assert |distinct - {labels[0]}| >= 1 by {
        assert labels[i] in distinct - {labels[0]};
      }
      |distinct|
  }

  /** `[f(e) for e in s]`: the label encoder on every label, `_extract_features`
      on every example, the label decoder on every class. */
  function MapAll<A, B>(s: seq<A>, f: A -> B): (r: seq<B>)
    ensures |r| == |s| && forall i :: 0 <= i < |s| ==> r[i] == f(s[i])
  {
    seq(|s|, i requires 0 <= i < |s| => f(s[i]))
  }

  /** `get_feature_matrix`'s loop: the features of every example and its index
      as its group. */
  method FeatureMaps(examples: seq<Example>, extract: Example -> FeatureMap)
    returns (feats: seq<FeatureMap>, groups: seq<nat>)
    ensures feats == MapAll(examples, extract)
    ensures groups == Range(|examples|)
  {
    feats, groups := [], [];
    var idx := 0;
    while idx < |examples|
      invariant 0 <= idx <= |examples|
      invariant feats == MapAll(examples[..idx], extract)
      invariant groups == Range(idx)
    {
      feats := feats + [extract(examples[idx])];
      groups := groups + [idx];
      idx := idx + 1;
    }
    assert examples[..idx] == examples;
  }

  class TextModel {
    const config: ModelConfig
    const selector: Option<SelectorKind>
    const scaler: Option<ScalerKind>
    /** `_class_encoder.classes_`, None before the encoder is fitted. */
    var classes: Option<seq<string>>
    /** The fitted vectorizer, scaler and selector, None before fitting. */
    var pipeline: Option<FittedPipeline>
    var clf: Option<Classifier>
    var currentParams: ParamDict?
    var resources: map<string, Resource>

    /** The stage kinds come from the settings; the encoder and the pipeline are
        fitted together, and a classifier exists only once they are. */
    ghost predicate Valid()
      reads this
    {
      && selector == FeatureSelector(config.modelSettings)
      && scaler == FeatureScaler(config.modelSettings)
      && (pipeline.Some? <==> classes.Some?)
      && (clf.Some? ==> classes.Some?)
    }

    /** `TextModel(config)`: nothing is fitted yet; the stage kinds are looked up
        once, here. */
    constructor(config: ModelConfig, resources: map<string, Resource>)
      ensures this.config == config && this.resources == resources
      ensures selector == FeatureSelector(config.modelSettings)
      ensures scaler == FeatureScaler(config.modelSettings)
      ensures classes.None? && pipeline.None? && clf.None? && currentParams == null
      ensures Valid()
    {
      this.config := config;
      this.selector := FeatureSelector(config.modelSettings);
      this.scaler := FeatureScaler(config.modelSettings);
      this.classes := None;
      this.pipeline := None;
      this.clf := None;
      this.currentParams := null;
      this.resources := resources;
    }

    /** `__getstate__`: every attribute as it is, except the resource cache,
        pruned to the two frequency tables. */
    function GetState(): (s: State)
      reads this
      ensures s.resources == PruneResources(resources)
      ensures s.config == config && s.selector == selector && s.scaler == scaler
      ensures s.classes == classes && s.pipeline == pipeline
      ensures s.clf == clf && s.currentParams == currentParams
    {
      State(config, selector, scaler, classes, pipeline, clf, currentParams, PruneResources(resources))
    }

    /** `_convert_params(param_grid, y, is_grid)` on the shared dict, in place.
        The new value is computed before anything is written, so a conversion
        that raises leaves the dict as it was. */
    method ConvertParams(p: ParamDict?, y: seq<nat>, isGrid: bool) returns (err: Option<Error>)
      requires classes.Some? && EncodedBy(y, |classes.value|)
      modifies p
      ensures p == null ==> err == Some(NoParams)
      ensures p != null ==>
                var r := Convert(old(p.entries), y, classes.value, isGrid);
                && (r.Ok? ==> err.None? && p.entries == r.value)
                && (r.Err? ==> err == Some(r.error) && p.entries == old(p.entries))
    {
      if p == null {
        return Some(NoParams);
      }
      var cls := classes.value;
      if HasKey(p.entries, CLASS_WEIGHT) {
        var raw := Candidates(Get(p.entries, CLASS_WEIGHT), isGrid);
        if raw.Err? {
          return Some(raw.error);
        }
        var weights := RekeyAll(raw.value, cls);
        if weights.Err? {
          return Some(weights.error);
        }
        p.entries := Set(p.entries, CLASS_WEIGHT, if isGrid then List(weights.value) else weights.value[0]);
      } else if HasKey(p.entries, CLASS_BIAS) {
        var raw := Candidates(Get(p.entries, CLASS_BIAS), isGrid);
        if raw.Err? {
          return Some(raw.error);
        }
        var vs := raw.value;
        var weights: seq<Value> := [];
        var i := 0;
        while i < |vs|
          invariant 0 <= i <= |vs|
          invariant |weights| == i
          invariant forall j :: 0 <= j < i ==> BiasDict(vs[j], y, |cls|).Ok?
          invariant forall j :: 0 <= j < i ==> weights[j] == BiasDict(vs[j], y, |cls|).value
        {
          var w := BiasDict(vs[i], y, |cls|);
          if w.Err? {
            return Some(w.error);
          }
          weights := weights + [w.value];
          i := i + 1;
        }
        assert weights == BiasAll(vs, y, |cls|).value;
        p.entries := Set(p.entries, CLASS_WEIGHT, if isGrid then List(weights) else weights[0]);
        p.entries := Del(p.entries, CLASS_BIAS);
      }
      return None;
    }

    /** `_preprocess_data(X, y, fit=True)`: the class encoder is fitted on the
        labels first, then each configured stage in order. */
    method PreprocessFit(feats: seq<FeatureMap>, labels: seq<string>) returns (x: Matrix, y: seq<nat>)
      requires Valid()
      modifies this
      ensures Valid()
      ensures classes == Some(FitTransform(labels).0) && y == FitTransform(labels).1
      ensures pipeline == Some(FitAll(feats, y, scaler, selector).0)
      ensures x == FitAll(feats, y, scaler, selector).1
      ensures clf == old(clf) && currentParams == old(currentParams) && resources == old(resources)
    {
      var fitted := FitTransform(labels);
      classes := Some(fitted.0);
      y := fitted.1;
      var x0 := Features(feats);
      var vectorizer := Fitted(Vectorize, x0, []);
      x := Transformed(vectorizer, x0);
      var sc: Option<Fitted> := None;
      if scaler.Some? {
        sc := Some(Fitted(Scale(scaler.value), x, []));
        x := Transformed(sc.value, x);
      }
      var se: Option<Fitted> := None;
      if selector.Some? {
        se := Some(Fitted(Select(selector.value), x, y));
        x := Transformed(se.value, x);
      }
      pipeline := Some(FittedPipeline(vectorizer, sc, se));
    }

    /** `_preprocess_data(X)`: the fitted stages applied in the same order; an
        unfitted vectorizer raises. */
    method PreprocessTransform(feats: seq<FeatureMap>) returns (r: Result<Matrix, Error>)
      requires Valid()
      ensures pipeline.None? ==> r == Err(NotFitted)
      ensures pipeline.Some? ==> r == Ok(TransformAll(pipeline.value, feats))
    {
      if pipeline.None? {
        return Err(NotFitted);
      }
      var p := pipeline.value;
      var x := Transformed(p.vectorizer, Features(feats));
      if p.scaler.Some? {
        x := Transformed(p.scaler.value, x);
      }
      if p.selector.Some? {
        x := Transformed(p.selector.value, x);
      }
      return Ok(x);
    }

    /** `_fit(X, y, params)`: the parameters are converted in place first, then
        the classifier kind is looked up, so an unknown kind raises after the
        dict was rewritten. */
    method FitDirect(x: Matrix, y: seq<nat>, p: ParamDict?) returns (r: Result<Classifier, Error>)
      requires classes.Some? && EncodedBy(y, |classes.value|)
      modifies p
      ensures p == null ==> r == Err(NoParams)
      ensures p != null ==>
                var conv := Convert(old(p.entries), y, classes.value, false);
                var kind := ModelConstructor(config.modelSettings);
                && (conv.Err? ==> r == Err(conv.error) && p.entries == old(p.entries))
                && (conv.Ok? ==> p.entries == conv.value)
                && (conv.Ok? && kind.Err? ==> r == Err(kind.error))
                && (conv.Ok? && kind.Ok? ==> r == Ok(Trained(kind.value, conv.value, x, y)))
    {
      var err := ConvertParams(p, y, false);
      if err.Some? {
        return Err(err.value);
      }
      var kind := ModelConstructor(config.modelSettings);
      if kind.Err? {
        return Err(kind.error);
      }
      return Ok(Trained(kind.value, p.entries, x, y));
    }

    /** Neither the caller's nor the configuration's parameter dict was written. */
    twostate predicate ParamsUnchanged(params: ParamDict?)
      reads this, params, config.params
    {
      && (params != null ==> params.entries == old(params.entries))
      && (config.params != null ==> config.params.entries == old(config.params.entries))
    }

    /** The training step of `fit` on the matrix `x` and the class ids `y`,
        with `before`, `prevClf` and `prevParams` the dict's entries, the
        classifier and the current parameters it started from. Direct fitting
        (`skip`) converts `eff` in place and trains the configured kind; it
        raises with no dict, a failed conversion (dict unchanged) or an unknown
        kind (dict already converted), and then the classifier and the current
        parameters stay as they were. Otherwise the search's best classifier
        and a dict of its parameters are kept. */
    predicate TrainOutcome(r: Result<(), Error>, skip: bool, eff: ParamDict?, before: ParamEntries,
                           prevClf: Option<Classifier>, prevParams: ParamDict?,
                           x: Matrix, y: seq<nat>, cls: seq<string>, groups: seq<nat>, search: Search)
      requires EncodedBy(y, |cls|)
      reads this, eff, currentParams
    {
      if skip then
        if eff == null then
          r == Err(NoParams) && clf == prevClf && currentParams == prevParams
        else
          var conv := Convert(before, y, cls, false);
          var kind := ModelConstructor(config.modelSettings);
          && (conv.Err? ==> r == Err(conv.error) && eff.entries == before)
          && (conv.Ok? ==> eff.entries == conv.value)
          && (conv.Err? || kind.Err? ==> clf == prevClf && currentParams == prevParams)
          && (conv.Ok? && kind.Err? ==> r == Err(kind.error))
          && (conv.Ok? && kind.Ok? ==>
                r == Ok(()) && clf == Some(Trained(kind.value, conv.value, x, y)) && currentParams == eff)
      else
        var (best, bestParams) := search(x, y, groups);
        && r == Ok(()) && clf == Some(best)
        && currentParams != null && currentParams.entries == bestParams
    }

    /** Lines 139-146 of `fit`: direct fitting or the search. */
    method Train(skip: bool, eff: ParamDict?, x: Matrix, y: seq<nat>, groups: seq<nat>, search: Search)
      returns (r: Result<(), Error>)
      requires Valid() && classes.Some? && EncodedBy(y, |classes.value|)
      modifies this, eff
      ensures Valid()
      ensures classes == old(classes) && pipeline == old(pipeline) && resources == old(resources)
      ensures TrainOutcome(r, skip, eff, if eff == null then [] else old(eff.entries), old(clf),
                           old(currentParams), x, y, classes.value, groups, search)
      ensures !skip ==> fresh(currentParams)
    {
      if skip {
        var trained := FitDirect(x, y, eff);
        if trained.Err? {
          return Err(trained.error);
        }
        clf := Some(trained.value);
        currentParams := eff;
      } else {
        var (best, bestParams) := search(x, y, groups);
        clf := Some(best);
        currentParams := new ParamDict(bestParams);
      }
      return Ok(());
    }

    /** Lines 136-146 of `fit`, on the shuffled examples and labels: the
        labels are encoded, the features extracted, the encoder and the
        pipeline fitted, and the classifier trained. */
    method FitShuffled(examples: seq<Example>, labels: seq<string>, skip: bool, eff: ParamDict?,
                       encode: string -> string, extract: Example -> FeatureMap, search: Search)
      returns (r: Result<(), Error>)
      requires Valid()
      modifies this, eff
      ensures Valid() && resources == old(resources)
      ensures var feats := MapAll(examples, extract);
              var (cls, y) := FitTransform(MapAll(labels, encode));
              var (pipe, x) := FitAll(feats, y, scaler, selector);
              var before := if eff == null then [] else old(eff.entries);
              && classes == Some(cls) && pipeline == Some(pipe)
              && TrainOutcome(r, skip, eff, before, old(clf), old(currentParams), x, y, cls,
                              Range(|examples|), search)
      ensures !skip ==> fresh(currentParams)
    {
      var raw := MapAll(labels, encode);
      var feats, groups := FeatureMaps(examples, extract);
      var x, y := PreprocessFit(feats, raw);
      r := Train(skip, eff, x, y, groups, search);
    }

    /** `fit(examples, labels, params)` with `perm` the shuffled indices.
        The examples and labels are shuffled together (more labels than
        examples raise); one distinct label or none changes nothing; otherwise
        the encoder and the pipeline are fitted on the shuffled data and the
        classifier is trained directly when parameters are given or no
        selection is configured, and chosen by the search otherwise. */
    method Fit(examples: seq<Example>, labels: seq<string>, params: ParamDict?, perm: seq<nat>,
               encode: string -> string, extract: Example -> FeatureMap, search: Search)
      returns (r: Result<(), Error>)
      requires Valid() && IsPermutation(perm, |labels|)
      modifies this, params, config.params
      ensures Valid()
      ensures resources == old(resources)
      ensures var eff := old(EffectiveParams(params, config));
              && (params != null && params != eff ==> params.entries == old(params.entries))
              && (config.params != null && config.params != eff ==>
                    config.params.entries == old(config.params.entries))
      ensures |labels| > |examples| ==>
                r == Err(IndexOutOfRange) && unchanged(this) && ParamsUnchanged(params)
      ensures |labels| <= |examples| && CountDistinct(labels) <= 1 ==>
                r == Ok(()) && unchanged(this) && ParamsUnchanged(params)
      ensures |labels| <= |examples| && CountDistinct(labels) > 1 ==>
                var eff := old(EffectiveParams(params, config));
                var skip := eff != null || config.paramSelection.None?;
                var feats := MapAll(PickAll(examples, perm), extract);
                var (cls, y) := FitTransform(MapAll(PickAll(labels, perm), encode));
                var (pipe, x) := FitAll(feats, y, scaler, selector);
                var before := if eff == null then [] else old(eff.entries);
                && classes == Some(cls) && pipeline == Some(pipe)
                && TrainOutcome(r, skip, eff, before, old(clf), old(currentParams), x, y, cls,
                                Range(|labels|), search)
                && (!skip ==> fresh(currentParams) && ParamsUnchanged(params))
    {
      var eff := if params != null && params.entries != [] then params else config.params;
      var skip := eff != null || config.paramSelection.None?;
      PickShortExamples(examples, perm, |labels|);
      var picked := Pick(examples, perm);
      if picked.Err? {
        return Err(picked.error);
      }
      var shuffledLabels := PickAll(labels, perm);
      ShuffleKeepsLabels(labels, perm);
      var distinct := set l | l in shuffledLabels;
      assert distinct == set l | l in labels;
      if |distinct| <= 1 {
        return Ok(());
      }
      r := FitShuffled(picked.value, shuffledLabels, skip, eff, encode, extract, search);
    }

    /** `predict_proba(examples)`: the transform-mode matrix, the classifier's
        probabilities and every row decoded with the top label at its first
        maximum. An unfitted model raises. */
    method PredictProba(examples: seq<Example>, extract: Example -> FeatureMap,
                        predictProba: Predictor, decode: string -> string)
      returns (r: Result<seq<Prediction>, Error>)
      requires Valid()
      ensures pipeline.None? || clf.None? ==> r == Err(NotFitted)
      ensures pipeline.Some? && clf.Some? ==>
                var x := TransformAll(pipeline.value, MapAll(examples, extract));
                r == DecodeAll(MapAll(classes.value, decode), predictProba(clf.value, x))
    {
      var feats, _ := FeatureMaps(examples, extract);
      var x := PreprocessTransform(feats);
      if x.Err? {
        return Err(x.error);
      }
      if clf.None? {
        return Err(NotFitted);
      }
      r := DecodeRows(MapAll(classes.value, decode), predictProba(clf.value, x.value));
    }

    /** `predict_log_proba(examples)`: decoded like `predict_proba`, then every
        `-inf` replaced by `_NEG_INF` in place. */
    method PredictLogProba(examples: seq<Example>, extract: Example -> FeatureMap,
                           predictLogProba: Predictor, decode: string -> string)
      returns (r: Result<seq<Prediction>, Error>)
      requires Valid()
      ensures pipeline.None? || clf.None? ==> r == Err(NotFitted)
      ensures pipeline.Some? && clf.Some? ==>
                var x := TransformAll(pipeline.value, MapAll(examples, extract));
                var d := DecodeAll(MapAll(classes.value, decode), predictLogProba(clf.value, x));
                && (r.Ok? <==> d.Ok?)
                && (r.Err? ==> r.error == d.error)
                && (r.Ok? ==> |r.value| == |d.value| &&
                              forall i :: 0 <= i < |d.value| ==> r.value[i] == SanitizePrediction(d.value[i]))
    {
      var decoded := PredictProba(examples, extract, predictLogProba, decode);
      if decoded.Err? {
        return decoded;
      }
      var ps := decoded.value;
      var preds := new Prediction[|ps|](i requires 0 <= i < |ps| => ps[i]);
      ReplaceNegInf(preds);
      return Ok(preds[..]);
    }
  }
}
