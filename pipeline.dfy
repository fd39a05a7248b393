/** The feature pipeline of `_preprocess_data`: vectorizer, then the optional
    scaler, then the optional selector. The scikit-learn transformers are
    opaque; a matrix is recorded as the term of the stages that produced it, so
    the model states which stage ran, in which order, and on what each stage
    was fitted. */
module Pipeline {
  import opened Wrappers
  import opened Kinds

  /** The features `_extract_features` computes for one example. */
  type FeatureMap = map<string, real>

  datatype Stage = Vectorize | Scale(scaler: ScalerKind) | Select(selector: SelectorKind)

  /** A stage after `fit`: the data it was fitted on; the selector is also given
      the class ids (`fit_transform(X, y)`), the other stages none. */
  datatype Fitted = Fitted(stage: Stage, on: Matrix, labels: seq<nat>)

  /** A feature matrix: the extracted features, or a fitted stage applied to a
      matrix. */
  datatype Matrix = Features(rows: seq<FeatureMap>) | Transformed(applied: Fitted, input: Matrix)

  /** The fitted stages stored on the model. */
  datatype FittedPipeline = FittedPipeline(vectorizer: Fitted, scaler: Option<Fitted>, selector: Option<Fitted>)

  /** The stages that produced a matrix, first to last. */
  function StagesOf(m: Matrix): seq<Stage> {
    match m
    case Features(_) => []
    case Transformed(f, input) => StagesOf(input) + [f.stage]
  }

  /** The stages the configuration asks for, in pipeline order; an absent scaler
      or selector is skipped. */
  function Order(scaler: Option<ScalerKind>, selector: Option<SelectorKind>): (r: seq<Stage>)
    ensures |r| >= 1 && r[0] == Vectorize
    ensures forall i :: 0 <= i < |r| ==> (r[i].Scale? ==> scaler == Some(r[i].scaler))
    ensures forall i :: 0 <= i < |r| ==> (r[i].Select? ==> selector == Some(r[i].selector))
    ensures forall i, j :: 0 <= i < j < |r| ==> !(r[i].Select? && r[j].Scale?)
    ensures |r| == 1 + (if scaler.Some? then 1 else 0) + (if selector.Some? then 1 else 0)
  {
    [Vectorize]
    + (if scaler.Some? then [Scale(scaler.value)] else [])
    + (if selector.Some? then [Select(selector.value)] else [])
  }

  /** `_preprocess_data(X, y, fit=True)` on the features and the class ids: each
      stage is fitted on, and applied to, the output of the previous one. */
  function FitAll(feats: seq<FeatureMap>, y: seq<nat>, scaler: Option<ScalerKind>, selector: Option<SelectorKind>)
    : (r: (FittedPipeline, Matrix))
    ensures r.0.vectorizer.stage == Vectorize
    ensures r.0.scaler.Some? <==> scaler.Some?
    ensures r.0.scaler.Some? ==> r.0.scaler.value.stage == Scale(scaler.value)
    ensures r.0.selector.Some? <==> selector.Some?
    ensures r.0.selector.Some? ==> r.0.selector.value.stage == Select(selector.value)
  {
    var x0 := Features(feats);
    var v := Fitted(Vectorize, x0, []);
    var x1 := Transformed(v, x0);
    var sc := if scaler.Some? then Some(Fitted(Scale(scaler.value), x1, [])) else None;
    var x2 := if sc.Some? then Transformed(sc.value, x1) else x1;
    var se := if selector.Some? then Some(Fitted(Select(selector.value), x2, y)) else None;
    var x3 := if se.Some? then Transformed(se.value, x2) else x2;
    (FittedPipeline(v, sc, se), x3)
  }

  /** `_preprocess_data(X)` with fitted stages: the same order, each stage applied
      with the state it was fitted to. */
  function TransformAll(p: FittedPipeline, feats: seq<FeatureMap>): (r: Matrix)
    ensures StagesOf(r) == StagesOfPipeline(p)
  {
    var x1 := Transformed(p.vectorizer, Features(feats));
    assert StagesOf(x1) == [] + [p.vectorizer.stage];
    var x2 := if p.scaler.Some? then Transformed(p.scaler.value, x1) else x1;
    if p.selector.Some? then Transformed(p.selector.value, x2) else x2
  }

  /** The stages a fitted pipeline holds, in order. */
  function StagesOfPipeline(p: FittedPipeline): seq<Stage> {
    [p.vectorizer.stage]
    + (if p.scaler.Some? then [p.scaler.value.stage] else [])
    + (if p.selector.Some? then [p.selector.value.stage] else [])
  }

  /** Applying the optional scaler and selector after the vectorizer adds their
      stages in that order. */
  lemma StagesOfChain(x1: Matrix, sc: Option<Fitted>, se: Option<Fitted>)
    requires StagesOf(x1) == [Vectorize]
    ensures var x2 := if sc.Some? then Transformed(sc.value, x1) else x1;
            var x3 := if se.Some? then Transformed(se.value, x2) else x2;
            StagesOf(x3) == [Vectorize]
                            + (if sc.Some? then [sc.value.stage] else [])
                            + (if se.Some? then [se.value.stage] else [])
  {
    var x2 := if sc.Some? then Transformed(sc.value, x1) else x1;
    assert StagesOf(x2) == [Vectorize] + (if sc.Some? then [sc.value.stage] else []);
  }

  /** Fitting runs exactly the configured stages in order, the vectorizer on
      the raw features, the scaler on the vectorized matrix and the selector on
      the last matrix before it, together with the class ids. */
  lemma FitAllOrder(feats: seq<FeatureMap>, y: seq<nat>, scaler: Option<ScalerKind>, selector: Option<SelectorKind>)
    ensures var (p, x) := FitAll(feats, y, scaler, selector);
            && StagesOf(x) == Order(scaler, selector)
            && StagesOfPipeline(p) == Order(scaler, selector)
            && p.vectorizer.on == Features(feats)
            && (p.scaler.Some? ==> p.scaler.value.on == Transformed(p.vectorizer, Features(feats)))
            && (p.selector.Some? ==> p.selector.value.labels == y &&
                                     StagesOf(p.selector.value.on) == Order(scaler, None))
  {
    var (p, x) := FitAll(feats, y, scaler, selector);
    var x1 := Transformed(p.vectorizer, Features(feats));
    assert StagesOf(x1) == [] + [Vectorize];
    StagesOfChain(x1, p.scaler, p.selector);
    StagesOfChain(x1, p.scaler, None);
  }

  /** The fitted pipeline transforms its own training features into the
      training matrix (`fit_transform` is `fit` followed by `transform`), and
      transforming any features runs the same stages as fitting. */
  lemma TransformAllMatchesFit(feats: seq<FeatureMap>, y: seq<nat>, scaler: Option<ScalerKind>,
                               selector: Option<SelectorKind>, other: seq<FeatureMap>)
    ensures var (p, x) := FitAll(feats, y, scaler, selector);
            && TransformAll(p, feats) == x
            && StagesOf(TransformAll(p, other)) == Order(scaler, selector)
  {
    var (p, x) := FitAll(feats, y, scaler, selector);
    var x1 := Transformed(p.vectorizer, Features(other));
    assert StagesOf(x1) == [] + [Vectorize];
    StagesOfChain(x1, p.scaler, p.selector);
  }
}
