/** The three name-to-constructor lookups of the text model: the classifier
    kind (an unknown name is a configuration error), the feature selector and
    the feature scaler (an unknown or absent name means "no such stage"). */
module Kinds {
  import opened Wrappers
  import opened Values

  type Settings = Option<map<string, string>>

  datatype ClassifierKind = LogReg | DecisionTree | RandomForest | Svm
  datatype SelectorKind = L1Model | Percentile
  datatype ScalerKind = StdDev | MaxAbs

  const CLASSIFIER_TYPE := "classifier_type"
  const FEATURE_SELECTOR := "feature_selector"
  const FEATURE_SCALER := "feature_scaler"

  function KindName(k: ClassifierKind): string {
    match k
    case LogReg => "logreg"
    case DecisionTree => "dtree"
    case RandomForest => "rforest"
    case Svm => "svm"
  }

  const BASE_MODEL_TYPES: seq<string> := ["logreg", "dtree", "rforest", "svm"]

  function SelectorName(k: SelectorKind): string {
    match k
    case L1Model => "l1"
    case Percentile => "f"
  }

  function ScalerName(k: ScalerKind): string {
    match k
    case StdDev => "std-dev"
    case MaxAbs => "max-abs"
  }

  /** The message of the ValueError for an unrecognized kind. */
  function UnrecognizedMessage(t: string): string {
    "TextModel: Classifier type '" + t + "' not recognized"
  }

  /** `t` occurs in `msg` as a contiguous piece. */
  predicate Mentions(msg: string, t: string)
    decreases |msg|
  {
    |t| <= |msg| && (msg[..|t|] == t || (|msg| > 0 && Mentions(msg[1..], t)))
  }

  lemma {:induction false} MentionsInfix(pre: string, t: string, post: string)
    ensures Mentions(pre + t + post, t)
    decreases |pre|
  {
    var msg := pre + t + post;
    if pre == [] {
      assert msg[..|t|] == t;
    } else {
      assert msg[1..] == pre[1..] + t + post;
      MentionsInfix(pre[1..], t, post);
    }
  }

  /** `_get_model_constructor`: the subscript `model_settings['classifier_type']`
      raises when the settings are None or lack the key; the lookup itself
      succeeds exactly for the four base model types. */
  function ModelConstructor(settings: Settings): (r: Result<ClassifierKind, Error>)
    ensures settings.None? ==> r == Err(NoModelSettings)
    ensures settings.Some? && CLASSIFIER_TYPE !in settings.value ==>
              r == Err(MissingSetting(CLASSIFIER_TYPE))
    ensures settings.Some? && CLASSIFIER_TYPE in settings.value ==>
              var t := settings.value[CLASSIFIER_TYPE];
              && (r.Ok? <==> t in BASE_MODEL_TYPES)
              && (r.Ok? ==> KindName(r.value) == t)
              && (r.Err? ==> r.error.UnrecognizedClassifier? && Mentions(r.error.message, t))
  {
    if settings.None? then Err(NoModelSettings)
    else if CLASSIFIER_TYPE !in settings.value then Err(MissingSetting(CLASSIFIER_TYPE))
    else
      var t := settings.value[CLASSIFIER_TYPE];
      if t == "logreg" then Ok(LogReg)
      else if t == "dtree" then Ok(DecisionTree)
      else if t == "rforest" then Ok(RandomForest)
      else if t == "svm" then Ok(Svm)
      else
        MentionsInfix("TextModel: Classifier type '", t, "' not recognized");
        Err(UnrecognizedClassifier(UnrecognizedMessage(t)))
  }

  /** `_get_feature_selector`: a selector exactly when the settings name one of
      the two known selectors; None otherwise, never an error. */
  function FeatureSelector(settings: Settings): (r: Option<SelectorKind>)
    ensures r.Some? <==> settings.Some? && FEATURE_SELECTOR in settings.value &&
                         settings.value[FEATURE_SELECTOR] in {"l1", "f"}
    ensures r.Some? ==> SelectorName(r.value) == settings.value[FEATURE_SELECTOR]
  {
    if settings.None? || FEATURE_SELECTOR !in settings.value then None
    else
      var t := settings.value[FEATURE_SELECTOR];
      if t == "l1" then Some(L1Model)
      else if t == "f" then Some(Percentile)
      else None
  }

  /** `_get_feature_scaler`: a scaler exactly when the settings name one of the
      two known scalers; None otherwise, never an error. */
  function FeatureScaler(settings: Settings): (r: Option<ScalerKind>)
    ensures r.Some? <==> settings.Some? && FEATURE_SCALER in settings.value &&
                         settings.value[FEATURE_SCALER] in {"std-dev", "max-abs"}
    ensures r.Some? ==> ScalerName(r.value) == settings.value[FEATURE_SCALER]
  {
    if settings.None? || FEATURE_SCALER !in settings.value then None
    else
      var t := settings.value[FEATURE_SCALER];
      if t == "std-dev" then Some(StdDev)
      else if t == "max-abs" then Some(MaxAbs)
      else None
  }

  /** Naming a kind and looking it up gives the kind back, whatever else the
      settings hold, so the lookups are the inverses of the names. */
  lemma LookupsInvertNames(m: map<string, string>, c: ClassifierKind, s: SelectorKind, k: ScalerKind)
    ensures ModelConstructor(Some(m[CLASSIFIER_TYPE := KindName(c)])) == Ok(c)
    ensures FeatureSelector(Some(m[FEATURE_SELECTOR := SelectorName(s)])) == Some(s)
    ensures FeatureScaler(Some(m[FEATURE_SCALER := ScalerName(k)])) == Some(k)
  {
  }

  /** An unknown kind such as "bogus" is a configuration error whose message
      names it. */
  lemma BogusKindIsNamed()
    ensures var r := ModelConstructor(Some(map[CLASSIFIER_TYPE := "bogus"]));
            r.Err? && r.error.UnrecognizedClassifier? && Mentions(r.error.message, "bogus")
  {
  }
}
