# The text model of MindMeld Workbench, in Dafny

This project models `TextModel` in `mmworkbench/models/text_models.py`. That class turns
examples (queries) and their gold labels into a trained scikit-learn classifier, and it turns
the classifier's per-class scores back into predictions over decoded labels. The model covers:

- the classifier, feature selector and feature scaler lookups
  (`_get_model_constructor`, `_get_feature_selector`, `_get_feature_scaler`);
- `fit`:
  - the shuffle;
  - the early return on one distinct label, or none;
  - the choice between direct fitting and parameter search;
  - the updates to `_clf` and `_current_params`;
- the fitted class encoder (`classes_` = the distinct labels, sorted) and the feature pipeline
  (`_preprocess_data`: vectorizer, then scaler, then selector);
- the parameter conversion `_convert_params`:
  - re-keying `class_weight`;
  - turning `class_bias` into class weights;
  - grid and single shape;
- the decoding in `_predict_proba`;
- the `-inf` sentinel of `predict_log_proba`;
- the resource pruning of `__getstate__`.

Modules, one per concern:

- `Wrappers` holds `Option` and `Result`.
- `Dicts` models Python's insertion-ordered dicts as lists of entries.
- `Values` holds parameter values, scores and errors.
- `Kinds` holds the three lookups.
- `ClassEncoder` models the class encoder.
- `Params` is `_convert_params` as a pure specification.
- `Shuffle` models the permutation `fit` applies.
- `Pipeline` models the feature stages.
- `Decoding` models `_predict_proba` and `predict_log_proba`'s sentinel.
- `TextModels` holds the `TextModel` class itself. Its methods update the fitted state in place and are proved against the functions above.

Each exception raised by the modelled code is an `Error` value returned in a `Result`.

Several things come in as parameters rather than being modelled:

- the random shuffle, as a permutation of the label indices;
- the label encoder (`encode`/`decode`);
- feature extraction (`extract`);
- the classifier's scores (`predictProba`);
- the cross-validated search (`search`).

The scikit-learn estimators are opaque terms that record what they were fitted on.

## Model

| member | source | states |
|---|---|---|
| TextModels.TextModel.constructor | mmworkbench/models/text_models.py:45-55 | nothing is fitted yet; the selector and scaler are the lookups of the model settings; the resources are those given |
| TextModels.PruneResources | mmworkbench/models/text_models.py:64-65 | the pickled resource cache has exactly the word- and query-frequency keys; each holds the cached table if there is one and `{}` otherwise |
| TextModels.PruneIdempotent | mmworkbench/models/text_models.py:63-67 | pruning a pruned cache gives the same cache, so a reloaded model pickles to the same resources |
| TextModels.PruneKeepsOnlyNamed | mmworkbench/models/text_models.py:64-65 | a cache with exactly the two kept keys is stored unchanged; every other entry is dropped |
| TextModels.TextModel.GetState | mmworkbench/models/text_models.py:57-67 | the state holds every attribute unchanged except the resources, which are pruned |
| Kinds.ModelConstructor | mmworkbench/models/text_models.py:69-79 | no settings, or no `classifier_type`, raises; otherwise it succeeds exactly for the four base types, naming the kind looked up, and an unknown type raises a ValueError whose message contains the type |
| Kinds.LookupsInvertNames | mmworkbench/models/text_models.py:69-79 | looking up a kind's name gives that kind back, for the classifier, selector and scaler tables, whatever else the settings hold |
| Kinds.BogusKindIsNamed | mmworkbench/models/text_models.py:71-79 | the type "bogus" is rejected with a message naming it |
| Kinds.FeatureSelector | mmworkbench/models/text_models.py:279-293 | a selector exists exactly when the settings name "l1" or "f", and it is the one named; absent settings or an unknown name give None, never an error |
| Kinds.FeatureScaler | mmworkbench/models/text_models.py:295-303 | a scaler exists exactly when the settings name "std-dev" or "max-abs", and it is the one named; otherwise None |
| TextModels.EffectiveParams | mmworkbench/models/text_models.py:122 | `params or config.params`: a given non-empty dict is used, and a missing or empty one falls back to the configuration's |
| TextModels.CountDistinct | mmworkbench/models/text_models.py:131-132 | `len(set(labels))` is 0 exactly for no labels, and at most 1 exactly when all labels are equal |
| TextModels.TextModel.Fit | mmworkbench/models/text_models.py:104-148 | more labels than examples raise IndexError with nothing changed; one distinct label or none returns with nothing changed; otherwise the encoder and the pipeline are fitted on the shuffled data, and the classifier and current parameters come from direct fitting (params given or no selection configured) or from the search; in every case only the effective dict (`params or config.params`) can be rewritten, and the other one keeps its entries |
| TextModels.TextModel.FitShuffled | mmworkbench/models/text_models.py:135-146 | `classes_` and the pipeline are those fitted on the encoded labels and the extracted features, the groups are the example indices, and the training outcome follows |
| TextModels.TextModel.Train | mmworkbench/models/text_models.py:139-146 | direct fitting converts the dict in place and keeps the trained classifier with that same dict; when it raises, the classifier and current parameters stay as they were; the search keeps its best classifier and its parameters |
| TextModels.TextModel.FitDirect | mmworkbench/models/text_models.py:157-168 | the parameters are converted first, then the kind is looked up: a failed conversion leaves the dict alone, and an unknown kind raises after the dict was converted; on success the classifier is trained on the converted parameters |
| Shuffle.PickShortExamples | mmworkbench/models/text_models.py:126-128 | indexing the examples by the shuffled label indices succeeds exactly when there are no more labels than examples |
| Shuffle.Pick | mmworkbench/models/text_models.py:128-129 | the comprehension succeeds exactly when every index is in range, giving the elements at those indices in order, and raises IndexError otherwise |
| Shuffle.PickPermutes | mmworkbench/models/text_models.py:126-129 | the shuffled sequence holds the same elements with the same multiplicities |
| Shuffle.ShufflePairs | mmworkbench/models/text_models.py:126-129 | examples and labels move together: the shuffled (example, label) pairs are the original pairs, reordered |
| Shuffle.ShuffleKeepsLabels | mmworkbench/models/text_models.py:129-132 | the shuffled labels hold the same distinct labels, so the early return on distinct labels does not depend on the shuffle |
| TextModels.FeatureMaps | mmworkbench/models/text_models.py:218-222 | the features of every example in order, and each example's index as its group |
| TextModels.TextModel.PreprocessFit | mmworkbench/models/text_models.py:229-235 | `classes_` and `y` come from fitting the encoder on the labels; the pipeline and the matrix are those of fitting the configured stages in order; nothing else changes |
| TextModels.TextModel.PreprocessTransform | mmworkbench/models/text_models.py:236-243 | an unfitted model raises; otherwise the fitted stages are applied in the same order |
| Pipeline.Order | mmworkbench/models/text_models.py:229-241 | the vectorizer comes first, a configured scaler is never after a configured selector, and only configured stages appear |
| Pipeline.FitAllOrder | mmworkbench/models/text_models.py:229-235 | fitting runs exactly the configured stages in order; the vectorizer is fitted on the features, the selector on the class ids |
| Pipeline.TransformAllMatchesFit | mmworkbench/models/text_models.py:229-241 | transforming the training features with the fitted pipeline yields the matrix fitting produced |
| Pipeline.FitAll | mmworkbench/models/text_models.py:229-235 | the vectorizer is always fitted, and a scaler or selector is fitted exactly when one is configured, of the configured kind |
| Pipeline.TransformAll | mmworkbench/models/text_models.py:236-241 | transform mode runs exactly the stages the fitted pipeline holds, in order |
| ClassEncoder.FitTransform | mmworkbench/models/text_models.py:230 | `classes_` is strictly sorted and holds exactly the labels; each label is encoded as its index there; every class id occurs |
| ClassEncoder.StrictlySortedUnique | mmworkbench/models/text_models.py:230 | a strictly sorted list is determined by its elements, so `classes_` does not depend on the label order (and so not on the shuffle) |
| ClassEncoder.SortedDistinct | mmworkbench/models/text_models.py:230 | `classes_` is strictly sorted and holds exactly the labels seen |
| ClassEncoder.Transform | mmworkbench/models/text_models.py:258 | succeeds exactly for a known label, giving its index; an unseen label raises |
| ClassEncoder.InverseTransform | mmworkbench/models/text_models.py:199 | succeeds exactly for an index within `classes_`, giving the label there |
| ClassEncoder.TransformRoundTrip | mmworkbench/models/text_models.py:199 | on a fitted encoder, transform and inverse transform invert each other in both directions |
| TextModels.TextModel.ConvertParams | mmworkbench/models/text_models.py:245-277 | the dict is rewritten to the conversion's result, or left as it was when the conversion raises; no dict raises |
| Params.ConvertLeavesOthers | mmworkbench/models/text_models.py:245-277 | every parameter other than `class_weight` and `class_bias` is kept |
| Params.ConvertClassWeight | mmworkbench/models/text_models.py:256-260 | with `class_weight`: each candidate dict is re-keyed; grid shape gives a list (one per candidate, in order), single shape the one dict; `class_bias` is untouched; it fails exactly when a candidate is not a dict or holds an unseen label, or a grid value is not a list |
| Params.ConvertClassBias | mmworkbench/models/text_models.py:261-275 | with `class_bias` only: `class_weight` becomes the bias weights, one dict per candidate, and `class_bias` is deleted; it fails exactly when a bias is not a number while there are classes, or a grid value is not a list |
| Params.RekeyTranslates | mmworkbench/models/text_models.py:258-259 | without key collisions, re-keying translates every key to its class id, in order, with the values unchanged |
| Params.RekeyIntoFails | mmworkbench/models/text_models.py:258-259 | re-keying fails exactly when some key is an unseen label, and then with that label's error |
| Params.RekeyIntoWellFormed | mmworkbench/models/text_models.py:258-259 | the re-keyed dict has distinct keys, all of them class ids |
| Params.RekeyIntoAssigns | mmworkbench/models/text_models.py:258-259 | with known keys, the comprehension assigns the translated entries one after another, as `d[k] = v` would |
| Params.RekeyCollision | mmworkbench/models/text_models.py:258-259 | two keys that translate to the same class id (a label and its id) leave the id once in the re-keyed dict: at the position the first of them gave it, holding the value of the last |
| Params.RekeyCollisionExample | mmworkbench/models/text_models.py:258-259 | the keys `0` and `"a"` with classes `["a"]` give the one entry `0`, holding the later value |
| Params.Rekey | mmworkbench/models/text_models.py:258-259 | re-keying one candidate succeeds exactly when it is a dict whose keys are ints or known labels; a non-dict raises, and an unseen label raises naming a label not among the classes |
| Params.RekeyInto | mmworkbench/models/text_models.py:258-259 | the comprehension over one dict's entries fails only on a label the encoder has not seen |
| Dicts.SetAllKeepsPlace | mmworkbench/models/text_models.py:258-259 | once a key is in a dict, later assignments leave it at its position |
| Dicts.SetAllLast | mmworkbench/models/text_models.py:258-259 | a key ends with the value of its last assignment |
| Params.Balanced | mmworkbench/models/text_models.py:270 | a balanced weight is positive |
| Params.BiasEndpoints | mmworkbench/models/text_models.py:262-273 | bias 0 weights every class 1 and bias 1 gives exactly the balanced weights |
| Params.BiasInterpolates | mmworkbench/models/text_models.py:262-273 | for a bias in [0, 1], each weight lies between 1 and the balanced weight |
| Params.TotalWeightPreserved | mmworkbench/models/text_models.py:264-273 | for every bias, the sum over classes of count times weight equals the number of examples |
| Params.BiasWeightsKeys | mmworkbench/models/text_models.py:271-273 | a bias weight dict has exactly the keys 0..k-1, in order, and class c maps to the bias formula |
| Params.BiasDictKeys | mmworkbench/models/text_models.py:268-273 | every dict the bias branch produces has exactly the class ids as keys and weights each class by the formula |
| Params.BiasExample | mmworkbench/models/text_models.py:270-273 | classes counted 3 and 1 with bias 0.5 are weighted 5/6 and 3/2 |
| Params.Convert | mmworkbench/models/text_models.py:245-277 | a dict with neither `class_weight` nor `class_bias` is returned unchanged; the other cases are the lemmas ConvertClassWeight, ConvertClassBias and ConvertLeavesOthers |
| Params.BiasDict | mmworkbench/models/text_models.py:268-273 | one bias candidate gives one class-weight dict, and fails only with a non-number bias |
| Params.BiasValue | mmworkbench/models/text_models.py:273 | `class_bias` as a number: numbers and booleans are accepted, `True` as 1 and `False` as 0, and anything else fails as not a number |
| Params.BiasWeights | mmworkbench/models/text_models.py:271-273 | the dict has one entry per class id, keyed 0..k-1 in order, and every weight is positive for a bias in [0, 1] |
| Params.BiasWeight | mmworkbench/models/text_models.py:273 | for a bias in [0, 1] the weight `(1 - b) + b * balanced` is positive |
| Params.BiasAll | mmworkbench/models/text_models.py:267-274 | the loop over bias candidates succeeds exactly when every candidate does, giving one dict per candidate in order |
| Params.RekeyAll | mmworkbench/models/text_models.py:257-259 | re-keying the candidates succeeds exactly when every candidate does, giving one dict per candidate in order |
| Params.Candidates | mmworkbench/models/text_models.py:257 | grid shape iterates the list (a non-list raises); single shape wraps the one value |
| Params.ClassId | mmworkbench/models/text_models.py:258 | int keys pass through; a label becomes its class id exactly when the encoder knows it |
| TextModels.TextModel.PredictProba | mmworkbench/models/text_models.py:176-178 | an unfitted model raises; otherwise every row of the classifier's probabilities on the transformed examples is decoded with the top label at the argmax (the corrected rule, see Findings), which is what the source computes on probabilities with distinct labels (Decoding.AllProbabilitiesAgree) |
| TextModels.TextModel.PredictLogProba | mmworkbench/models/text_models.py:180-190 | the log-probabilities are decoded with the top label at the argmax (the corrected rule, see Findings), then each prediction keeps its top label and its dict is sanitized |
| Decoding.ReplaceNegInf | mmworkbench/models/text_models.py:185-189 | in place, every prediction keeps its position and top label, and its dict is sanitized |
| Decoding.SanitizeProbsMeaning | mmworkbench/models/text_models.py:185-189 | after sanitizing, no score is `-inf` and each former `-inf` is -1e10; the other scores, the labels and the order are kept, and a key lookup gives the sanitized old score |
| Decoding.SanitizeIdempotent | mmworkbench/models/text_models.py:185-189 | sanitizing twice is sanitizing once |
| Decoding.SanitizeScore | mmworkbench/models/text_models.py:26 | `-inf` becomes `_NEG_INF` = -1e10; finite scores are kept |
| Decoding.SanitizeProbs | mmworkbench/models/text_models.py:185-189 | the sanitized dict has the same entries in the same order, each score sanitized |
| Decoding.FirstMax | mmworkbench/models/text_models.py:195 | `row.argmax()`: an index whose score nothing beats, strictly above every earlier score |
| Decoding.FirstMaxUnique | mmworkbench/models/text_models.py:195 | those two properties determine the argmax index |
| Decoding.DecodeRow | mmworkbench/models/text_models.py:192-206 | a row decodes exactly when it is non-empty and fits the classes; the top label is the decoded label at the argmax |
| Decoding.DecodeRowIs | mmworkbench/models/text_models.py:196-204 | with distinct decoded labels, the dict (built by Decoding.ProbsFold, the assignments of lines 196-201) pairs each class's label with its score in class order, and the top label is at the argmax |
| Decoding.DecodeAll | mmworkbench/models/text_models.py:193-206 | all rows decode exactly when each does, giving one prediction per row in order |
| Decoding.DecodeRows | mmworkbench/models/text_models.py:192-206 | the loop over rows and classes fills each dict in class order and keeps the first maximal index as top label, computing the corrected decoding of every row, or raises with the first failing row's error |
| Decoding.AsWrittenNoneIff | mmworkbench/models/text_models.py:196-203 | the source's loop over one row: the top label stays None exactly as long as no score exceeds -1.0, and is always one of the labels seen |
| Decoding.DecodeRowAsWritten | mmworkbench/models/text_models.py:192-206 | as written, a row decodes exactly when it is non-empty and fits the classes, and has no top label exactly when no score exceeds -1.0 |
| Decoding.DecodeAllAsWritten | mmworkbench/models/text_models.py:192-206 | as written, all rows decode exactly when each does, one prediction per row in order |
| Decoding.AsWrittenStepIs | mmworkbench/models/text_models.py:196-203 | as written (Decoding.AsWrittenStep is the loop of lines 196-203), after n scores the dict pairs labels with scores; the top label is None exactly when no score exceeds -1.0, and otherwise is the argmax label |
| Decoding.AsWrittenAgrees | mmworkbench/models/text_models.py:192-206 | as written and intended agree whenever some score exceeds -1.0 |
| Decoding.ProbabilitiesAgree | mmworkbench/models/text_models.py:176-178 | on probabilities (all scores at least 0) the as-written decoding is the intended one |
| Decoding.AllProbabilitiesAgree | mmworkbench/models/text_models.py:176-178 | on a matrix of probabilities with distinct labels, decoding every row the corrected way gives exactly what the source computes, errors included |
| Decoding.CollidingLabelsDiffer | mmworkbench/models/text_models.py:199-202 | with two class indices decoding to the same label, the source compares against the overwritten score and names a different top label than the argmax |
| Decoding.AsWrittenMissesFlatLogProbs | mmworkbench/models/text_models.py:202 | a flat log-probability row over three classes has no top label as written, but the argmax label is class 0 |

## Left out

- Logging, and the I/O of pickling, are not modelled: `__getstate__` returns the attribute record.
- The scikit-learn estimators are not modelled. A fitted stage or classifier is a term recording its kind and what it was fitted on, and its matrices and scores enter as parameters.
- Floating point is not modelled. Scores and weights are reals; `-inf` is a separate score; NaN does not occur.
- The base `Model` class, `helpers.py` and `model.py` are not part of this model.
  - The resource cache is given to the constructor.
  - `WORD_FREQ_RSC` and `QUERY_FREQ_RSC` are represented by two distinct names; only their distinctness matters.
- The label encoder and `_extract_features` are parameters (`encode`, `decode`, `extract`), since they live in other files.
- `_fit_cv` is the `search` parameter.
- `evaluate`, `predict` and `select_params` are not modelled, because what they add to the modelled members is external:
  - `evaluate` builds `EvaluatedExample` and `StandardModelEvaluation` records from `_get_effective_config`, none of which is in this file;
  - `predict` calls the fitted classifier's `predict`, which the model does not represent;
  - `select_params` passes a fourth argument, `selection_settings`, to `_fit_cv`, which the three-argument `search` parameter does not take.
- The estimator, search and predictor calls always succeed in the model: `model_class(**params)`, its `.fit(X, y)`, the stages' fits, `search` (`_fit_cv`) and the scores given to the predict members. In the source their exceptions propagate. For example, a parameter name the estimator does not accept raises TypeError at `model_class(**params)`; `_clf` and `_current_params` then keep their old values, but the encoder and the pipeline have already been refitted. TextModels.TextModel.FitDirect and TextModels.TextModel.Train instead ensure a trained classifier whenever the conversion and the kind lookup succeed.
- `random.shuffle` is replaced by its outcome, a permutation of the label indices given to `Fit`.
- A grid value that is not a list counts as not iterable. A string, a tuple or a dict would be iterated by Python, and that is not modelled.
- Python's `bool` keys of a class-weight dict, which are also `int`s, are not distinguished.
- The `_meta_type`, `_meta_feat_vectorizer`, `_base_clfs`, `cv_loss_` and `train_acc_` attributes are not modelled. Nothing in the modelled code reads them.
- TextModels.TextModel.PredictLogProba: the top label is taken at the argmax (the corrected rule of Findings). Where every log-probability is at most -1.0 the model reports a label and the source reports None (Decoding.AsWrittenMissesFlatLogProbs).
- TextModels.TextModel.PredictProba: the top label is taken at the argmax. When two class indices decode to the same label the source's comparison reads the overwritten score and can name another label (Decoding.CollidingLabelsDiffer); on probabilities with distinct labels the two agree (Decoding.AllProbabilitiesAgree).
- Decoding.DecodeRows: the loop keeps the first maximal index instead of comparing with `probabilities.get(top_class, -1.0)`, so it computes the corrected decoding; the source's loop is modelled as Decoding.AsWrittenStep (with Decoding.AsWrittenNoneIff) and related to it by Decoding.AsWrittenStepIs and Decoding.AsWrittenAgrees.
- The decoding lemmas that describe the probabilities dict entry by entry require distinct decoded labels. The dict itself is built with Python's assignment semantics for colliding labels too.
- The class encoder is modelled only as far as this class relies on it. Its sort order is code-point order on strings.
- In this file `_get_model_constructor` is called only by `_fit`, so an unknown classifier kind raises there, and the model keeps that order: the error comes after
  - the shuffle;
  - the fitting of the encoder and the pipeline;
  - `_convert_params` rewriting the parameter dict.
- Params.TotalWeightPreserved: this is stated as a sum over the per-class counts and weights, rather than over the weighted examples.
- Params.Convert: its requires asks that `y` be the fitted encoder's encoding of the training labels, which is what `_convert_params` is always called with. With a class that never occurs the balanced weight would be infinite, or NaN at bias 0, which reals cannot express.
- Kinds.ModelConstructor: the error message puts the kind between single quotes. Python's `{!r}` escapes a backslash and non-printable characters such as a newline, and switches to double quotes for a kind holding a single quote, so for kinds holding a single quote, a backslash or a non-printable character the message is not modelled exactly; `Mentions` holds for the modelled message.

## Findings

| source | as written | input that shows it | evidently intended | confidence | as-written member | corrected member |
|---|---|---|---|---|---|---|
| mmworkbench/models/text_models.py:202 | the running best starts at -1.0 (`probabilities.get(top_class, -1.0)`), so a label only becomes the top label if its score exceeds -1.0 | `predict_log_proba` on three classes with a flat distribution, log-probabilities log(1/3) ≈ -1.0986 each: the top label is None | the top label is the label at `row.argmax()`, computed on line 195 and otherwise unused (the first maximal index); this matters for log-probabilities, which can all be below -1 | not executed | Decoding.DecodeRowAsWritten (shown by Decoding.AsWrittenMissesFlatLogProbs and Decoding.AsWrittenStepIs) | Decoding.DecodeRow (proved by Decoding.DecodeRowIs and Decoding.FirstMax; Decoding.AsWrittenAgrees and Decoding.ProbabilitiesAgree show the two agree on probabilities) |
