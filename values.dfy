/** The values that flow through the text model: parameter values as they come
    from a configuration, the keys of a class-weight dict, classifier scores,
    and the errors the source raises. */
module Values {
  import opened Dicts

  /** Key of a `class_weight` dict: an integer class id or a raw label. */
  datatype Key = IntKey(id: int) | LabelKey(name: string)

  /** A parameter value: a number, a string, a boolean, `None`, a list (one per
      grid candidate) or a dict (a class-weight table). Python's `int` and
      `float` are both `Num`. */
  datatype Value =
    | Num(r: real)
    | Text(s: string)
    | Bool(b: bool)
    | NoneValue
    | List(items: seq<Value>)
    | ValueDict(entries: Dict<Key, Value>)

  /** A classifier score: a finite probability or log-probability, or the
      negative infinity `log(0)`. */
  datatype Score = Fin(r: real) | NegInf

  /** `a > b` on scores. */
  predicate Gt(a: Score, b: Score) {
    match a
    case NegInf => false
    case Fin(x) => b.NegInf? || x > b.r
  }

  /** The exceptions the modelled code raises, one per cause. */
  datatype Error =
    | UnrecognizedClassifier(message: string)  // ValueError of _get_model_constructor
    | MissingSetting(name: string)             // KeyError: model_settings[name]
    | NoModelSettings                          // TypeError: model_settings is None
    | UnseenLabel(name: string)               // class encoder: label not among classes_
    | UnknownClassIndex(index: nat)            // class encoder: index past classes_
    | NotFitted                                // a stage or the classifier used before fit
    | NotIterable                              // TypeError: a grid value that is not a list
    | NotADict                                 // AttributeError: `.items()` on a non-dict
    | NotANumber                               // TypeError: arithmetic on a non-number
    | NoParams                                 // TypeError: `'class_weight' in None`
    | IndexOutOfRange                          // IndexError: examples[i] past the end
    | EmptyRow                                 // ValueError: argmax of an empty row
}
