/** The parameter resolver of the text model (`_convert_params`), as a pure
    specification: what the parameter dict holds after the conversion, or the
    exception the conversion raises. TextModels.TextModel.ConvertParams performs
    it in place, as the source does, and is proved against `Convert`. */
module Params {
  import opened Wrappers
  import opened Dicts
  import opened Values
  import opened ClassEncoder

  const CLASS_WEIGHT := "class_weight"
  const CLASS_BIAS := "class_bias"

  type ParamEntries = Dict<string, Value>

  /** `bincount(y)[c]` */
  function Count(y: seq<nat>, c: nat): nat {
    multiset(y)[c]
  }

  /** scikit-learn's 'balanced' weight of class `c`: `len(y) / (k * count_c)`. */
  function Balanced(y: seq<nat>, k: nat, c: nat): (w: real)
    requires EncodedBy(y, k) && c < k
    ensures w > 0.0
  {
    assert c in y;
    (|y| as real) / ((k as real) * (Count(y, c) as real))
  }

  /** The weight of class `c` for bias `b`: `(1 - b) + b * balanced_c`. */
  function BiasWeight(b: real, y: seq<nat>, k: nat, c: nat): (w: real)
    requires EncodedBy(y, k) && c < k
    ensures 0.0 <= b <= 1.0 ==> w > 0.0
  {
    var bal := Balanced(y, k, c);
    if 0.0 <= b then MulNonneg(b, bal); (1.0 - b) + b * bal
    else (1.0 - b) + b * bal
  }

  /** `{c: (1 - b) + b * w for c, w in zip(range(k), balanced_w)}` */
  function BiasWeights(b: real, y: seq<nat>, k: nat): (d: Dict<Key, Value>)
    requires EncodedBy(y, k)
    ensures |d| == k && forall c :: 0 <= c < k ==> d[c].0 == IntKey(c)
    ensures 0.0 <= b <= 1.0 ==> forall c :: 0 <= c < k ==> d[c].1.Num? && d[c].1.r > 0.0
  {
    seq(k, c requires 0 <= c < k => (IntKey(c), Num(BiasWeight(b, y, k, c))))
  }

  /** The candidates of a grid value: the list itself in grid shape, the one
      value in single shape. Iterating a non-list in grid shape fails. */
  function Candidates(v: Value, isGrid: bool): (r: Result<seq<Value>, Error>)
    ensures !isGrid ==> r == Ok([v])
    ensures isGrid ==> (r.Ok? <==> v.List?) && (r.Ok? ==> r.value == v.items)
  {
    if !isGrid then Ok([v])
    else if v.List? then Ok(v.items)
    else Err(NotIterable)
  }

  /** `class_bias` in arithmetic: Python numbers, and booleans as 0 and 1. */
  function BiasValue(v: Value): (r: Result<real, Error>)
    ensures r.Ok? <==> v.Num? || v.Bool?
    ensures r.Err? ==> r.error == NotANumber
    ensures v.Bool? ==> r.Ok? && (r.value == 1.0 <==> v.b) && (r.value == 0.0 <==> !v.b)
  {
    match v
    case Num(r) => Ok(r)
    case Bool(b) => Ok(if b then 1.0 else 0.0)
    case _ => Err(NotANumber)
  }

  /** The class-weight dict for one bias candidate. With no classes the
      comprehension has nothing to evaluate, so the bias is never used. */
  function BiasDict(v: Value, y: seq<nat>, k: nat): (r: Result<Value, Error>)
    requires EncodedBy(y, k)
    ensures r.Err? ==> r.error == NotANumber
  {
    if k == 0 then Ok(ValueDict([]))
    else
      var b :- BiasValue(v);
      Ok(ValueDict(BiasWeights(b, y, k)))
  }

  /** The loop over the bias candidates; the first bad candidate raises. */
  function BiasAll(vs: seq<Value>, y: seq<nat>, k: nat): (r: Result<seq<Value>, Error>)
    requires EncodedBy(y, k)
    ensures r.Ok? <==> forall i :: 0 <= i < |vs| ==> BiasDict(vs[i], y, k).Ok?
    ensures r.Ok? ==> |r.value| == |vs| &&
                      forall i :: 0 <= i < |vs| ==> r.value[i] == BiasDict(vs[i], y, k).value
    ensures r.Err? ==> r.error == NotANumber
  {
    if vs == [] then Ok([])
    else
      var w :- BiasDict(vs[0], y, k);
      var ws :- BiasAll(vs[1..], y, k);
      Ok([w] + ws)
  }

  /** A class-weight key as the classifier needs it: an int passes through, a
      label becomes its class id; a label the encoder has not seen raises. */
  function ClassId(key: Key, classes: seq<string>): (r: Result<Key, Error>)
    ensures r.Ok? ==> r.value.IntKey?
    ensures key.IntKey? ==> r == Ok(key)
    ensures key.LabelKey? ==> (r.Ok? <==> key.name in classes)
    ensures key.LabelKey? && r.Ok? ==> 0 <= r.value.id < |classes| && classes[r.value.id] == key.name
    ensures r.Err? ==> key.LabelKey? && r.error == UnseenLabel(key.name)
  {
    match key
    case IntKey(_) => Ok(key)
    case LabelKey(s) =>
      var id :- Transform(classes, s);
      Ok(IntKey(id))
  }

  /** The dict comprehension `{f(k): v for k, v in entries.items()}`,
      evaluated entry by entry into `acc`. */
  function RekeyInto(entries: Dict<Key, Value>, classes: seq<string>, acc: Dict<Key, Value>)
    : (r: Result<Dict<Key, Value>, Error>)
    ensures r.Err? ==> r.error.UnseenLabel? && r.error.name !in classes
    decreases |entries|
  {
    if entries == [] then Ok(acc)
    else
      var k :- ClassId(entries[0].0, classes);
      RekeyInto(entries[1..], classes, Set(acc, k, entries[0].1))
  }

  /** One class-weight dict of the configuration, re-keyed. */
  function Rekey(v: Value, classes: seq<string>): (r: Result<Value, Error>)
    ensures r.Ok? <==> v.ValueDict? && KeysKnown(v.entries, classes)
    ensures !v.ValueDict? ==> r == Err(NotADict)
    ensures r.Ok? ==> r.value.ValueDict?
    ensures r.Err? && v.ValueDict? ==> r.error.UnseenLabel? && r.error.name !in classes
  {
    if v.ValueDict? then
      RekeyIntoFails(v.entries, classes, []);
      var d :- RekeyInto(v.entries, classes, []);
      Ok(ValueDict(d))
    else Err(NotADict)
  }

  /** The list comprehension over the class-weight candidates. */
  function RekeyAll(vs: seq<Value>, classes: seq<string>): (r: Result<seq<Value>, Error>)
    ensures r.Ok? <==> forall i :: 0 <= i < |vs| ==> Rekey(vs[i], classes).Ok?
    ensures r.Ok? ==> |r.value| == |vs| &&
                      forall i :: 0 <= i < |vs| ==> r.value[i] == Rekey(vs[i], classes).value
  {
    if vs == [] then Ok([])
    else
      var w :- Rekey(vs[0], classes);
      var ws :- RekeyAll(vs[1..], classes);
      Ok([w] + ws)
  }

  /** What `_convert_params(grid, y, is_grid)` leaves in the dict, with the
      classes of the fitted class encoder and `y` its encoded labels. */
  function Convert(grid: ParamEntries, y: seq<nat>, classes: seq<string>, isGrid: bool)
    : (r: Result<ParamEntries, Error>)
    requires EncodedBy(y, |classes|)
    ensures !HasKey(grid, CLASS_WEIGHT) && !HasKey(grid, CLASS_BIAS) ==> r == Ok(grid)
  {
    if HasKey(grid, CLASS_WEIGHT) then
      var raw :- Candidates(Get(grid, CLASS_WEIGHT), isGrid);
      var weights :- RekeyAll(raw, classes);
      Ok(Set(grid, CLASS_WEIGHT, if isGrid then List(weights) else weights[0]))
    else if HasKey(grid, CLASS_BIAS) then
      var raw :- Candidates(Get(grid, CLASS_BIAS), isGrid);
      var weights :- BiasAll(raw, y, |classes|);
      Ok(Del(Set(grid, CLASS_WEIGHT, if isGrid then List(weights) else weights[0]), CLASS_BIAS))
    else Ok(grid)
  }

  // ---------------------------------------------------------------------
  // The class-bias formula

  /** Bias 0 weights every class 1 (no weighting); bias 1 gives exactly the
      balanced weights. */
  lemma BiasEndpoints(y: seq<nat>, k: nat, c: nat)
    requires EncodedBy(y, k) && c < k
    ensures BiasWeight(0.0, y, k, c) == 1.0
    ensures BiasWeight(1.0, y, k, c) == Balanced(y, k, c)
  {
  }

  /** For a bias in [0, 1] the weight lies between 1 and the balanced weight. */
  lemma BiasInterpolates(b: real, y: seq<nat>, k: nat, c: nat)
    requires EncodedBy(y, k) && c < k && 0.0 <= b <= 1.0
    ensures var w, bal := BiasWeight(b, y, k, c), Balanced(y, k, c);
            (1.0 <= bal ==> 1.0 <= w <= bal) && (bal <= 1.0 ==> bal <= w <= 1.0)
  {
    var bal := Balanced(y, k, c);
    var d := bal - 1.0;
    assert BiasWeight(b, y, k, c) == 1.0 + b * d;
    assert d - b * d == (1.0 - b) * d;
    if 1.0 <= bal {
      MulNonneg(b, d);
      MulNonneg(1.0 - b, d);
    } else {
      MulNonneg(b, -d);
      MulNonneg(1.0 - b, -d);
    }
  }

  lemma MulNonneg(x: real, y: real)
    requires x >= 0.0 && y >= 0.0
    ensures x * y >= 0.0
  {
  }

  /** The weight dict of one bias has exactly the keys `0..k-1`, in order, and
      class `c` is weighted by the bias formula. */
  lemma BiasWeightsKeys(b: real, y: seq<nat>, k: nat)
    requires EncodedBy(y, k)
    ensures var d := BiasWeights(b, y, k);
            && WellFormed(d)
            && (forall key :: HasKey(d, key) <==> key.IntKey? && 0 <= key.id < k)
            && (forall c :: 0 <= c < k ==> Get(d, IntKey(c)) == Num(BiasWeight(b, y, k, c)))
  {
    var d := BiasWeights(b, y, k);
    forall key ensures HasKey(d, key) <==> key.IntKey? && 0 <= key.id < k {
      HasKeyIff(d, key);
      if key.IntKey? && 0 <= key.id < k {
        assert d[key.id].0 == key;
      }
    }
    forall c | 0 <= c < k ensures Get(d, IntKey(c)) == Num(BiasWeight(b, y, k, c)) {
      GetAt(d, c);
    }
  }

  /** `sum(count_c for c < m)` */
  function CountTotal(y: seq<nat>, m: nat): nat {
    if m == 0 then 0 else CountTotal(y, m - 1) + Count(y, m - 1)
  }

  function SumReals(s: seq<real>): real {
    if s == [] then 0.0 else SumReals(s[..|s| - 1]) + s[|s| - 1]
  }

  /** `[count_c for c < k]` */
  function Counts(y: seq<nat>, k: nat): (cs: seq<real>)
    ensures |cs| == k
  {
    seq(k, c requires 0 <= c < k => Count(y, c) as real)
  }

  /** `[weight_c for c < k]`: the values of the bias weight dict, in key order. */
  function Weights(b: real, y: seq<nat>, k: nat): (ws: seq<real>)
    requires EncodedBy(y, k)
    ensures |ws| == k
  {
    seq(k, c requires 0 <= c < k => BiasWeight(b, y, k, c))
  }

  /** `sum(c_i * w_i)`: with counts and weights, the total weight of the
      training examples. */
  function Dot(cs: seq<real>, ws: seq<real>): real
    requires |cs| == |ws|
  {
    if cs == [] then 0.0 else Dot(cs[..|cs| - 1], ws[..|cs| - 1]) + cs[|cs| - 1] * ws[|cs| - 1]
  }

  /** `sum(u * c_i + sh)` */
  function AffineSum(cs: seq<real>, u: real, sh: real): real {
    if cs == [] then 0.0 else AffineSum(cs[..|cs| - 1], u, sh) + (u * cs[|cs| - 1] + sh)
  }

  /** Each `c_i * w_i` is `u * c_i + sh`. */
  ghost predicate Affine(cs: seq<real>, ws: seq<real>, u: real, sh: real) {
    |cs| == |ws| && forall i :: 0 <= i < |cs| ==> cs[i] * ws[i] == u * cs[i] + sh
  }

  lemma {:induction false} CountTotalSnoc(y: seq<nat>, x: nat, m: nat)
    ensures CountTotal(y + [x], m) == CountTotal(y, m) + (if x < m then 1 else 0)
  {
    assert multiset(y + [x]) == multiset(y) + multiset{x};
    if m > 0 { CountTotalSnoc(y, x, m - 1); }
  }

  /** Every example is counted once: the class counts add up to `len(y)`. */
  lemma {:induction false} CountTotalAll(y: seq<nat>, k: nat)
    requires forall i :: 0 <= i < |y| ==> y[i] < k
    ensures CountTotal(y, k) == |y|
  {
    if y == [] {
      CountTotalEmpty(k);
    } else {
      var init := y[..|y| - 1];
      assert y == init + [y[|y| - 1]];
      CountTotalAll(init, k);
      CountTotalSnoc(init, y[|y| - 1], k);
    }
  }

  lemma {:induction false} CountTotalEmpty(m: nat)
    ensures CountTotal([], m) == 0
  {
    if m > 0 { CountTotalEmpty(m - 1); }
  }

  /** The weight each class contributes beyond `(1 - b) * count_c`. */
  function Share(b: real, y: seq<nat>, k: nat): real
    requires k > 0
  {
    b * (|y| as real) / (k as real)
  }

  lemma {:induction false} CountTimesWeight(b: real, y: seq<nat>, k: nat, c: nat)
    requires EncodedBy(y, k) && c < k
    ensures (Count(y, c) as real) * BiasWeight(b, y, k, c)
            == (1.0 - b) * (Count(y, c) as real) + Share(b, y, k)
  {
    assert c in y;
    var cnt, n, kk := Count(y, c) as real, |y| as real, k as real;
    assert cnt > 0.0 && kk > 0.0;
    assert cnt * (n / (kk * cnt)) == n / kk;
  }

  /** Class `c`'s entry of the bias weights, times its count. */
  lemma {:induction false} WeightAt(b: real, y: seq<nat>, k: nat, c: nat)
    requires EncodedBy(y, k) && c < k
    ensures Counts(y, k)[c] * Weights(b, y, k)[c] == (1.0 - b) * Counts(y, k)[c] + Share(b, y, k)
  {
    CountTimesWeight(b, y, k, c);
  }

  lemma {:induction false} WeightsAffine(b: real, y: seq<nat>, k: nat)
    requires EncodedBy(y, k) && k > 0
    ensures Affine(Counts(y, k), Weights(b, y, k), 1.0 - b, Share(b, y, k))
  {
    forall c | 0 <= c < k
      ensures Counts(y, k)[c] * Weights(b, y, k)[c] == (1.0 - b) * Counts(y, k)[c] + Share(b, y, k)
    {
      WeightAt(b, y, k, c);
    }
  }

  lemma {:induction false} DotLinear(cs: seq<real>, ws: seq<real>, u: real, sh: real)
    requires Affine(cs, ws, u, sh)
    ensures Dot(cs, ws) == AffineSum(cs, u, sh)
    decreases |cs|
  {
    if cs != [] {
      DotLinear(cs[..|cs| - 1], ws[..|cs| - 1], u, sh);
    }
  }

  /** One more class: a running total `u * a + r * s` grows by `u * c + s`. */
  lemma AffineStep(s0: real, x: real, u: real, a: real, c: real, tot: real, r: real, r1: real, sh: real)
    requires s0 == u * a + r * sh && x == u * c + sh
    requires tot == a + c && r1 == r + 1.0
    ensures s0 + x == u * tot + r1 * sh
  {
  }

  /** The closed form of `AffineSum`. */
  lemma {:induction false} AffineSumClosed(cs: seq<real>, u: real, sh: real)
    ensures AffineSum(cs, u, sh) == u * SumReals(cs) + (|cs| as real) * sh
    decreases |cs|
  {
    if cs != [] {
      var init := cs[..|cs| - 1];
      AffineSumClosed(init, u, sh);
      AffineStep(AffineSum(init, u, sh), u * cs[|cs| - 1] + sh, u, SumReals(init), cs[|cs| - 1],
                 SumReals(cs), |init| as real, |cs| as real, sh);
    }
  }

  lemma {:induction false} SumCounts(y: seq<nat>, m: nat)
    ensures SumReals(Counts(y, m)) == CountTotal(y, m) as real
  {
    if m > 0 {
      assert Counts(y, m)[..m - 1] == Counts(y, m - 1);
      SumCounts(y, m - 1);
    }
  }

  /** The class counts, as reals, add up to `len(y)`. */
  lemma {:induction false} CountsSum(y: seq<nat>, k: nat)
    requires forall i :: 0 <= i < |y| ==> y[i] < k
    ensures SumReals(Counts(y, k)) == |y| as real
  {
    CountTotalAll(y, k);
    SumCounts(y, k);
  }

  lemma {:induction false} ShareTimesClasses(b: real, y: seq<nat>, k: nat)
    requires k > 0
    ensures (k as real) * Share(b, y, k) == b * (|y| as real)
  {
    var x, d := b * (|y| as real), k as real;
    assert Share(b, y, k) == x / d;
    assert d * (x / d) == x;
  }

  /** With the counts summing to `len(y)`, the closed form comes to `len(y)`. */
  lemma {:induction false} AllClassesFormula(b: real, y: seq<nat>, k: nat, t: real, cs: seq<real>)
    requires |cs| == k > 0
    requires t == (1.0 - b) * SumReals(cs) + (|cs| as real) * Share(b, y, k)
    requires SumReals(cs) == |y| as real
    ensures t == |y| as real
  {
    ShareTimesClasses(b, y, k);
    assert t == (1.0 - b) * (|y| as real) + b * (|y| as real);
  }

  lemma {:induction false} DotFormula(b: real, y: seq<nat>, k: nat)
    requires EncodedBy(y, k) && k > 0
    ensures Dot(Counts(y, k), Weights(b, y, k)) == AffineSum(Counts(y, k), 1.0 - b, Share(b, y, k))
  {
    WeightsAffine(b, y, k);
    DotLinear(Counts(y, k), Weights(b, y, k), 1.0 - b, Share(b, y, k));
  }

  lemma {:induction false} AffineFormula(b: real, y: seq<nat>, k: nat)
    requires EncodedBy(y, k) && k > 0
    ensures AffineSum(Counts(y, k), 1.0 - b, Share(b, y, k)) == |y| as real
  {
    AffineSumClosed(Counts(y, k), 1.0 - b, Share(b, y, k));
    CountsSum(y, k);
    AllClassesFormula(b, y, k, AffineSum(Counts(y, k), 1.0 - b, Share(b, y, k)), Counts(y, k));
  }

  /** Whatever the bias, the class weights keep the total weight of the
      training examples equal to their number: interpolating between no
      weighting and balanced weighting only moves weight between classes. */
  lemma {:induction false} TotalWeightPreserved(b: real, y: seq<nat>, k: nat)
    requires EncodedBy(y, k)
    ensures Dot(Counts(y, k), Weights(b, y, k)) == |y| as real
  {
    if k > 0 {
      DotFormula(b, y, k);
      AffineFormula(b, y, k);
    } else {
      CountTotalAll(y, k);
    }
  }

  /** Two classes counted 3 and 1 with bias 0.5 get the weights 5/6 and 3/2
      from the formula of `BiasWeight`. */
  lemma BiasExample()
    ensures BiasWeights(0.5, [0, 0, 0, 1], 2) == [(IntKey(0), Num(5.0 / 6.0)), (IntKey(1), Num(1.5))]
  {
    var y: seq<nat> := [0, 0, 0, 1];
    assert y[3] == 1;
    assert multiset(y)[0] == 3 && multiset(y)[1] == 1;
    assert EncodedBy(y, 2);
    assert BiasWeight(0.5, y, 2, 0) == 5.0 / 6.0;
    assert BiasWeight(0.5, y, 2, 1) == 1.5;
  }

  // ---------------------------------------------------------------------
  // Re-keying a class-weight dict

  /** Every key of `entries` is an int or a label the encoder knows. */
  ghost predicate KeysKnown(entries: Dict<Key, Value>, classes: seq<string>) {
    forall i :: 0 <= i < |entries| ==> ClassId(entries[i].0, classes).Ok?
  }

  /** The entries with their keys translated, before any collision is resolved. */
  function Translated(entries: Dict<Key, Value>, classes: seq<string>): (t: Dict<Key, Value>)
    requires KeysKnown(entries, classes)
    ensures |t| == |entries|
    ensures forall i :: 0 <= i < |t| ==> t[i].0.IntKey? && t[i].1 == entries[i].1
  {
    seq(|entries|, i requires 0 <= i < |entries| && KeysKnown(entries, classes) =>
                     (ClassId(entries[i].0, classes).value, entries[i].1))
  }

  /** The comprehension fails exactly when some key is an unseen label, and then
      with that label's error. */
  lemma {:induction false} RekeyIntoFails(entries: Dict<Key, Value>, classes: seq<string>, acc: Dict<Key, Value>)
    ensures RekeyInto(entries, classes, acc).Ok? <==> KeysKnown(entries, classes)
    ensures RekeyInto(entries, classes, acc).Err? ==>
              exists i :: 0 <= i < |entries| && entries[i].0.LabelKey? &&
                          entries[i].0.name !in classes &&
                          RekeyInto(entries, classes, acc).error == UnseenLabel(entries[i].0.name)
    decreases |entries|
  {
    if entries != [] {
      var k := ClassId(entries[0].0, classes);
      if k.Ok? {
        RekeyIntoFails(entries[1..], classes, Set(acc, k.value, entries[0].1));
        if RekeyInto(entries, classes, acc).Err? {
          var i :| 0 <= i < |entries[1..]| && entries[1..][i].0.LabelKey? &&
                   entries[1..][i].0.name !in classes &&
                   RekeyInto(entries[1..], classes, Set(acc, k.value, entries[0].1)).error
                     == UnseenLabel(entries[1..][i].0.name);
          assert entries[i + 1] == entries[1..][i];
        }
        forall i | 0 <= i < |entries[1..]| ensures entries[1..][i] == entries[i + 1] { }
      } else {
        assert !ClassId(entries[0].0, classes).Ok?;
      }
    }
  }

  /** Without collisions between the translated keys, the comprehension appends
      the translated entries in order, values unchanged. */
  lemma {:induction false} RekeyIntoAppends(entries: Dict<Key, Value>, classes: seq<string>, acc: Dict<Key, Value>)
    requires KeysKnown(entries, classes)
    requires WellFormed(acc + Translated(entries, classes))
    ensures RekeyInto(entries, classes, acc) == Ok(acc + Translated(entries, classes))
    decreases |entries|
  {
    if entries != [] {
      var t := Translated(entries, classes);
      var rest := entries[1..];
      assert KeysKnown(rest, classes) by {
        forall i | 0 <= i < |rest| ensures ClassId(rest[i].0, classes).Ok? {
          assert rest[i] == entries[i + 1];
        }
      }
      assert Translated(rest, classes) == t[1..];
      var k := t[0].0;
      forall j | 0 <= j < |acc| ensures acc[j].0 != k {
        assert (acc + t)[j] == acc[j] && (acc + t)[|acc|] == t[0];
      }
      FindExact(acc, k, |acc|);
      assert ClassId(entries[0].0, classes) == Ok(k);
      assert Set(acc, k, entries[0].1) == acc + [t[0]];
      assert acc + [t[0]] + t[1..] == acc + t;
      assert t[0] == (k, entries[0].1);
      assert RekeyInto(entries, classes, acc) == RekeyInto(rest, classes, acc + [t[0]]);
      RekeyIntoAppends(rest, classes, acc + [t[0]]);
    } else {
      assert acc + Translated(entries, classes) == acc;
    }
  }

  /** One class-weight dict whose translated keys do not collide is re-keyed
      entry by entry, in order, with its values unchanged. */
  lemma RekeyTranslates(entries: Dict<Key, Value>, classes: seq<string>)
    requires KeysKnown(entries, classes) && WellFormed(Translated(entries, classes))
    ensures Rekey(ValueDict(entries), classes) == Ok(ValueDict(Translated(entries, classes)))
  {
    var t := Translated(entries, classes);
    assert [] + t == t;
    RekeyIntoAppends(entries, classes, []);
  }

  /** Assigning into a well-formed dict keeps it well formed, so the re-keyed
      dict has distinct keys, and all of them are class ids. */
  lemma {:induction false} RekeyIntoWellFormed(entries: Dict<Key, Value>, classes: seq<string>, acc: Dict<Key, Value>)
    requires WellFormed(acc) && forall j :: 0 <= j < |acc| ==> acc[j].0.IntKey?
    ensures var r := RekeyInto(entries, classes, acc);
            r.Ok? ==> WellFormed(r.value) && forall j :: 0 <= j < |r.value| ==> r.value[j].0.IntKey?
    decreases |entries|
  {
    if entries != [] {
      var k := ClassId(entries[0].0, classes);
      if k.Ok? {
        var acc' := Set(acc, k.value, entries[0].1);
        SetWellFormed(acc, k.value, entries[0].1);
        RekeyIntoWellFormed(entries[1..], classes, acc');
      }
    }
  }

  /** With known keys, the comprehension assigns the translated entries one
      after another. */
  lemma {:induction false} RekeyIntoAssigns(entries: Dict<Key, Value>, classes: seq<string>, acc: Dict<Key, Value>)
    requires KeysKnown(entries, classes)
    ensures RekeyInto(entries, classes, acc) == Ok(SetAll(acc, Translated(entries, classes)))
    decreases |entries|
  {
    if entries != [] {
      var t := Translated(entries, classes);
      var rest := entries[1..];
      assert KeysKnown(rest, classes) by {
        forall i | 0 <= i < |rest| ensures ClassId(rest[i].0, classes).Ok? {
          assert rest[i] == entries[i + 1];
        }
      }
      assert Translated(rest, classes) == t[1..];
      RekeyIntoAssigns(rest, classes, Set(acc, t[0].0, t[0].1));
    }
  }

  /** The translation of a prefix is the prefix of the translation. */
  lemma TranslatedPrefix(entries: Dict<Key, Value>, classes: seq<string>, n: nat)
    requires KeysKnown(entries, classes) && n <= |entries|
    ensures KeysKnown(entries[..n], classes)
    ensures Translated(entries[..n], classes) == Translated(entries, classes)[..n]
  {
  }

  /** Two keys that translate to the same class id (a label and its id, say)
      collide as in any Python dict comprehension: the id is stored once, at
      the position the first of them gave it, with the value of the last. */
  lemma RekeyCollision(entries: Dict<Key, Value>, classes: seq<string>, i: nat, j: nat)
    requires KeysKnown(entries, classes) && i < j < |entries|
    requires ClassId(entries[i].0, classes) == ClassId(entries[j].0, classes)
    requires forall m :: j < m < |entries| ==> ClassId(entries[m].0, classes) != ClassId(entries[j].0, classes)
    ensures Rekey(ValueDict(entries), classes).Ok? && Rekey(ValueDict(entries[..i + 1]), classes).Ok?
    ensures var k := ClassId(entries[j].0, classes).value;
            var d := Rekey(ValueDict(entries), classes).value.entries;
            && HasKey(d, k) && Get(d, k) == entries[j].1
            && Find(d, k) == Find(Rekey(ValueDict(entries[..i + 1]), classes).value.entries, k)
  {
    var t := Translated(entries, classes);
    var k := t[j].0;
    RekeyIntoAssigns(entries, classes, []);
    TranslatedPrefix(entries, classes, i + 1);
    RekeyIntoAssigns(entries[..i + 1], classes, []);
    var pre := t[..i + 1];
    assert t == pre + t[i + 1..];
    SetAllAppend([], pre, t[i + 1..]);
    assert pre[i].0 == k;
    SetAllLast([], pre, i);
    SetAllKeepsPlace(SetAll([], pre), t[i + 1..], k);
    forall m | j < m < |t| ensures t[m].0 != k {
    }
    SetAllLast([], t, j);
  }

  /** The smallest collision: the id 0 and the label "a" it encodes. */
  lemma RekeyCollisionExample()
    ensures Rekey(ValueDict([(IntKey(0), Num(1.0)), (LabelKey("a"), Num(2.0))]), ["a"])
            == Ok(ValueDict([(IntKey(0), Num(2.0))]))
  {
    var classes := ["a"];
    assert Transform(classes, "a") == Ok(0);
    assert ClassId(LabelKey("a"), classes) == Ok(IntKey(0));
    var first: Dict<Key, Value> := [(IntKey(0), Num(1.0))];
    assert Set([], IntKey(0), Num(1.0)) == first;
    assert Set(first, IntKey(0), Num(2.0)) == [(IntKey(0), Num(2.0))];
  }

  // ---------------------------------------------------------------------
  // What the conversion does to the parameter dict

  /** Entries other than `class_weight` and `class_bias` are left as they were. */
  lemma ConvertLeavesOthers(grid: ParamEntries, y: seq<nat>, classes: seq<string>, isGrid: bool, key: string)
    requires EncodedBy(y, |classes|)
    requires key != CLASS_WEIGHT && key != CLASS_BIAS
    ensures var r := Convert(grid, y, classes, isGrid);
            r.Ok? ==> HasKey(r.value, key) == HasKey(grid, key) &&
                      (HasKey(grid, key) ==> Get(r.value, key) == Get(grid, key))
  {
    var r := Convert(grid, y, classes, isGrid);
    if r.Ok? && HasKey(grid, CLASS_WEIGHT) {
      var raw := Candidates(Get(grid, CLASS_WEIGHT), isGrid).value;
      var weights := RekeyAll(raw, classes).value;
      SetOther(grid, CLASS_WEIGHT, if isGrid then List(weights) else weights[0], key);
    } else if r.Ok? && HasKey(grid, CLASS_BIAS) {
      var raw := Candidates(Get(grid, CLASS_BIAS), isGrid).value;
      var weights := BiasAll(raw, y, |classes|).value;
      var set' := Set(grid, CLASS_WEIGHT, if isGrid then List(weights) else weights[0]);
      SetOther(grid, CLASS_WEIGHT, if isGrid then List(weights) else weights[0], key);
      DelOther(set', CLASS_BIAS, key);
    }
  }

  /** The `class_weight` branch: each candidate dict is re-keyed, a list in grid
      shape (one per candidate, in order) and the one dict in single shape;
      `class_bias`, if also present, is left alone. The conversion fails exactly
      when a candidate is not a dict or holds an unseen label (or, in grid shape,
      the value is not a list). */
  lemma ConvertClassWeight(grid: ParamEntries, y: seq<nat>, classes: seq<string>, isGrid: bool)
    requires EncodedBy(y, |classes|)
    requires HasKey(grid, CLASS_WEIGHT)
    ensures var r := Convert(grid, y, classes, isGrid);
            var v := Get(grid, CLASS_WEIGHT);
            && (r.Ok? <==> (isGrid ==> v.List?) &&
                           forall i :: 0 <= i < |Candidates(v, isGrid).value| ==>
                             Rekey(Candidates(v, isGrid).value[i], classes).Ok?)
            && (r.Ok? ==> HasKey(r.value, CLASS_WEIGHT) &&
                          HasKey(r.value, CLASS_BIAS) == HasKey(grid, CLASS_BIAS))
            && (r.Ok? && isGrid ==>
                  var out := Get(r.value, CLASS_WEIGHT);
                  out.List? && |out.items| == |v.items| &&
                  forall i :: 0 <= i < |v.items| ==> out.items[i] == Rekey(v.items[i], classes).value)
            && (r.Ok? && !isGrid ==> Get(r.value, CLASS_WEIGHT) == Rekey(v, classes).value)
  {
    var r := Convert(grid, y, classes, isGrid);
    if r.Ok? {
      var raw := Candidates(Get(grid, CLASS_WEIGHT), isGrid).value;
      var weights := RekeyAll(raw, classes).value;
      SetGet(grid, CLASS_WEIGHT, if isGrid then List(weights) else weights[0]);
      SetOther(grid, CLASS_WEIGHT, if isGrid then List(weights) else weights[0], CLASS_BIAS);
    }
  }

  /** The `class_bias` branch: `class_weight` becomes the bias weights (a list
      with one dict per bias candidate, in order, in grid shape; the one dict in
      single shape) and `class_bias` is removed. It fails exactly when a bias is
      not a number while there are classes to weight (or, in grid shape, the
      value is not a list). */
  lemma ConvertClassBias(grid: ParamEntries, y: seq<nat>, classes: seq<string>, isGrid: bool)
    requires EncodedBy(y, |classes|) && WellFormed(grid)
    requires !HasKey(grid, CLASS_WEIGHT) && HasKey(grid, CLASS_BIAS)
    ensures var r := Convert(grid, y, classes, isGrid);
            var v := Get(grid, CLASS_BIAS);
            var k := |classes|;
            && (r.Ok? <==> (isGrid ==> v.List?) &&
                           (k > 0 ==> forall i :: 0 <= i < |Candidates(v, isGrid).value| ==>
                                        BiasValue(Candidates(v, isGrid).value[i]).Ok?))
            && (r.Ok? ==> WellFormed(r.value) && HasKey(r.value, CLASS_WEIGHT) &&
                          !HasKey(r.value, CLASS_BIAS))
            && (r.Ok? && isGrid ==>
                  var out := Get(r.value, CLASS_WEIGHT);
                  out.List? && |out.items| == |v.items| &&
                  forall i :: 0 <= i < |v.items| ==> out.items[i] == BiasDict(v.items[i], y, k).value)
            && (r.Ok? && !isGrid ==> Get(r.value, CLASS_WEIGHT) == BiasDict(v, y, k).value)
  {
    var r := Convert(grid, y, classes, isGrid);
    var v := Get(grid, CLASS_BIAS);
    if r.Ok? {
      var raw := Candidates(v, isGrid).value;
      var weights := BiasAll(raw, y, |classes|).value;
      var w := if isGrid then List(weights) else weights[0];
      var set' := Set(grid, CLASS_WEIGHT, w);
      SetGet(grid, CLASS_WEIGHT, w);
      SetWellFormed(grid, CLASS_WEIGHT, w);
      DelGone(set', CLASS_BIAS);
      DelOther(set', CLASS_BIAS, CLASS_WEIGHT);
    }
  }

  /** Every dict the `class_bias` branch produces, for a numeric bias `b`, has
      exactly the keys `0..k-1` and weights class `c` by the bias formula. */
  lemma BiasDictKeys(v: Value, y: seq<nat>, k: nat)
    requires EncodedBy(y, k) && BiasDict(v, y, k).Ok?
    ensures var d := BiasDict(v, y, k).value;
            && d.ValueDict?
            && WellFormed(d.entries)
            && (forall key :: HasKey(d.entries, key) <==> key.IntKey? && 0 <= key.id < k)
            && (k > 0 ==> forall c :: 0 <= c < k ==>
                  Get(d.entries, IntKey(c)) == Num(BiasWeight(BiasValue(v).value, y, k, c)))
  {
    if k > 0 {
      BiasWeightsKeys(BiasValue(v).value, y, k);
    }
  }
}
