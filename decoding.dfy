/** Turning the classifier's per-class scores into predictions: for every row a
    top label and a dict from decoded label to score (`_predict_proba`), and the
    sentinel that replaces negative infinity in log-probabilities
    (`predict_log_proba`). `names[i]` is the decoded label of class index `i`. */
module Decoding {
  import opened Wrappers
  import opened Dicts
  import opened Values

  /** `_NEG_INF`, what `predict_log_proba` writes in place of `-inf`. */
  const NEG_INF: real := -10000000000.0

  /** The score a missing top label is compared against in `_predict_proba`. */
  const START_SCORE: Score := Fin(-1.0)

  /** One prediction: the top label (None when no score beat the start score)
      and the score of every decoded label, in class-index order. */
  datatype Prediction = Prediction(top: Option<string>, probs: Dict<string, Score>)

  // ---------------------------------------------------------------------
  // The order on scores

  lemma GtIrreflexive(a: Score)
    ensures !Gt(a, a)
  {
  }

  lemma GtTransitive(a: Score, b: Score, c: Score)
    requires Gt(a, b) && Gt(b, c)
    ensures Gt(a, c)
  {
  }

  lemma GtTotal(a: Score, b: Score)
    ensures a == b || Gt(a, b) || Gt(b, a)
  {
  }

  /** The index numpy's `argmax` returns: the first index holding the maximum. */
  function FirstMax(row: seq<Score>): (m: nat)
    requires row != []
    ensures m < |row|
    ensures forall j :: 0 <= j < |row| ==> !Gt(row[j], row[m])
    ensures forall j :: 0 <= j < m ==> Gt(row[m], row[j])
    decreases |row|
  {
    var n := |row|;
    if n == 1 then 0
    else
      var init := row[..n - 1];
      var m := FirstMax(init);
      assert forall j :: 0 <= j < n - 1 ==> row[j] == init[j];
      if Gt(row[n - 1], row[m]) then
        assert forall j :: 0 <= j < n - 1 ==> Gt(row[n - 1], row[j]) by {
          forall j | 0 <= j < n - 1 ensures Gt(row[n - 1], row[j]) {
            GtTotal(row[j], row[m]);
            if row[j] != row[m] { GtTransitive(row[n - 1], row[m], row[j]); }
          }
        }
        assert forall j :: 0 <= j < n - 1 ==> !Gt(row[j], row[n - 1]) by {
          forall j | 0 <= j < n - 1 ensures !Gt(row[j], row[n - 1]) {
            GtIrreflexive(row[j]);
            if Gt(row[j], row[n - 1]) { GtTransitive(row[j], row[n - 1], row[j]); }
          }
        }
        n - 1
      else
        GtTotal(row[n - 1], row[m]);
        m
  }

  /** The first index holding the maximum is unique: the two properties in
      FirstMax's contract pin it down. */
  lemma FirstMaxUnique(row: seq<Score>, i: nat)
    requires i < |row|
    requires forall j :: 0 <= j < |row| ==> !Gt(row[j], row[i])
    requires forall j :: 0 <= j < i ==> Gt(row[i], row[j])
    ensures FirstMax(row) == i
  {
    var m := FirstMax(row);
    assert !Gt(row[i], row[m]) && !Gt(row[m], row[i]);
  }

  /** FirstMax over a prefix moves to the new index exactly when its score is
      strictly greater. */
  lemma FirstMaxSnoc(row: seq<Score>, n: nat)
    requires 2 <= n <= |row|
    ensures var m := FirstMax(row[..n - 1]);
            FirstMax(row[..n]) == if Gt(row[n - 1], row[m]) then n - 1 else m
  {
    assert row[..n][..n - 1] == row[..n - 1];
  }

  // ---------------------------------------------------------------------
  // `_predict_proba` as written

  /** The left-to-right loop over one row, after `n` scores: every score is
      stored under its decoded label, and the candidate replaces the top label
      when it is strictly greater than what the dict now holds for the top
      label, or than -1.0 while there is none. */
  function AsWrittenStep(names: seq<string>, row: seq<Score>, n: nat): (Option<string>, Dict<string, Score>)
    requires n <= |row| && n <= |names|
  {
    if n == 0 then (None, [])
    else
      var (top, probs) := AsWrittenStep(names, row, n - 1);
      var name, score := names[n - 1], row[n - 1];
      var probs' := Set(probs, name, score);
      var best := if top.Some? then GetOr(probs', top.value, START_SCORE) else START_SCORE;
      (if Gt(score, best) then Some(name) else top, probs')
  }

  /** `_predict_proba` on one row, as written: `argmax` of an empty row raises,
      and a class index past the encoder's classes raises. A row has no top
      label exactly when none of its scores exceeds -1.0, whatever the labels. */
  function DecodeRowAsWritten(names: seq<string>, row: seq<Score>): (r: Result<Prediction, Error>)
    ensures r.Ok? <==> row != [] && |row| <= |names|
    ensures row == [] ==> r == Err(EmptyRow)
    ensures r.Ok? ==> (r.value.top.None? <==> forall i :: 0 <= i < |row| ==> !AboveStart(row[i]))
    ensures r.Ok? && r.value.top.Some? ==> r.value.top.value in names
  {
    if row == [] then Err(EmptyRow)
    else if |row| > |names| then Err(UnknownClassIndex(|names|))
    else
      AsWrittenNoneIff(names, row, |row|);
      assert names[..|row|] <= names;
      var (top, probs) := AsWrittenStep(names, row, |row|);
      Ok(Prediction(top, probs))
  }

  ghost predicate Distinct(names: seq<string>) {
    forall i, j :: 0 <= i < j < |names| ==> names[i] != names[j]
  }

  /** The dict pairing the first `n` labels with their scores. */
  function Zipped(names: seq<string>, row: seq<Score>, n: nat): (d: Dict<string, Score>)
    requires n <= |row| && n <= |names|
    ensures |d| == n && forall i :: 0 <= i < n ==> d[i] == (names[i], row[i])
  {
    seq(n, i requires 0 <= i < n => (names[i], row[i]))
  }

  /** A score beats the start score. */
  predicate AboveStart(s: Score) {
    Gt(s, START_SCORE)
  }

  /** Storing the next label, which is not yet a key, appends it. */
  lemma ZippedSnoc(names: seq<string>, row: seq<Score>, n: nat)
    requires 0 < n <= |row| && n <= |names| && Distinct(names)
    ensures Set(Zipped(names, row, n - 1), names[n - 1], row[n - 1]) == Zipped(names, row, n)
    ensures forall m :: 0 <= m < n ==> GetOr(Zipped(names, row, n), names[m], START_SCORE) == row[m]
  {
    FindExact(Zipped(names, row, n - 1), names[n - 1], n - 1);
    forall m | 0 <= m < n ensures GetOr(Zipped(names, row, n), names[m], START_SCORE) == row[m] {
      FindExact(Zipped(names, row, n), names[m], m);
    }
  }

  /** What the loop keeps after `n` scores when the labels are distinct: the
      dict is the pairing, and the top label is the label of the first maximum
      of the scores so far if that beats -1.0, and None otherwise. */
  lemma {:induction false} AsWrittenStepIs(names: seq<string>, row: seq<Score>, n: nat)
    requires n <= |row| && n <= |names| && Distinct(names)
    ensures var (top, probs) := AsWrittenStep(names, row, n);
            && probs == Zipped(names, row, n)
            && (top.None? <==> forall i :: 0 <= i < n ==> !AboveStart(row[i]))
            && (top.Some? ==> n > 0 && AboveStart(row[FirstMax(row[..n])]) &&
                              top == Some(names[FirstMax(row[..n])]))
  {
    if n > 0 {
      AsWrittenStepIs(names, row, n - 1);
      ZippedSnoc(names, row, n);
      var (top, probs) := AsWrittenStep(names, row, n - 1);
      if n == 1 {
        assert FirstMax(row[..1]) == 0;
      } else {
        FirstMaxSnoc(row, n);
        var m := FirstMax(row[..n - 1]);
        if top.None? {
          GtTotal(row[m], START_SCORE);
          if AboveStart(row[n - 1]) && row[m] != START_SCORE {
            GtTransitive(row[n - 1], START_SCORE, row[m]);
          }
        } else {
          if Gt(row[n - 1], row[m]) {
            GtTransitive(row[n - 1], row[m], START_SCORE);
          }
        }
      }
    }
  }

  /** Whatever the labels, colliding ones included, the top label stays None
      exactly as long as no score exceeds -1.0, and it is always one of the
      labels seen so far. */
  lemma {:induction false} AsWrittenNoneIff(names: seq<string>, row: seq<Score>, n: nat)
    requires n <= |row| && n <= |names|
    ensures var top := AsWrittenStep(names, row, n).0;
            && (top.None? <==> forall i :: 0 <= i < n ==> !AboveStart(row[i]))
            && (top.Some? ==> top.value in names[..n])
  {
    if n > 0 {
      AsWrittenNoneIff(names, row, n - 1);
      assert names[..n - 1] == names[..n][..n - 1];
    }
  }

  // ---------------------------------------------------------------------
  // `_predict_proba` as intended

  /** The scores stored under their decoded labels, in class-index order. */
  function ProbsFold(names: seq<string>, row: seq<Score>, n: nat): Dict<string, Score>
    requires n <= |row| && n <= |names|
  {
    if n == 0 then [] else Set(ProbsFold(names, row, n - 1), names[n - 1], row[n - 1])
  }

  /** One row decoded with the top label taken at `row.argmax()`, the index the
      source computes first. */
  function DecodeRow(names: seq<string>, row: seq<Score>): (r: Result<Prediction, Error>)
    ensures r.Ok? <==> row != [] && |row| <= |names|
    ensures row == [] ==> r == Err(EmptyRow)
    ensures r.Ok? ==> r.value.top == Some(names[FirstMax(row)])
  {
    if row == [] then Err(EmptyRow)
    else if |row| > |names| then Err(UnknownClassIndex(|names|))
    else Ok(Prediction(Some(names[FirstMax(row)]), ProbsFold(names, row, |row|)))
  }

  /** The dict is the same in both versions. */
  lemma {:induction false} ProbsFoldAsWritten(names: seq<string>, row: seq<Score>, n: nat)
    requires n <= |row| && n <= |names|
    ensures AsWrittenStep(names, row, n).1 == ProbsFold(names, row, n)
  {
    if n > 0 { ProbsFoldAsWritten(names, row, n - 1); }
  }

  /** With distinct labels, the intended decoding stores one entry per class
      index, in order, and names the label of the first maximal score. */
  lemma DecodeRowIs(names: seq<string>, row: seq<Score>)
    requires Distinct(names) && row != [] && |row| <= |names|
    ensures DecodeRow(names, row) == Ok(Prediction(Some(names[FirstMax(row)]), Zipped(names, row, |row|)))
  {
    ProbsFoldAsWritten(names, row, |row|);
    AsWrittenStepIs(names, row, |row|);
  }

  /** The two versions agree whenever some score beats -1.0, in particular on
      every row of probabilities. */
  lemma AsWrittenAgrees(names: seq<string>, row: seq<Score>)
    requires Distinct(names)
    requires exists i :: 0 <= i < |row| && AboveStart(row[i])
    ensures DecodeRowAsWritten(names, row) == DecodeRow(names, row)
  {
    if row != [] && |row| <= |names| {
      ProbsFoldAsWritten(names, row, |row|);
      AsWrittenStepIs(names, row, |row|);
      assert row[..|row|] == row;
    }
  }

  /** Probabilities are never below 0, so on them the start score never wins. */
  lemma ProbabilitiesAgree(names: seq<string>, row: seq<Score>)
    requires Distinct(names) && row != []
    requires forall i :: 0 <= i < |row| ==> row[i].Fin? && row[i].r >= 0.0
    ensures DecodeRowAsWritten(names, row) == DecodeRow(names, row)
  {
    assert AboveStart(row[0]);
    AsWrittenAgrees(names, row);
  }

  /** As written, a row of log-probabilities that are all at most -1 has no top
      label. The flat distribution over three classes, log(1/3) = -1.0986...
      each, is one: the source reports None where `row.argmax()` is class 0. */
  lemma AsWrittenMissesFlatLogProbs()
    ensures var names, row := ["a", "b", "c"], [Fin(-1.0986), Fin(-1.0986), Fin(-1.0986)];
            && DecodeRowAsWritten(names, row).value.top == None
            && DecodeRow(names, row).value.top == Some("a")
  {
    var names, row := ["a", "b", "c"], [Fin(-1.0986), Fin(-1.0986), Fin(-1.0986)];
    assert Distinct(names);
    AsWrittenStepIs(names, row, 3);
    FirstMaxUnique(row, 0);
  }

  /** The first two steps of the collision below: "a" is stored as 0.5, becomes
      the top label, and is then overwritten with 0.1. */
  lemma CollidingPrefix()
    ensures AsWrittenStep(["a", "a", "b"], [Fin(0.5), Fin(0.1), Fin(0.2)], 2) == (Some("a"), [("a", Fin(0.1))])
  {
    var names, row := ["a", "a", "b"], [Fin(0.5), Fin(0.1), Fin(0.2)];
    var d0: Dict<string, Score> := [];
    var d1: Dict<string, Score> := [("a", Fin(0.5))];
    assert AsWrittenStep(names, row, 0) == (None, d0);
    assert Set(d0, "a", Fin(0.5)) == d1;
    assert AsWrittenStep(names, row, 1) == (Some("a"), d1);
    assert Find(d1, "a") == 0;
    var d2: Dict<string, Score> := [("a", Fin(0.1))];
    assert Set(d1, "a", Fin(0.1)) == d2;
    assert Find(d2, "a") == 0 && GetOr(d2, "a", START_SCORE) == Fin(0.1);
  }

  /** With two class indices decoding to the same label, the source compares
      each score with the top label's score as last overwritten: "a" now holds
      0.1, so 0.2 wins and the source names "b", while the argmax is index 0,
      label "a". */
  lemma CollidingLabelsDiffer()
    ensures var names, row := ["a", "a", "b"], [Fin(0.5), Fin(0.1), Fin(0.2)];
            && DecodeRowAsWritten(names, row).value.top == Some("b")
            && DecodeRow(names, row).value.top == Some("a")
  {
    var names, row := ["a", "a", "b"], [Fin(0.5), Fin(0.1), Fin(0.2)];
    CollidingPrefix();
    var d2: Dict<string, Score> := [("a", Fin(0.1))];
    assert Find(d2, "b") == 1;
    var d3: Dict<string, Score> := [("a", Fin(0.1)), ("b", Fin(0.2))];
    assert Set(d2, "b", Fin(0.2)) == d3;
    assert Find(d3, "a") == 0 && GetOr(d3, "a", START_SCORE) == Fin(0.1);
    assert AsWrittenStep(names, row, 3).0 == Some("b");
    FirstMaxUnique(row, 0);
  }

  // ---------------------------------------------------------------------
  // Decoding every row

  /** The predictions of all rows; the first failing row raises. */
  function DecodeAll(names: seq<string>, rows: seq<seq<Score>>): (r: Result<seq<Prediction>, Error>)
    ensures r.Ok? <==> forall i :: 0 <= i < |rows| ==> DecodeRow(names, rows[i]).Ok?
    ensures r.Ok? ==> |r.value| == |rows| &&
                      forall i :: 0 <= i < |rows| ==> r.value[i] == DecodeRow(names, rows[i]).value
    decreases |rows|
  {
    if rows == [] then Ok([])
    else
      var p :- DecodeRow(names, rows[0]);
      var ps :- DecodeAll(names, rows[1..]);
      Ok([p] + ps)
  }

  /** All rows decoded as written; the first failing row raises. */
  function DecodeAllAsWritten(names: seq<string>, rows: seq<seq<Score>>): (r: Result<seq<Prediction>, Error>)
    ensures r.Ok? <==> forall i :: 0 <= i < |rows| ==> DecodeRowAsWritten(names, rows[i]).Ok?
    ensures r.Ok? ==> |r.value| == |rows| &&
                      forall i :: 0 <= i < |rows| ==> r.value[i] == DecodeRowAsWritten(names, rows[i]).value
    decreases |rows|
  {
    if rows == [] then Ok([])
    else
      var p :- DecodeRowAsWritten(names, rows[0]);
      var ps :- DecodeAllAsWritten(names, rows[1..]);
      Ok([p] + ps)
  }

  /** On a matrix of probabilities with distinct labels, the intended decoding
      of every row is what the source computes, errors included. */
  lemma {:induction false} AllProbabilitiesAgree(names: seq<string>, rows: seq<seq<Score>>)
    requires Distinct(names)
    requires forall k, i :: 0 <= k < |rows| && 0 <= i < |rows[k]| ==> rows[k][i].Fin? && rows[k][i].r >= 0.0
    ensures DecodeAll(names, rows) == DecodeAllAsWritten(names, rows)
    decreases |rows|
  {
    if rows != [] {
      if rows[0] != [] {
        ProbabilitiesAgree(names, rows[0]);
      }
      var rest := rows[1..];
      assert forall k :: 0 <= k < |rest| ==> rest[k] == rows[k + 1];
      AllProbabilitiesAgree(names, rest);
    }
  }

  /** `_predict_proba(X, predictor)` for the scores `rows = predictor(X)`: the
      rows in order, each scanned left to right while the dict fills and the
      best index so far is kept. */
  method DecodeRows(names: seq<string>, rows: seq<seq<Score>>) returns (r: Result<seq<Prediction>, Error>)
    ensures r == DecodeAll(names, rows)
  {
    var predictions: seq<Prediction> := [];
    var k := 0;
    while k < |rows|
      invariant 0 <= k <= |rows|
      invariant DecodeAll(names, rows[..k]).Ok?
      invariant predictions == DecodeAll(names, rows[..k]).value
    {
      var row := rows[k];
      if row == [] {
        DecodeAllPrefix(names, rows, k);
        return Err(EmptyRow);
      }
      var probs: Dict<string, Score> := [];
      var best := 0;
      var i := 0;
      while i < |row|
        invariant 0 <= i <= |row|
        invariant i <= |names|
        invariant probs == ProbsFold(names, row, i)
        invariant i > 0 ==> best < i && best == FirstMax(row[..i])
      {
        if i >= |names| {
          DecodeAllPrefix(names, rows, k);
          return Err(UnknownClassIndex(|names|));
        }
        probs := Set(probs, names[i], row[i]);
        if i == 0 || Gt(row[i], row[best]) {
          best := i;
        }
        assert row[..i + 1][..i] == row[..i];
        i := i + 1;
      }
      assert row[..|row|] == row;
      predictions := predictions + [Prediction(Some(names[best]), probs)];
      DecodeAllSnoc(names, rows, k);
      k := k + 1;
    }
    assert rows[..k] == rows;
    return Ok(predictions);
  }

  /** Extending the decoded prefix by one row. */
  lemma DecodeAllSnoc(names: seq<string>, rows: seq<seq<Score>>, k: nat)
    requires k < |rows| && DecodeAll(names, rows[..k]).Ok? && DecodeRow(names, rows[k]).Ok?
    ensures DecodeAll(names, rows[..k + 1])
            == Ok(DecodeAll(names, rows[..k]).value + [DecodeRow(names, rows[k]).value])
    decreases k
  {
    if k > 0 {
      var pre, cur, rest := rows[..k], rows[..k + 1], rows[1..];
      assert cur[1..] == rest[..k] && pre[1..] == rest[..k - 1];
      assert cur[0] == pre[0] == rows[0] && rest[k - 1] == rows[k];
      var d0 := DecodeRow(names, rows[0]).value;
      assert DecodeAll(names, pre) == Ok([d0] + DecodeAll(names, rest[..k - 1]).value);
      DecodeAllSnoc(names, rest, k - 1);
      assert DecodeAll(names, cur) == Ok([d0] + DecodeAll(names, rest[..k]).value);
      var a, x := DecodeAll(names, rest[..k - 1]).value, DecodeRow(names, rows[k]).value;
      assert [d0] + (a + [x]) == ([d0] + a) + [x];
    } else {
      var one := rows[..1];
      assert one == [rows[0]] && one[1..] == [] && rows[..0] == [];
      assert DecodeAll(names, one[1..]) == Ok([]);
      var x := DecodeRow(names, one[0]).value;
      assert DecodeAll(names, one) == Ok([x] + []);
      assert [x] + [] == [] + [x];
    }
  }

  /** A failing row makes the whole decoding fail with its error. */
  lemma DecodeAllPrefix(names: seq<string>, rows: seq<seq<Score>>, k: nat)
    requires k < |rows| && DecodeAll(names, rows[..k]).Ok? && DecodeRow(names, rows[k]).Err?
    ensures DecodeAll(names, rows) == Err(DecodeRow(names, rows[k]).error)
    decreases k
  {
    if k > 0 {
      assert rows[1..][..k - 1] == rows[..k][1..];
      DecodeAllPrefix(names, rows[1..], k - 1);
    }
  }

  // ---------------------------------------------------------------------
  // The negative-infinity sentinel of `predict_log_proba`

  /** A score as JSON can carry it: `-inf` becomes `_NEG_INF`. */
  function SanitizeScore(s: Score): (r: Score)
    ensures r.Fin?
    ensures s.NegInf? ==> r == Fin(NEG_INF)
    ensures s.Fin? ==> r == s
  {
    if s.NegInf? then Fin(NEG_INF) else s
  }

  /** The dict after the inner loop: every entry in place, its score sanitized. */
  function SanitizeProbs(d: Dict<string, Score>): (r: Dict<string, Score>)
    ensures |r| == |d|
    ensures forall i :: 0 <= i < |d| ==> r[i] == (d[i].0, SanitizeScore(d[i].1))
  {
    seq(|d|, i requires 0 <= i < |d| => (d[i].0, SanitizeScore(d[i].1)))
  }

  function SanitizePrediction(p: Prediction): (r: Prediction)
    ensures r.top == p.top
  {
    Prediction(p.top, SanitizeProbs(p.probs))
  }

  /** Afterwards no score is `-inf`; each former `-inf` is exactly `-1e10`,
      every other score, every label and the order of the entries are kept,
      and a label's score is looked up as before, sanitized. */
  lemma SanitizeProbsMeaning(d: Dict<string, Score>)
    ensures var r := SanitizeProbs(d);
            && (forall i :: 0 <= i < |r| ==> r[i].1.Fin?)
            && (forall i :: 0 <= i < |r| ==> r[i].0 == d[i].0)
            && (forall i :: 0 <= i < |r| ==> d[i].1.NegInf? ==> r[i].1 == Fin(NEG_INF))
            && (forall i :: 0 <= i < |r| ==> d[i].1.Fin? ==> r[i].1 == d[i].1)
            && (forall k :: HasKey(r, k) <==> HasKey(d, k))
            && (forall k :: HasKey(d, k) ==> Get(r, k) == SanitizeScore(Get(d, k)))
  {
    var r := SanitizeProbs(d);
    forall k ensures HasKey(r, k) == HasKey(d, k) && (HasKey(d, k) ==> Get(r, k) == SanitizeScore(Get(d, k))) {
      FindExact(r, k, Find(d, k));
    }
  }

  /** Sanitizing twice is sanitizing once. */
  lemma SanitizeIdempotent(p: Prediction)
    ensures SanitizePrediction(SanitizePrediction(p)) == SanitizePrediction(p)
  {
    var once := SanitizePrediction(p);
    assert SanitizeProbs(once.probs) == once.probs;
  }

  /** The nested loop of `predict_log_proba`, in place: every prediction keeps
      its position and its top label, and its dict is sanitized. */
  method ReplaceNegInf(preds: array<Prediction>)
    modifies preds
    ensures preds[..] == seq(preds.Length, i requires 0 <= i < preds.Length => SanitizePrediction(old(preds[i])))
  {
    var k := 0;
    while k < preds.Length
      invariant 0 <= k <= preds.Length
      invariant forall i :: 0 <= i < k ==> preds[i] == SanitizePrediction(old(preds[i]))
      invariant forall i :: k <= i < preds.Length ==> preds[i] == old(preds[i])
    {
      var probs := preds[k].probs;
      var j := 0;
      while j < |probs|
        invariant 0 <= j <= |probs| == |old(preds[k]).probs|
        invariant forall i :: 0 <= i < j ==> probs[i] == SanitizeProbs(old(preds[k]).probs)[i]
        invariant forall i :: j <= i < |probs| ==> probs[i] == old(preds[k]).probs[i]
      {
        if probs[j].1 == NegInf {
          // assigning to the key being visited keeps its place in the dict
          probs := probs[j := (probs[j].0, Fin(NEG_INF))];
        }
        j := j + 1;
      }
      assert probs == SanitizeProbs(old(preds[k]).probs);
      preds[k] := Prediction(preds[k].top, probs);
      k := k + 1;
    }
  }
}
