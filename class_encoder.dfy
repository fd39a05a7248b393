/** The class encoder of the text model (scikit-learn's LabelEncoder, as far as
    the model relies on it): fitting keeps the distinct raw labels sorted by
    code point as `classes_`, a label is encoded as its index there and an index
    is decoded back to the label stored at it. */
module ClassEncoder {
  import opened Wrappers
  import opened Values

  /** Code-point lexicographic order on strings, the order numpy sorts them in. */
  predicate StrLt(a: string, b: string)
    decreases |a|
  {
    if |a| == 0 then |b| > 0
    else if |b| == 0 then false
    else if a[0] != b[0] then a[0] < b[0]
    else StrLt(a[1..], b[1..])
  }

  lemma {:induction false} StrLtIrreflexive(a: string)
    ensures !StrLt(a, a)
    decreases |a|
  {
    if |a| > 0 { StrLtIrreflexive(a[1..]); }
  }

  lemma {:induction false} StrLtTransitive(a: string, b: string, c: string)
    requires StrLt(a, b) && StrLt(b, c)
    ensures StrLt(a, c)
    decreases |a|
  {
    if |a| > 0 && |b| > 0 && |c| > 0 && a[0] == b[0] && b[0] == c[0] {
      StrLtTransitive(a[1..], b[1..], c[1..]);
    }
  }

  lemma {:induction false} StrLtTotal(a: string, b: string)
    ensures a == b || StrLt(a, b) || StrLt(b, a)
    decreases |a|
  {
    if |a| > 0 && |b| > 0 && a[0] == b[0] {
      StrLtTotal(a[1..], b[1..]);
      if a[1..] == b[1..] {
        assert a == [a[0]] + a[1..] && b == [b[0]] + b[1..];
      }
    }
  }

  ghost predicate StrictlySorted(s: seq<string>) {
    forall i, j :: 0 <= i < j < |s| ==> StrLt(s[i], s[j])
  }

  lemma SortedDistinctAt(s: seq<string>, i: nat, j: nat)
    requires StrictlySorted(s) && i < |s| && j < |s| && i != j
    ensures s[i] != s[j]
  {
    if i < j { StrLtIrreflexive(s[i]); } else { StrLtIrreflexive(s[j]); }
  }

  /** Adds one label to a sorted list of distinct labels. */
  function Insert(s: seq<string>, x: string): (r: seq<string>)
    requires StrictlySorted(s)
    ensures StrictlySorted(r)
    ensures forall e :: e in r <==> e in s || e == x
  {
    if s == [] then [x]
    else if x == s[0] then s
    else if StrLt(x, s[0]) then
      assert forall j :: 0 < j < |s| ==> StrLt(x, s[j]) by {
        forall j | 0 < j < |s| ensures StrLt(x, s[j]) { StrLtTransitive(x, s[0], s[j]); }
      }
      [x] + s
    else
      StrLtTotal(x, s[0]);
      var t := Insert(s[1..], x);
      assert forall e :: e in t ==> StrLt(s[0], e);
      [s[0]] + t
  }

  /** `classes_` after fitting: the distinct labels, strictly increasing. */
  function SortedDistinct(labels: seq<string>): (r: seq<string>)
    ensures StrictlySorted(r)
    ensures forall e :: e in r <==> e in labels
  {
    if labels == [] then []
    else
      var init := labels[..|labels| - 1];
      assert labels == init + [labels[|labels| - 1]];
      Insert(SortedDistinct(init), labels[|labels| - 1])
  }

  lemma HasElement(s: seq<string>)
    requires s != []
    ensures exists e :: e in s
  {
    assert s[0] in s;
  }

  /** A strictly sorted list is determined by its elements, so `classes_` does
      not depend on the order of the labels it was fitted on. */
  lemma {:induction false} StrictlySortedUnique(a: seq<string>, b: seq<string>)
    requires StrictlySorted(a) && StrictlySorted(b)
    requires forall e :: e in a <==> e in b
    ensures a == b
    decreases |a|
  {
    if a != [] && b != [] {
      // a[0] and b[0] are both the least element
      assert a[0] in a && b[0] in b;
      if a[0] != b[0] {
        var i :| 0 <= i < |b| && b[i] == a[0];
        var j :| 0 <= j < |a| && a[j] == b[0];
        // b[0] < b[i] == a[0] < a[j] == b[0]
        StrLtTransitive(b[0], a[0], a[j]);
        StrLtIrreflexive(b[0]);
      }
      forall e ensures e in a[1..] <==> e in b[1..] {
        if e in a[1..] {
          var k :| 1 <= k < |a| && a[k] == e;
          SortedDistinctAt(a, 0, k);
          assert e in b;
          var m :| 0 <= m < |b| && b[m] == e;
          assert m != 0;
          assert b[m] in b[1..];
        }
        if e in b[1..] {
          var k :| 1 <= k < |b| && b[k] == e;
          SortedDistinctAt(b, 0, k);
          assert e in a;
          var m :| 0 <= m < |a| && a[m] == e;
          assert m != 0;
          assert a[m] in a[1..];
        }
      }
      StrictlySortedUnique(a[1..], b[1..]);
    } else {
      if a != [] { HasElement(a); }
      if b != [] { HasElement(b); }
    }
  }

  /** Position of `x` in `s`. */
  function IndexOf(s: seq<string>, x: string): (i: nat)
    requires x in s
    ensures i < |s| && s[i] == x
    ensures forall j :: 0 <= j < i ==> s[j] != x
  {
    if s[0] == x then 0 else 1 + IndexOf(s[1..], x)
  }

  /** `transform([label])[0]` */
  function Transform(classes: seq<string>, lab: string): (r: Result<nat, Error>)
    ensures r.Ok? <==> lab in classes
    ensures r.Ok? ==> r.value < |classes| && classes[r.value] == lab
    ensures r.Err? ==> r.error == UnseenLabel(lab)
  {
    if lab in classes then Ok(IndexOf(classes, lab)) else Err(UnseenLabel(lab))
  }

  /** `inverse_transform([index])[0]` */
  function InverseTransform(classes: seq<string>, index: nat): (r: Result<string, Error>)
    ensures r.Ok? <==> index < |classes|
    ensures r.Ok? ==> r.value == classes[index]
  {
    if index < |classes| then Ok(classes[index]) else Err(UnknownClassIndex(index))
  }

  /** On a fitted encoder the two directions invert each other. */
  lemma TransformRoundTrip(classes: seq<string>, lab: string, index: nat)
    requires StrictlySorted(classes)
    ensures lab in classes ==> InverseTransform(classes, Transform(classes, lab).value) == Ok(lab)
    ensures index < |classes| ==> Transform(classes, InverseTransform(classes, index).value) == Ok(index)
  {
    if index < |classes| {
      var i := IndexOf(classes, classes[index]);
      if i != index { SortedDistinctAt(classes, i, index); }
    }
  }

  /** `y` is a vector of class ids for `k` classes in which every class occurs:
      what fitting the encoder on the training labels produces. */
  ghost predicate EncodedBy(y: seq<nat>, k: nat) {
    && (forall i :: 0 <= i < |y| ==> y[i] < k)
    && (forall c :: 0 <= c < k ==> c in y)
  }

  /** The class ids of `labels` under `classes`. */
  function Encode(classes: seq<string>, labels: seq<string>): (ids: seq<nat>)
    requires forall i :: 0 <= i < |labels| ==> labels[i] in classes
    ensures |ids| == |labels|
    ensures forall i :: 0 <= i < |ids| ==> ids[i] < |classes| && classes[ids[i]] == labels[i]
  {
    seq(|labels|, i requires 0 <= i < |labels| => IndexOf(classes, labels[i]))
  }

  /** The ids that fitting produces are exactly the class ids `0..k-1`, each
      occurring at least once. */
  lemma EncodeCovers(labels: seq<string>)
    ensures EncodedBy(Encode(SortedDistinct(labels), labels), |SortedDistinct(labels)|)
  {
    var classes := SortedDistinct(labels);
    var ids := Encode(classes, labels);
    forall c | 0 <= c < |classes| ensures c in ids {
      assert classes[c] in labels;
      var i :| 0 <= i < |labels| && labels[i] == classes[c];
      if ids[i] != c { SortedDistinctAt(classes, ids[i], c); }
      assert ids[i] == c;
    }
  }

  /** `fit_transform(labels)`: the new `classes_` and the encoded labels. */
  function FitTransform(labels: seq<string>): (r: (seq<string>, seq<nat>))
    ensures StrictlySorted(r.0)
    ensures forall e :: e in r.0 <==> e in labels
    ensures |r.1| == |labels|
    ensures forall i :: 0 <= i < |labels| ==> r.1[i] < |r.0| && r.0[r.1[i]] == labels[i]
    ensures EncodedBy(r.1, |r.0|)
  {
    var classes := SortedDistinct(labels);
    EncodeCovers(labels);
    (classes, Encode(classes, labels))
  }
}
