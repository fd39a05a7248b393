/** The reordering `fit` applies before training: `random.shuffle` of the
    indices `0..len(labels)-1`, then the examples and the labels picked in that
    order. The random permutation is a parameter. */
module Shuffle {
  import opened Wrappers
  import opened Values

  /** `list(range(n))` */
  function Range(n: nat): (r: seq<nat>)
    ensures |r| == n && forall i :: 0 <= i < n ==> r[i] == i
  {
    seq(n, i requires 0 <= i < n => i)
  }

  /** What `random.shuffle(list(range(n)))` may leave: a reordering of `0..n-1`
      (the first two conjuncts follow from the third and are spelled out for
      the callers). */
  ghost predicate IsPermutation(perm: seq<nat>, n: nat) {
    && |perm| == n
    && (forall i :: 0 <= i < |perm| ==> perm[i] < n)
    && multiset(perm) == multiset(Range(n))
  }

  /** `[s[i] for i in perm]` when every index is in range. */
  function PickAll<T>(s: seq<T>, perm: seq<nat>): (r: seq<T>)
    requires forall i :: 0 <= i < |perm| ==> perm[i] < |s|
    ensures |r| == |perm| && forall i :: 0 <= i < |perm| ==> r[i] == s[perm[i]]
  {
    seq(|perm|, i requires 0 <= i < |perm| => s[perm[i]])
  }

  /** `[s[i] for i in perm]`, which raises IndexError at the first index past the end. */
  function Pick<T>(s: seq<T>, perm: seq<nat>): (r: Result<seq<T>, Error>)
    ensures r.Ok? <==> forall i :: 0 <= i < |perm| ==> perm[i] < |s|
    ensures r.Err? ==> r.error == IndexOutOfRange
    ensures r.Ok? ==> r.value == PickAll(s, perm)
  {
    if forall i :: 0 <= i < |perm| ==> perm[i] < |s| then Ok(PickAll(s, perm))
    else Err(IndexOutOfRange)
  }

  /** Pairs up two sequences up to the shorter one, like `zip`. */
  function Zip<A, B>(a: seq<A>, b: seq<B>): (r: seq<(A, B)>)
    ensures |r| == if |a| < |b| then |a| else |b|
    ensures forall i :: 0 <= i < |r| ==> r[i] == (a[i], b[i])
  {
    var n := if |a| < |b| then |a| else |b|;
    seq(n, i requires 0 <= i < n => (a[i], b[i]))
  }

  lemma PermutationFacts(perm: seq<nat>, n: nat)
    requires IsPermutation(perm, n)
    ensures |perm| == n
    ensures forall i :: 0 <= i < |perm| ==> perm[i] < n
    ensures forall i :: 0 <= i < n ==> i in perm
  {
    assert |perm| == |multiset(perm)| == |multiset(Range(n))| == n;
    forall i | 0 <= i < |perm| ensures perm[i] < n {
      assert perm[i] in multiset(perm);
    }
    forall i | 0 <= i < n ensures i in perm {
      assert Range(n)[i] in multiset(Range(n));
    }
  }

  lemma PickAllAppend<T>(s: seq<T>, x: seq<nat>, y: seq<nat>)
    requires forall i :: 0 <= i < |x| ==> x[i] < |s|
    requires forall i :: 0 <= i < |y| ==> y[i] < |s|
    ensures forall i :: 0 <= i < |x + y| ==> (x + y)[i] < |s|
    ensures PickAll(s, x + y) == PickAll(s, x) + PickAll(s, y)
  {
  }

  /** `b` without its element at `j`. */
  function Without(b: seq<nat>, j: nat): (r: seq<nat>)
    requires j < |b|
    ensures multiset(r) == multiset(b) - multiset{b[j]}
  {
    assert b == b[..j] + [b[j]] + b[j + 1..];
    b[..j] + b[j + 1..]
  }

  /** Indices that are all in range for `s`. */
  ghost predicate InRange<T>(s: seq<T>, b: seq<nat>) {
    forall i :: 0 <= i < |b| ==> b[i] < |s|
  }

  lemma SameIndicesInRange<T>(s: seq<T>, a: seq<nat>, b: seq<nat>)
    requires multiset(a) == multiset(b) && InRange(s, a)
    ensures InRange(s, b)
  {
    forall i | 0 <= i < |b| ensures b[i] < |s| {
      assert b[i] in multiset(a);
    }
  }

  /** Removing an index takes one `s[b[j]]` out of the multiset of picked elements. */
  lemma PickWithout<T>(s: seq<T>, b: seq<nat>, j: nat)
    requires InRange(s, b) && j < |b|
    ensures InRange(s, Without(b, j))
    ensures multiset(PickAll(s, b)) == multiset(PickAll(s, Without(b, j))) + multiset{s[b[j]]}
  {
    var b1, b2 := b[..j], b[j + 1..];
    assert b == b1 + [b[j]] + b2;
    PickAllAppend(s, b1, [b[j]]);
    PickAllAppend(s, b1 + [b[j]], b2);
    PickAllAppend(s, b1, b2);
  }

  /** Picking by two index sequences that hold the same indices gives the same
      multiset of elements. */
  lemma {:induction false} PickSameIndices<T>(s: seq<T>, a: seq<nat>, b: seq<nat>)
    requires multiset(a) == multiset(b) && InRange(s, a)
    ensures InRange(s, b)
    ensures multiset(PickAll(s, a)) == multiset(PickAll(s, b))
    decreases |a|
  {
    SameIndicesInRange(s, a, b);
    if a != [] {
      assert a[0] in multiset(b);
      var j :| 0 <= j < |b| && b[j] == a[0];
      PickWithout(s, a, 0);
      PickWithout(s, b, j);
      PickSameIndices(s, Without(a, 0), Without(b, j));
    } else {
      assert |b| == |multiset(b)| == 0;
    }
  }

  /** Shuffling reorders: the picked elements are those of `s`, with their
      multiplicities. */
  lemma PickPermutes<T>(s: seq<T>, perm: seq<nat>)
    requires IsPermutation(perm, |s|)
    ensures Pick(s, perm).Ok?
    ensures multiset(Pick(s, perm).value) == multiset(s)
  {
    PermutationFacts(perm, |s|);
    PickSameIndices(s, perm, Range(|s|));
    assert PickAll(s, Range(|s|)) == s;
  }

  /** Picking from two sequences by the same indices picks from their pairing. */
  lemma PickZip<A, B>(a: seq<A>, b: seq<B>, perm: seq<nat>)
    requires |a| == |b|
    requires forall i :: 0 <= i < |perm| ==> perm[i] < |a|
    ensures Zip(PickAll(a, perm), PickAll(b, perm)) == PickAll(Zip(a, b), perm)
  {
  }

  /** Examples and labels are reordered by the same permutation, so every
      example keeps its label: the multiset of (example, label) pairs is that
      of the input, cut to the number of labels. Surplus examples are dropped. */
  lemma ShufflePairs<E, L>(examples: seq<E>, labels: seq<L>, perm: seq<nat>)
    requires IsPermutation(perm, |labels|) && |labels| <= |examples|
    ensures Pick(examples, perm).Ok? && Pick(labels, perm).Ok?
    ensures multiset(Zip(Pick(examples, perm).value, Pick(labels, perm).value))
            == multiset(Zip(examples[..|labels|], labels))
  {
    PermutationFacts(perm, |labels|);
    var ex := examples[..|labels|];
    assert PickAll(examples, perm) == PickAll(ex, perm);
    PickZip(ex, labels, perm);
    PickPermutes(Zip(ex, labels), perm);
  }

  /** The shuffled labels hold the same distinct labels. */
  lemma ShuffleKeepsLabels<L>(labels: seq<L>, perm: seq<nat>)
    requires IsPermutation(perm, |labels|)
    ensures Pick(labels, perm).Ok?
    ensures forall l :: l in Pick(labels, perm).value <==> l in labels
  {
    PickPermutes(labels, perm);
    var p := Pick(labels, perm).value;
    forall l ensures l in p <==> l in labels {
      assert l in p <==> l in multiset(p);
      assert l in labels <==> l in multiset(labels);
    }
  }

  /** With more labels than examples some index is past the examples' end. */
  lemma PickShortExamples<E>(examples: seq<E>, perm: seq<nat>, n: nat)
    requires IsPermutation(perm, n)
    ensures Pick(examples, perm).Ok? <==> n <= |examples|
  {
    PermutationFacts(perm, n);
    if n > |examples| {
      assert n - 1 in perm;
    }
  }
}
