/** Python's `dict` as the model sees it: the list of its entries in insertion
    order. Assigning to an existing key keeps its position, assigning to a new
    key appends, `del` removes the entry. Every dict the source builds has
    distinct keys (`WellFormed`); the operations keep that. */
module Dicts {

  type Dict<K, V> = seq<(K, V)>

  /** Position of the entry for `k`, or `|d|` when there is none. */
  function Find<K(==), V>(d: Dict<K, V>, k: K): (i: nat)
    ensures i <= |d|
    ensures i < |d| ==> d[i].0 == k
    ensures forall j :: 0 <= j < i ==> d[j].0 != k
  {
    if d == [] then 0
    else if d[0].0 == k then 0
    else 1 + Find(d[1..], k)
  }

  /** `k in d` */
  predicate HasKey<K(==), V>(d: Dict<K, V>, k: K) {
    Find(d, k) < |d|
  }

  /** `d[k]` */
  function Get<K(==), V>(d: Dict<K, V>, k: K): V
    requires HasKey(d, k)
  {
    d[Find(d, k)].1
  }

  /** `d.get(k, default)` */
  function GetOr<K(==), V>(d: Dict<K, V>, k: K, default: V): V {
    if HasKey(d, k) then Get(d, k) else default
  }

  /** `d[k] = v` */
  function Set<K(==), V>(d: Dict<K, V>, k: K, v: V): Dict<K, V> {
    var i := Find(d, k);
    if i < |d| then d[i := (k, v)] else d + [(k, v)]
  }

  /** `del d[k]` (the source only deletes keys it has just seen present) */
  function Del<K(==), V>(d: Dict<K, V>, k: K): Dict<K, V> {
    var i := Find(d, k);
    if i < |d| then d[..i] + d[i + 1..] else d
  }

  ghost predicate WellFormed<K, V>(d: Dict<K, V>) {
    forall i, j :: 0 <= i < j < |d| ==> d[i].0 != d[j].0
  }

  /** The three facts in Find's contract determine its result. */
  lemma FindExact<K, V>(d: Dict<K, V>, k: K, i: nat)
    requires i <= |d|
    requires i < |d| ==> d[i].0 == k
    requires forall j :: 0 <= j < i ==> d[j].0 != k
    ensures Find(d, k) == i
  {
  }

  lemma HasKeyIff<K, V>(d: Dict<K, V>, k: K)
    ensures HasKey(d, k) <==> exists j :: 0 <= j < |d| && d[j].0 == k
  {
  }

  /** In a well-formed dict every entry is found under its own key. */
  lemma GetAt<K, V>(d: Dict<K, V>, j: nat)
    requires WellFormed(d) && j < |d|
    ensures HasKey(d, d[j].0) && Get(d, d[j].0) == d[j].1
  {
    FindExact(d, d[j].0, j);
  }

  lemma SetGet<K, V>(d: Dict<K, V>, k: K, v: V)
    ensures HasKey(Set(d, k, v), k) && Get(Set(d, k, v), k) == v
    ensures |Set(d, k, v)| == if HasKey(d, k) then |d| else |d| + 1
  {
    var i := Find(d, k);
    FindExact(Set(d, k, v), k, i);
  }

  /** Assigning one key leaves every other key, present or absent, as it was. */
  lemma SetOther<K, V>(d: Dict<K, V>, k: K, v: V, k': K)
    requires k' != k
    ensures HasKey(Set(d, k, v), k') == HasKey(d, k')
    ensures HasKey(d, k') ==> Get(Set(d, k, v), k') == Get(d, k')
  {
    var r := Set(d, k, v);
    var f := Find(d, k');
    if f < |d| {
      FindExact(r, k', f);
    } else {
      FindExact(r, k', |r|);
    }
  }

  lemma SetWellFormed<K, V>(d: Dict<K, V>, k: K, v: V)
    requires WellFormed(d)
    ensures WellFormed(Set(d, k, v))
  {
  }

  lemma DelGone<K, V>(d: Dict<K, V>, k: K)
    requires WellFormed(d)
    ensures !HasKey(Del(d, k), k)
    ensures WellFormed(Del(d, k))
    ensures |Del(d, k)| == if HasKey(d, k) then |d| - 1 else |d|
  {
    var r := Del(d, k);
    var i := Find(d, k);
    if i < |d| {
      forall j | 0 <= j < |r| ensures r[j].0 != k {
        if j < i {
        } else {
          assert r[j] == d[j + 1];
        }
      }
      FindExact(r, k, |r|);
    }
  }

  /** Deleting one key leaves every other key, present or absent, as it was. */
  lemma DelOther<K, V>(d: Dict<K, V>, k: K, k': K)
    requires k' != k
    ensures HasKey(Del(d, k), k') == HasKey(d, k')
    ensures HasKey(d, k') ==> Get(Del(d, k), k') == Get(d, k')
  {
    var r := Del(d, k);
    var i := Find(d, k);
    var f := Find(d, k');
    if i < |d| {
      if f < i {
        FindExact(r, k', f);
      } else {
        // the entry for k' (if any) moved one place to the left
        assert forall j :: 0 <= j < i ==> r[j] == d[j];
        assert forall j :: i <= j < |r| ==> r[j] == d[j + 1];
        FindExact(r, k', f - 1);
      }
    }
  }

  /** Assigning the pairs one after another: `for k, v in kvs: d[k] = v`. */
  function SetAll<K(==), V>(d: Dict<K, V>, kvs: seq<(K, V)>): Dict<K, V>
    decreases |kvs|
  {
    if kvs == [] then d else SetAll(Set(d, kvs[0].0, kvs[0].1), kvs[1..])
  }

  /** Assigning any key leaves a present key where it is. */
  lemma SetFindPresent<K, V>(d: Dict<K, V>, k: K, v: V, k': K)
    requires HasKey(d, k')
    ensures |Set(d, k, v)| >= |d|
    ensures Find(Set(d, k, v), k') == Find(d, k')
  {
    FindExact(Set(d, k, v), k', Find(d, k'));
  }

  lemma {:induction false} SetAllAppend<K, V>(d: Dict<K, V>, a: seq<(K, V)>, b: seq<(K, V)>)
    ensures SetAll(d, a + b) == SetAll(SetAll(d, a), b)
    decreases |a|
  {
    if a == [] {
      assert a + b == b;
    } else {
      assert (a + b)[0] == a[0] && (a + b)[1..] == a[1..] + b;
      SetAllAppend(Set(d, a[0].0, a[0].1), a[1..], b);
    }
  }

  /** Once present, a key keeps its position through later assignments. */
  lemma {:induction false} SetAllKeepsPlace<K, V>(d: Dict<K, V>, kvs: seq<(K, V)>, k: K)
    requires HasKey(d, k)
    ensures HasKey(SetAll(d, kvs), k) && Find(SetAll(d, kvs), k) == Find(d, k)
    decreases |kvs|
  {
    if kvs != [] {
      SetFindPresent(d, kvs[0].0, kvs[0].1, k);
      SetAllKeepsPlace(Set(d, kvs[0].0, kvs[0].1), kvs[1..], k);
    }
  }

  /** Assignments to other keys leave a key as it was. */
  lemma {:induction false} SetAllOther<K, V>(d: Dict<K, V>, kvs: seq<(K, V)>, k: K)
    requires forall m :: 0 <= m < |kvs| ==> kvs[m].0 != k
    ensures HasKey(SetAll(d, kvs), k) == HasKey(d, k)
    ensures HasKey(d, k) ==> Get(SetAll(d, kvs), k) == Get(d, k)
    decreases |kvs|
  {
    if kvs != [] {
      SetOther(d, kvs[0].0, kvs[0].1, k);
      assert forall m :: 0 <= m < |kvs[1..]| ==> kvs[1..][m] == kvs[m + 1];
      SetAllOther(Set(d, kvs[0].0, kvs[0].1), kvs[1..], k);
    }
  }

  /** A key ends with the value of its last assignment. */
  lemma {:induction false} SetAllLast<K, V>(d: Dict<K, V>, kvs: seq<(K, V)>, j: nat)
    requires j < |kvs|
    requires forall m :: j < m < |kvs| ==> kvs[m].0 != kvs[j].0
    ensures HasKey(SetAll(d, kvs), kvs[j].0) && Get(SetAll(d, kvs), kvs[j].0) == kvs[j].1
    decreases |kvs|
  {
    var d' := Set(d, kvs[0].0, kvs[0].1);
    var rest := kvs[1..];
    assert forall m :: 0 <= m < |rest| ==> rest[m] == kvs[m + 1];
    if j == 0 {
      SetGet(d, kvs[0].0, kvs[0].1);
      SetAllOther(d', rest, kvs[0].0);
    } else {
      SetAllLast(d', rest, j - 1);
    }
  }
}
