/**
 * A Python `dict` as an association list in insertion order. Assigning to an existing
 * key keeps that key's position; assigning to a new key appends it; `setdefault`
 * only ever appends.
 */
module OrderedDict {

  type Dict<K, V> = seq<(K, V)>

  function Keys<K, V>(d: Dict<K, V>): (ks: seq<K>)
    ensures |ks| == |d|
    ensures forall i :: 0 <= i < |d| ==> ks[i] == d[i].0
  {
    seq(|d|, i requires 0 <= i < |d| => d[i].0)
  }

  /** No key occurs twice. */
  predicate Valid<K(==), V>(d: Dict<K, V>) {
    forall i, j :: 0 <= i < j < |d| ==> d[i].0 != d[j].0
  }

  predicate Has<K(==), V>(d: Dict<K, V>, k: K) {
    k in Keys(d)
  }

  function Position<K(==), V>(d: Dict<K, V>, k: K): (i: nat)
    requires Has(d, k)
    ensures i < |d| && d[i].0 == k
    ensures forall j :: 0 <= j < i ==> d[j].0 != k
  {
    if d[0].0 == k then 0
    else
      assert Keys(d)[1..] == Keys(d[1..]);
      1 + Position(d[1..], k)
  }

  /** Python's `d[k]` for a key that is present. */
  function Get<K(==), V>(d: Dict<K, V>, k: K): V
    requires Has(d, k)
  {
    d[Position(d, k)].1
  }

  /** Python's `d[k] = v`. */
  function Put<K(==), V>(d: Dict<K, V>, k: K, v: V): (r: Dict<K, V>)
    ensures Keys(r) == if Has(d, k) then Keys(d) else Keys(d) + [k]
  {
    if Has(d, k) then d[Position(d, k) := (k, v)] else d + [(k, v)]
  }

  /** Python's `d.setdefault(k, v)`, for its effect on `d`. */
  function SetDefault<K(==), V>(d: Dict<K, V>, k: K, v: V): (r: Dict<K, V>)
    ensures Keys(r) == if Has(d, k) then Keys(d) else Keys(d) + [k]
  {
    if Has(d, k) then d else d + [(k, v)]
  }

  /** After `d[k] = v` the keys are those of `d` and `k`. */
  lemma PutHas<K, V>(d: Dict<K, V>, k: K, v: V, k': K)
    ensures Has(Put(d, k, v), k') <==> Has(d, k') || k' == k
  {
    var r := Put(d, k, v);
    if k' == k && !Has(d, k) {
      assert Keys(r)[|d|] == k;
    }
  }

  lemma PutValid<K, V>(d: Dict<K, V>, k: K, v: V)
    requires Valid(d)
    ensures Valid(Put(d, k, v))
  {
    var r := Put(d, k, v);
    forall i, j | 0 <= i < j < |r| ensures r[i].0 != r[j].0 {
      assert r[i].0 == Keys(r)[i] && r[j].0 == Keys(r)[j];
    }
  }

  /** What `d[k] = v` does to every lookup: `k` now reads `v`, every other key is unchanged. */
  lemma PutGet<K, V>(d: Dict<K, V>, k: K, v: V, k': K)
    requires Valid(d)
    requires Has(Put(d, k, v), k')
    ensures Valid(Put(d, k, v))
    ensures Get(Put(d, k, v), k') == if k' == k then v else Get(d, k')
  {
    PutValid(d, k, v);
    var r := Put(d, k, v);
    var p := Position(r, k');
    if k' != k {
      assert k' in Keys(d) by { assert Keys(r)[p] == k'; }
      var q := Position(d, k');
      assert r[q].0 == k';
    }
  }

  lemma SetDefaultGet<K, V>(d: Dict<K, V>, k: K, v: V, k': K)
    requires Valid(d)
    requires Has(SetDefault(d, k, v), k')
    ensures Valid(SetDefault(d, k, v))
    ensures Get(SetDefault(d, k, v), k') ==
              if k' == k && !Has(d, k) then v else Get(d, k')
  {
    var r := SetDefault(d, k, v);
    forall i, j | 0 <= i < j < |r| ensures r[i].0 != r[j].0 {
      assert r[i].0 == Keys(r)[i] && r[j].0 == Keys(r)[j];
    }
    var p := Position(r, k');
    if !(k' == k && !Has(d, k)) {
      assert k' in Keys(d) by { assert Keys(r)[p] == k'; }
      var q := Position(d, k');
      assert r[q].0 == k';
    }
  }
}
