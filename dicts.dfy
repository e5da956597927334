/**
 * System.Collections.Generic.Dictionary<string, V> as the profile code uses
 * it: without removals a Dictionary enumerates its entries in insertion
 * order, the indexer replaces a value in place or appends a new key, and Add
 * throws on a key that is already present. The model is a sequence of
 * (key, value) pairs whose keys are distinct.
 */
module Dicts {
  import opened Wrappers

  type Dict<V> = seq<(string, V)>

  function Keys<V>(d: Dict<V>): (ks: seq<string>)
    ensures |ks| == |d|
    ensures forall i :: 0 <= i < |d| ==> ks[i] == d[i].0
  {
    seq(|d|, i requires 0 <= i < |d| => d[i].0)
  }

  predicate UniqueKeys<V>(d: Dict<V>) {
    forall i, j :: 0 <= i < j < |d| ==> d[i].0 != d[j].0
  }

  /** The position of the first entry with key k. */
  function IndexOf<V>(d: Dict<V>, k: string): (r: Option<nat>)
    ensures r.Some? ==> r.value < |d| && d[r.value].0 == k
    ensures r.Some? ==> forall j :: 0 <= j < r.value ==> d[j].0 != k
    ensures r.None? ==> forall j :: 0 <= j < |d| ==> d[j].0 != k
  {
    if |d| == 0 then None
    else if d[0].0 == k then Some(0)
    else match IndexOf(d[1..], k)
      case None => None
      case Some(j) => Some(j + 1)
  }

  lemma {:induction false} IndexOfIs<V>(d: Dict<V>, k: string, i: nat)
    requires i < |d| && d[i].0 == k
    requires forall j :: 0 <= j < i ==> d[j].0 != k
    ensures IndexOf(d, k) == Some(i)
  {
    if i > 0 {
      IndexOfIs(d[1..], k, i - 1);
    }
  }

  /** Dictionary.ContainsKey. */
  predicate ContainsKey<V>(d: Dict<V>, k: string) {
    IndexOf(d, k).Some?
  }

  lemma ContainsKeyIff<V>(d: Dict<V>, k: string)
    ensures ContainsKey(d, k) <==> k in Keys(d)
  {
    if k in Keys(d) {
      var i :| 0 <= i < |d| && Keys(d)[i] == k;
      assert d[i].0 == k;
    }
  }

  /** Dictionary.TryGetValue; None for a missing key. */
  function Get<V>(d: Dict<V>, k: string): (r: Option<V>)
    ensures r.Some? <==> ContainsKey(d, k)
  {
    match IndexOf(d, k)
    case None => None
    case Some(i) => Some(d[i].1)
  }

  lemma GetInUnique<V>(d: Dict<V>, i: nat)
    requires UniqueKeys(d) && i < |d|
    ensures Get(d, d[i].0) == Some(d[i].1)
  {
    IndexOfIs(d, d[i].0, i);
  }

  /** The indexer assignment d[k] = v. */
  function Set<V>(d: Dict<V>, k: string, v: V): (r: Dict<V>)
    ensures Get(r, k) == Some(v)
    ensures forall k' :: k' != k ==> Get(r, k') == Get(d, k')
    ensures ContainsKey(d, k) ==> Keys(r) == Keys(d)
    ensures !ContainsKey(d, k) ==> Keys(r) == Keys(d) + [k]
    ensures UniqueKeys(d) ==> UniqueKeys(r)
  {
    match IndexOf(d, k)
    case Some(i) =>
      var r := d[i := (k, v)];
      IndexOfIs(r, k, i);
      assert Keys(r) == Keys(d);
      SameKeysSameIndex(d, r);
      r
    case None =>
      var r := d + [(k, v)];
      IndexOfIs(r, k, |d|);
      AppendIndex(d, (k, v));
      r
  }

  lemma SameKeysSameIndex<V>(d: Dict<V>, r: Dict<V>)
    requires Keys(d) == Keys(r)
    ensures forall k :: IndexOf(d, k) == IndexOf(r, k)
  {
    forall k ensures IndexOf(d, k) == IndexOf(r, k) {
      var a, b := IndexOf(d, k), IndexOf(r, k);
      if a.Some? {
        IndexOfIs(r, k, a.value);
      }
      if b.Some? {
        assert Keys(r)[b.value] == k;
        IndexOfIs(d, k, b.value);
      }
    }
  }

  lemma AppendIndex<V>(d: Dict<V>, kv: (string, V))
    ensures forall k :: k != kv.0 ==> IndexOf(d + [kv], k) == IndexOf(d, k)
  {
    forall k | k != kv.0 ensures IndexOf(d + [kv], k) == IndexOf(d, k) {
      var a, b := IndexOf(d, k), IndexOf(d + [kv], k);
      if a.Some? {
        IndexOfIs(d + [kv], k, a.value);
      }
      if b.Some? {
        IndexOfIs(d, k, b.value);
      }
    }
  }

  /** Every entry after d[k] = v is the new pair or an entry d already held. */
  lemma SetEntries<V>(d: Dict<V>, k: string, v: V)
    ensures forall i :: 0 <= i < |Set(d, k, v)| ==> Set(d, k, v)[i] == (k, v) || Set(d, k, v)[i] in d
  {
    match IndexOf(d, k)
    case Some(i) =>
      assert Set(d, k, v) == d[i := (k, v)];
    case None =>
      assert Set(d, k, v) == d + [(k, v)];
  }

  /** A value TryGetValue finds is stored under its key. */
  lemma GetIsEntry<V>(d: Dict<V>, k: string)
    requires ContainsKey(d, k)
    ensures (k, Get(d, k).value) in d
  {
    var i := IndexOf(d, k).value;
    assert d[i] == (k, Get(d, k).value);
  }

  /** Dictionary.Add: throws (Failure) when the key is already present. */
  function Add<V>(d: Dict<V>, k: string, v: V): (r: Result<Dict<V>, string>)
    ensures r.Failure? <==> ContainsKey(d, k)
    ensures r.Success? ==> r.value == d + [(k, v)] && r.value == Set(d, k, v)
  {
    if ContainsKey(d, k) then Failure("An item with the same key has already been added.")
    else Success(d + [(k, v)])
  }
}
