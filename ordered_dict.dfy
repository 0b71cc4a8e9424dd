/** A Python dict with int keys, kept as its (key, value) items in insertion (iteration) order. */
module OrderedDict {
  import opened Wrappers

  type Items<V> = seq<(int, V)>

  ghost predicate DistinctKeys<V>(items: Items<V>)
  {
    forall i, j :: 0 <= i < j < |items| ==> items[i].0 != items[j].0
  }

  function KeySet<V>(items: Items<V>): set<int>
  {
    set i | 0 <= i < |items| :: items[i].0
  }

  /** The position of `key` at or after `from`. */
  function FindFrom<V>(items: Items<V>, key: int, from: nat): (r: Option<nat>)
    ensures r.Some? ==> from <= r.value < |items| && items[r.value].0 == key
    ensures r.None? ==> forall i :: from <= i < |items| ==> items[i].0 != key
    decreases |items| - from
  {
    if from >= |items| then None
    else if items[from].0 == key then Some(from)
    else FindFrom(items, key, from + 1)
  }

  /** The position of `key`, if it is a key. */
  function Find<V>(items: Items<V>, key: int): (r: Option<nat>)
    ensures r.Some? ==> r.value < |items| && items[r.value].0 == key
    ensures r.None? <==> key !in KeySet(items)
  {
    var r := FindFrom(items, key, 0);
    assert r.Some? ==> items[r.value].0 in KeySet(items);
    r
  }

  /** `d[key]`: the value stored under `key`, KeyError when there is none. */
  function Get<V>(items: Items<V>, key: int): (r: Result<V>)
    ensures r.Failure? <==> key !in KeySet(items)
    ensures r.Failure? ==> r.error == KeyError
    ensures r.Success? ==> (key, r.value) in items
  {
    match Find(items, key)
    case None => Failure(KeyError)
    case Some(i) => Success(items[i].1)
  }

  /** `d[key] = value`: an existing key keeps its place and takes the new value; a new key goes last. */
  function Put<V>(items: Items<V>, key: int, value: V): (r: Items<V>)
    ensures key !in KeySet(items) ==> r == items + [(key, value)]
    ensures key in KeySet(items) ==> |r| == |items| && KeySet(r) == KeySet(items)
    ensures key in KeySet(items) ==> (key, value) in r
  {
    match Find(items, key)
    case None => items + [(key, value)]
    case Some(i) =>
      var r := items[i := (key, value)];
      assert forall j :: 0 <= j < |r| ==> r[j].0 == items[j].0;
      assert KeySet(r) == KeySet(items);
      r
  }

  /** The key an item moves to when a new item is inserted at `at`. */
  function ShiftKey(key: int, at: int): int
  {
    if key < at then key else key + 1
  }

  /** Every key at or above `at` moved up by one, values and order kept. */
  function ShiftKeys<V>(items: Items<V>, at: int): (r: Items<V>)
    ensures |r| == |items|
    ensures forall i :: 0 <= i < |items| ==> r[i] == (ShiftKey(items[i].0, at), items[i].1)
  {
    seq(|items|, i requires 0 <= i < |items| => (ShiftKey(items[i].0, at), items[i].1))
  }

  /** Shifting the keys keeps them distinct and frees `at`, so appending under `at` keeps them
      distinct; the item about to be shifted is not yet among the shifted ones. */
  lemma ShiftKeysFresh<V>(items: Items<V>, at: int, n: nat)
    requires DistinctKeys(items) && n <= |items|
    ensures at !in KeySet(ShiftKeys(items[..n], at))
    ensures n < |items| ==> ShiftKey(items[n].0, at) !in KeySet(ShiftKeys(items[..n], at))
    ensures DistinctKeys(ShiftKeys(items[..n], at))
  {
  }

  lemma ShiftKeysAppendDistinct<V>(items: Items<V>, at: int, value: V)
    requires DistinctKeys(items)
    ensures DistinctKeys(ShiftKeys(items, at) + [(at, value)])
  {
    assert items[..|items|] == items;
    ShiftKeysFresh(items, at, |items|);
  }
}
