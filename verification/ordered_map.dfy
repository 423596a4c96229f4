/**
 A JavaScript `Map` with numeric keys, as the store uses it: an association list whose
 order is the order in which keys were first set. `Put` on a key already present
 rewrites the binding in place (its position is kept); on a new key it appends.
 */
module OrderedMap {
  import opened Options

  datatype Entry<V> = Entry(key: int, value: V)

  predicate HasKey<V>(m: seq<Entry<V>>, k: int) {
    exists i :: 0 <= i < |m| && m[i].key == k
  }

  /** Keys appear in strictly increasing order and all lie below `bound`. */
  predicate IncreasingKeysBelow<V>(m: seq<Entry<V>>, bound: int) {
    && (forall i, j :: 0 <= i < j < |m| ==> m[i].key < m[j].key)
    && (forall i :: 0 <= i < |m| ==> m[i].key < bound)
  }

  /** Position of the binding for `k`: the first entry carrying that key. */
  function IndexOf<V>(m: seq<Entry<V>>, k: int): (r: Option<nat>)
    ensures r.None? <==> !HasKey(m, k)
    ensures r.Some? ==> r.value < |m| && m[r.value].key == k
    ensures r.Some? ==> forall j :: 0 <= j < r.value ==> m[j].key != k
  {
    if |m| == 0 then None
    else if m[0].key == k then Some(0)
    else
      match IndexOf(m[1..], k)
      case None =>
        assert forall i :: 1 <= i < |m| ==> m[i] == m[1..][i - 1];
        None
      case Some(i) => Some(i + 1)
  }

  /** `Map.prototype.get`. */
  function Get<V>(m: seq<Entry<V>>, k: int): (r: Option<V>)
    ensures r.None? <==> !HasKey(m, k)
    ensures r.Some? ==> exists i :: 0 <= i < |m| && m[i] == Entry(k, r.value)
  {
    match IndexOf(m, k)
    case None => None
    case Some(i) => Some(m[i].value)
  }

  /** `Map.prototype.set`. */
  function Put<V>(m: seq<Entry<V>>, k: int, v: V): (r: seq<Entry<V>>)
    ensures HasKey(m, k) ==> |r| == |m|
    ensures !HasKey(m, k) ==> |r| == |m| + 1 && r[..|m|] == m && r[|m|] == Entry(k, v)
    ensures forall j :: 0 <= j < |m| ==> r[j].key == m[j].key
    ensures forall j :: 0 <= j < |m| && m[j].key != k ==> r[j] == m[j]
    ensures Get(r, k) == Some(v)
    ensures forall k' :: k' != k ==> Get(r, k') == Get(m, k')
  {
    match IndexOf(m, k)
    case None =>
      var r := m + [Entry(k, v)];
      forall k' | k' != k
        ensures HasKey(r, k') <==> HasKey(m, k')
      {
        if HasKey(r, k') {
          var i :| 0 <= i < |r| && r[i].key == k';
          assert i < |m| && m[i].key == k';
        }
        if HasKey(m, k') {
          var i :| 0 <= i < |m| && m[i].key == k';
          assert r[i].key == k';
        }
      }
      r
    case Some(i) => m[i := Entry(k, v)]
  }

  /** `Array.from(m.values())`: the values in key order of first insertion. */
  function Values<V>(m: seq<Entry<V>>): (r: seq<V>)
    ensures |r| == |m|
    ensures forall i :: 0 <= i < |m| ==> r[i] == m[i].value
  {
    seq(|m|, i requires 0 <= i < |m| => m[i].value)
  }

  /**
   How the store uses a map: each value is stored under its own id `key(v)`, ids
   were issued in increasing order, and `next` (at least 1) lies above all of them.
   */
  predicate IdTable<V>(m: seq<Entry<V>>, next: int, key: V -> int) {
    && 1 <= next
    && IncreasingKeysBelow(m, next)
    && forall i :: 0 <= i < |m| ==> key(m[i].value) == m[i].key
  }

  /** The values of an id table are listed in increasing id order. */
  lemma IdTableValuesIncreasing<V>(m: seq<Entry<V>>, next: int, key: V -> int)
    requires IdTable(m, next, key)
    ensures forall i, j :: 0 <= i < j < |Values(m)| ==> key(Values(m)[i]) < key(Values(m)[j])
  {
  }

  /** Looking an id up in an id table finds the stored value with that id, if any. */
  lemma IdTableGet<V>(m: seq<Entry<V>>, next: int, key: V -> int, k: int)
    requires IdTable(m, next, key)
    ensures Get(m, k).None? <==> forall i :: 0 <= i < |Values(m)| ==> key(Values(m)[i]) != k
    ensures Get(m, k).Some? ==> key(Get(m, k).value) == k && Get(m, k).value in Values(m)
  {
    if Get(m, k).Some? {
      var i :| 0 <= i < |m| && m[i] == Entry(k, Get(m, k).value);
      assert Values(m)[i] == Get(m, k).value;
    }
  }

  /** Storing a value under the next id appends it and advances the bound. */
  lemma IdTableAppend<V>(m: seq<Entry<V>>, next: int, key: V -> int, v: V)
    requires IdTable(m, next, key)
    requires key(v) == next
    ensures Put(m, next, v) == m + [Entry(next, v)]
    ensures IdTable(Put(m, next, v), next + 1, key)
    ensures Values(Put(m, next, v)) == Values(m) + [v]
  {
    assert !HasKey(m, next);
    var r := Put(m, next, v);
    assert r == m + [Entry(next, v)] by {
      assert |r| == |m| + 1 && r[..|m|] == m && r[|m|] == Entry(next, v);
      assert forall i :: 0 <= i < |m| ==> r[i] == r[..|m|][i];
    }
    assert Values(r) == Values(m) + [v] by {
      assert forall i :: 0 <= i < |m| ==> Values(r)[i] == Values(m)[i];
    }
  }

  /** Rewriting a stored value in place, keeping its id, keeps an id table. */
  lemma IdTableReplace<V>(m: seq<Entry<V>>, next: int, key: V -> int, k: int, v: V)
    requires IdTable(m, next, key)
    requires HasKey(m, k) && key(v) == k
    ensures IdTable(Put(m, k, v), next, key)
    ensures |Values(Put(m, k, v))| == |Values(m)|
    ensures forall j :: 0 <= j < |m| && m[j].key != k ==> Values(Put(m, k, v))[j] == Values(m)[j]
    ensures forall j :: 0 <= j < |m| && m[j].key == k ==> Values(Put(m, k, v))[j] == v
  {
  }
}
