/** Lists whose items carry keys: laying the items of one list over another. */
module KeyedLists {
  import opened GoStrings

  ghost predicate Distinct<V, K(!new)>(key: V -> K, items: seq<V>) {
    forall i, j :: 0 <= i < j < |items| ==> key(items[i]) != key(items[j])
  }

  /** Positions and keys of a list determine each other. */
  ghost predicate Indexed<V, K(!new)>(key: V -> K, acc: seq<V>, pos: map<K, nat>) {
    && (forall k :: k in pos ==> pos[k] < |acc| && key(acc[pos[k]]) == k)
    && (forall i :: 0 <= i < |acc| ==> key(acc[i]) in pos && pos[key(acc[i])] == i)
  }

  ghost predicate Named<V, K(!new)>(key: V -> K, items: seq<V>, k: K) {
    exists j :: 0 <= j < |items| && key(items[j]) == k
  }

  function Was<V, K>(acc: seq<V>, pos: map<K, nat>, k: K): Option<V>
    requires k in pos ==> pos[k] < |acc|
  {
    if k in pos then Some(acc[pos[k]]) else None
  }

  /** One item: onto the position of its key, or at the end. */
  function Lay<V, K>(key: V -> K, lay: (Option<V>, V) -> V, acc: seq<V>, pos: map<K, nat>, item: V)
    : (seq<V>, map<K, nat>)
    requires forall k :: k in pos ==> pos[k] < |acc|
  {
    var k := key(item);
    if k in pos then (acc[pos[k] := lay(Some(acc[pos[k]]), item)], pos)
    else (acc + [lay(None, item)], pos[k := |acc|])
  }

  /** An item of the overlay stands, merged, where its key stood (or at the end);
      every other item is untouched; no position moves. */
  ghost predicate Overlaid<V, K(!new)>(key: V -> K, lay: (Option<V>, V) -> V,
                                       acc: seq<V>, pos: map<K, nat>, items: seq<V>,
                                       r: seq<V>, newPos: map<K, nat>)
    requires Indexed(key, acc, pos)
  {
    && |acc| <= |r| && Indexed(key, r, newPos)
    && (forall j :: 0 <= j < |items| ==>
          var k := key(items[j]);
          k in newPos && r[newPos[k]] == lay(Was(acc, pos, k), items[j]))
    && (forall k :: k in newPos && !Named(key, items, k) ==> k in pos && r[newPos[k]] == acc[pos[k]])
    && (forall k :: k in pos ==> k in newPos && newPos[k] == pos[k])
  }

  lemma OverlaidCons<V, K(!new)>(key: V -> K, lay: (Option<V>, V) -> V,
                                 acc: seq<V>, pos: map<K, nat>, items: seq<V>,
                                 r: seq<V>, newPos: map<K, nat>)
    requires Indexed(key, acc, pos) && Distinct(key, items) && items != []
    requires var next := Lay(key, lay, acc, pos, items[0]);
             Indexed(key, next.0, next.1) && Overlaid(key, lay, next.0, next.1, items[1..], r, newPos)
    ensures Overlaid(key, lay, acc, pos, items, r, newPos)
  {
    var (acc2, pos2) := Lay(key, lay, acc, pos, items[0]);
    var k := key(items[0]);
    var rest := items[1..];
    assert forall j :: 0 <= j < |rest| ==> rest[j] == items[j + 1];
    assert !Named(key, rest, k);
    assert r[newPos[k]] == acc2[pos2[k]];
    forall j | 1 <= j < |items|
      ensures var q := key(items[j]); q in newPos && r[newPos[q]] == lay(Was(acc, pos, q), items[j])
    {
      var q := key(items[j]);
      assert items[j] == rest[j - 1];
      assert q != k;
      assert Was(acc, pos, q) == Was(acc2, pos2, q);
    }
    forall q | q in newPos && !Named(key, items, q)
      ensures q in pos && r[newPos[q]] == acc[pos[q]]
    {
      assert q != k;
      assert !Named(key, rest, q);
    }
  }
}
