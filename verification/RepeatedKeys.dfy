/** Lists that repeat a merge key: where they stand in an object, and when one in
    the lowest fragment survives the fragments laid over it. */
module RepeatedKeys {
  import opened GoStrings
  import opened OwnedFields
  import opened DesiredObjects
  import KeyedLists

  /** One step into a value: a field, the item of a key, or an item by position. */
  datatype Hop = Field(name: string) | Item(key: Key) | Nth(index: nat)

  type Path = seq<Hop>

  predicate Keyable(under: Option<string>, items: seq<Value>) {
    !RuleFor(under).NoKey? && AllKeyed(RuleFor(under), items)
  }

  predicate KeyedApart(under: Option<string>, items: seq<Value>) {
    !RuleFor(under).NoKey? && ScanKeys(RuleFor(under), items, {}).Keyed?
  }

  /** The path leads, through lists of distinct keys, to a list that repeats one. */
  predicate Repeats(under: Option<string>, v: Value, path: Path)
    decreases |path|
  {
    if path == [] then
      v.Arr? && !RuleFor(under).NoKey? && ScanKeys(RuleFor(under), v.items, {}).Duplicate?
    else
      match path[0]
      case Field(k) => v.Obj? && k in v.fields && Repeats(Some(k), v.fields[k], path[1..])
      case Item(key) =>
        && v.Arr? && KeyedApart(under, v.items)
        && var i := Find(RuleFor(under), v.items, key);
        i.Some? && Repeats(None, v.items[i.value], path[1..])
      case Nth(i) =>
        v.Arr? && !Keyable(under, v.items) && i < |v.items| && Repeats(None, v.items[i], path[1..])
  }

  /** Every item of the list the path leads to has a key. */
  predicate Whole(under: Option<string>, v: Value, path: Path)
    decreases |path|
  {
    if path == [] then v.Arr? && AllKeyed(RuleFor(under), v.items)
    else
      match path[0]
      case Field(k) => v.Obj? && k in v.fields && Whole(Some(k), v.fields[k], path[1..])
      case Item(key) =>
        && v.Arr?
        && var i := Find(RuleFor(under), v.items, key);
        i.Some? && Whole(None, v.items[i.value], path[1..])
      case Nth(i) => v.Arr? && i < |v.items| && Whole(None, v.items[i], path[1..])
  }

  /** The overlay leaves the list at the path in place: it does not speak of it,
      or merges into it by key. A list of keyed items (`whole`) takes further
      items; any other list is replaced, and so is everything on the way that the
      overlay does not meet with an object or a keyed list. */
  predicate Spares(under: Option<string>, overlay: Value, path: Path, whole: bool)
    decreases |path|
  {
    if path == [] then whole && overlay.Arr? && AllKeyed(RuleFor(under), overlay.items)
    else
      match path[0]
      case Field(k) =>
        overlay.Obj? && (k in overlay.fields ==> Spares(Some(k), overlay.fields[k], path[1..], whole))
      case Item(key) =>
        && overlay.Arr? && AllKeyed(RuleFor(under), overlay.items)
        && var i := Find(RuleFor(under), overlay.items, key);
        (i.Some? ==> Spares(None, overlay.items[i.value], path[1..], whole))
      case Nth(_) => false
  }

  // ----------------------------------------------------- paths find everything

  lemma {:induction false} WellKeyedNowhere(under: Option<string>, v: Value, path: Path)
    requires WellKeyed(under, v)
    ensures !Repeats(under, v, path)
    decreases |path|
  {
    if path != [] {
      match path[0] {
        case Field(k) => if v.Obj? && k in v.fields { WellKeyedNowhere(Some(k), v.fields[k], path[1..]); }
        case Item(key) =>
          if v.Arr? {
            var i := Find(RuleFor(under), v.items, key);
            if i.Some? { WellKeyedNowhere(None, v.items[i.value], path[1..]); }
          }
        case Nth(i) => if v.Arr? && i < |v.items| { WellKeyedNowhere(None, v.items[i], path[1..]); }
      }
    }
  }

  lemma FieldRepeats(under: Option<string>, v: Value, k: string, path: Path)
    requires v.Obj? && k in v.fields && Repeats(Some(k), v.fields[k], path)
    ensures Repeats(under, v, [Field(k)] + path)
  {
    assert ([Field(k)] + path)[1..] == path;
  }

  lemma ItemRepeats(under: Option<string>, items: seq<Value>, i: nat, path: Path) returns (p: Path)
    requires RuleFor(under).NoKey? || !ScanKeys(RuleFor(under), items, {}).Duplicate?
    requires i < |items| && Repeats(None, items[i], path)
    ensures Repeats(under, Arr(items), p)
  {
    var rule := RuleFor(under);
    if Keyable(under, items) {
      WellKeyedDistinct(rule, items);
      FindDistinct(rule, items, i);
      p := [Item(KeyFor(rule, items[i]))] + path;
    } else {
      p := [Nth(i)] + path;
    }
    assert p[1..] == path;
  }

  /** The way to an outermost list that repeats a key. */
  lemma {:induction false} PathToRepeat(under: Option<string>, v: Value) returns (p: Path)
    requires !WellKeyed(under, v)
    ensures Repeats(under, v, p)
    decreases v
  {
    match v
    case Scalar(_, _) => assert false; p := [];
    case Obj(f) =>
      var k :| k in f && !WellKeyed(Some(k), f[k]);
      var rest := PathToRepeat(Some(k), f[k]);
      FieldRepeats(under, v, k, rest);
      p := [Field(k)] + rest;
    case Arr(items) =>
      if !RuleFor(under).NoKey? && ScanKeys(RuleFor(under), items, {}).Duplicate? {
        p := [];
      } else {
        var i :| 0 <= i < |items| && !WellKeyed(None, items[i]);
        var rest := PathToRepeat(None, items[i]);
        p := ItemRepeats(under, items, i, rest);
      }
  }

  // -------------------------------------------------------------- one overlay

  /** What laying keyed items over a list does to it: its own items keep their
      keys, and its places. */
  lemma {:induction false} MergedPrefix(rule: KeyRule, acc: seq<Value>, pos: map<Key, nat>, items: seq<Value>)
    requires AllKeyed(rule, acc) && AllKeyed(rule, items)
    requires forall i :: 0 <= i < |items| ==> IsText(KeyOf(rule, items[i]))
    requires forall k :: k in pos ==> pos[k] < |acc| && KeyOf(rule, acc[pos[k]]) == Some(k)
    ensures var r := MergeItems(rule, acc, pos, items);
      |acc| <= |r| && AllKeyed(rule, r) && forall i :: 0 <= i < |acc| ==> KeyOf(rule, r[i]) == KeyOf(rule, acc[i])
    decreases |items|
  {
    if items != [] {
      var k := KeyOf(rule, items[0]).value;
      assert IsText(KeyOf(rule, items[0]));
      if k in pos {
        MergeKeepsKey(rule, acc[pos[k]], items[0]);
        MergedPrefix(rule, acc[pos[k] := Merge(None, Some(acc[pos[k]]), items[0])], pos, items[1..]);
      } else {
        MergeNone(None, items[0]);
        MergedPrefix(rule, acc + [Merge(None, None, items[0])], pos[k := |acc|], items[1..]);
      }
    }
  }

  predicate MergedByKey(under: Option<string>, base: Option<Value>, items: seq<Value>) {
    base.Some? && base.value.Arr? && Keyable(under, base.value.items) && AllKeyed(RuleFor(under), items)
  }

  /** A list that repeats a key still does after items were merged into it. */
  lemma MergedStillRepeats(under: Option<string>, base: seq<Value>, items: seq<Value>)
    requires MergedByKey(under, Some(Arr(base)), items) && Proper(under, Arr(items))
    requires ScanKeys(RuleFor(under), base, {}).Duplicate?
    ensures var m := Merge(under, Some(Arr(base)), Arr(items));
            m.Arr? && AllKeyed(RuleFor(under), m.items) && ScanKeys(RuleFor(under), m.items, {}).Duplicate?
  {
    var rule := RuleFor(under);
    PositionsExact(rule, base);
    MergedPrefix(rule, base, Positions(rule, base), items);
    var r := MergeItems(rule, base, Positions(rule, base), items);
    ScanDuplicate(rule, base, {});
    var j :| RepeatsAt(rule, base, {}, j);
    assert RepeatsAt(rule, r, {}, j) by {
      var i :| 0 <= i < j && KeyOf(rule, base[i]) == KeyOf(rule, base[j]);
      assert KeyOf(rule, r[i]) == KeyOf(rule, r[j]);
    }
    ScanDuplicate(rule, r, {});
  }

  /** Merging by key into a list of distinct keys, whatever its items hold. */
  lemma MergedApart(under: Option<string>, base: seq<Value>, items: seq<Value>)
    returns (pos: map<Key, nat>, r: seq<Value>, newPos: map<Key, nat>)
    requires MergedByKey(under, Some(Arr(base)), items) && Proper(under, Arr(items))
    requires ScanKeys(RuleFor(under), base, {}).Keyed?
    ensures Merge(under, Some(Arr(base)), Arr(items)) == Arr(r)
    ensures ListMerge(RuleFor(under), base, pos, items, r, newPos) && KeyedApart(under, r)
  {
    var rule := RuleFor(under);
    WellKeyedDistinct(rule, base);
    WellKeyedDistinct(rule, items);
    PositionsIndexed(rule, base);
    pos := Positions(rule, base);
    newPos := MergeItemsShape(rule, base, pos, items);
    r := MergeItems(rule, base, pos, items);
    IndexedDistinct(rule, r, newPos);
    WellKeyedDistinct(rule, r);
  }

  lemma FindIndexed(rule: KeyRule, items: seq<Value>, pos: map<Key, nat>, key: Key)
    requires Indexed(rule, items, pos)
    ensures Find(rule, items, key) == if key in pos then Some(pos[key]) else None
  {
    IndexedDistinct(rule, items, pos);
    if key in pos {
      FindDistinct(rule, items, pos[key]);
    } else {
      forall i | 0 <= i < |items|
        ensures KeyOf(rule, items[i]) != Some(key)
      {
        assert KeyFor(rule, items[i]) in pos;
      }
    }
  }

  /** What stands under a key after merging lists of distinct keys. */
  lemma ItemAfter(rule: KeyRule, list: seq<Value>, pos: map<Key, nat>, items: seq<Value>,
                  r: seq<Value>, newPos: map<Key, nat>, key: Key)
    requires ListMerge(rule, list, pos, items, r, newPos)
    ensures var was, more, now := Find(rule, list, key), Find(rule, items, key), Find(rule, r, key);
      && (now.Some? <==> was.Some? || more.Some?)
      && (now.Some? ==>
            r[now.value] == if more.Some?
                            then Merge(None, if was.Some? then Some(list[was.value]) else None, items[more.value])
                            else list[was.value])
  {
    FindIndexed(rule, list, pos, key);
    FindIndexed(rule, r, newPos, key);
    var at := v => KeyFor(rule, v);
    var f := Find(rule, items, key);
    if f.Some? {
      assert at(items[f.value]) == key;
      assert r[newPos[key]] == LAY(KeyedLists.Was(list, pos, key), items[f.value]);
    } else {
      forall j | 0 <= j < |items|
        ensures at(items[j]) != key
      {
        assert KeyOf(rule, items[j]) == Some(at(items[j]));
      }
    }
  }

  ghost predicate Survives(under: Option<string>, base: Option<Value>, overlay: Value, path: Path) {
    base.Some? && Repeats(under, base.value, path) && Spares(under, overlay, path, Whole(under, base.value, path))
  }

  lemma ListReplaced(under: Option<string>, base: Option<Value>, items: seq<Value>, path: Path)
    requires Proper(under, Arr(items)) && !MergedByKey(under, base, items)
    ensures !Repeats(under, Merge(under, base, Arr(items)), path) && !Survives(under, base, Arr(items), path)
  {
    MergeCopies(under, base, items);
    WellKeyedNowhere(under, Arr(items), path);
    if Survives(under, base, Arr(items), path) && path != [] && path[0].Item? {
      ScanKeyed(RuleFor(under), base.value.items, {});
    }
  }

  /** The exact effect of one overlay: a repeated key is left exactly where the
      base had it and the overlay spares it. */
  lemma {:induction false} MergeRepeats(under: Option<string>, base: Option<Value>, overlay: Value, path: Path)
    requires Proper(under, overlay)
    ensures Repeats(under, Merge(under, base, overlay), path) <==> Survives(under, base, overlay, path)
    ensures Repeats(under, Merge(under, base, overlay), path) ==>
              Whole(under, Merge(under, base, overlay), path) == Whole(under, base.value, path)
    decreases |path|
  {
    match overlay
    case Scalar(_, _) =>
    case Obj(fields) =>
      if path != [] && path[0].Field? && path[0].name in fields {
        var k, was := path[0].name, FieldsOf(base);
        MergeRepeats(Some(k), if k in was then Some(was[k]) else None, fields[k], path[1..]);
      }
    case Arr(items) =>
      if !MergedByKey(under, base, items) {
        ListReplaced(under, base, items, path);
      } else {
        WellKeyedDistinct(RuleFor(under), base.value.items);
        if ScanKeys(RuleFor(under), base.value.items, {}).Duplicate? {
          MergedStillRepeats(under, base.value.items, items);
        } else {
          ApartRepeats(under, base.value.items, items, path);
        }
      }
  }

  lemma {:induction false} ApartRepeats(under: Option<string>, list: seq<Value>, items: seq<Value>, path: Path)
    requires MergedByKey(under, Some(Arr(list)), items) && Proper(under, Arr(items))
    requires ScanKeys(RuleFor(under), list, {}).Keyed?
    ensures var m := Merge(under, Some(Arr(list)), Arr(items));
      && (Repeats(under, m, path) <==> Survives(under, Some(Arr(list)), Arr(items), path))
      && (Repeats(under, m, path) ==> Whole(under, m, path) == Whole(under, Arr(list), path))
    decreases |path|, 0
  {
    var pos, r, newPos := MergedApart(under, list, items);
    WellKeyedDistinct(RuleFor(under), items);
    if path != [] && path[0].Item? {
      var rule, key := RuleFor(under), path[0].key;
      ItemAfter(rule, list, pos, items, r, newPos, key);
      var was, f := Find(rule, list, key), Find(rule, items, key);
      if f.Some? {
        MergeRepeats(None, if was.Some? then Some(list[was.value]) else None, items[f.value], path[1..]);
      }
    }
  }

  // ------------------------------------------------------------ all fragments

  ghost predicate Spared(layers: seq<Value>, path: Path)
    requires layers != []
  {
    forall i :: 1 <= i < |layers| ==> Spares(None, layers[i], path, Whole(None, layers[0], path))
  }

  lemma {:induction false} RepeatSurvives(layers: seq<Value>, path: Path)
    requires layers != [] && forall i :: 1 <= i < |layers| ==> Proper(None, layers[i])
    ensures Repeats(None, LayAll(layers), path) <==> Repeats(None, layers[0], path) && Spared(layers, path)
    ensures Repeats(None, LayAll(layers), path) ==> Whole(None, LayAll(layers), path) == Whole(None, layers[0], path)
    decreases |layers|
  {
    var n := |layers| - 1;
    if n == 0 {
      MergeNone(None, layers[0]);
    } else {
      var below := layers[..n];
      assert forall i :: 0 <= i < n ==> below[i] == layers[i];
      RepeatSurvives(below, path);
      MergeRepeats(None, Some(LayAll(below)), layers[n], path);
      assert Spared(layers, path) <==>
             Spared(below, path) && Spares(None, layers[n], path, Whole(None, layers[0], path));
    }
  }

  /** When the later fragments repeat no key themselves, the compiled object
      repeats one exactly if some list of the lowest fragment does and every later
      fragment spares that list. */
  lemma CompiledRepeats(encode: string -> string, fragments: seq<Fragment>)
    requires fragments != [] && forall i :: 1 <= i < |fragments| ==> Proper(None, Layers(encode, fragments)[i])
    ensures var layers := Layers(encode, fragments);
      !WellKeyed(None, Compile(encode, fragments)) <==>
      exists path: Path :: Repeats(None, layers[0], path) && Spared(layers, path)
  {
    var layers, m := Layers(encode, fragments), Compile(encode, fragments);
    if !WellKeyed(None, m) {
      var path := PathToRepeat(None, m);
      RepeatSurvives(layers, path);
    }
    forall path: Path | Repeats(None, layers[0], path) && Spared(layers, path)
      ensures !WellKeyed(None, m)
    {
      RepeatSurvives(layers, path);
      if WellKeyed(None, m) {
        WellKeyedNowhere(None, m, path);
      }
    }
  }
}
