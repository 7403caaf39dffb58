/** What comparing, merging and normalizing objects come to path by path: fields
    by name, items of keyed lists by key, items of other lists by position. */
module OwnedPaths {
  import opened GoStrings
  import opened OwnedFields
  import opened DesiredObjects
  import opened RepeatedKeys
  import Sorting

  // --------------------------------------------------------------- comparison

  /** The desired value says that `x` stands at the path. */
  ghost predicate Says(under: Option<string>, v: Value, path: Path, x: Value)
    decreases |path|
  {
    if path == [] then v == x
    else
      match path[0]
      case Field(k) => v.Obj? && k in v.fields && Says(Some(k), v.fields[k], path[1..], x)
      case Item(key) =>
        && v.Arr? && Keyable(under, v.items)
        && exists i :: 0 <= i < |v.items| && KeyOf(RuleFor(under), v.items[i]) == Some(key)
                       && Says(None, v.items[i], path[1..], x)
      case Nth(i) =>
        v.Arr? && !Keyable(under, v.items) && i < |v.items| && Says(None, v.items[i], path[1..], x)
  }

  /** In the live value the path leads to `y`: here a list may be asked by key or
      by position. */
  ghost predicate Leads(under: Option<string>, v: Value, path: Path, y: Value)
    decreases |path|
  {
    if path == [] then v == y
    else
      match path[0]
      case Field(k) => v.Obj? && k in v.fields && Leads(Some(k), v.fields[k], path[1..], y)
      case Item(key) =>
        && v.Arr?
        && exists j :: 0 <= j < |v.items| && KeyOf(RuleFor(under), v.items[j]) == Some(key)
                       && Leads(None, v.items[j], path[1..], y)
      case Nth(i) => v.Arr? && i < |v.items| && Leads(None, v.items[i], path[1..], y)
  }

  /** The field the end of a path stands under. */
  function EndUnder(under: Option<string>, path: Path): Option<string>
    decreases |path|
  {
    if path == [] then under
    else EndUnder(if path[0].Field? then Some(path[0].name) else None, path[1..])
  }

  /** What one place of the desired value asks of that place in the live one: the
      same scalar; an object; for a list of keyed items a list of distinct keys,
      for another list one of the same length whose keys do not repeat. */
  ghost predicate Meets(under: Option<string>, x: Value, y: Value) {
    match x
    case Scalar(kind, text) => y.Scalar? && y.kind == kind && y.text == text
    case Obj(_) => y.Obj?
    case Arr(items) =>
      && y.Arr?
      && if Keyable(under, items) then Distinct(RuleFor(under), y.items)
         else |items| == |y.items| && (RuleFor(under).NoKey? || forall j :: !RepeatsAt(RuleFor(under), y.items, {}, j))
  }

  /** Every place the desired value names is met in the live value. */
  ghost predicate Agrees(under: Option<string>, desired: Value, live: Value) {
    forall path: Path, x :: Says(under, desired, path, x) ==>
      exists y :: Leads(under, live, path, y) && Meets(EndUnder(under, path), x, y)
  }

  /** A desired list that is not keyed throughout is compared by position. */
  lemma PlainListMatches(under: Option<string>, items: seq<Value>, live: Value)
    requires !Keyable(under, items)
    ensures Matches(under, Arr(items), live) <==>
      && Meets(under, Arr(items), live)
      && forall i :: 0 <= i < |items| ==> Matches(None, items[i], live.items[i])
  {
    if live.Arr? && !RuleFor(under).NoKey? {
      ScanDuplicate(RuleFor(under), live.items, {});
    }
  }

  lemma {:induction false} MatchedPath(under: Option<string>, desired: Value, live: Value, path: Path, x: Value)
    returns (y: Value)
    requires Matches(under, desired, live) && Says(under, desired, path, x)
    ensures Leads(under, live, path, y) && Meets(EndUnder(under, path), x, y)
    decreases |path|
  {
    if path == [] {
      y := live;
      if desired.Arr? {
        if Keyable(under, desired.items) {
          KeyedListMatches(under, desired.items, live);
        } else {
          PlainListMatches(under, desired.items, live);
        }
      }
    } else {
      match path[0] {
        case Field(k) =>
          y := MatchedPath(Some(k), desired.fields[k], live.fields[k], path[1..], x);
        case Item(key) =>
          var i :| 0 <= i < |desired.items| && KeyOf(RuleFor(under), desired.items[i]) == Some(key)
                   && Says(None, desired.items[i], path[1..], x);
          KeyedListMatches(under, desired.items, live);
          assert Held(RuleFor(under), desired.items[i], live.items);
          var j :| 0 <= j < |live.items| && KeyOf(RuleFor(under), live.items[j]) == Some(key)
                   && Matches(None, desired.items[i], live.items[j]);
          y := MatchedPath(None, desired.items[i], live.items[j], path[1..], x);
        case Nth(i) =>
          PlainListMatches(under, desired.items, live);
          y := MatchedPath(None, desired.items[i], live.items[i], path[1..], x);
      }
    }
  }

  lemma AgreesHere(under: Option<string>, desired: Value, live: Value)
    requires Agrees(under, desired, live)
    ensures Meets(under, desired, live)
  {
    assert Says(under, desired, [], desired);
    var y :| Leads(under, live, [], y) && Meets(EndUnder(under, []), desired, y);
  }

  lemma SaysField(under: Option<string>, v: Value, k: string, path: Path, x: Value)
    requires v.Obj? && k in v.fields && Says(Some(k), v.fields[k], path, x)
    ensures Says(under, v, [Field(k)] + path, x)
  {
    assert ([Field(k)] + path)[1..] == path;
  }

  lemma AgreesField(under: Option<string>, desired: Value, live: Value, k: string)
    requires Agrees(under, desired, live) && desired.Obj? && k in desired.fields
    ensures live.Obj? && k in live.fields && Agrees(Some(k), desired.fields[k], live.fields[k])
  {
    AgreesHere(under, desired, live);
    SaysField(under, desired, k, [], desired.fields[k]);
    var y0 :| Leads(under, live, [Field(k)] + [], y0) && Meets(EndUnder(under, [Field(k)] + []), desired.fields[k], y0);
    forall path: Path, x | Says(Some(k), desired.fields[k], path, x)
      ensures exists y :: Leads(Some(k), live.fields[k], path, y) && Meets(EndUnder(Some(k), path), x, y)
    {
      SaysField(under, desired, k, path, x);
      var long := [Field(k)] + path;
      assert long[1..] == path;
      var y :| Leads(under, live, long, y) && Meets(EndUnder(under, long), x, y);
      assert Leads(Some(k), live.fields[k], path, y) && EndUnder(under, long) == EndUnder(Some(k), path);
    }
  }

  lemma AgreesNth(under: Option<string>, desired: Value, live: Value, i: nat)
    requires Agrees(under, desired, live) && desired.Arr? && !Keyable(under, desired.items) && i < |desired.items|
    ensures live.Arr? && i < |live.items| && Agrees(None, desired.items[i], live.items[i])
  {
    AgreesHere(under, desired, live);
    forall path: Path, x | Says(None, desired.items[i], path, x)
      ensures exists y :: Leads(None, live.items[i], path, y) && Meets(EndUnder(None, path), x, y)
    {
      var long := [Nth(i)] + path;
      assert long[1..] == path;
      assert Says(under, desired, long, x);
      var y :| Leads(under, live, long, y) && Meets(EndUnder(under, long), x, y);
      assert Leads(None, live.items[i], path, y) && EndUnder(under, long) == EndUnder(None, path);
    }
  }

  /** The live item of a desired item's key, which is the only one. */
  lemma AgreesItem(under: Option<string>, desired: Value, live: Value, i: nat) returns (j: nat)
    requires Agrees(under, desired, live) && desired.Arr? && Keyable(under, desired.items) && i < |desired.items|
    ensures live.Arr? && j < |live.items| && Distinct(RuleFor(under), live.items)
    ensures KeyOf(RuleFor(under), live.items[j]) == KeyOf(RuleFor(under), desired.items[i])
    ensures Agrees(None, desired.items[i], live.items[j])
  {
    AgreesHere(under, desired, live);
    var rule := RuleFor(under);
    var key := KeyOf(rule, desired.items[i]).value;
    j := FoundItem(under, desired, live, i, key);
    DistinctKeys(rule, live.items, j);
    forall path: Path, x | Says(None, desired.items[i], path, x)
      ensures exists y :: Leads(None, live.items[j], path, y) && Meets(EndUnder(None, path), x, y)
    {
      var long := [Item(key)] + path;
      assert long[1..] == path;
      assert Says(under, desired, long, x);
      var y :| Leads(under, live, long, y) && Meets(EndUnder(under, long), x, y);
      var m :| 0 <= m < |live.items| && KeyOf(rule, live.items[m]) == Some(key) && Leads(None, live.items[m], path, y);
      assert m == j;
    }
  }

  lemma FoundItem(under: Option<string>, desired: Value, live: Value, i: nat, key: Key) returns (j: nat)
    requires Agrees(under, desired, live) && desired.Arr? && Keyable(under, desired.items) && i < |desired.items|
    requires KeyOf(RuleFor(under), desired.items[i]) == Some(key)
    ensures live.Arr? && j < |live.items| && KeyOf(RuleFor(under), live.items[j]) == Some(key)
  {
    var path := [Item(key)];
    assert path[1..] == [];
    assert Says(None, desired.items[i], [], desired.items[i]);
    assert Says(under, desired, path, desired.items[i]);
    var y :| Leads(under, live, path, y) && Meets(EndUnder(under, path), desired.items[i], y);
    j :|
      && 0 <= j < |live.items| && KeyOf(RuleFor(under), live.items[j]) == Some(key)
      && Leads(None, live.items[j], [], y);
  }

  lemma {:induction false} AgreeingMatches(under: Option<string>, desired: Value, live: Value)
    requires Agrees(under, desired, live)
    ensures Matches(under, desired, live)
    decreases desired
  {
    AgreesHere(under, desired, live);
    match desired
    case Scalar(_, _) =>
    case Obj(f) =>
      forall k | k in f
        ensures k in live.fields && Matches(Some(k), f[k], live.fields[k])
      {
        AgreesField(under, desired, live, k);
        AgreeingMatches(Some(k), f[k], live.fields[k]);
      }
    case Arr(items) =>
      if Keyable(under, items) {
        forall i | 0 <= i < |items|
          ensures Held(RuleFor(under), items[i], live.items)
        {
          var j := AgreesItem(under, desired, live, i);
          AgreeingMatches(None, items[i], live.items[j]);
        }
        KeyedListMatches(under, items, live);
      } else {
        forall i | 0 <= i < |items|
          ensures Matches(None, items[i], live.items[i])
        {
          AgreesNth(under, desired, live, i);
          AgreeingMatches(None, items[i], live.items[i]);
        }
        PlainListMatches(under, items, live);
      }
  }

  /** The comparison finds no mismatch exactly if every place the desired value
      names is met in the live one: the same scalars, objects for objects, lists
      with the items asked for. */
  lemma MatchesExact(under: Option<string>, desired: Value, live: Value)
    ensures Matches(under, desired, live) <==> Agrees(under, desired, live)
  {
    if Matches(under, desired, live) {
      forall path: Path, x | Says(under, desired, path, x)
        ensures exists y :: Leads(under, live, path, y) && Meets(EndUnder(under, path), x, y)
      {
        var y := MatchedPath(under, desired, live, path, x);
      }
    }
    if Agrees(under, desired, live) {
      AgreeingMatches(under, desired, live);
    }
  }

  /** In particular one scalar that differs is a mismatch. */
  lemma ScalarDiffers(under: Option<string>, desired: Value, live: Value, path: Path, x: Value)
    requires Says(under, desired, path, x) && x.Scalar? && !Leads(under, live, path, x)
    ensures !Matches(under, desired, live)
  {
    if Matches(under, desired, live) {
      var y := MatchedPath(under, desired, live, path, x);
    }
  }

  // ------------------------------------------------------------------ merging

  /** What stands at a path: items of keyed lists are asked for by key, those of
      other lists by position. */
  function Reach(under: Option<string>, v: Value, path: Path): Option<Value>
    decreases |path|
  {
    if path == [] then Some(v)
    else
      match path[0]
      case Field(k) => if v.Obj? && k in v.fields then Reach(Some(k), v.fields[k], path[1..]) else None
      case Item(key) =>
        if v.Arr? && Keyable(under, v.items) then
          match Find(RuleFor(under), v.items, key)
          case None => None
          case Some(i) => Reach(None, v.items[i], path[1..])
        else None
      case Nth(i) =>
        if v.Arr? && !Keyable(under, v.items) && i < |v.items| then Reach(None, v.items[i], path[1..]) else None
  }

  /** The overlay says nothing about the path: an object on the way lacks its
      field, or a keyed list its item. */
  predicate Silent(under: Option<string>, overlay: Value, path: Path)
    decreases |path|
  {
    if path == [] then false
    else
      match path[0]
      case Field(k) => overlay.Obj? && (k in overlay.fields ==> Silent(Some(k), overlay.fields[k], path[1..]))
      case Item(key) =>
        && overlay.Arr? && AllKeyed(RuleFor(under), overlay.items)
        && var i := Find(RuleFor(under), overlay.items, key);
        (i.Some? ==> Silent(None, overlay.items[i.value], path[1..]))
      case Nth(_) => false
  }

  ghost predicate FromEither(under: Option<string>, base: Option<Value>, overlay: Value, path: Path, x: Value) {
    || Reach(under, overlay, path) == Some(x)
    || (Silent(under, overlay, path) && base.Some? && Reach(under, base.value, path) == Some(x))
  }

  /** A scalar stands in the merged value exactly if the overlay has it there, or
      the base has it and the overlay is silent. */
  lemma {:induction false} MergeExact(under: Option<string>, base: Option<Value>, overlay: Value, path: Path, x: Value)
    requires x.Scalar? && Proper(under, overlay) && (base.Some? ==> WellKeyed(under, base.value))
    ensures Reach(under, Merge(under, base, overlay), path) == Some(x) <==> FromEither(under, base, overlay, path, x)
    decreases |path|, 2
  {
    match overlay
    case Scalar(_, _) =>
    case Obj(fields) =>
      if path != [] && path[0].Field? && path[0].name in fields {
        var k, was := path[0].name, FieldsOf(base);
        MergeExact(Some(k), if k in was then Some(was[k]) else None, fields[k], path[1..], x);
      }
    case Arr(items) =>
      if MergedByKey(under, base, items) {
        WellKeyedDistinct(RuleFor(under), base.value.items);
        MergeItemExact(under, base.value.items, items, path, x);
      } else {
        MergeCopies(under, base, items);
      }
  }

  lemma ReachItem(under: Option<string>, items: seq<Value>, path: Path)
    requires Keyable(under, items) && path != []
    ensures Reach(under, Arr(items), path) ==
      if path[0].Item? && Find(RuleFor(under), items, path[0].key).Some?
      then Reach(None, items[Find(RuleFor(under), items, path[0].key).value], path[1..]) else None
  {
  }

  /** One key of a merged list: what the overlay's item of it does to the base's. */
  lemma {:induction false} KeyExact(under: Option<string>, was: Option<Value>, f: Option<Value>, path: Path, x: Value)
    requires x.Scalar? && path != []
    requires (f.Some? ==> Proper(None, f.value)) && (was.Some? ==> WellKeyed(None, was.value))
    ensures var rest := path[1..];
      var now := if f.Some? then Some(Merge(None, was, f.value)) else was;
      (now.Some? && Reach(None, now.value, rest) == Some(x)) <==>
      || (f.Some? && Reach(None, f.value, rest) == Some(x))
      || ((f.Some? ==> Silent(None, f.value, rest)) && was.Some? && Reach(None, was.value, rest) == Some(x))
    decreases |path|, 0
  {
    if f.Some? {
      MergeExact(None, was, f.value, path[1..], x);
    }
  }

  function ItemAt(items: seq<Value>, i: Option<nat>): Option<Value>
    requires i.Some? ==> i.value < |items|
  {
    if i.Some? then Some(items[i.value]) else None
  }

  lemma {:induction false} MergeItemExact(
    under: Option<string>, list: seq<Value>, items: seq<Value>, path: Path, x: Value)
    requires x.Scalar? && Proper(under, Arr(items)) && WellKeyed(under, Arr(list))
    requires MergedByKey(under, Some(Arr(list)), items) && ScanKeys(RuleFor(under), list, {}).Keyed?
    ensures Reach(under, Merge(under, Some(Arr(list)), Arr(items)), path) == Some(x)
       <==> FromEither(under, Some(Arr(list)), Arr(items), path, x)
    decreases |path|, 1
  {
    var pos, r, newPos := MergedApart(under, list, items);
    ScanKeyed(RuleFor(under), r, {});
    if path != [] {
      ReachItem(under, list, path);
      ReachItem(under, items, path);
      ReachItem(under, r, path);
      if path[0].Item? {
        var rule, key := RuleFor(under), path[0].key;
        ItemAfter(rule, list, pos, items, r, newPos, key);
        KeyExact(under, ItemAt(list, Find(rule, list, key)), ItemAt(items, Find(rule, items, key)), path, x);
      }
    }
  }

  /** The layer at `i` speaks of the path, and none above it does. */
  ghost predicate Decides(layers: seq<Value>, i: int, path: Path, x: Value) {
    && 0 <= i < |layers| && Reach(None, layers[i], path) == Some(x)
    && forall j :: i < j < |layers| ==> Silent(None, layers[j], path)
  }

  lemma {:induction false} LaidExact(layers: seq<Value>, path: Path, x: Value)
    requires layers != [] && x.Scalar? && forall i :: 0 <= i < |layers| ==> Proper(None, layers[i])
    ensures Reach(None, LayAll(layers), path) == Some(x) <==> exists i :: Decides(layers, i, path, x)
    decreases |layers|
  {
    var n := |layers| - 1;
    if n == 0 {
      MergeNone(None, layers[0]);
      assert Reach(None, layers[0], path) == Some(x) ==> Decides(layers, 0, path, x);
    } else {
      var below := layers[..n];
      assert forall i :: 0 <= i < n ==> below[i] == layers[i];
      LaidExact(below, path, x);
      LaidSound(below);
      MergeExact(None, Some(LayAll(below)), layers[n], path, x);
      DecidesBelow(layers, path, x);
    }
  }

  lemma DecidesBelow(layers: seq<Value>, path: Path, x: Value)
    requires |layers| > 1
    ensures var n := |layers| - 1;
      (exists i :: Decides(layers, i, path, x)) <==>
      Reach(None, layers[n], path) == Some(x)
      || (Silent(None, layers[n], path) && exists i :: Decides(layers[..n], i, path, x))
  {
    var n := |layers| - 1;
    var below := layers[..n];
    assert forall i :: 0 <= i < n ==> below[i] == layers[i];
    if i :| Decides(layers, i, path, x) {
      assert i < n ==> Decides(below, i, path, x);
    }
    if Reach(None, layers[n], path) == Some(x) {
      assert Decides(layers, n, path, x);
    }
    if Silent(None, layers[n], path) {
      if i :| Decides(below, i, path, x) {
        assert Decides(layers, i, path, x);
      }
    }
  }

  /** In a compiled object the last fragment, in order of priority and path, that
      speaks of a place decides the scalar there. */
  lemma CompiledScalar(encode: string -> string, fragments: seq<Fragment>, path: Path, x: Value)
    requires fragments != [] && x.Scalar?
    requires forall i :: 0 <= i < |fragments| ==> Proper(None, Layers(encode, fragments)[i])
    ensures Reach(None, Compile(encode, fragments), path) == Some(x)
       <==> exists i :: Decides(Layers(encode, fragments), i, path, x)
  {
    LaidExact(Layers(encode, fragments), path, x);
  }

  /** The order in question: global before local before other fragments, those of
      one owner by path. */
  lemma LayersOrdered(encode: string -> string, fragments: seq<Fragment>) returns (sorted: seq<Fragment>)
    ensures multiset(sorted) == multiset(fragments) && |Layers(encode, fragments)| == |sorted|
    ensures forall i :: 0 <= i < |sorted| ==> Layers(encode, fragments)[i] == Normalize(encode, sorted[i].value)
    ensures forall i, j :: 0 <= i < j < |sorted| ==>
              && !(sorted[i].owner == Local && sorted[j].owner == Global)
              && !(sorted[i].owner == Other && sorted[j].owner != Other)
              && (sorted[i].owner == sorted[j].owner ==> Sorting.Leq(sorted[i].path, sorted[j].path))
  {
    sorted := Sorting.Sort(FragmentLeq, fragments);
    FragmentOrder();
    Sorting.SortAscending(FragmentLeq, fragments);
    Sorting.SameElements(sorted, fragments);
    assert forall i, j :: 0 <= i < j < |sorted| ==> FragmentLeq(sorted[i], sorted[j]);
  }

  // ------------------------------------------------------------ normalization

  /** A path of fields and positions. */
  predicate Positional(path: Path) {
    forall i :: 0 <= i < |path| ==> !path[i].Item?
  }

  /** The path ends in a probe's zero default. */
  predicate EndsInZero(v: Value, path: Path)
    decreases |path|
  {
    if path == [] then false
    else
      match path[0]
      case Field(k) =>
        v.Obj? && k in v.fields && if |path| == 1 then Dropped(v.fields, k) else EndsInZero(v.fields[k], path[1..])
      case Item(_) => false
      case Nth(i) => v.Arr? && i < |v.items| && EndsInZero(v.items[i], path[1..])
  }

  /** Normalizing probes takes away their zero defaults and nothing else. */
  lemma {:induction false} ProbesExact(under: Option<string>, v: Value, path: Path, x: Value)
    requires Positional(path) && x.Scalar?
    ensures Leads(under, NormalizeProbes(v), path, x) <==> Leads(under, v, path, x) && !EndsInZero(v, path)
    decreases |path|
  {
    if path != [] {
      assert Positional(path[1..]);
      match path[0] {
        case Field(k) =>
          if v.Obj? && k in v.fields {
            ProbesExact(Some(k), v.fields[k], path[1..], x);
            if |path| > 1 && Dropped(v.fields, k) {
              assert v.fields[k].Scalar?;
            }
          }
        case Item(_) =>
        case Nth(i) =>
          if v.Arr? && i < |v.items| { ProbesExact(None, v.items[i], path[1..], x); }
      }
    }
  }
}
