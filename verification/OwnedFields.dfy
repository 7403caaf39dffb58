/** How a desired Kubernetes object is compiled from its fragments and compared
    with the live one (package compare: `mergeDesiredValue`, `mergeDesiredList`,
    `diffOwnedFieldsAtPath`, `compareMergeKeyList`). */
module OwnedFields {
  import opened GoStrings
  import KeyedLists

  // ------------------------------------------------------------------ values

  datatype ScalarKind = Str | Num | Bool | Null

  /** A decoded YAML value; a scalar is its kind and its printed text. */
  datatype Value =
    | Scalar(kind: ScalarKind, text: string)
    | Arr(items: seq<Value>)
    | Obj(fields: map<string, Value>)

  /** How the items of a list are identified. */
  datatype KeyRule = NoKey | ByField(field: string) | ByPort

  /** The rule is chosen by the field a list stands under; a list inside a list
      (`None`) has none. */
  function RuleFor(under: Option<string>): KeyRule {
    match under
    case None => NoKey
    case Some(f) =>
      if f in ["containers", "initContainers", "ephemeralContainers", "env", "volumes"] then ByField("name")
      else if f == "volumeMounts" then ByField("mountPath")
      else if f == "ports" then ByPort
      else NoKey
  }

  /** A merge key: the field it was read from and the printed values. Values
      that are not scalars print injectively here. */
  datatype KeyText = Text(text: string) | Composite(value: Value)
  datatype Key = Key(field: string, value: KeyText, protocol: Option<KeyText>)

  function Print(v: Value): KeyText {
    if v.Scalar? then Text(v.text) else Composite(v)
  }

  function KeyOf(rule: KeyRule, item: Value): Option<Key> {
    if !item.Obj? then None
    else
      var f := item.fields;
      match rule
      case NoKey => None
      case ByField(name) => if name in f then Some(Key(name, Print(f[name]), None)) else None
      case ByPort =>
        var protocol := if "protocol" in f then Some(Print(f["protocol"])) else None;
        if "containerPort" in f then Some(Key("containerPort", Print(f["containerPort"]), protocol))
        else if "port" in f then Some(Key("port", Print(f["port"]), protocol))
        else if "name" in f then Some(Key("name", Print(f["name"]), None))
        else None
  }

  predicate AllKeyed(rule: KeyRule, items: seq<Value>) {
    forall i :: 0 <= i < |items| ==> KeyOf(rule, items[i]).Some?
  }

  // -------------------------------------------------------------- comparison

  datatype Scan = Unkeyed | Duplicate | Keyed

  /** Indexing the live list: it stops at the first item without a key, or at
      the first key seen twice, whichever comes first. */
  function ScanKeys(rule: KeyRule, items: seq<Value>, seen: set<Key>): Scan {
    if items == [] then Keyed
    else
      match KeyOf(rule, items[0])
      case None => Unkeyed
      case Some(k) => if k in seen then Duplicate else ScanKeys(rule, items[1..], seen + {k})
  }

  function Find(rule: KeyRule, items: seq<Value>, key: Key): (r: Option<nat>)
    ensures r.Some? ==> r.value < |items| && KeyOf(rule, items[r.value]) == Some(key)
    ensures r.None? ==> forall i :: 0 <= i < |items| ==> KeyOf(rule, items[i]) != Some(key)
  {
    if items == [] then None
    else if KeyOf(rule, items[0]) == Some(key) then Some(0)
    else match Find(rule, items[1..], key)
      case None => None
      case Some(i) => Some(i + 1)
  }

  /** No mismatch between the desired value and the live one. Only the fields
      the desired value names are looked at. */
  predicate Matches(under: Option<string>, desired: Value, live: Value)
    decreases desired
  {
    match desired
    case Scalar(_, _) => desired == live
    case Obj(fields) =>
      live.Obj? &&
      forall k :: k in fields ==> k in live.fields && Matches(Some(k), fields[k], live.fields[k])
    case Arr(items) =>
      live.Arr? &&
      var rule := RuleFor(under);
      var scan := if rule.NoKey? then Unkeyed else ScanKeys(rule, live.items, {});
      if scan.Duplicate? then false
      else if scan.Keyed? && AllKeyed(rule, items) then
        forall i :: 0 <= i < |items| ==>
          var j := Find(rule, live.items, KeyOf(rule, items[i]).value);
          j.Some? && Matches(None, items[i], live.items[j.value])
      else
        |items| == |live.items| &&
        forall i :: 0 <= i < |items| ==> Matches(None, items[i], live.items[i])
  }

  // ----------------------------------------------------------------- merging

  function FieldsOf(base: Option<Value>): map<string, Value> {
    if base.Some? && base.value.Obj? then base.value.fields else map[]
  }

  /** Lays a later fragment over what was compiled so far. */
  function Merge(under: Option<string>, base: Option<Value>, overlay: Value): Value
    decreases overlay, 0
  {
    match overlay
    case Scalar(_, _) => overlay
    case Obj(fields) =>
      var was := FieldsOf(base);
      Obj(map k | k in was.Keys + fields.Keys ::
            if k in fields then Merge(Some(k), if k in was then Some(was[k]) else None, fields[k])
            else was[k])
    case Arr(items) =>
      var rule := RuleFor(under);
      if base.Some? && base.value.Arr? && !rule.NoKey?
         && AllKeyed(rule, base.value.items) && AllKeyed(rule, items) then
        Arr(MergeItems(rule, base.value.items, Positions(rule, base.value.items), items))
      else
        Arr(seq(|items|, i requires 0 <= i < |items| => Merge(None, None, items[i])))
  }

  /** The position each key was last seen at. */
  function Positions(rule: KeyRule, items: seq<Value>): (r: map<Key, nat>)
    requires AllKeyed(rule, items)
    ensures forall k :: k in r ==> r[k] < |items|
  {
    if items == [] then map[]
    else
      var n := |items| - 1;
      Positions(rule, items[..n])[KeyOf(rule, items[n]).value := n]
  }

  lemma {:induction false} PositionsExact(rule: KeyRule, items: seq<Value>)
    requires AllKeyed(rule, items)
    ensures forall k :: k in Positions(rule, items) ==> KeyOf(rule, items[Positions(rule, items)[k]]) == Some(k)
    ensures forall i :: 0 <= i < |items| ==> KeyOf(rule, items[i]).value in Positions(rule, items)
  {
    if items != [] {
      var n := |items| - 1;
      var init := items[..n];
      assert forall i :: 0 <= i < n ==> init[i] == items[i];
      PositionsExact(rule, init);
      PositionsNext(rule, items, Positions(rule, init));
    }
  }

  lemma PositionsNext(rule: KeyRule, items: seq<Value>, before: map<Key, nat>)
    requires AllKeyed(rule, items) && items != []
    requires var n := |items| - 1;
      && (forall k :: k in before ==> before[k] < n && KeyOf(rule, items[before[k]]) == Some(k))
      && (forall i :: 0 <= i < n ==> KeyOf(rule, items[i]).value in before)
    ensures var n := |items| - 1;
      var pos := before[KeyOf(rule, items[n]).value := n];
      && (forall k :: k in pos ==> KeyOf(rule, items[pos[k]]) == Some(k))
      && (forall i :: 0 <= i < |items| ==> KeyOf(rule, items[i]).value in pos)
  {
  }

  function MergeItems(rule: KeyRule, acc: seq<Value>, pos: map<Key, nat>, items: seq<Value>): seq<Value>
    requires AllKeyed(rule, items)
    requires forall k :: k in pos ==> pos[k] < |acc|
    decreases items, 1
  {
    if items == [] then acc
    else
      var k := KeyOf(rule, items[0]).value;
      if k in pos then
        MergeItems(rule, acc[pos[k] := Merge(None, Some(acc[pos[k]]), items[0])], pos, items[1..])
      else
        MergeItems(rule, acc + [Merge(None, None, items[0])], pos[k := |acc|], items[1..])
  }

  // ------------------------------------------- a compiled object against itself

  /** No list identified by keys names one key twice (before an unkeyed item). */
  predicate WellKeyed(under: Option<string>, v: Value)
    decreases v
  {
    match v
    case Scalar(_, _) => true
    case Obj(fields) => forall k :: k in fields ==> WellKeyed(Some(k), fields[k])
    case Arr(items) =>
      && (RuleFor(under).NoKey? || !ScanKeys(RuleFor(under), items, {}).Duplicate?)
      && forall i :: 0 <= i < |items| ==> WellKeyed(None, items[i])
  }

  /** A scan that finds neither defect means distinct keys. */
  lemma {:induction false} ScanKeyed(rule: KeyRule, items: seq<Value>, seen: set<Key>)
    ensures AllKeyed(rule, items) ==> !ScanKeys(rule, items, seen).Unkeyed?
    ensures ScanKeys(rule, items, seen).Keyed? <==>
      (&& AllKeyed(rule, items)
       && (forall i :: 0 <= i < |items| ==> KeyOf(rule, items[i]).value !in seen)
       && (forall i, j :: 0 <= i < j < |items| ==> KeyOf(rule, items[i]) != KeyOf(rule, items[j])))
  {
    if items != [] {
      var k := KeyOf(rule, items[0]);
      if k.Some? && k.value !in seen {
        var rest := items[1..];
        ScanKeyed(rule, rest, seen + {k.value});
        assert forall i :: 0 <= i < |rest| ==> rest[i] == items[i + 1];
        assert forall i :: 1 <= i < |items| ==> items[i] == rest[i - 1];
        if ScanKeys(rule, items, seen).Keyed? {
          forall i, j | 0 <= i < j < |items|
            ensures KeyOf(rule, items[i]) != KeyOf(rule, items[j])
          {
            assert items[j] == rest[j - 1];
            if i > 0 { assert items[i] == rest[i - 1]; }
          }
        }
      }
    }
  }

  /** An object compares as matching with itself exactly when it is well keyed.
      So writing a desired object and comparing again ends the drift if and only
      if the desired object repeats no merge key. */
  lemma {:induction false} MatchesSelf(under: Option<string>, v: Value)
    ensures Matches(under, v, v) <==> WellKeyed(under, v)
    decreases v
  {
    match v
    case Scalar(_, _) =>
    case Obj(fields) =>
      forall k | k in fields
        ensures Matches(Some(k), fields[k], fields[k]) <==> WellKeyed(Some(k), fields[k])
      {
        MatchesSelf(Some(k), fields[k]);
      }
    case Arr(items) =>
      forall i | 0 <= i < |items|
        ensures Matches(None, items[i], items[i]) <==> WellKeyed(None, items[i])
      {
        MatchesSelf(None, items[i]);
      }
      var rule := RuleFor(under);
      ScanKeyed(rule, items, {});
      if !rule.NoKey? && ScanKeys(rule, items, {}).Keyed? {
        forall i | 0 <= i < |items|
          ensures Find(rule, items, KeyOf(rule, items[i]).value) == Some(i)
        {
          var j := Find(rule, items, KeyOf(rule, items[i]).value);
          assert j.Some?;
        }
      }
  }

  // ---------------------------------------------- what an overlay settles

  predicate IsText(k: Option<Key>) {
    k.Some? ==> k.value.value.Text? && (k.value.protocol.Some? ==> k.value.protocol.value.Text?)
  }

  /** Every value a list item is identified by is a scalar. */
  predicate TextKeys(under: Option<string>, v: Value)
    decreases v
  {
    match v
    case Scalar(_, _) => true
    case Obj(fields) => forall k :: k in fields ==> TextKeys(Some(k), fields[k])
    case Arr(items) =>
      forall i :: 0 <= i < |items| ==> IsText(KeyOf(RuleFor(under), items[i])) && TextKeys(None, items[i])
  }

  predicate Proper(under: Option<string>, v: Value) {
    WellKeyed(under, v) && TextKeys(under, v)
  }

  predicate ProperBase(under: Option<string>, base: Option<Value>) {
    base.Some? ==> Proper(under, base.value)
  }

  /** Laying a value over nothing copies it. */
  lemma {:induction false} MergeNone(under: Option<string>, v: Value)
    ensures Merge(under, None, v) == v
    decreases v
  {
    match v
    case Scalar(_, _) =>
    case Obj(fields) =>
      forall k | k in fields
        ensures Merge(Some(k), None, fields[k]) == fields[k]
      {
        MergeNone(Some(k), fields[k]);
      }
      assert Merge(under, None, v).fields == fields;
    case Arr(items) =>
      forall i | 0 <= i < |items|
        ensures Merge(None, None, items[i]) == items[i]
      {
        MergeNone(None, items[i]);
      }
      assert Merge(under, None, v).items == items;
  }

  lemma MergedScalar(base: Value, item: Value, f: string)
    requires base.Obj? && item.Obj? && f in item.fields && item.fields[f].Scalar?
    ensures var m := Merge(None, Some(base), item);
            m.Obj? && f in m.fields && m.fields[f] == item.fields[f]
  {
    var was := base.fields;
    assert Merge(Some(f), if f in was then Some(was[f]) else None, item.fields[f]) == item.fields[f];
  }

  /** Merging two items with the same printed key keeps the key. */
  lemma MergeKeepsKey(rule: KeyRule, base: Value, item: Value)
    requires KeyOf(rule, item).Some? && KeyOf(rule, base) == KeyOf(rule, item)
    requires IsText(KeyOf(rule, item))
    ensures KeyOf(rule, Merge(None, Some(base), item)) == KeyOf(rule, item)
  {
    var m := Merge(None, Some(base), item).fields;
    assert m.Keys == base.fields.Keys + item.fields.Keys;
    var k := KeyOf(rule, item).value;
    MergedScalar(base, item, k.field);
    if k.protocol.Some? {
      MergedScalar(base, item, "protocol");
    }
  }

  /** The key of an item known to have one. */
  function KeyFor(rule: KeyRule, item: Value): Key {
    var k := KeyOf(rule, item);
    if k.Some? then k.value else Key("", Text(""), None)
  }

  ghost predicate Distinct(rule: KeyRule, items: seq<Value>) {
    AllKeyed(rule, items) && KeyedLists.Distinct(v => KeyFor(rule, v), items)
  }

  ghost predicate Indexed(rule: KeyRule, acc: seq<Value>, pos: map<Key, nat>) {
    AllKeyed(rule, acc) && KeyedLists.Indexed(v => KeyFor(rule, v), acc, pos)
  }

  /** One overlay item laid over the list built so far. */
  lemma MergeOneItem(rule: KeyRule, acc: seq<Value>, pos: map<Key, nat>, item: Value)
    requires Indexed(rule, acc, pos)
    requires KeyOf(rule, item).Some? && IsText(KeyOf(rule, item))
    ensures var next := KeyedLists.Lay(v => KeyFor(rule, v), LAY, acc, pos, item);
            Indexed(rule, next.0, next.1)
  {
    var k := KeyFor(rule, item);
    if k in pos {
      MergeKeepsKey(rule, acc[pos[k]], item);
    } else {
      MergeNone(None, item);
    }
  }

  const LAY: (Option<Value>, Value) -> Value := (b, o) => Merge(None, b, o)

  /** The merged list is the keyed overlay of the two lists. */
  lemma {:induction false} MergeItemsShape(rule: KeyRule, acc: seq<Value>, pos: map<Key, nat>, items: seq<Value>)
    returns (newPos: map<Key, nat>)
    requires Indexed(rule, acc, pos) && Distinct(rule, items)
    requires forall i :: 0 <= i < |items| ==> IsText(KeyOf(rule, items[i]))
    ensures Indexed(rule, MergeItems(rule, acc, pos, items), newPos)
    ensures KeyedLists.Overlaid(v => KeyFor(rule, v), LAY, acc, pos, items,
                                MergeItems(rule, acc, pos, items), newPos)
    decreases |items|
  {
    newPos := pos;
    if items != [] {
      MergeOneItem(rule, acc, pos, items[0]);
      var (acc2, pos2) := KeyedLists.Lay(v => KeyFor(rule, v), LAY, acc, pos, items[0]);
      assert KeyOf(rule, items[0]).value == KeyFor(rule, items[0]);
      newPos := MergeItemsShape(rule, acc2, pos2, items[1..]);
      var r := MergeItems(rule, acc, pos, items);
      assert r == MergeItems(rule, acc2, pos2, items[1..]);
      KeyedLists.OverlaidCons(v => KeyFor(rule, v), LAY, acc, pos, items, r, newPos);
    }
  }

  lemma PositionsIndexed(rule: KeyRule, items: seq<Value>)
    requires Distinct(rule, items)
    ensures Indexed(rule, items, Positions(rule, items))
  {
    var pos := Positions(rule, items);
    PositionsExact(rule, items);
    var key := v => KeyFor(rule, v);
    forall i | 0 <= i < |items|
      ensures key(items[i]) in pos && pos[key(items[i])] == i
    {
      var p := pos[KeyOf(rule, items[i]).value];
      assert key(items[p]) == key(items[i]);
    }
  }

  /** The compiled value satisfies the overlay that was laid on last, and stays
      well keyed: every field the overlay owns ends up as the overlay has it. */
  lemma {:induction false} MergeSound(under: Option<string>, base: Option<Value>, overlay: Value)
    requires ProperBase(under, base) && Proper(under, overlay)
    ensures Matches(under, overlay, Merge(under, base, overlay))
    ensures Proper(under, Merge(under, base, overlay))
    decreases overlay
  {
    match overlay
    case Scalar(_, _) =>
    case Obj(fields) =>
      var was := FieldsOf(base);
      forall k | k in fields
        ensures var m := Merge(Some(k), if k in was then Some(was[k]) else None, fields[k]);
                Matches(Some(k), fields[k], m) && Proper(Some(k), m)
      {
        MergeSound(Some(k), if k in was then Some(was[k]) else None, fields[k]);
      }
    case Arr(items) =>
      var rule := RuleFor(under);
      if base.Some? && base.value.Arr? && !rule.NoKey?
         && AllKeyed(rule, base.value.items) && AllKeyed(rule, items) {
        MergeListSound(under, base.value.items, items);
      } else {
        MergeCopies(under, base, items);
        MatchesSelf(under, overlay);
      }
  }

  /** Without two keyed lists the overlay list replaces the base. */
  lemma MergeCopies(under: Option<string>, base: Option<Value>, items: seq<Value>)
    requires !(base.Some? && base.value.Arr? && !RuleFor(under).NoKey?
               && AllKeyed(RuleFor(under), base.value.items) && AllKeyed(RuleFor(under), items))
    ensures Merge(under, base, Arr(items)) == Arr(items)
  {
    forall i | 0 <= i < |items|
      ensures Merge(None, None, items[i]) == items[i]
    {
      MergeNone(None, items[i]);
    }
    assert Merge(under, base, Arr(items)).items == items;
  }

  /** Each overlay item is found in the merged list under its key, matching. */
  lemma {:induction false} MergedItemSound(rule: KeyRule, list: seq<Value>, pos: map<Key, nat>, items: seq<Value>,
                                           r: seq<Value>, newPos: map<Key, nat>, j: nat)
    requires Indexed(rule, list, pos) && Distinct(rule, items) && Indexed(rule, r, newPos)
    requires KeyedLists.Overlaid(v => KeyFor(rule, v), LAY, list, pos, items, r, newPos)
    requires j < |items| && Proper(None, items[j])
    requires forall i :: 0 <= i < |list| ==> Proper(None, list[i])
    ensures var k := KeyFor(rule, items[j]);
            && k in newPos && Find(rule, r, k) == Some(newPos[k])
            && Matches(None, items[j], r[newPos[k]]) && Proper(None, r[newPos[k]])
    decreases items, 0
  {
    var key := v => KeyFor(rule, v);
    var k := key(items[j]);
    assert key(items[j]) in newPos;
    assert r[newPos[k]] == LAY(KeyedLists.Was(list, pos, k), items[j]);
    MergeSound(None, KeyedLists.Was(list, pos, k), items[j]);
    assert key(r[newPos[k]]) == k;
    IndexedDistinct(rule, r, newPos);
    FindDistinct(rule, r, newPos[k]);
  }

  lemma IndexedDistinct(rule: KeyRule, r: seq<Value>, pos: map<Key, nat>)
    requires Indexed(rule, r, pos)
    ensures Distinct(rule, r)
  {
  }

  /** Every item of the merged list is an old item or a merged one. */
  lemma MergedItemOrigin(rule: KeyRule, list: seq<Value>, pos: map<Key, nat>, items: seq<Value>,
                         r: seq<Value>, newPos: map<Key, nat>, i: nat) returns (j: nat)
    requires Indexed(rule, list, pos) && Distinct(rule, items) && Indexed(rule, r, newPos)
    requires KeyedLists.Overlaid(v => KeyFor(rule, v), LAY, list, pos, items, r, newPos)
    requires i < |r|
    ensures var k := KeyFor(rule, r[i]);
            && k in newPos && newPos[k] == i
            && (if j < |items| then KeyFor(rule, items[j]) == k
                else k in pos && pos[k] < |list| && r[i] == list[pos[k]])
  {
    var key := v => KeyFor(rule, v);
    var k := key(r[i]);
    assert k in newPos && newPos[k] == i;
    if KeyedLists.Named(key, items, k) {
      j :| 0 <= j < |items| && key(items[j]) == k;
    } else {
      j := |items|;
    }
  }

  lemma KeyedMatch(under: Option<string>, items: seq<Value>, r: seq<Value>)
    requires var rule := RuleFor(under);
             !rule.NoKey? && AllKeyed(rule, items) && ScanKeys(rule, r, {}).Keyed?
    requires forall j :: 0 <= j < |items| ==>
               var f := Find(RuleFor(under), r, KeyFor(RuleFor(under), items[j]));
               f.Some? && Matches(None, items[j], r[f.value])
    ensures Matches(under, Arr(items), Arr(r))
  {
    var rule := RuleFor(under);
    forall j | 0 <= j < |items|
      ensures var f := Find(rule, r, KeyOf(rule, items[j]).value);
              f.Some? && Matches(None, items[j], r[f.value])
    {
      assert KeyOf(rule, items[j]).value == KeyFor(rule, items[j]);
    }
  }

  ghost predicate ListMerge(rule: KeyRule, list: seq<Value>, pos: map<Key, nat>, items: seq<Value>,
                            r: seq<Value>, newPos: map<Key, nat>) {
    && Indexed(rule, list, pos) && Distinct(rule, items) && Indexed(rule, r, newPos)
    && KeyedLists.Overlaid(v => KeyFor(rule, v), LAY, list, pos, items, r, newPos)
  }

  lemma MergeLists(under: Option<string>, list: seq<Value>, items: seq<Value>)
    returns (pos: map<Key, nat>, r: seq<Value>, newPos: map<Key, nat>)
    requires var rule := RuleFor(under); !rule.NoKey? && AllKeyed(rule, list) && AllKeyed(rule, items)
    requires Proper(under, Arr(list)) && Proper(under, Arr(items))
    ensures Merge(under, Some(Arr(list)), Arr(items)) == Arr(r)
    ensures ListMerge(RuleFor(under), list, pos, items, r, newPos)
    ensures ScanKeys(RuleFor(under), r, {}).Keyed?
  {
    var rule := RuleFor(under);
    WellKeyedDistinct(rule, list);
    WellKeyedDistinct(rule, items);
    PositionsIndexed(rule, list);
    pos := Positions(rule, list);
    newPos := MergeItemsShape(rule, list, pos, items);
    r := MergeItems(rule, list, pos, items);
    IndexedDistinct(rule, r, newPos);
    WellKeyedDistinct(rule, r);
  }

  lemma {:induction false} MergedMatches(under: Option<string>, list: seq<Value>, pos: map<Key, nat>,
                                         items: seq<Value>, r: seq<Value>, newPos: map<Key, nat>)
    requires !RuleFor(under).NoKey? && ListMerge(RuleFor(under), list, pos, items, r, newPos)
    requires Proper(under, Arr(list)) && Proper(under, Arr(items)) && ScanKeys(RuleFor(under), r, {}).Keyed?
    ensures Matches(under, Arr(items), Arr(r))
    decreases items, 1
  {
    var rule := RuleFor(under);
    forall j | 0 <= j < |items|
      ensures var f := Find(rule, r, KeyFor(rule, items[j]));
              f.Some? && Matches(None, items[j], r[f.value])
    {
      MergedItemSound(rule, list, pos, items, r, newPos, j);
    }
    KeyedMatch(under, items, r);
  }

  lemma {:induction false} MergedItemProper(under: Option<string>, list: seq<Value>, pos: map<Key, nat>,
                                            items: seq<Value>, r: seq<Value>, newPos: map<Key, nat>, i: nat)
    requires ListMerge(RuleFor(under), list, pos, items, r, newPos) && i < |r|
    requires Proper(under, Arr(list)) && Proper(under, Arr(items))
    ensures Proper(None, r[i]) && IsText(KeyOf(RuleFor(under), r[i]))
    decreases items, 1
  {
    var rule := RuleFor(under);
    var j := MergedItemOrigin(rule, list, pos, items, r, newPos, i);
    if j < |items| {
      MergedItemSound(rule, list, pos, items, r, newPos, j);
      SameKey(rule, items[j], r[i]);
    }
  }

  lemma {:induction false} MergeListSound(under: Option<string>, list: seq<Value>, items: seq<Value>)
    requires var rule := RuleFor(under); !rule.NoKey? && AllKeyed(rule, list) && AllKeyed(rule, items)
    requires Proper(under, Arr(list)) && Proper(under, Arr(items))
    ensures Matches(under, Arr(items), Merge(under, Some(Arr(list)), Arr(items)))
    ensures Proper(under, Merge(under, Some(Arr(list)), Arr(items)))
    decreases items, 2
  {
    var pos, r, newPos := MergeLists(under, list, items);
    MergedMatches(under, list, pos, items, r, newPos);
    forall i | 0 <= i < |r|
      ensures Proper(None, r[i]) && IsText(KeyOf(RuleFor(under), r[i]))
    {
      MergedItemProper(under, list, pos, items, r, newPos, i);
    }
    ListProper(under, r);
  }

  lemma ListProper(under: Option<string>, r: seq<Value>)
    requires ScanKeys(RuleFor(under), r, {}).Keyed?
    requires forall i :: 0 <= i < |r| ==> Proper(None, r[i]) && IsText(KeyOf(RuleFor(under), r[i]))
    ensures Proper(under, Arr(r))
  {
  }

  lemma SameKey(rule: KeyRule, a: Value, b: Value)
    requires KeyOf(rule, a).Some? && KeyOf(rule, b).Some? && KeyFor(rule, a) == KeyFor(rule, b)
    ensures KeyOf(rule, a) == KeyOf(rule, b)
  {
  }

  lemma WellKeyedDistinct(rule: KeyRule, items: seq<Value>)
    requires AllKeyed(rule, items)
    ensures ScanKeys(rule, items, {}).Keyed? <==> Distinct(rule, items)
    ensures ScanKeys(rule, items, {}).Keyed? <==> !ScanKeys(rule, items, {}).Duplicate?
  {
    ScanKeyed(rule, items, {});
    var key := v => KeyFor(rule, v);
    assert forall i :: 0 <= i < |items| ==> KeyOf(rule, items[i]) == Some(key(items[i]));
  }

  lemma FindDistinct(rule: KeyRule, items: seq<Value>, i: nat)
    requires Distinct(rule, items) && i < |items|
    ensures Find(rule, items, KeyFor(rule, items[i])) == Some(i)
  {
    var key := v => KeyFor(rule, v);
    var f := Find(rule, items, KeyFor(rule, items[i]));
    assert KeyOf(rule, items[i]) == Some(KeyFor(rule, items[i]));
    assert key(items[f.value]) == key(items[i]);
  }

  // ------------------------------------------------------------ repeated keys

  /** The item at `j` is the first whose key stood before, and all up to it have
      a key. */
  ghost predicate RepeatsAt(rule: KeyRule, items: seq<Value>, seen: set<Key>, j: int) {
    && 0 <= j < |items|
    && (forall i :: 0 <= i <= j ==> KeyOf(rule, items[i]).Some?)
    && (KeyOf(rule, items[j]).value in seen || exists i :: 0 <= i < j && KeyOf(rule, items[i]) == KeyOf(rule, items[j]))
  }

  /** Indexing a list stops at a repeated key exactly if some key is repeated
      before any item without one. */
  lemma {:induction false} ScanDuplicate(rule: KeyRule, items: seq<Value>, seen: set<Key>)
    ensures ScanKeys(rule, items, seen).Duplicate? <==> exists j :: RepeatsAt(rule, items, seen, j)
    decreases |items|
  {
    if items != [] && KeyOf(rule, items[0]).Some? {
      var k, rest := KeyOf(rule, items[0]).value, items[1..];
      if k in seen {
        assert RepeatsAt(rule, items, seen, 0);
      } else {
        ScanDuplicate(rule, rest, seen + {k});
        forall j
          ensures RepeatsAt(rule, rest, seen + {k}, j) <==> RepeatsAt(rule, items, seen, j + 1)
        {
          RepeatsShift(rule, items, seen, j);
        }
        if j :| RepeatsAt(rule, items, seen, j) {
          assert RepeatsAt(rule, rest, seen + {k}, j - 1);
        }
      }
    }
  }

  lemma RepeatsShift(rule: KeyRule, items: seq<Value>, seen: set<Key>, j: int)
    requires items != [] && KeyOf(rule, items[0]).Some? && KeyOf(rule, items[0]).value !in seen
    ensures RepeatsAt(rule, items[1..], seen + {KeyOf(rule, items[0]).value}, j) <==>
            RepeatsAt(rule, items, seen, j + 1)
  {
    var rest, more := items[1..], seen + {KeyOf(rule, items[0]).value};
    assert forall i :: 0 <= i < |rest| ==> rest[i] == items[i + 1];
    if RepeatsAt(rule, rest, more, j) {
      forall i | 0 <= i <= j + 1
        ensures KeyOf(rule, items[i]).Some?
      {
        if i > 0 { assert items[i] == rest[i - 1]; }
      }
      if KeyOf(rule, rest[j]).value !in more {
        var i :| 0 <= i < j && KeyOf(rule, rest[i]) == KeyOf(rule, rest[j]);
        assert KeyOf(rule, items[i + 1]) == KeyOf(rule, items[j + 1]);
      }
    }
    if RepeatsAt(rule, items, seen, j + 1) && KeyOf(rule, items[j + 1]).value !in seen {
      var i :| 0 <= i < j + 1 && KeyOf(rule, items[i]) == KeyOf(rule, items[j + 1]);
      if i > 0 { assert KeyOf(rule, rest[i - 1]) == KeyOf(rule, rest[j]); }
    }
  }

  /** A live list that repeats a key before any item without one matches nothing
      that could be desired. */
  lemma RepeatedLiveKey(under: Option<string>, desired: Value, live: seq<Value>, j: int)
    requires !RuleFor(under).NoKey? && RepeatsAt(RuleFor(under), live, {}, j)
    ensures !Matches(under, desired, Arr(live))
  {
    ScanDuplicate(RuleFor(under), live, {});
  }

  /** The live list holds an item of the same key that matches. */
  ghost predicate Held(rule: KeyRule, item: Value, live: seq<Value>) {
    exists m :: 0 <= m < |live| && KeyOf(rule, live[m]) == KeyOf(rule, item) && Matches(None, item, live[m])
  }

  /** What a desired list of keyed items matches, repeated keys or not: the lists
      of distinct keys that hold a matching item for each of its own. */
  lemma KeyedListMatches(under: Option<string>, items: seq<Value>, live: Value)
    requires !RuleFor(under).NoKey? && AllKeyed(RuleFor(under), items)
    ensures Matches(under, Arr(items), live) <==>
            live.Arr? && Distinct(RuleFor(under), live.items)
            && forall i :: 0 <= i < |items| ==> Held(RuleFor(under), items[i], live.items)
  {
    var rule := RuleFor(under);
    if live.Arr? {
      var scan := ScanKeys(rule, live.items, {});
      ScanKeyed(rule, live.items, {});
      if scan.Keyed? {
        WellKeyedDistinct(rule, live.items);
        HeldIsFound(rule, items, live.items);
      } else if AllKeyed(rule, live.items) {
        WellKeyedDistinct(rule, live.items);
      } else if scan.Unkeyed? && Matches(under, Arr(items), live) {
        var u :| 0 <= u < |live.items| && KeyOf(rule, live.items[u]).None?;
        MatchKeepsKey(rule, items[u], live.items[u]);
      }
    }
  }

  lemma HeldIsFound(rule: KeyRule, items: seq<Value>, live: seq<Value>)
    requires AllKeyed(rule, items) && Distinct(rule, live)
    ensures forall i :: 0 <= i < |items| ==>
              (Held(rule, items[i], live) <==>
               var j := Find(rule, live, KeyOf(rule, items[i]).value);
               j.Some? && Matches(None, items[i], live[j.value]))
  {
    forall i | 0 <= i < |items|
      ensures Held(rule, items[i], live) <==>
              var j := Find(rule, live, KeyOf(rule, items[i]).value);
              j.Some? && Matches(None, items[i], live[j.value])
    {
      if m :| 0 <= m < |live| && KeyOf(rule, live[m]) == KeyOf(rule, items[i]) && Matches(None, items[i], live[m]) {
        FindDistinct(rule, live, m);
        assert KeyFor(rule, live[m]) == KeyOf(rule, items[i]).value;
      }
    }
  }

  /** The fields a key is read from are wanted, so a match has them too. */
  lemma MatchKeepsKey(rule: KeyRule, item: Value, live: Value)
    requires KeyOf(rule, item).Some? && Matches(None, item, live)
    ensures KeyOf(rule, live).Some?
  {
  }

  /** So items of one key must all match a single live item. */
  lemma RepeatedKeyShared(under: Option<string>, items: seq<Value>, live: seq<Value>, i: nat, j: nat) returns (m: nat)
    requires !RuleFor(under).NoKey? && AllKeyed(RuleFor(under), items) && Matches(under, Arr(items), Arr(live))
    requires i < j < |items| && KeyOf(RuleFor(under), items[i]) == KeyOf(RuleFor(under), items[j])
    ensures m < |live| && KeyOf(RuleFor(under), live[m]) == KeyOf(RuleFor(under), items[i])
    ensures Matches(None, items[i], live[m]) && Matches(None, items[j], live[m])
    ensures forall n :: 0 <= n < |live| && n != m ==> KeyOf(RuleFor(under), live[n]) != KeyOf(RuleFor(under), items[i])
  {
    var rule := RuleFor(under);
    KeyedListMatches(under, items, Arr(live));
    assert Held(rule, items[i], live) && Held(rule, items[j], live);
    m :| 0 <= m < |live| && KeyOf(rule, live[m]) == KeyOf(rule, items[i]) && Matches(None, items[i], live[m]);
    var n :| 0 <= n < |live| && KeyOf(rule, live[n]) == KeyOf(rule, items[j]) && Matches(None, items[j], live[n]);
    DistinctKeys(rule, live, m);
    assert n == m;
  }

  lemma DistinctKeys(rule: KeyRule, items: seq<Value>, m: nat)
    requires Distinct(rule, items) && m < |items|
    ensures forall n :: 0 <= n < |items| && n != m ==> KeyOf(rule, items[n]) != KeyOf(rule, items[m])
  {
    var key := v => KeyFor(rule, v);
    forall n | 0 <= n < |items| && n != m
      ensures KeyOf(rule, items[n]) != KeyOf(rule, items[m])
    {
      assert key(items[n]) != key(items[m]);
    }
  }
}
