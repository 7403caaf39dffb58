/** The desired form of a Kubernetes object (package compare): its fragments are
    normalized, ordered by priority and merged (`normalizeObject`,
    `compileDesiredProjection`), and the live object is normalized before the
    comparison (`desiredProjection.mismatches`). */
module DesiredObjects {
  import opened GoStrings
  import opened OwnedFields
  import Sorting

  // ------------------------------------------------------------------- probes

  /** Numbers are known by their printed value. */
  const ZERO := Scalar(Num, "0")

  const PROBE_DEFAULTS := {"initialDelaySeconds", "timeoutSeconds", "periodSeconds", "successThreshold",
                           "failureThreshold", "terminationGracePeriodSeconds"}

  /** `isProbeMap`. */
  predicate IsProbe(f: map<string, Value>) {
    "exec" in f || "httpGet" in f || "grpc" in f || "tcpSocket" in f
  }

  /** A zero that a probe does not keep. */
  predicate Dropped(f: map<string, Value>, k: string)
    requires k in f
  {
    IsProbe(f) && k in PROBE_DEFAULTS && f[k] == ZERO
  }

  /** `normalizeProbeDefaultZeroValues`. */
  function NormalizeProbes(v: Value): Value
    decreases v
  {
    match v
    case Scalar(_, _) => v
    case Obj(f) => Obj(map k | k in f && !Dropped(f, k) :: NormalizeProbes(f[k]))
    case Arr(items) => Arr(seq(|items|, i requires 0 <= i < |items| => NormalizeProbes(items[i])))
  }

  /** Nowhere in the value does a probe hold a zero default. */
  predicate NoProbeZero(v: Value)
    decreases v
  {
    match v
    case Scalar(_, _) => true
    case Obj(f) => forall k :: k in f ==> !Dropped(f, k) && NoProbeZero(f[k])
    case Arr(items) => forall i :: 0 <= i < |items| ==> NoProbeZero(items[i])
  }

  lemma {:induction false} NormalizedProbes(v: Value)
    ensures NoProbeZero(NormalizeProbes(v))
    ensures NoProbeZero(v) ==> NormalizeProbes(v) == v
    decreases v
  {
    match v
    case Scalar(_, _) =>
    case Obj(f) =>
      var g := NormalizeProbes(v).fields;
      forall k | k in f
        ensures NoProbeZero(NormalizeProbes(f[k])) && (NoProbeZero(f[k]) ==> NormalizeProbes(f[k]) == f[k])
      {
        NormalizedProbes(f[k]);
      }
      assert forall k :: k in g ==> (g[k] == ZERO <==> f[k] == ZERO);
      if NoProbeZero(v) {
        assert g == f;
      }
    case Arr(items) =>
      forall i | 0 <= i < |items|
        ensures NoProbeZero(NormalizeProbes(items[i]))
        ensures NoProbeZero(items[i]) ==> NormalizeProbes(items[i]) == items[i]
      {
        NormalizedProbes(items[i]);
      }
      if NoProbeZero(v) {
        assert NormalizeProbes(v).items == items;
      }
  }

  lemma {:induction false} ItemProbes(desired: seq<Value>, live: seq<Value>, i: nat, j: nat)
    requires i < |desired| && j < |live|
    requires Matches(None, desired[i], live[j]) && forall k :: 0 <= k < |live| ==> NoProbeZero(live[k])
    ensures NoProbeZero(desired[i])
    decreases desired, 0
  {
    ProbesMatched(None, desired[i], live[j]);
  }

  /** A value without zero defaults in its probes is matched by nothing that has
      them. */
  lemma {:induction false} ProbesMatched(under: Option<string>, desired: Value, live: Value)
    requires NoProbeZero(live) && Matches(under, desired, live)
    ensures NoProbeZero(desired)
    decreases desired
  {
    match desired
    case Scalar(_, _) =>
    case Obj(f) =>
      forall k | k in f
        ensures !Dropped(f, k) && NoProbeZero(f[k])
      {
        ProbesMatched(Some(k), f[k], live.fields[k]);
        assert !Dropped(live.fields, k);
        assert f[k] == ZERO ==> live.fields[k] == ZERO;
      }
    case Arr(items) =>
      var rule := RuleFor(under);
      var scan := if rule.NoKey? then Unkeyed else ScanKeys(rule, live.items, {});
      forall i | 0 <= i < |items|
        ensures NoProbeZero(items[i])
      {
        if scan.Keyed? && AllKeyed(rule, items) {
          ItemProbes(items, live.items, i, Find(rule, live.items, KeyOf(rule, items[i]).value).value);
        } else {
          ItemProbes(items, live.items, i, i);
        }
      }
  }

  // ------------------------------------------------------------ normalization

  const SERVER_KEYS := {"managedFields", "resourceVersion", "uid", "creationTimestamp", "generation", "selfLink"}

  const TOOL_KEYS := {"kubectl.kubernetes.io/last-applied-configuration", "deployment.kubernetes.io/revision",
                      "deprecated.daemonset.template.generation"}

  predicate HasObj(f: map<string, Value>, k: string) {
    k in f && f[k].Obj?
  }

  predicate IsSecret(v: Value) {
    v.Obj? && "kind" in v.fields && v.fields["kind"] == Scalar(Str, "Secret")
  }

  /** The texts of a Secret's `stringData`, encoded; other values are skipped. */
  function Encoded(encode: string -> string, plain: map<string, Value>): map<string, Value> {
    map k | k in plain && plain[k].Scalar? && plain[k].kind == Str :: Scalar(Str, encode(plain[k].text))
  }

  /** `normalizeSecret`. */
  function NormalizeSecret(encode: string -> string, f: map<string, Value>): map<string, Value> {
    var typed := (if "type" in f then f else f["type" := Scalar(Str, "Opaque")]) - {"stringData"};
    if HasObj(f, "stringData") && f["stringData"].fields != map[] then
      var data := if HasObj(f, "data") then f["data"].fields else map[];
      typed["data" := Obj(data + Encoded(encode, f["stringData"].fields))]
    else typed
  }

  /** Metadata without what the server and its tools write into it. */
  function Pruned(m: map<string, Value>): map<string, Value> {
    var kept := m - SERVER_KEYS;
    if HasObj(kept, "annotations") then
      var notes := kept["annotations"].fields - TOOL_KEYS;
      if notes == map[] then kept - {"annotations"} else kept["annotations" := Obj(notes)]
    else kept
  }

  function NormalizeMetadata(f: map<string, Value>): map<string, Value> {
    if HasObj(f, "metadata") then f["metadata" := Obj(Pruned(f["metadata"].fields))] else f
  }

  /** The object before its probes and metadata are normalized. */
  function Opened(encode: string -> string, v: Value): map<string, Value>
    requires v.Obj?
  {
    var bare := v.fields - {"status"};
    if IsSecret(v) then NormalizeSecret(encode, bare) else bare
  }

  /** `normalizeObject`. */
  function Normalize(encode: string -> string, v: Value): Value {
    match v
    case Obj(f) =>
      Obj(NormalizeMetadata(NormalizeProbes(Obj(Opened(encode, v))).fields))
    case _ => v
  }

  predicate CleanMetadata(m: map<string, Value>) {
    && m.Keys !! SERVER_KEYS
    && (HasObj(m, "annotations") ==> m["annotations"].fields != map[] && m["annotations"].fields.Keys !! TOOL_KEYS)
  }

  /** An object as normalization leaves it, its probes aside. */
  predicate Normal(v: Value) {
    && v.Obj? && "status" !in v.fields
    && (IsSecret(v) ==> "type" in v.fields && "stringData" !in v.fields)
    && (HasObj(v.fields, "metadata") ==> CleanMetadata(v.fields["metadata"].fields))
  }

  lemma SubsetProbes(f: map<string, Value>, g: map<string, Value>)
    requires NoProbeZero(Obj(f)) && g.Keys <= f.Keys
    requires forall k :: k in g ==> NoProbeZero(g[k]) && (g[k] == f[k] || !g[k].Scalar?)
    ensures NoProbeZero(Obj(g))
  {
    forall k | k in g
      ensures !Dropped(g, k)
    {
      assert !Dropped(f, k);
    }
  }

  lemma PrunedProbes(m: map<string, Value>)
    requires NoProbeZero(Obj(m))
    ensures NoProbeZero(Obj(Pruned(m))) && CleanMetadata(Pruned(m))
  {
    var kept := m - SERVER_KEYS;
    SubsetProbes(m, kept);
    if HasObj(kept, "annotations") {
      var notes := kept["annotations"].fields - TOOL_KEYS;
      SubsetProbes(kept["annotations"].fields, notes);
      SubsetProbes(m, Pruned(m));
    }
  }

  lemma SecretOpened(encode: string -> string, f: map<string, Value>)
    ensures var g := NormalizeSecret(encode, f);
      && "type" in g && "stringData" !in g && g.Keys <= f.Keys + {"type", "data"}
      && ("kind" in f <==> "kind" in g) && ("kind" in f ==> g["kind"] == f["kind"])
  {
  }

  lemma ProbedField(f: map<string, Value>, k: string)
    requires k !in PROBE_DEFAULTS
    ensures var g := NormalizeProbes(Obj(f)).fields;
            (k in g <==> k in f) && (k in f && (f[k].Scalar? || g[k].Scalar?) ==> g[k] == f[k])
  {
  }

  lemma MetadataNormal(f: map<string, Value>)
    requires NoProbeZero(Obj(f))
    ensures var g := NormalizeMetadata(f);
      && NoProbeZero(Obj(g)) && g.Keys == f.Keys && (forall k :: k in f && k != "metadata" ==> g[k] == f[k])
      && (HasObj(g, "metadata") ==> CleanMetadata(g["metadata"].fields))
  {
    if HasObj(f, "metadata") {
      PrunedProbes(f["metadata"].fields);
      SubsetProbes(f, NormalizeMetadata(f));
    }
  }

  lemma OpenedNormal(encode: string -> string, v: Value)
    requires v.Obj?
    ensures var f := Opened(encode, v);
      && "status" !in f && ("kind" in f <==> "kind" in v.fields) && ("kind" in f ==> f["kind"] == v.fields["kind"])
      && (IsSecret(v) ==> "type" in f && "stringData" !in f)
      && (IsSecret(v) && "type" !in v.fields ==> f["type"] == Scalar(Str, "Opaque"))
  {
    SecretOpened(encode, v.fields - {"status"});
  }

  lemma NormalizedField(encode: string -> string, v: Value, k: string)
    requires v.Obj? && k !in PROBE_DEFAULTS && k != "metadata"
    ensures var f, n := Opened(encode, v), Normalize(encode, v).fields;
            (k in n <==> k in f) && (k in f && (f[k].Scalar? || n[k].Scalar?) ==> n[k] == f[k])
  {
    ProbedField(Opened(encode, v), k);
    NormalizedProbes(Obj(Opened(encode, v)));
    MetadataNormal(NormalizeProbes(Obj(Opened(encode, v))).fields);
  }

  /** Normalizing leaves a normal object of the same kind, its probes without zero
      defaults. */
  lemma NormalizeNormal(encode: string -> string, v: Value)
    requires v.Obj?
    ensures var n := Normalize(encode, v);
            Normal(n) && NoProbeZero(n) && (IsSecret(n) <==> IsSecret(v))
  {
    OpenedNormal(encode, v);
    NormalizedField(encode, v, "status");
    NormalizedField(encode, v, "kind");
    NormalizedField(encode, v, "type");
    NormalizedField(encode, v, "stringData");
    NormalizedProbes(Obj(Opened(encode, v)));
    MetadataNormal(NormalizeProbes(Obj(Opened(encode, v))).fields);
  }

  /** What normalization keeps: every field but the status, its probes normalized;
      of the metadata what neither the server nor its tools wrote; of a Secret its
      type and data, with the plain texts encoded into them. */
  lemma NormalizeKeeps(encode: string -> string, v: Value, k: string)
    requires v.Obj? && k !in PROBE_DEFAULTS && k !in {"status", "metadata"}
    requires IsSecret(v) ==> k !in {"type", "data", "stringData"}
    ensures var f, n := v.fields, Normalize(encode, v).fields;
            (k in n <==> k in f) && (k in f ==> n[k] == NormalizeProbes(f[k]))
  {
    NormalizedProbes(Obj(Opened(encode, v)));
    MetadataNormal(NormalizeProbes(Obj(Opened(encode, v))).fields);
  }

  lemma PrunedKeeps(m: map<string, Value>, k: string)
    ensures k != "annotations" ==>
      (k in Pruned(m) <==> k in m && k !in SERVER_KEYS) && (k in Pruned(m) ==> Pruned(m)[k] == m[k])
    ensures "annotations" in m && !m["annotations"].Obj? ==>
      "annotations" in Pruned(m) && Pruned(m)["annotations"] == m["annotations"]
    ensures HasObj(m, "annotations") ==>
      var notes := m["annotations"].fields;
      (HasObj(Pruned(m), "annotations") && k in Pruned(m)["annotations"].fields <==> k in notes && k !in TOOL_KEYS)
      && (HasObj(Pruned(m), "annotations") && k in Pruned(m)["annotations"].fields ==>
            Pruned(m)["annotations"].fields[k] == notes[k])
  {
    if HasObj(m, "annotations") {
      var notes := m["annotations"].fields - TOOL_KEYS;
      assert k in notes ==> notes != map[];
    }
  }

  lemma MetadataKeeps(encode: string -> string, v: Value)
    requires v.Obj? && HasObj(v.fields, "metadata")
    ensures var n := Normalize(encode, v).fields;
      "metadata" in n && n["metadata"] == Obj(Pruned(NormalizeProbes(v.fields["metadata"]).fields))
  {
    var f := Opened(encode, v);
    assert "metadata" in f && f["metadata"] == v.fields["metadata"];
    assert NormalizeProbes(Obj(f)).fields["metadata"] == NormalizeProbes(f["metadata"]);
  }

  /** The data of a Secret: a text given in the clear, encoded; else what was
      there, unless there is nothing of either kind. */
  lemma SecretKeeps(encode: string -> string, v: Value, k: string)
    requires IsSecret(v)
    ensures var f, g := v.fields, Opened(encode, v);
      && "type" in g && (g["type"] == if "type" in f then f["type"] else Scalar(Str, "Opaque"))
      && (HasObj(f, "stringData") && k in f["stringData"].fields && f["stringData"].fields[k].Scalar?
          && f["stringData"].fields[k].kind == Str ==>
            HasObj(g, "data") && k in g["data"].fields
            && g["data"].fields[k] == Scalar(Str, encode(f["stringData"].fields[k].text)))
      && (HasObj(f, "data") && k in f["data"].fields && (!HasObj(f, "stringData") || k !in f["stringData"].fields) ==>
            HasObj(g, "data") && k in g["data"].fields && g["data"].fields[k] == f["data"].fields[k])
  {
  }

  /** A normal object without such zeros is left as it is. */
  lemma NormalizeFixed(encode: string -> string, v: Value)
    requires Normal(v) && NoProbeZero(v)
    ensures Normalize(encode, v) == v
  {
    var f := v.fields;
    assert f - {"status"} == f;
    if IsSecret(v) {
      assert NormalizeSecret(encode, f) == f;
    }
    NormalizedProbes(v);
    if HasObj(f, "metadata") {
      var m := f["metadata"].fields;
      assert m - SERVER_KEYS == m;
      if HasObj(m, "annotations") {
        assert m["annotations"].fields - TOOL_KEYS == m["annotations"].fields;
        assert m["annotations" := m["annotations"]] == m;
      }
      assert Pruned(m) == m;
      assert f["metadata" := f["metadata"]] == f;
    }
  }

  // ---------------------------------------------------------------- fragments

  datatype Owner = Global | Local | Other

  /** One tracked piece of an object: who owns it, where it was read, what it says. */
  datatype Fragment = Fragment(owner: Owner, path: string, value: Value)

  /** Fragments of one object were found by its identity, so all or none of them
      are Secrets. */
  predicate Alike(fragments: seq<Fragment>) {
    && (forall i :: 0 <= i < |fragments| ==> fragments[i].value.Obj?)
    && (forall i, j :: 0 <= i < |fragments| && 0 <= j < |fragments| ==>
          (IsSecret(fragments[i].value) <==> IsSecret(fragments[j].value)))
  }

  /** `desiredFragmentPriority`. */
  function Priority(o: Owner): nat {
    match o
    case Global => 0
    case Local => 1
    case Other => 2
  }

  predicate FragmentLeq(a: Fragment, b: Fragment) {
    if Priority(a.owner) != Priority(b.owner) then Priority(a.owner) < Priority(b.owner)
    else Sorting.Leq(a.path, b.path)
  }

  /** The fragments in the order they are laid on, each normalized. */
  function Layers(encode: string -> string, fragments: seq<Fragment>): (r: seq<Value>)
    ensures |r| == |fragments|
  {
    var sorted := Sorting.Sort(FragmentLeq, fragments);
    Sorting.SameElements(sorted, fragments);
    seq(|sorted|, i requires 0 <= i < |sorted| => Normalize(encode, sorted[i].value))
  }

  /** Laying one value over the other. */
  function LayAll(layers: seq<Value>): Value
    requires layers != []
  {
    var n := |layers| - 1;
    Merge(None, if n == 0 then None else Some(LayAll(layers[..n])), layers[n])
  }

  /** `compileDesiredProjection`. */
  function Compile(encode: string -> string, fragments: seq<Fragment>): Value
    requires fragments != []
  {
    LayAll(Layers(encode, fragments))
  }

  /** `desiredProjection.mismatches` finds none. */
  predicate CleanAgainst(encode: string -> string, desired: Value, live: Value) {
    Matches(None, desired, Normalize(encode, live))
  }

  lemma FragmentOrder()
    ensures Sorting.TotalOrder(FragmentLeq)
  {
    Sorting.StringOrder();
  }

  /** The order in which fragments are tracked does not matter when no two of one
      owner come from one path. */
  lemma CompileOrderFree(encode: string -> string, a: seq<Fragment>, b: seq<Fragment>)
    requires a != [] && multiset(a) == multiset(b) && Sorting.NoRepeats(a)
    requires forall x, y :: x in a && y in a && x.owner == y.owner && x.path == y.path ==> x == y
    ensures b != [] && Compile(encode, a) == Compile(encode, b)
  {
    var s, t := Sorting.Sort(FragmentLeq, a), Sorting.Sort(FragmentLeq, b);
    FragmentOrder();
    Sorting.SameElements(a, b);
    Sorting.SameElements(a, s);
    Sorting.SameElements(b, t);
    Sorting.SortAscending(FragmentLeq, a);
    Sorting.SortAscending(FragmentLeq, b);
    Sorting.SortNoRepeats(a, s);
    Sorting.SortNoRepeats(a, t);
    forall x, y | x in s && y in s && FragmentLeq(x, y) && FragmentLeq(y, x)
      ensures x == y
    {
      Sorting.LeqTotal(x.path, y.path);
    }
    Sorting.AscendingUnique(FragmentLeq, s, t);
  }

  // ------------------------------------------------------ the compiled object

  lemma MergedFields(base: Option<Value>, overlay: Value, k: string)
    requires overlay.Obj?
    ensures var m, was := Merge(None, base, overlay), FieldsOf(base);
      && m.Obj? && (k in m.fields <==> k in was || k in overlay.fields)
      && (k in m.fields ==>
            m.fields[k] == if k in overlay.fields
                           then Merge(Some(k), if k in was then Some(was[k]) else None, overlay.fields[k])
                           else was[k])
  {
  }

  lemma MergedScalarField(base: Option<Value>, overlay: Value, k: string)
    requires overlay.Obj? && k in overlay.fields
    ensures var m := Merge(None, base, overlay).fields;
            k in m && (overlay.fields[k].Scalar? ==> m[k] == overlay.fields[k])
            && (!overlay.fields[k].Scalar? ==> !m[k].Scalar?)
  {
    MergedFields(base, overlay, k);
  }

  lemma MergeSecret(base: Value, overlay: Value)
    requires base.Obj? && overlay.Obj? && (IsSecret(base) <==> IsSecret(overlay))
    ensures IsSecret(Merge(None, Some(base), overlay)) <==> IsSecret(overlay)
  {
    MergedFields(Some(base), overlay, "kind");
    if "kind" in overlay.fields {
      MergedScalarField(Some(base), overlay, "kind");
    }
  }

  lemma MergeMetadata(under: Option<string>, base: Option<Value>, m: Value)
    requires base.Some? && base.value.Obj? ==> CleanMetadata(base.value.fields)
    requires m.Obj? ==> CleanMetadata(m.fields)
    ensures var r := Merge(under, base, m); r.Obj? ==> m.Obj? && CleanMetadata(r.fields)
  {
    if m.Obj? {
      var was := FieldsOf(base);
      var r := Merge(under, base, m).fields;
      assert r.Keys == was.Keys + m.fields.Keys;
      if HasObj(r, "annotations") && "annotations" in m.fields {
        var notes := if "annotations" in was then Some(was["annotations"]) else None;
        assert r["annotations"] == Merge(Some("annotations"), notes, m.fields["annotations"]);
        MergedKeys(Some("annotations"), notes, m.fields["annotations"]);
      }
    }
  }

  lemma MergedKeys(under: Option<string>, base: Option<Value>, overlay: Value)
    ensures var r := Merge(under, base, overlay);
            r.Obj? ==> overlay.Obj? && r.fields.Keys == FieldsOf(base).Keys + overlay.fields.Keys
  {
  }

  /** Merging keeps objects normal. */
  lemma MergeNormal(base: Value, overlay: Value)
    requires Normal(base) && Normal(overlay) && (IsSecret(base) <==> IsSecret(overlay))
    ensures Normal(Merge(None, Some(base), overlay))
  {
    var m := Merge(None, Some(base), overlay);
    MergeSecret(base, overlay);
    MergedFields(Some(base), overlay, "status");
    MergedFields(Some(base), overlay, "type");
    MergedFields(Some(base), overlay, "stringData");
    MergedFields(Some(base), overlay, "metadata");
    if "metadata" in overlay.fields {
      var was := if "metadata" in base.fields then Some(base.fields["metadata"]) else None;
      MergeMetadata(Some("metadata"), was, overlay.fields["metadata"]);
    }
  }

  ghost predicate NormalLayers(layers: seq<Value>) {
    && (forall i :: 0 <= i < |layers| ==> Normal(layers[i]) && NoProbeZero(layers[i]))
    && (forall i, j :: 0 <= i < |layers| && 0 <= j < |layers| ==> (IsSecret(layers[i]) <==> IsSecret(layers[j])))
  }

  lemma LayersNormal(encode: string -> string, fragments: seq<Fragment>)
    requires Alike(fragments)
    ensures NormalLayers(Layers(encode, fragments))
  {
    var sorted, r := Sorting.Sort(FragmentLeq, fragments), Layers(encode, fragments);
    Sorting.SameElements(sorted, fragments);
    forall i | 0 <= i < |r|
      ensures sorted[i] in fragments
      ensures Normal(r[i]) && NoProbeZero(r[i]) && (IsSecret(r[i]) <==> IsSecret(sorted[i].value))
    {
      assert sorted[i] in fragments;
      NormalizeNormal(encode, sorted[i].value);
    }
  }

  lemma {:induction false} LaidNormal(layers: seq<Value>)
    requires layers != [] && NormalLayers(layers)
    ensures Normal(LayAll(layers)) && (IsSecret(LayAll(layers)) <==> IsSecret(layers[0]))
    decreases |layers|
  {
    var n := |layers| - 1;
    if n == 0 {
      MergeNone(None, layers[0]);
    } else {
      assert NormalLayers(layers[..n]);
      LaidNormal(layers[..n]);
      MergeNormal(LayAll(layers[..n]), layers[n]);
      MergeSecret(LayAll(layers[..n]), layers[n]);
    }
  }

  /** What a compiled object matches is free of zero defaults, so an object that
      comes out of merging with one never compares clean, whatever is live. */
  lemma ProbeZeroNeverClean(encode: string -> string, desired: Value, live: Value)
    requires live.Obj? && !NoProbeZero(desired)
    ensures !CleanAgainst(encode, desired, live)
  {
    NormalizeNormal(encode, live);
    if CleanAgainst(encode, desired, live) {
      ProbesMatched(None, desired, Normalize(encode, live));
    }
  }

  /** Once the compiled object itself is live, it compares clean exactly when it
      repeats no merge key and no probe in it holds a zero default. */
  lemma CompiledCleanExact(encode: string -> string, fragments: seq<Fragment>)
    requires fragments != [] && Alike(fragments)
    ensures var m := Compile(encode, fragments);
            m.Obj? && (CleanAgainst(encode, m, m) <==> WellKeyed(None, m) && NoProbeZero(m))
  {
    var m := Compile(encode, fragments);
    LayersNormal(encode, fragments);
    LaidNormal(Layers(encode, fragments));
    MatchesSelf(None, m);
    if NoProbeZero(m) {
      NormalizeFixed(encode, m);
    } else {
      ProbeZeroNeverClean(encode, m, m);
    }
  }

  /** An object tracked through one fragment gets no such zero: it compares clean
      exactly when that fragment repeats no merge key. */
  lemma SingleFragmentClean(encode: string -> string, f: Fragment)
    requires f.value.Obj?
    ensures var m := Compile(encode, [f]);
            m == Normalize(encode, f.value) && (CleanAgainst(encode, m, m) <==> WellKeyed(None, m))
  {
    CompiledCleanExact(encode, [f]);
    assert Layers(encode, [f]) == [Normalize(encode, f.value)] by {
      assert Sorting.Sort(FragmentLeq, [f]) == [f];
    }
    MergeNone(None, Normalize(encode, f.value));
    NormalizeNormal(encode, f.value);
  }

  /** Laying proper layers yields a proper object that shows no mismatch with the
      layer of highest priority. */
  lemma {:induction false} LaidSound(layers: seq<Value>)
    requires layers != []
    requires forall i :: 0 <= i < |layers| ==> Proper(None, layers[i])
    ensures Proper(None, LayAll(layers))
    ensures Matches(None, layers[|layers| - 1], LayAll(layers))
    decreases |layers|
  {
    var n := |layers| - 1;
    if n > 0 {
      LaidSound(layers[..n]);
    }
    MergeSound(None, if n == 0 then None else Some(LayAll(layers[..n])), layers[n]);
  }

  /** So when no fragment repeats a merge key, the compiled object, once live,
      satisfies its highest fragment, and compares clean exactly when merging
      brought no zero default into a probe. */
  lemma CompiledIsClean(encode: string -> string, fragments: seq<Fragment>)
    requires fragments != [] && Alike(fragments)
    requires forall i :: 0 <= i < |fragments| ==> Proper(None, Layers(encode, fragments)[i])
    ensures var m := Compile(encode, fragments);
            && Proper(None, m) && Matches(None, Layers(encode, fragments)[|fragments| - 1], m)
            && (CleanAgainst(encode, m, m) <==> NoProbeZero(m))
  {
    CompiledSound(encode, fragments);
    CompiledCleanExact(encode, fragments);
  }

  lemma CompiledSound(encode: string -> string, fragments: seq<Fragment>)
    requires fragments != []
    requires forall i :: 0 <= i < |fragments| ==> Proper(None, Layers(encode, fragments)[i])
    ensures var m := Compile(encode, fragments);
            Proper(None, m) && WellKeyed(None, m) && Matches(None, Layers(encode, fragments)[|fragments| - 1], m)
  {
    LaidSound(Layers(encode, fragments));
  }

  /** A patch of a Secret that names no type resets the type: normalization fills
      in the default before the patch is laid on. */
  lemma PatchResetsType(encode: string -> string, below: seq<Value>, patch: Value)
    requires below != [] && IsSecret(patch) && "type" !in patch.fields
    ensures var m := LayAll(below + [Normalize(encode, patch)]);
            m.Obj? && "type" in m.fields && m.fields["type"] == Scalar(Str, "Opaque")
  {
    var n := Normalize(encode, patch);
    OpenedNormal(encode, patch);
    NormalizedField(encode, patch, "type");
    assert (below + [n])[..|below|] == below;
    MergedScalarField(Some(LayAll(below)), n, "type");
  }
}
