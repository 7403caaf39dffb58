/** Situations for the theorems about `sync revert`: one that meets their
    assumptions, and those in which a successful revert does not end the drift. */
module RevertWitnesses {
  import opened GoStrings
  import opened Paths
  import opened Revert
  import opened RevertApply
  import opened Staging
  import opened Comparison
  import opened RevertTheorems
  import DesiredObjects
  import OwnedFields
  import Sorting

  // ------------------------------------------------------------ a missing file

  const NO_SELECTION := Selection(Selector(None, "", None, ""), None, None, None)

  /** Repair that does nothing. */
  function Idle(): Repair {
    (w: Entries, host: string) => Step(w, None)
  }

  function Missing(host: string, t: Tracked): HostStatus {
    HostStatus(host, t, Drifted(t.drift))
  }

  function Nothing(): World {
    World(map[], map[])
  }

  /** A direct, regular file whose bundle entry exists. */
  ghost predicate Restorable(site: Site, host: string, t: Tracked) {
    && IsAbs(t.hostPath) && t.projection == Direct && t.fileType == RegularFile && t in site.tracked
    && DesiredEntry(site, host, t).Ok? && DesiredEntry(site, host, t).value.File?
  }

  lemma KeptAlone<T(!new)>(x: T, keep: T -> bool)
    requires keep(x)
    ensures Filter([x], keep) == [x]
  {
    assert [x][1..] == [];
  }

  lemma KeptFirst<T(!new)>(x: T, y: T, keep: T -> bool)
    requires keep(x) && !keep(y)
    ensures Filter([x, y], keep) == [x]
  {
    assert [x, y][1..] == [y] && [y][1..] == [];
    assert Filter([y], keep) == [];
  }

  lemma NothingSelected()
    ensures Unselected(NO_SELECTION)
  {
    assert Trim("") == "";
  }

  /** The full-scope plan for one drifted path among clean ones. */
  lemma OnePlanned(site: Site, ps: seq<HostStatus>, p: HostStatus)
    requires p.tracked.projection == Direct && Filter(ps, PathDrifted) == [p]
    ensures Plan(site, Compared([], ps), All, NO_SELECTION) == Ok(Targets([], [p]))
  {
    NothingSelected();
    var c := Compared([], ps);
    KeptAlone(p, (q: HostStatus) => CanRevert(site, q));
    assert DriftedPaths(c) == [p] && RevertablePaths(site, c) == [p];
    assert DriftedObjects(c) == [];
  }

  lemma MissingPlaced(site: Site, t: Tracked)
    requires Restorable(site, "", t)
    ensures RevertPaths(site, Idle(), map[], [Missing("", t)]).error.None?
  {
    var p := Missing("", t);
    var l := LocOf(site, "", t);
    assert Trim("") == "";
    assert IsLocal(site, "");
    assert Source(site, p) == DesiredEntry(site, "", t);
    ParentsFine(map[], l, 0);
    assert RevertPath(site, map[], p).error.None?;
    assert [p][1..] == [];
  }

  /** Reverting a missing local file succeeds, and the comparison, the consistency
      and the repair meet what the convergence theorem asks for. */
  lemma MissingFileReverts(site: Site, root: string, t: Tracked)
    requires Restorable(site, "", t)
    ensures var c := Compared([], [Missing("", t)]);
      && ComparedWith(site, root, Nothing(), c) && Consistent(site, c.hostPaths) && AllStageable(site, c)
      && Unselected(NO_SELECTION) && Confined(Idle(), Places(site, c.hostPaths))
      && RevertCommand(site, Idle(), Nothing(), c, All, NO_SELECTION).1.None?
  {
    MissingCompared(site, root, t);
    MissingRun(site, t);
    NothingSelected();
  }

  lemma MissingRun(site: Site, t: Tracked)
    requires Restorable(site, "", t)
    ensures RevertCommand(site, Idle(), Nothing(), Compared([], [Missing("", t)]), All, NO_SELECTION).1.None?
  {
    MissingPlanned(site, Missing("", t));
    MissingPlaced(site, t);
    assert IsLocal(site, "") by { assert Trim("") == ""; }
  }

  lemma MissingPlanned(site: Site, p: HostStatus)
    requires p.tracked.projection == Direct && PathDrifted(p)
    ensures Unselected(NO_SELECTION) && Plan(site, Compared([], [p]), All, NO_SELECTION) == Ok(Targets([], [p]))
  {
    NothingSelected();
    KeptAlone(p, PathDrifted);
    OnePlanned(site, [p], p);
  }

  lemma MissingCompared(site: Site, root: string, t: Tracked)
    requires Restorable(site, "", t)
    ensures IsLocal(site, "") && CompareHostPath(site, root, map[], "", t) == Ok(Missing("", t))
  {
    assert Trim("") == "";
  }

  // ------------------------------------------------------- the scratch name

  /** `y` is tracked under the scratch name of `x`, on one remote host. */
  ghost predicate Beside(site: Site, host: string, x: Tracked, y: Tracked) {
    && !IsLocal(site, host) && site.hasExecutor && site.tracked == [x, y]
    && Restorable(site, host, x) && Restorable(site, host, y)
    && CleanPath(x.hostPath).comps != [] && LocOf(site, host, y) == Scratch(LocOf(site, host, x))
    && SurvivesStaging(site.created, DesiredEntry(site, host, y).value, RegularFile)
  }

  /** Only `y` stands on the host, as it should. */
  function OnlyY(site: Site, host: string, y: Tracked): World
    requires DesiredEntry(site, host, y).Ok?
  {
    World(map[LocOf(site, host, y) := DesiredEntry(site, host, y).value], map[])
  }

  function YClean(host: string, x: Tracked, y: Tracked): Compared {
    Compared([], [Missing(host, x), HostStatus(host, y, Clean)])
  }

  lemma PathsOfTwo(site: Site, host: string, x: Tracked, y: Tracked)
    requires x.projection == Direct && y.projection == Direct
    ensures PathsOf(site, host, [x, y]) == [x.hostPath, y.hostPath]
  {
    assert [x, y][1..] == [y] && [y][1..] == [];
    assert PathsOf(site, host, [y]) == [y.hostPath];
  }

  lemma EqualLengthApart(p: string, q: string)
    requires |CleanPath(p).comps| == |CleanPath(q).comps| > 0
    ensures PrefixFree(Cleaned([p, q]))
  {
    forall c | c in Cleaned([p, q])
      ensures |c| == |CleanPath(p).comps|
    {
      var r :| r in [p, q] && c == CleanPath(r).comps;
    }
  }

  lemma BesideStageable(site: Site, host: string, x: Tracked, y: Tracked)
    requires Beside(site, host, x, y)
    ensures Stageable(site, host) && PathsFor(site, host) == [x.hostPath, y.hostPath]
  {
    PathsOfTwo(site, host, x, y);
    ScratchDiffers(LocOf(site, host, x));
    EqualLengthApart(x.hostPath, y.hostPath);
  }

  lemma BesideCompared(site: Site, root: string, host: string, x: Tracked, y: Tracked)
    requires Beside(site, host, x, y)
    ensures var w := OnlyY(site, host, y).entries;
      && CompareHostPath(site, root, w, host, x) == Ok(Missing(host, x))
      && CompareHostPath(site, root, w, host, y) == Ok(HostStatus(host, y, Clean))
  {
    var w := OnlyY(site, host, y).entries;
    BesideStageable(site, host, x, y);
    ScratchDiffers(LocOf(site, host, x));
    StagedLive(site, root, w, host, x);
    StagedLive(site, root, w, host, y);
    assert Get(w, LocOf(site, host, x)) == None;
    JudgeWritten(DesiredEntry(site, host, y).value, site.created, host, y, false);
  }

  /** Where only a file stands under the scratch name, an upload succeeds. */
  lemma UploadAlone(site: Site, l: Loc, file: Entry, src: Entry)
    requires file.File? && src.File? && l.path.comps != []
    ensures Write(site, map[Scratch(l) := file], false, l, src).error.None?
  {
    var w: Entries := map[Scratch(l) := file];
    ScratchDiffers(l);
    assert forall k :: 0 <= k < |l.path.comps| ==> |Above(l, k).path.comps| == k;
    ParentsFine(w, l, 0);
  }

  lemma OneStep(site: Site, w: Entries, p: HostStatus)
    requires p.tracked.projection == Direct && RevertPath(site, w, p).error.None?
    ensures RevertPaths(site, Idle(), w, [p]).error.None?
  {
    assert [p][1..] == [];
  }

  lemma BesideWritten(site: Site, host: string, x: Tracked, y: Tracked)
    requires Beside(site, host, x, y)
    ensures RevertPaths(site, Idle(), OnlyY(site, host, y).entries, [Missing(host, x)]).error.None?
  {
    UploadAlone(site, LocOf(site, host, x), DesiredEntry(site, host, y).value, DesiredEntry(site, host, x).value);
    OneStep(site, OnlyY(site, host, y).entries, Missing(host, x));
  }

  lemma TwoCompared(site: Site, root: string, w: World, p: HostStatus, q: HostStatus)
    requires FromTracked(site, root, w.entries, p) && FromTracked(site, root, w.entries, q)
    requires Stageable(site, p.host) && Stageable(site, q.host)
    ensures ComparedWith(site, root, w, Compared([], [p, q])) && AllStageable(site, Compared([], [p, q]))
  {
  }

  lemma BesideWorld(site: Site, root: string, host: string, x: Tracked, y: Tracked)
    requires Beside(site, host, x, y)
    ensures ComparedWith(site, root, OnlyY(site, host, y), YClean(host, x, y))
    ensures AllStageable(site, YClean(host, x, y))
  {
    BesideStageable(site, host, x, y);
    BesideCompared(site, root, host, x, y);
    TwoCompared(site, root, OnlyY(site, host, y), Missing(host, x), HostStatus(host, y, Clean));
  }

  lemma TwoConsistent(site: Site, p: HostStatus, q: HostStatus)
    requires Dest(site, p) != Dest(site, q)
    ensures Consistent(site, [p, q])
  {
    assert forall s :: s in [p, q] ==> s == p || s == q;
  }

  lemma BesideConsistent(site: Site, host: string, x: Tracked, y: Tracked)
    requires Beside(site, host, x, y)
    ensures Consistent(site, YClean(host, x, y).hostPaths)
  {
    ScratchDiffers(LocOf(site, host, x));
    TwoConsistent(site, Missing(host, x), HostStatus(host, y, Clean));
  }

  /** The comparison before, the plan and the run. */
  lemma BesideCommand(site: Site, root: string, host: string, x: Tracked, y: Tracked)
    requires Beside(site, host, x, y)
    ensures var c, w := YClean(host, x, y), OnlyY(site, host, y);
      && Plan(site, c, All, NO_SELECTION) == Ok(Targets([], [Missing(host, x)]))
      && RevertPaths(site, Idle(), w.entries, [Missing(host, x)]).error.None?
  {
    KeptFirst(Missing(host, x), HostStatus(host, y, Clean), PathDrifted);
    OnePlanned(site, YClean(host, x, y).hostPaths, Missing(host, x));
    BesideWritten(site, host, x, y);
  }

  lemma OneApplied(site: Site, w: World, c: Compared, p: HostStatus)
    requires Plan(site, c, All, NO_SELECTION) == Ok(Targets([], [p])) && site.hasExecutor
    requires RevertPaths(site, Idle(), w.entries, [p]).error.None?
    ensures RevertCommand(site, Idle(), w, c, All, NO_SELECTION).1.None?
  {
  }

  lemma ScratchedLast(site: Site, p: HostStatus, l: Loc)
    requires Scratches(site, p, l)
    ensures Lost(site, [p], l)
  {
    assert Scratches(site, [p][0], l);
  }

  /** A tracked file under the scratch name of another: reverting the other
      succeeds and removes it, so it is drift afterwards. */
  lemma ScratchVictim(site: Site, root: string, host: string, x: Tracked, y: Tracked, again: string)
    requires Beside(site, host, x, y)
    ensures var c, w := YClean(host, x, y), OnlyY(site, host, y);
      && ComparedWith(site, root, w, c)
      && RevertCommand(site, Idle(), w, c, All, NO_SELECTION).1.None?
      && CompareHostPath(site, again, RevertCommand(site, Idle(), w, c, All, NO_SELECTION).0.entries, host, y)
         == Ok(Missing(host, y))
  {
    var c, w := YClean(host, x, y), OnlyY(site, host, y);
    var q := HostStatus(host, y, Clean);
    BesideWorld(site, root, host, x, y);
    BesideConsistent(site, host, x, y);
    BesideCommand(site, root, host, x, y);
    OneApplied(site, w, c, Missing(host, x));
    NothingSelected();
    assert q in c.hostPaths;
    ScratchDiffers(LocOf(site, host, x));
    ScratchedLast(site, Missing(host, x), Dest(site, q));
    RevertConverges(site, Idle(), root, w, c, NO_SELECTION, q, again);
  }

  // ------------------------------------------------------ zeros in probes

  type Fields = map<string, OwnedFields.Value>

  function Text(s: string): OwnedFields.Value {
    OwnedFields.Scalar(OwnedFields.Str, s)
  }

  /** A Pod with one container, which has a liveness probe. */
  function Container(probe: Fields): Fields {
    map["name" := Text("A"), "livenessProbe" := OwnedFields.Obj(probe)]
  }

  function Pod(probe: Fields): OwnedFields.Value {
    var containers := OwnedFields.Arr([OwnedFields.Obj(Container(probe))]);
    OwnedFields.Obj(map["kind" := Text("Pod"), "spec" := OwnedFields.Obj(map["containers" := containers])])
  }

  const GLOBAL_PROBE: Fields :=
    map["httpGet" := OwnedFields.Obj(map["port" := OwnedFields.Scalar(OwnedFields.Num, "80")]),
        "initialDelaySeconds" := OwnedFields.Scalar(OwnedFields.Num, "10")]

  const PATCHED_PROBE: Fields := map["initialDelaySeconds" := DesiredObjects.ZERO]

  lemma PodNormal(encode: string -> string, probe: Fields)
    requires DesiredObjects.NoProbeZero(OwnedFields.Obj(probe))
    ensures DesiredObjects.Normalize(encode, Pod(probe)) == Pod(probe)
  {
    var spec: Fields := map["containers" := OwnedFields.Arr([OwnedFields.Obj(Container(probe))])];
    assert DesiredObjects.NoProbeZero(OwnedFields.Obj(Container(probe)));
    assert DesiredObjects.NoProbeZero(spec["containers"]);
    assert DesiredObjects.NoProbeZero(OwnedFields.Obj(spec));
    assert DesiredObjects.NoProbeZero(Pod(probe));
    DesiredObjects.NormalizeFixed(encode, Pod(probe));
  }

  lemma PodProper(probe: Fields)
    requires OwnedFields.Proper(Some("livenessProbe"), OwnedFields.Obj(probe))
    ensures OwnedFields.Proper(None, Pod(probe))
  {
    var items := [OwnedFields.Obj(Container(probe))];
    var spec: Fields := map["containers" := OwnedFields.Arr(items)];
    assert OwnedFields.Proper(None, items[0]);
    assert items[1..] == [];
    assert OwnedFields.Proper(Some("containers"), OwnedFields.Arr(items));
    assert OwnedFields.Proper(Some("spec"), OwnedFields.Obj(spec));
  }

  lemma TwoFieldMerge(under: Option<string>, k: string, a: OwnedFields.Value, m: string, b: OwnedFields.Value,
                      c: OwnedFields.Value)
    requires k != m && a.Scalar?
    ensures OwnedFields.Merge(under, Some(OwnedFields.Obj(map[k := a, m := b])), OwnedFields.Obj(map[k := a, m := c]))
         == OwnedFields.Obj(map[k := a, m := OwnedFields.Merge(Some(m), Some(b), c)])
  {
    var was: Fields, over: Fields := map[k := a, m := b], map[k := a, m := c];
    var r := OwnedFields.Merge(under, Some(OwnedFields.Obj(was)), OwnedFields.Obj(over)).fields;
    assert OwnedFields.Merge(Some(k), Some(a), a) == a;
    assert was[k] == over[k] == a && was[m] == b && over[m] == c;
    assert r == map[k := a, m := OwnedFields.Merge(Some(m), Some(b), c)];
  }

  lemma OneFieldMerge(under: Option<string>, k: string, a: OwnedFields.Value, b: OwnedFields.Value)
    ensures OwnedFields.Merge(under, Some(OwnedFields.Obj(map[k := a])), OwnedFields.Obj(map[k := b]))
         == OwnedFields.Obj(map[k := OwnedFields.Merge(Some(k), Some(a), b)])
  {
    var was: Fields, over: Fields := map[k := a], map[k := b];
    var r := OwnedFields.Merge(under, Some(OwnedFields.Obj(was)), OwnedFields.Obj(over)).fields;
    assert r == map[k := OwnedFields.Merge(Some(k), Some(a), b)];
  }

  lemma OneItemMerge(x: OwnedFields.Value, y: OwnedFields.Value)
    requires OwnedFields.KeyOf(OwnedFields.ByField("name"), x).Some?
    requires OwnedFields.KeyOf(OwnedFields.ByField("name"), x) == OwnedFields.KeyOf(OwnedFields.ByField("name"), y)
    ensures OwnedFields.Merge(Some("containers"), Some(OwnedFields.Arr([x])), OwnedFields.Arr([y]))
         == OwnedFields.Arr([OwnedFields.Merge(None, Some(x), y)])
  {
    var rule := OwnedFields.ByField("name");
    var k := OwnedFields.KeyOf(rule, x).value;
    assert OwnedFields.RuleFor(Some("containers")) == rule;
    assert [x][..0] == [] && [y][1..] == [];
    assert OwnedFields.Positions(rule, [x]) == map[k := 0];
    assert OwnedFields.MergeItems(rule, [x], map[k := 0], [y]) == [OwnedFields.Merge(None, Some(x), y)];
  }

  /** Merging two such Pods merges their probes. */
  lemma PodMerge(a: Fields, b: Fields)
    ensures var c := OwnedFields.Merge(Some("livenessProbe"), Some(OwnedFields.Obj(a)), OwnedFields.Obj(b));
            c.Obj? && OwnedFields.Merge(None, Some(Pod(a)), Pod(b)) == Pod(c.fields)
  {
    var x, y := OwnedFields.Obj(Container(a)), OwnedFields.Obj(Container(b));
    TwoFieldMerge(None, "name", Text("A"), "livenessProbe", OwnedFields.Obj(a), OwnedFields.Obj(b));
    OneItemMerge(x, y);
    OneFieldMerge(Some("spec"), "containers", OwnedFields.Arr([x]), OwnedFields.Arr([y]));
    TwoFieldMerge(None, "kind", Text("Pod"), "spec", OwnedFields.Obj(map["containers" := OwnedFields.Arr([x])]),
                  OwnedFields.Obj(map["containers" := OwnedFields.Arr([y])]));
  }

  function ProbeFragments(): (r: seq<DesiredObjects.Fragment>)
    ensures r != []
  {
    [DesiredObjects.Fragment(DesiredObjects.Global, "base", Pod(GLOBAL_PROBE)),
     DesiredObjects.Fragment(DesiredObjects.Local, "patch", Pod(PATCHED_PROBE))]
  }

  lemma ProbesFine()
    ensures DesiredObjects.NoProbeZero(OwnedFields.Obj(GLOBAL_PROBE))
    ensures DesiredObjects.NoProbeZero(OwnedFields.Obj(PATCHED_PROBE))
    ensures OwnedFields.Proper(Some("livenessProbe"), OwnedFields.Obj(GLOBAL_PROBE))
    ensures OwnedFields.Proper(Some("livenessProbe"), OwnedFields.Obj(PATCHED_PROBE))
  {
    var port: Fields := map["port" := OwnedFields.Scalar(OwnedFields.Num, "80")];
    assert GLOBAL_PROBE["httpGet"] == OwnedFields.Obj(port);
    assert DesiredObjects.NoProbeZero(OwnedFields.Obj(port));
    assert OwnedFields.Proper(Some("httpGet"), OwnedFields.Obj(port));
    assert "10" != "0" by { assert |"10"| == 2; }
    assert forall k :: k in GLOBAL_PROBE ==> GLOBAL_PROBE[k] != DesiredObjects.ZERO;
  }

  lemma ProbeLayers(encode: string -> string)
    ensures DesiredObjects.Layers(encode, ProbeFragments()) == [Pod(GLOBAL_PROBE), Pod(PATCHED_PROBE)]
  {
    var f := ProbeFragments();
    assert f[1..] == [f[1]] && f[1..][1..] == [];
    assert DesiredObjects.FragmentLeq(f[0], f[1]);
    assert Sorting.Sort(DesiredObjects.FragmentLeq, f[1..]) == [f[1]];
    assert Sorting.Sort(DesiredObjects.FragmentLeq, f) == f;
    ProbesFine();
    PodNormal(encode, GLOBAL_PROBE);
    PodNormal(encode, PATCHED_PROBE);
  }

  lemma LaidTwo(a: OwnedFields.Value, b: OwnedFields.Value)
    ensures DesiredObjects.LayAll([a, b]) == OwnedFields.Merge(None, Some(a), b)
  {
    assert [a, b][..1] == [a];
    OwnedFields.MergeNone(None, a);
  }

  /** A patch that names a zero over a probe with a handler leaves both. */
  lemma PatchedPod(global: Fields, patch: Fields)
    requires "httpGet" in global
    requires "initialDelaySeconds" in patch && patch["initialDelaySeconds"] == DesiredObjects.ZERO
    ensures !DesiredObjects.NoProbeZero(DesiredObjects.LayAll([Pod(global), Pod(patch)]))
  {
    var was, over := OwnedFields.Obj(global), OwnedFields.Obj(patch);
    LaidTwo(Pod(global), Pod(patch));
    PodMerge(global, patch);
    var probe := OwnedFields.Merge(Some("livenessProbe"), Some(was), over);
    assert probe.fields["initialDelaySeconds"] == DesiredObjects.ZERO && "httpGet" in probe.fields;
    ProbeInPod(probe.fields);
  }

  lemma PatchedProper(encode: string -> string)
    ensures OwnedFields.WellKeyed(None, DesiredObjects.Compile(encode, ProbeFragments()))
  {
    ProbeLayers(encode);
    ProbesFine();
    PodProper(GLOBAL_PROBE);
    PodProper(PATCHED_PROBE);
    DesiredObjects.LaidSound(DesiredObjects.Layers(encode, ProbeFragments()));
  }

  lemma PatchedZero(encode: string -> string)
    ensures !DesiredObjects.NoProbeZero(DesiredObjects.Compile(encode, ProbeFragments()))
  {
    ProbeLayers(encode);
    PatchedPod(GLOBAL_PROBE, PATCHED_PROBE);
  }

  lemma PodsAlike(f: seq<DesiredObjects.Fragment>)
    requires forall i :: 0 <= i < |f| ==> exists probe: Fields :: f[i].value == Pod(probe)
    ensures DesiredObjects.Alike(f)
  {
    assert "Pod" != "Secret" by { assert |"Pod"| == 3; }
    forall i | 0 <= i < |f|
      ensures f[i].value.Obj? && !DesiredObjects.IsSecret(f[i].value)
    {
      var probe: Fields :| f[i].value == Pod(probe);
    }
  }

  /** A patch that sets a probe's delay to zero, over a probe whose handler it does
      not repeat: no key is repeated, and the object never compares clean. */
  lemma PatchedProbe(encode: string -> string, live: OwnedFields.Value)
    requires live.Obj?
    ensures DesiredObjects.Alike(ProbeFragments())
    ensures OwnedFields.WellKeyed(None, DesiredObjects.Compile(encode, ProbeFragments()))
    ensures !DesiredObjects.CleanAgainst(encode, DesiredObjects.Compile(encode, ProbeFragments()), live)
  {
    PodsAlike(ProbeFragments());
    PatchedProper(encode);
    PatchedZero(encode);
    DesiredObjects.ProbeZeroNeverClean(encode, DesiredObjects.Compile(encode, ProbeFragments()), live);
  }

  lemma ProbeInPod(probe: Fields)
    requires "httpGet" in probe && "initialDelaySeconds" in probe && probe["initialDelaySeconds"] == DesiredObjects.ZERO
    ensures !DesiredObjects.NoProbeZero(Pod(probe))
  {
    var items := [OwnedFields.Obj(Container(probe))];
    var spec: Fields := map["containers" := OwnedFields.Arr(items)];
    assert DesiredObjects.Dropped(probe, "initialDelaySeconds");
    assert !DesiredObjects.NoProbeZero(Container(probe)["livenessProbe"]);
    assert !DesiredObjects.NoProbeZero(items[0]);
    assert !DesiredObjects.NoProbeZero(spec["containers"]);
    assert !DesiredObjects.NoProbeZero(Pod(probe).fields["spec"]);
  }

  // ------------------------------------------------------- repeated keys

  /** A list that names one key twice never matches itself, but matches the list
      that names it once. */
  lemma RepeatedKeyMatchesOnce(item: OwnedFields.Value)
    requires OwnedFields.KeyOf(OwnedFields.ByField("name"), item).Some? && OwnedFields.WellKeyed(None, item)
    ensures var twice, once := OwnedFields.Arr([item, item]), OwnedFields.Arr([item]);
      && !OwnedFields.Matches(Some("env"), twice, twice)
      && OwnedFields.Matches(Some("env"), twice, once)
  {
    var rule := OwnedFields.ByField("name");
    assert OwnedFields.RuleFor(Some("env")) == rule;
    assert OwnedFields.KeyOf(rule, [item, item][0]) == OwnedFields.KeyOf(rule, [item, item][1]);
    assert OwnedFields.RepeatsAt(rule, [item, item], {}, 1);
    OwnedFields.RepeatedLiveKey(Some("env"), OwnedFields.Arr([item, item]), [item, item], 1);
    OwnedFields.MatchesSelf(None, item);
    OwnedFields.KeyedListMatches(Some("env"), [item, item], OwnedFields.Arr([item]));
    assert OwnedFields.KeyOf(rule, [item][0]) == OwnedFields.KeyOf(rule, item);
    assert OwnedFields.Matches(None, item, [item][0]);
    assert OwnedFields.Held(rule, item, [item]);
  }
}
