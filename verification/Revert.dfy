/** `sync revert`: planning which drifted entries to rewrite and rewriting them,
    over a world of host entries and Kubernetes objects. This module holds the
    world, the comparison and the plan; RevertApply rewrites the world. */
module Revert {
  import opened GoStrings
  import opened Paths
  import DesiredObjects
  import OwnedFields

  // ------------------------------------------------------------------- world

  /** A file's mode as `stat -c %a` prints it: nine permission bits below three
      special ones. */
  type Mode = m: nat | m < 0x1000

  /** What stands at a path, as `os.Lstat` sees it. */
  datatype Entry =
    | File(content: string, mode: Mode)
    | Symlink(target: string)
    | Dir
    | Special

  datatype Machine = Here | Remote(host: string)

  datatype Loc = Loc(machine: Machine, path: CPath)

  datatype ObjectId = ObjectId(apiVersion: string, kind: string, namespace: string, name: string)

  datatype World = World(entries: map<Loc, Entry>, objects: map<ObjectId, OwnedFields.Value>)

  // ------------------------------------------------------------------ bundle

  datatype FileType = RegularFile | SymlinkType | UnknownType

  datatype ProjectionClass = Direct | Generated

  datatype Drift = Dirty | Orphan | Degraded

  datatype State = Clean | Drifted(drift: Drift)

  datatype Tracked = Tracked(
    hostPath: string,
    bundlePath: string,
    component: string,
    fileType: FileType,
    projection: ProjectionClass,
    drift: Drift,  // the drift its ownership implies
    hostInputs: map<string, string>)

  /** An object is tracked through at least one fragment; all were found by its
      identity. */
  type Fragments = s: seq<DesiredObjects.Fragment> | s != [] && DesiredObjects.Alike(s)
    witness [DesiredObjects.Fragment(DesiredObjects.Global, "", OwnedFields.Obj(map[]))]

  datatype TrackedObject = TrackedObject(id: ObjectId, fragments: Fragments, drift: Drift)

  datatype HostStatus = HostStatus(host: string, tracked: Tracked, state: State)

  datatype ObjectStatus = ObjectStatus(tracked: TrackedObject, state: State)

  datatype Compared = Compared(objects: seq<ObjectStatus>, hostPaths: seq<HostStatus>)

  /** The surroundings of a command: roots, which host names mean this machine
      and which run the control plane, the tracked paths and files of the bundle,
      the link targets that are directories, whether remote hosts can be reached,
      the mode of a newly created local file, the objects the API server refuses,
      the generated paths repair can handle, and the encoding of Secret texts. */
  datatype Site = Site(
    hostRoot: string,
    bundleRoot: string,
    localNames: set<string>,
    controlPlanes: set<string>,
    tracked: seq<Tracked>,
    bundle: map<CPath, Entry>,
    dirLinks: set<Loc>,
    hasExecutor: bool,
    created: Mode,
    refused: set<ObjectId>,
    repairable: set<string>,
    encode: string -> string)

  /** `syncIsLocalExecutionHost`, the interface addresses being a set of names. */
  predicate IsLocal(site: Site, host: string) {
    var h := Trim(host);
    var ip := Split(h, ':')[0];
    h == "" || h == "localhost" || ip == "" || ip == "localhost" || ip == "127.0.0.1" || ip in site.localNames
  }

  /** Where a tracked path of a host lives. */
  function LocOf(site: Site, host: string, t: Tracked): Loc {
    if IsLocal(site, host) then Loc(Here, HostTarget(site.hostRoot, t.hostPath))
    else Loc(Remote(host), CleanPath(t.hostPath))
  }

  // ------------------------------------------------------ desired host entries

  /** `syncHostInputBundlePathForHost`: "" when no binding applies. */
  function HostInputPath(bindings: map<string, string>, host: string): string {
    var trimmed := Trim(host);
    if trimmed == "" || bindings == map[] then ""
    else
      var exact := if trimmed in bindings then Trim(bindings[trimmed]) else "";
      if exact != "" then exact
      else
        var bare := Trim(Split(trimmed, ':')[0]);
        if bare == "" || bare == trimmed then ""
        else if bare in bindings then Trim(bindings[bare]) else ""
  }

  function DesiredPath(t: Tracked, host: string): string {
    var p := HostInputPath(t.hostInputs, host);
    if p != "" then p else t.bundlePath
  }

  /** A binding counts when its path is not blank. */
  predicate Bound(bindings: map<string, string>, host: string) {
    host in bindings && !Blank(bindings[host])
  }

  /** Which binding decides: the host's own, else, for a host with a port, that
      of its bare address, else the shared bundle path. */
  lemma DesiredPathExact(t: Tracked, host: string)
    ensures var h := Trim(host);
            var bare := Trim(Split(h, ':')[0]);
            DesiredPath(t, host) ==
            (if h != "" && Bound(t.hostInputs, h) then Trim(t.hostInputs[h])
             else if ':' in h && bare != "" && Bound(t.hostInputs, bare) then Trim(t.hostInputs[bare])
             else t.bundlePath)
  {
    var h := Trim(host);
    var first := Split(h, ':')[0];
    TrimWithin(first);
    if ':' !in h {
      SplitWord(h, ':');
      TrimIdempotent(host);
    } else {
      assert ':' !in Trim(first);
    }
  }

  /** The bundle entry a tracked path of a host should equal. */
  function DesiredEntry(site: Site, host: string, t: Tracked): Result<Entry> {
    match ResolveBundlePath(site.bundleRoot, DesiredPath(t, host))
    case Err(e) => Err(e)
    case Ok(p) =>
      if CleanPath(p) in site.bundle then Ok(site.bundle[CleanPath(p)]) else Err("stat desired host path")
  }

  // -------------------------------------------------------------- comparison

  /** What `digestTrackedHostPath` keeps of an entry; content only when the type
      is the tracked one. */
  datatype Projection = Projection(fileType: FileType, mode: nat, payload: string)

  function Project(e: Entry, expected: FileType): Result<Projection> {
    match e
    case File(content, mode) =>
      Ok(Projection(RegularFile, mode % 512, if expected == RegularFile then content else ""))
    case Symlink(target) =>
      Ok(Projection(SymlinkType, 0x1FF, if expected == SymlinkType then target else ""))
    case Dir => Err("unsupported file type")
    case Special => Err("unsupported file type")
  }

  /** The entry with its special mode bits cleared. */
  function Permissions(e: Entry): Entry {
    if e.File? then e.(mode := e.mode % 512) else e
  }

  // ---------------------------------------------------------------- planning

  datatype Scope = All | LocalOnly

  /** A flag whose text is blank is not set. */
  predicate Accepts(flag: Option<string>, value: string) {
    flag.None? || flag.value == value
  }

  datatype Selector = Selector(apiVersion: Option<string>, kind: string, namespace: Option<string>, name: string)

  datatype Selection = Selection(obj: Selector, host: Option<string>, component: Option<string>,
                                 hostPath: Option<string>)

  datatype Targets = Targets(objects: seq<ObjectStatus>, hostPaths: seq<HostStatus>)

  predicate Active(s: Selector) {
    !Blank(s.kind) || !Blank(s.name)
  }

  /** `syncObjectSelector.matches` for an active selector. */
  predicate Selects(s: Selector, o: ObjectStatus) {
    var id := o.tracked.id;
    && Accepts(s.apiVersion, id.apiVersion)
    && id.kind == s.kind && id.name == s.name
    && Accepts(s.namespace, id.namespace)
  }

  predicate SelectsPath(sel: Selection, p: HostStatus) {
    && Some(p.tracked.hostPath) == sel.hostPath
    && Accepts(sel.component, p.tracked.component)
    && Accepts(sel.host, p.host)
  }

  /** `syncCanRevertHostPath`; which generated paths are repairable is given. */
  predicate CanRevert(site: Site, p: HostStatus) {
    p.tracked.projection == Direct || p.tracked.hostPath in site.repairable
  }

  function Filter<T(!new)>(s: seq<T>, keep: T -> bool): (r: seq<T>)
    ensures forall x :: x in r <==> x in s && keep(x)
  {
    if s == [] then [] else (if keep(s[0]) then [s[0]] else []) + Filter(s[1..], keep)
  }

  lemma {:induction false} FilterSnoc<T(!new)>(s: seq<T>, keep: T -> bool, x: T)
    ensures Filter(s + [x], keep) == Filter(s, keep) + (if keep(x) then [x] else [])
  {
    if s == [] {
      assert s + [x] == [x];
    } else {
      assert (s + [x])[1..] == s[1..] + [x];
      FilterSnoc(s[1..], keep, x);
    }
  }

  predicate ObjectDrifted(o: ObjectStatus) {
    o.state != Clean
  }

  predicate PathDrifted(p: HostStatus) {
    p.state != Clean
  }

  function DriftedObjects(c: Compared): (r: seq<ObjectStatus>)
    ensures forall o :: o in r <==> o in c.objects && o.state != Clean
  {
    Filter(c.objects, ObjectDrifted)
  }

  function DriftedPaths(c: Compared): (r: seq<HostStatus>)
    ensures forall p :: p in r <==> p in c.hostPaths && p.state != Clean
  {
    Filter(c.hostPaths, PathDrifted)
  }

  function PathSelector(sel: Selection): HostStatus -> bool {
    (p: HostStatus) => SelectsPath(sel, p)
  }

  function SelectedPaths(c: Compared, sel: Selection): (r: seq<HostStatus>)
    ensures forall p :: p in r <==> p in c.hostPaths && p.state != Clean && SelectsPath(sel, p)
  {
    Filter(DriftedPaths(c), PathSelector(sel))
  }

  function SelectedObjects(c: Compared, sel: Selection): (r: seq<ObjectStatus>)
    ensures forall o :: o in r <==> o in c.objects && o.state != Clean && Selects(sel.obj, o)
  {
    Filter(DriftedObjects(c), (o: ObjectStatus) => Selects(sel.obj, o))
  }

  function LocalObjects(c: Compared): (r: seq<ObjectStatus>)
    ensures forall o :: o in r <==> o in c.objects && o.state == Drifted(Dirty)
  {
    Filter(DriftedObjects(c), (o: ObjectStatus) => o.state == Drifted(Dirty))
  }

  function LocalPaths(site: Site, c: Compared): (r: seq<HostStatus>)
    ensures forall p :: p in r <==> p in c.hostPaths && p.state == Drifted(Dirty) && CanRevert(site, p)
  {
    Filter(DriftedPaths(c), (p: HostStatus) => p.state == Drifted(Dirty) && CanRevert(site, p))
  }

  function RevertablePaths(site: Site, c: Compared): (r: seq<HostStatus>)
    ensures forall p :: p in r <==> p in c.hostPaths && p.state != Clean && CanRevert(site, p)
  {
    Filter(DriftedPaths(c), (p: HostStatus) => CanRevert(site, p))
  }

  predicate AllRevertable(site: Site, paths: seq<HostStatus>) {
    forall p :: p in paths ==> CanRevert(site, p)
  }

  /** The scope test on the one entry a selection found. */
  predicate InScope(scope: Scope, s: State) {
    scope == LocalOnly ==> s == Drifted(Dirty)
  }

  function PlanOnePath(site: Site, hits: seq<HostStatus>, scope: Scope): Result<Targets> {
    if !AllRevertable(site, hits) then Err("generated host path cannot be reverted yet")
    else if |hits| == 0 then Err("no drifted host path matches")
    else if |hits| > 1 then Err("host-scoped revert is ambiguous")
    else if !InScope(scope, hits[0].state) then Err("requires a local-owned drift target")
    else Ok(Targets([], hits))
  }

  function PlanOneObject(hits: seq<ObjectStatus>, scope: Scope): Result<Targets> {
    if |hits| == 0 then Err("no drifted object matches")
    else if |hits| > 1 then Err("object-scoped revert is ambiguous")
    else if !InScope(scope, hits[0].state) then Err("requires a local-owned drift target")
    else Ok(Targets(hits, []))
  }

  /** What the flags select by: a host path takes precedence over an object. */
  datatype By = ByPath | ByObject | Everything

  function SelectedBy(sel: Selection): By {
    if sel.hostPath.Some? then ByPath else if Active(sel.obj) then ByObject else Everything
  }

  function PlanBy(site: Site, c: Compared, scope: Scope, sel: Selection, how: By): Result<Targets> {
    if DriftedObjects(c) == [] && DriftedPaths(c) == [] then Ok(Targets([], []))
    else match how
      case ByPath => PlanOnePath(site, SelectedPaths(c, sel), scope)
      case ByObject => PlanOneObject(SelectedObjects(c, sel), scope)
      case Everything =>
        if scope == LocalOnly then
          if LocalObjects(c) == [] && LocalPaths(site, c) == [] then Err("no local-owned drift found to revert")
          else Ok(Targets(LocalObjects(c), LocalPaths(site, c)))
        else Ok(Targets(DriftedObjects(c), RevertablePaths(site, c)))
  }

  /** `planSyncRevertTargets`. */
  function Plan(site: Site, c: Compared, scope: Scope, sel: Selection): Result<Targets> {
    PlanBy(site, c, scope, sel, SelectedBy(sel))
  }

  ghost predicate Unselected(sel: Selection) {
    sel.hostPath.None? && Blank(sel.obj.kind) && Blank(sel.obj.name)
  }

  lemma PlanByObjects(site: Site, c: Compared, scope: Scope, sel: Selection, how: By)
    requires PlanBy(site, c, scope, sel, how).Ok?
    ensures forall o :: o in PlanBy(site, c, scope, sel, how).value.objects ==>
              o in c.objects && o.state != Clean && InScope(scope, o.state)
  {
    if how == ByObject && !(DriftedObjects(c) == [] && DriftedPaths(c) == []) {
      var hits := SelectedObjects(c, sel);
      assert hits == [hits[0]];
    }
  }

  lemma PlanByPaths(site: Site, c: Compared, scope: Scope, sel: Selection, how: By)
    requires PlanBy(site, c, scope, sel, how).Ok?
    ensures forall p :: p in PlanBy(site, c, scope, sel, how).value.hostPaths ==>
              p in c.hostPaths && p.state != Clean && CanRevert(site, p) && InScope(scope, p.state)
  {
    if how == ByPath && !(DriftedObjects(c) == [] && DriftedPaths(c) == []) {
      var hits := SelectedPaths(c, sel);
      PlanOnePathExact(site, hits, scope);
      assert hits == [hits[0]];
    }
  }

  /** Whatever the scope and the selection, a plan holds compared entries that
      drifted and can be reverted; in local scope only local-owned drift. */
  lemma PlanOnlyDrifted(site: Site, c: Compared, scope: Scope, sel: Selection)
    requires Plan(site, c, scope, sel).Ok?
    ensures forall o :: o in Plan(site, c, scope, sel).value.objects ==>
              o in c.objects && o.state != Clean && (scope == LocalOnly ==> o.state == Drifted(Dirty))
    ensures forall p :: p in Plan(site, c, scope, sel).value.hostPaths ==>
              && p in c.hostPaths && p.state != Clean && (scope == LocalOnly ==> p.state == Drifted(Dirty))
              && (p.tracked.projection == Direct || p.tracked.hostPath in site.repairable)
  {
    PlanByObjects(site, c, scope, sel, SelectedBy(sel));
    PlanByPaths(site, c, scope, sel, SelectedBy(sel));
  }

  /** Without a selection and in full scope, the plan is everything that drifted
      and can be reverted, in the order of the comparison. */
  lemma PlanAllComplete(site: Site, c: Compared, sel: Selection)
    requires Unselected(sel)
    ensures Plan(site, c, All, sel).Ok?
    ensures var t := Plan(site, c, All, sel).value;
            && (forall o :: o in t.objects <==> o in c.objects && o.state != Clean)
            && (forall p :: p in t.hostPaths <==> p in c.hostPaths && p.state != Clean && CanRevert(site, p))
  {
    if DriftedObjects(c) == [] && DriftedPaths(c) == [] {
      assert forall p :: p in c.hostPaths ==> p in DriftedPaths(c) || p.state == Clean;
      assert forall o :: o in c.objects ==> o in DriftedObjects(c) || o.state == Clean;
    }
  }

  /** The tests of the unselected plans: drifted or dirty, and for a path that it
      is copied or repair can handle it. */
  function DriftedObject(): ObjectStatus -> bool {
    (o: ObjectStatus) => o.state != Clean
  }

  function DirtyObject(): ObjectStatus -> bool {
    (o: ObjectStatus) => o.state == Drifted(Dirty)
  }

  function DriftedPath(site: Site): HostStatus -> bool {
    (p: HostStatus) => p.state != Clean && (p.tracked.projection == Direct || p.tracked.hostPath in site.repairable)
  }

  function DirtyPath(site: Site): HostStatus -> bool {
    (p: HostStatus) =>
      p.state == Drifted(Dirty) && (p.tracked.projection == Direct || p.tracked.hostPath in site.repairable)
  }

  lemma DriftedTargets(site: Site, c: Compared)
    ensures DriftedObjects(c) == Filter(c.objects, DriftedObject())
    ensures RevertablePaths(site, c) == Filter(c.hostPaths, DriftedPath(site))
  {
    FilterSame(c.objects, ObjectDrifted, DriftedObject());
    FilterTwice(c.hostPaths, PathDrifted, (p: HostStatus) => CanRevert(site, p), DriftedPath(site));
  }

  lemma PlanAllInOrder(site: Site, c: Compared, sel: Selection)
    requires Unselected(sel)
    ensures Plan(site, c, All, sel)
         == Ok(Targets(Filter(c.objects, DriftedObject()), Filter(c.hostPaths, DriftedPath(site))))
  {
    DriftedTargets(site, c);
    if DriftedPaths(c) == [] {
      assert RevertablePaths(site, c) == [];
    }
  }

  lemma {:induction false} FilterSame<T(!new)>(s: seq<T>, f: T -> bool, g: T -> bool)
    requires forall x :: f(x) == g(x)
    ensures Filter(s, f) == Filter(s, g)
  {
    if s != [] {
      FilterSame(s[1..], f, g);
    }
  }

  /** Some compared object is dirty, or some path that can be reverted. */
  ghost predicate AnyDirty(site: Site, c: Compared) {
    || (exists i :: 0 <= i < |c.objects| && DirtyObject()(c.objects[i]))
    || (exists i :: 0 <= i < |c.hostPaths| && DirtyPath(site)(c.hostPaths[i]))
  }

  lemma LocalTargets(site: Site, c: Compared)
    ensures LocalObjects(c) == Filter(c.objects, DirtyObject())
    ensures LocalPaths(site, c) == Filter(c.hostPaths, DirtyPath(site))
  {
    FilterTwice(c.objects, ObjectDrifted, (o: ObjectStatus) => o.state == Drifted(Dirty), DirtyObject());
    FilterTwice(c.hostPaths, PathDrifted, (p: HostStatus) => p.state == Drifted(Dirty) && CanRevert(site, p),
                DirtyPath(site));
  }

  lemma {:induction false} FilterNone<T(!new)>(s: seq<T>, keep: T -> bool)
    ensures Filter(s, keep) == [] <==> forall i :: 0 <= i < |s| ==> !keep(s[i])
  {
    if s != [] {
      FilterNone(s[1..], keep);
      assert forall i :: 0 <= i < |s[1..]| ==> s[1..][i] == s[i + 1];
      assert forall i :: 1 <= i < |s| ==> s[i] == s[1..][i - 1];
    }
  }

  lemma PlanLocalCases(site: Site, c: Compared, sel: Selection)
    requires Unselected(sel) && (DriftedObjects(c) != [] || DriftedPaths(c) != [])
    ensures Plan(site, c, LocalOnly, sel).Ok? <==> !(LocalObjects(c) == [] && LocalPaths(site, c) == [])
    ensures Plan(site, c, LocalOnly, sel).Ok? ==>
      Plan(site, c, LocalOnly, sel).value == Targets(LocalObjects(c), LocalPaths(site, c))
  {
  }

  /** Without a selection and in local scope, a plan over drifted input exists
      exactly if something dirty can be reverted; it then is the dirty objects and
      the dirty paths that can be reverted, in the order of the comparison. */
  lemma PlanLocalExact(site: Site, c: Compared, sel: Selection)
    requires Unselected(sel) && AnyDrift(c)
    ensures Plan(site, c, LocalOnly, sel).Ok? <==> AnyDirty(site, c)
    ensures Plan(site, c, LocalOnly, sel).Ok? ==>
      Plan(site, c, LocalOnly, sel).value
      == Targets(Filter(c.objects, DirtyObject()), Filter(c.hostPaths, DirtyPath(site)))
  {
    AnyDriftMeaning(c);
    PlanLocalCases(site, c, sel);
    LocalTargets(site, c);
    FilterNone(c.objects, DirtyObject());
    FilterNone(c.hostPaths, DirtyPath(site));
  }

  /** Nothing drifted: every plan is empty. */
  lemma PlanNothing(site: Site, c: Compared, scope: Scope, sel: Selection)
    requires !AnyDrift(c)
    ensures Plan(site, c, scope, sel) == Ok(Targets([], []))
  {
    AnyDriftMeaning(c);
  }

  /** Some entry of the comparison drifted. */
  ghost predicate AnyDrift(c: Compared) {
    || (exists i :: 0 <= i < |c.objects| && c.objects[i].state != Clean)
    || (exists i :: 0 <= i < |c.hostPaths| && c.hostPaths[i].state != Clean)
  }

  lemma AnyDriftMeaning(c: Compared)
    ensures AnyDrift(c) <==> DriftedObjects(c) != [] || DriftedPaths(c) != []
  {
    if i :| 0 <= i < |c.objects| && c.objects[i].state != Clean {
      assert c.objects[i] in DriftedObjects(c);
    }
    if i :| 0 <= i < |c.hostPaths| && c.hostPaths[i].state != Clean {
      assert c.hostPaths[i] in DriftedPaths(c);
    }
    if DriftedObjects(c) != [] {
      assert DriftedObjects(c)[0] in c.objects;
    }
    if DriftedPaths(c) != [] {
      assert DriftedPaths(c)[0] in c.hostPaths;
    }
  }

  /** A drifted path that the flags name. */
  function NamedPath(sel: Selection): HostStatus -> bool {
    (p: HostStatus) =>
      && p.state != Clean && sel.hostPath == Some(p.tracked.hostPath)
      && (sel.component.Some? ==> sel.component.value == p.tracked.component)
      && (sel.host.Some? ==> sel.host.value == p.host)
  }

  /** A drifted object that the flags name. */
  function NamedObject(s: Selector): ObjectStatus -> bool {
    (o: ObjectStatus) =>
      && o.state != Clean && o.tracked.id.kind == s.kind && o.tracked.id.name == s.name
      && (s.apiVersion.Some? ==> s.apiVersion.value == o.tracked.id.apiVersion)
      && (s.namespace.Some? ==> s.namespace.value == o.tracked.id.namespace)
  }

  /** A host-path selection over drifted input succeeds exactly when one drifted
      entry matches it, that entry can be reverted and fits the scope; the plan
      is then that entry alone. */
  lemma PlanHostPathExact(site: Site, c: Compared, scope: Scope, sel: Selection)
    requires sel.hostPath.Some? && AnyDrift(c)
    ensures var hits := Filter(c.hostPaths, NamedPath(sel));
            && (Plan(site, c, scope, sel).Ok? <==>
                  && |hits| == 1
                  && (hits[0].tracked.projection == Direct || hits[0].tracked.hostPath in site.repairable)
                  && (scope == LocalOnly ==> hits[0].state == Drifted(Dirty)))
            && (Plan(site, c, scope, sel).Ok? ==> Plan(site, c, scope, sel).value == Targets([], hits))
  {
    AnyDriftMeaning(c);
    FilterTwice(c.hostPaths, PathDrifted, PathSelector(sel), NamedPath(sel));
    PlanOnePathExact(site, SelectedPaths(c, sel), scope);
  }

  lemma PlanOnePathExact(site: Site, hits: seq<HostStatus>, scope: Scope)
    ensures PlanOnePath(site, hits, scope).Ok? <==>
            |hits| == 1 && CanRevert(site, hits[0]) && InScope(scope, hits[0].state)
    ensures PlanOnePath(site, hits, scope).Ok? ==> PlanOnePath(site, hits, scope).value == Targets([], hits)
  {
    if |hits| == 1 {
      assert hits == [hits[0]];
    }
  }

  /** The same for an object selection. */
  lemma PlanObjectExact(site: Site, c: Compared, scope: Scope, sel: Selection)
    requires sel.hostPath.None? && (!Blank(sel.obj.kind) || !Blank(sel.obj.name)) && AnyDrift(c)
    ensures var hits := Filter(c.objects, NamedObject(sel.obj));
            && (Plan(site, c, scope, sel).Ok? <==>
                  |hits| == 1 && (scope == LocalOnly ==> hits[0].state == Drifted(Dirty)))
            && (Plan(site, c, scope, sel).Ok? ==> Plan(site, c, scope, sel).value == Targets(hits, []))
  {
    AnyDriftMeaning(c);
    SelectedAreNamed(c, sel);
    PlanOneObjectExact(SelectedObjects(c, sel), scope);
    assert Plan(site, c, scope, sel) == PlanOneObject(SelectedObjects(c, sel), scope);
  }

  lemma SelectedAreNamed(c: Compared, sel: Selection)
    ensures SelectedObjects(c, sel) == Filter(c.objects, NamedObject(sel.obj))
  {
    FilterTwice(c.objects, ObjectDrifted, (o: ObjectStatus) => Selects(sel.obj, o), NamedObject(sel.obj));
  }

  lemma PlanOneObjectExact(hits: seq<ObjectStatus>, scope: Scope)
    ensures PlanOneObject(hits, scope).Ok? <==> |hits| == 1 && InScope(scope, hits[0].state)
    ensures PlanOneObject(hits, scope).Ok? ==> PlanOneObject(hits, scope).value == Targets(hits, [])
  {
  }

  lemma {:induction false} FilterTwice<T(!new)>(s: seq<T>, f: T -> bool, g: T -> bool, both: T -> bool)
    requires forall x :: both(x) == (f(x) && g(x))
    ensures Filter(Filter(s, f), g) == Filter(s, both)
  {
    if s != [] {
      FilterTwice(s[1..], f, g, both);
      if f(s[0]) {
        assert Filter(s, f)[1..] == Filter(s[1..], f);
      } else {
        assert Filter(s, f) == Filter(s[1..], f);
      }
    }
  }
}
