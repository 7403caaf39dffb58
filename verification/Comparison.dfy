/** Comparing a world with the bundle (`syncCompareBundle` and
    `compareTrackedHostPath`): local paths are read where they stand, those of a
    remote host in the tree they were staged into. */
module Comparison {
  import opened GoStrings
  import opened Paths
  import opened Revert
  import opened RevertApply
  import opened Staging
  import DesiredObjects

  /** The entries of one remote host. */
  function HostOf(w: Entries, host: string): (r: Host)
    ensures forall p :: p in r <==> Loc(Remote(host), p) in w
    ensures forall p :: p in r ==> r[p] == w[Loc(Remote(host), p)]
  {
    assert forall l :: l in w && l.machine == Remote(host) ==> l == Loc(Remote(host), l.path);
    map l | l in w && l.machine == Remote(host) :: l.path := w[l]
  }

  /** `syncTrackedHostPathAppliesToHost`. */
  predicate Applies(site: Site, host: string, t: Tracked) {
    t.projection == Generated ==> host in site.controlPlanes
  }

  /** The tracked paths that apply to a host, in the bundle's order. */
  function PathsOf(site: Site, host: string, tracked: seq<Tracked>): (r: seq<string>)
    ensures forall t :: t in tracked && Applies(site, host, t) ==> t.hostPath in r
  {
    if tracked == [] then []
    else (if Applies(site, host, tracked[0]) then [tracked[0].hostPath] else []) + PathsOf(site, host, tracked[1..])
  }

  function PathsFor(site: Site, host: string): seq<string> {
    PathsOf(site, host, site.tracked)
  }

  /** A new temporary root: its parents and itself, nothing below. */
  function EmptyTree(root: CPath): Entries {
    map n | 0 <= n <= |root.comps| :: Above(At(root, []), n) := Dir
  }

  /** What the comparison finds at a tracked path of a host. */
  function LiveEntry(site: Site, root: string, w: Entries, host: string, t: Tracked): Result<Option<Entry>> {
    if IsLocal(site, host) then Ok(Get(w, LocOf(site, host, t)))
    else if !site.hasExecutor then Err("remote execution client is not configured")
    else
      var s := StageAll(HostOf(w, host), root, site.created, EmptyTree(HostRoot(root)), PathsFor(site, host));
      if s.error.Some? then Err(s.error.value) else Ok(Get(s.entries, Place(root, t.hostPath)))
  }

  /** The verdict on what was found, for a path that is copied from the bundle. */
  function JudgeEntry(desired: Result<Entry>, host: string, t: Tracked, live: Option<Entry>): Result<HostStatus> {
    match desired
    case Err(e) => Err(e)
    case Ok(wanted) =>
      match Project(wanted, t.fileType)
      case Err(e) => Err(e)
      case Ok(expected) =>
        if !IsAbs(t.hostPath) then Err("tracked host path must be absolute")
        else if live.None? then Ok(HostStatus(host, t, Drifted(t.drift)))
        else
          match Project(live.value, t.fileType)
          case Err(e) => Err(e)
          case Ok(actual) =>
            Ok(HostStatus(host, t, if actual == expected then Clean else Drifted(t.drift)))
  }

  function Judge(site: Site, host: string, t: Tracked, live: Option<Entry>): Result<HostStatus> {
    JudgeEntry(DesiredEntry(site, host, t), host, t, live)
  }

  /** `compareTrackedHostPath` below `root` for remote hosts. */
  function CompareHostPath(site: Site, root: string, w: Entries, host: string, t: Tracked): Result<HostStatus> {
    match LiveEntry(site, root, w, host, t)
    case Err(e) => Err(e)
    case Ok(live) => Judge(site, host, t, live)
  }

  /** How generated paths are judged, which is left open. */
  type Generator = (string, Tracked, Option<Entry>) -> Result<State>

  /** One tracked path on one host. */
  function CompareTracked(site: Site, root: string, w: Entries, host: string, generated: Generator, t: Tracked)
    : Result<HostStatus>
  {
    if t.projection == Direct then CompareHostPath(site, root, w, host, t)
    else
      match LiveEntry(site, root, w, host, t)
      case Err(e) => Err(e)
      case Ok(live) =>
        match generated(host, t, live)
        case Err(e) => Err(e)
        case Ok(s) => Ok(HostStatus(host, t, s))
  }

  function Prepend<T>(s: seq<T>, r: Result<seq<T>>): Result<seq<T>> {
    match r
    case Err(e) => Err(e)
    case Ok(t) => Ok(s + t)
  }

  /** Every item is judged, the first error wins; only some results are kept. */
  function EachKept<T, R>(judge: T -> Result<R>, keep: T -> bool, items: seq<T>): Result<seq<R>>
    decreases |items|
  {
    if items == [] then Ok([])
    else
      match judge(items[0])
      case Err(e) => Err(e)
      case Ok(r) => Prepend(if keep(items[0]) then [r] else [], EachKept(judge, keep, items[1..]))
  }

  /** All tracked paths on one host; what does not apply is compared and dropped. */
  function CompareOnHost(site: Site, root: string, w: Entries, host: string, generated: Generator)
    : Result<seq<HostStatus>>
  {
    EachKept((t: Tracked) => CompareTracked(site, root, w, host, generated, t), (t: Tracked) => Applies(site, host, t),
             site.tracked)
  }

  /** `syncCompareBundle` over the hosts of the topology. */
  function CompareHosts(site: Site, root: string, w: Entries, generated: Generator, hosts: seq<string>)
    : Result<seq<HostStatus>>
    decreases |hosts|
  {
    if hosts == [] then Ok([])
    else
      match CompareOnHost(site, root, w, hosts[0], generated)
      case Err(e) => Err(e)
      case Ok(s) => Prepend(s, CompareHosts(site, root, w, generated, hosts[1..]))
  }

  /** One object group of `CompareBundleWithOptions`. */
  function CompareObject(site: Site, w: World, o: TrackedObject): ObjectStatus {
    var clean := o.id in w.objects && DesiredObjects.CleanAgainst(site.encode, Desired(site, o), w.objects[o.id]);
    ObjectStatus(o, if clean then Clean else Drifted(o.drift))
  }

  // ----------------------------------------------------------------- the loops

  method JudgeEach<T, R>(judge: T -> Result<R>, keep: T -> bool, items: seq<T>) returns (r: Result<seq<R>>)
    ensures r == EachKept(judge, keep, items)
  {
    var kept: seq<R> := [];
    PrependNothing(EachKept(judge, keep, items));
    assert items[0..] == items;
    for i := 0 to |items|
      invariant Prepend(kept, EachKept(judge, keep, items[i..])) == EachKept(judge, keep, items)
    {
      assert items[i..][0] == items[i] && items[i..][1..] == items[i + 1..];
      var one := judge(items[i]);
      if one.Err? {
        return Err(one.error);
      }
      PrependTwice(kept, if keep(items[i]) then [one.value] else [], EachKept(judge, keep, items[i + 1..]));
      if keep(items[i]) {
        kept := kept + [one.value];
      } else {
        assert kept + [] == kept;
      }
    }
    r := Ok(kept);
    assert kept + [] == kept;
  }

  lemma PrependNothing<T>(r: Result<seq<T>>)
    ensures Prepend([], r) == r
  {
    assert r.Ok? ==> [] + r.value == r.value;
  }

  lemma PrependTwice<T>(a: seq<T>, b: seq<T>, r: Result<seq<T>>)
    ensures Prepend(a, Prepend(b, r)) == Prepend(a + b, r)
  {
    if r.Ok? {
      assert a + (b + r.value) == (a + b) + r.value;
    }
  }

  method CompareEachHost(site: Site, root: string, w: Entries, generated: Generator, hosts: seq<string>)
    returns (r: Result<seq<HostStatus>>)
    ensures r == CompareHosts(site, root, w, generated, hosts)
  {
    var kept: seq<HostStatus> := [];
    PrependNothing(CompareHosts(site, root, w, generated, hosts));
    assert hosts[0..] == hosts;
    for i := 0 to |hosts|
      invariant Prepend(kept, CompareHosts(site, root, w, generated, hosts[i..]))
             == CompareHosts(site, root, w, generated, hosts)
    {
      assert hosts[i..][0] == hosts[i] && hosts[i..][1..] == hosts[i + 1..];
      var host := hosts[i];
      var statuses := JudgeEach((t: Tracked) => CompareTracked(site, root, w, host, generated, t),
                                (t: Tracked) => Applies(site, host, t), site.tracked);
      assert statuses == CompareOnHost(site, root, w, host, generated);
      if statuses.Err? {
        return Err(statuses.error);
      }
      PrependTwice(kept, statuses.value, CompareHosts(site, root, w, generated, hosts[i + 1..]));
      kept := kept + statuses.value;
    }
    r := Ok(kept);
    assert kept + [] == kept;
  }

  /** A status came out of comparing a tracked path that applies to its host. */
  ghost predicate FromTracked(site: Site, root: string, w: Entries, p: HostStatus) {
    && p.tracked in site.tracked && Applies(site, p.host, p.tracked)
    && (p.tracked.projection == Direct ==> CompareHostPath(site, root, w, p.host, p.tracked) == Ok(p))
  }

  lemma {:induction false} KeptResults<T(!new), R>(judge: T -> Result<R>, keep: T -> bool, items: seq<T>, r: R)
    requires EachKept(judge, keep, items).Ok? && r in EachKept(judge, keep, items).value
    ensures exists t :: t in items && keep(t) && judge(t) == Ok(r)
    decreases |items|
  {
    if !(keep(items[0]) && judge(items[0]) == Ok(r)) {
      KeptResults(judge, keep, items[1..], r);
    }
  }

  lemma HostFromTracked(site: Site, root: string, w: Entries, host: string, generated: Generator, p: HostStatus)
    requires CompareOnHost(site, root, w, host, generated).Ok?
    requires p in CompareOnHost(site, root, w, host, generated).value
    ensures FromTracked(site, root, w, p)
  {
    var judge := (t: Tracked) => CompareTracked(site, root, w, host, generated, t);
    KeptResults(judge, (t: Tracked) => Applies(site, host, t), site.tracked, p);
    var t :| t in site.tracked && Applies(site, host, t) && judge(t) == Ok(p);
    StatusTracked(site, root, w, host, generated, t);
  }

  lemma JudgedStatus(desired: Result<Entry>, host: string, t: Tracked, live: Option<Entry>)
    ensures var r := JudgeEntry(desired, host, t, live); r.Ok? ==> r.value.host == host && r.value.tracked == t
  {
  }

  lemma StatusTracked(site: Site, root: string, w: Entries, host: string, generated: Generator, t: Tracked)
    requires CompareTracked(site, root, w, host, generated, t).Ok?
    ensures var s := CompareTracked(site, root, w, host, generated, t).value; s.host == host && s.tracked == t
  {
    var live := LiveEntry(site, root, w, host, t);
    if live.Ok? {
      JudgedStatus(DesiredEntry(site, host, t), host, t, live.value);
    }
  }

  /** Every status the comparison reports is that of a tracked path. */
  lemma {:induction false} ComparedFromTracked(site: Site, root: string, w: Entries, generated: Generator,
                                               hosts: seq<string>)
    requires CompareHosts(site, root, w, generated, hosts).Ok?
    ensures forall p :: p in CompareHosts(site, root, w, generated, hosts).value ==> FromTracked(site, root, w, p)
    decreases |hosts|
  {
    if hosts != [] {
      forall p | p in CompareOnHost(site, root, w, hosts[0], generated).value
        ensures FromTracked(site, root, w, p)
      {
        HostFromTracked(site, root, w, hosts[0], generated, p);
      }
      ComparedFromTracked(site, root, w, generated, hosts[1..]);
    }
  }

  // ------------------------------------------------------- what staging shows

  /** No tracked path of the host is the root directory or lies under another. */
  ghost predicate Stageable(site: Site, host: string) {
    PrefixFree(Cleaned(PathsFor(site, host)))
  }

  lemma EmptyTreeIsTree(root: CPath, want: Comps -> Option<Entry>)
    ensures Tree(root, EmptyTree(root), {}, want)
  {
    var w := EmptyTree(root);
    forall n | 0 <= n <= |root.comps|
      ensures Get(w, Above(At(root, []), n)) == Some(Dir)
    {
      assert Above(At(root, []), n) in w;
    }
    assert forall n :: 0 <= n <= |root.comps| ==> |Above(At(root, []), n).path.comps| == n;
    forall c: Comps | c != []
      ensures At(root, c) !in w
    {
      assert |At(root, c).path.comps| > |root.comps|;
    }
  }

  /** Staging that goes through has resolved every path. */
  lemma {:induction false} StagedAbsolute(host: Host, root: string, created: Mode, w: Entries, paths: seq<string>)
    requires StageAll(host, root, created, w, paths).error.None?
    ensures forall p :: p in paths ==> IsAbs(p)
    decreases |paths|
  {
    if paths != [] {
      var s := StagePath(host, root, created, w, paths[0]);
      StagedAbsolute(host, root, created, s.entries, paths[1..]);
    }
  }

  /** What a remote comparison finds: the copy staging makes of the host's entry,
      whatever the temporary root. */
  lemma StagedLive(site: Site, root: string, w: Entries, host: string, t: Tracked)
    requires !IsLocal(site, host) && site.hasExecutor && Stageable(site, host)
    requires t.hostPath in PathsFor(site, host) && forall p :: p in PathsFor(site, host) ==> IsAbs(p)
    ensures LiveEntry(site, root, w, host, t) ==
            Ok(match Get(w, LocOf(site, host, t))
               case None => None
               case Some(e) => Some(Staged(site.created, e)))
  {
    var h := HostOf(w, host);
    EmptyTreeIsTree(HostRoot(root), Wanted(h, site.created));
    StagingFaithful(h, root, site.created, EmptyTree(HostRoot(root)), PathsFor(site, host), t.hostPath);
  }

  // ------------------------------------------------------------- the verdict

  /** The path is read where it stands, or in a tree that can be staged. */
  ghost predicate Readable(site: Site, host: string, t: Tracked) {
    && IsAbs(t.hostPath)
    && (!IsLocal(site, host) ==>
          && site.hasExecutor && Stageable(site, host) && t.hostPath in PathsFor(site, host)
          && forall p :: p in PathsFor(site, host) ==> IsAbs(p))
  }

  /** What the comparison finds at a readable path. */
  function Found(site: Site, w: Entries, host: string, t: Tracked): Option<Entry> {
    match Get(w, LocOf(site, host, t))
    case None => None
    case Some(e) => Some(if IsLocal(site, host) then e else Staged(site.created, e))
  }

  lemma ReadableLive(site: Site, root: string, w: Entries, host: string, t: Tracked)
    requires Readable(site, host, t)
    ensures CompareHostPath(site, root, w, host, t)
         == JudgeEntry(DesiredEntry(site, host, t), host, t, Found(site, w, host, t))
  {
    if !IsLocal(site, host) {
      StagedLive(site, root, w, host, t);
    }
  }

  lemma FileVerdict(desired: Entry, host: string, t: Tracked, live: Option<Entry>)
    requires desired.File? && t.fileType == RegularFile && IsAbs(t.hostPath)
    ensures var r := JudgeEntry(Ok(desired), host, t, live);
      && (live.None? ==> r == Ok(HostStatus(host, t, Drifted(t.drift))))
      && (live.Some? && (live.value.Dir? || live.value.Special?) ==> r.Err?)
      && (live.Some? && live.value.Symlink? ==> r == Ok(HostStatus(host, t, Drifted(t.drift))))
      && (live.Some? && live.value.File? ==>
            r == Ok(HostStatus(host, t,
                               if live.value.content == desired.content && live.value.mode % 512 == desired.mode % 512
                               then Clean else Drifted(t.drift))))
  {
  }

  lemma LinkVerdict(desired: Entry, host: string, t: Tracked, live: Option<Entry>)
    requires desired.Symlink? && t.fileType == SymlinkType && IsAbs(t.hostPath)
    ensures var r := JudgeEntry(Ok(desired), host, t, live);
      && (live.None? ==> r == Ok(HostStatus(host, t, Drifted(t.drift))))
      && (live.Some? && (live.value.Dir? || live.value.Special?) ==> r.Err?)
      && (live.Some? && live.value.File? ==> r == Ok(HostStatus(host, t, Drifted(t.drift))))
      && (live.Some? && live.value.Symlink? ==>
            r == Ok(HostStatus(host, t, if live.value.target == desired.target then Clean else Drifted(t.drift))))
  {
  }

  lemma FoundKind(site: Site, w: Entries, host: string, t: Tracked)
    ensures var live, found := Get(w, LocOf(site, host, t)), Found(site, w, host, t);
      && (live.None? <==> found.None?)
      && (live.Some? && live.value.Symlink? ==> found.value.Symlink?)
      && (live.Some? && (live.value.Dir? || live.value.Special?) ==> found.value.Dir? || found.value.Special?)
      && (live.Some? && live.value.File? ==>
            var bits := if !IsLocal(site, host) && live.value.mode == 0 then site.created else live.value.mode;
            found.value.File? && found.value.content == live.value.content && found.value.mode % 512 == bits % 512)
  {
  }

  /** A tracked file is clean exactly when a file is found with its content and
      permission bits; a missing file and a link are drift, anything else is an
      error. On a remote host a mode of zero is found as that of new files. */
  lemma FileCompared(site: Site, root: string, w: Entries, host: string, t: Tracked, content: string, mode: Mode)
    requires Readable(site, host, t) && t.fileType == RegularFile
    requires DesiredEntry(site, host, t) == Ok(File(content, mode))
    ensures var r, live := CompareHostPath(site, root, w, host, t), Get(w, LocOf(site, host, t));
      match live
      case None => r == Ok(HostStatus(host, t, Drifted(t.drift)))
      case Some(Symlink(_)) => r == Ok(HostStatus(host, t, Drifted(t.drift)))
      case Some(File(c, m)) =>
        var bits := if !IsLocal(site, host) && m == 0 then site.created else m;
        r == Ok(HostStatus(host, t, if c == content && bits % 512 == mode % 512 then Clean else Drifted(t.drift)))
      case Some(_) => r.Err?
  {
    ReadableLive(site, root, w, host, t);
    FoundKind(site, w, host, t);
    FileVerdict(File(content, mode), host, t, Found(site, w, host, t));
  }

  /** A tracked link is clean exactly when a link with its target is found: the
      very target here, the target staging shows on a remote host. */
  lemma LinkCompared(site: Site, root: string, w: Entries, host: string, t: Tracked, target: string)
    requires Readable(site, host, t) && t.fileType == SymlinkType
    requires DesiredEntry(site, host, t) == Ok(Symlink(target))
    ensures var r, live := CompareHostPath(site, root, w, host, t), Get(w, LocOf(site, host, t));
      match live
      case None => r == Ok(HostStatus(host, t, Drifted(t.drift)))
      case Some(File(_, _)) => r == Ok(HostStatus(host, t, Drifted(t.drift)))
      case Some(Symlink(live)) =>
        var seen := if IsLocal(site, host) then live else SeenTarget(live);
        r == Ok(HostStatus(host, t, if seen == target then Clean else Drifted(t.drift)))
      case Some(_) => r.Err?
  {
    ReadableLive(site, root, w, host, t);
    LinkVerdict(Symlink(target), host, t, Found(site, w, host, t));
  }

  // ------------------------------------------------------------ nothing is lost

  lemma {:induction false} KeptComplete<T(!new), R>(judge: T -> Result<R>, keep: T -> bool, items: seq<T>)
    ensures EachKept(judge, keep, items).Ok? <==> forall i :: 0 <= i < |items| ==> judge(items[i]).Ok?
    ensures EachKept(judge, keep, items).Ok? ==>
      forall i :: 0 <= i < |items| && keep(items[i]) ==> judge(items[i]).value in EachKept(judge, keep, items).value
    decreases |items|
  {
    if items != [] {
      KeptComplete(judge, keep, items[1..]);
      assert forall i :: 0 <= i < |items[1..]| ==> items[1..][i] == items[i + 1];
      assert forall i :: 1 <= i < |items| ==> items[i] == items[1..][i - 1];
    }
  }

  lemma {:induction false} HostsComplete(site: Site, root: string, w: Entries, generated: Generator, hosts: seq<string>)
    ensures CompareHosts(site, root, w, generated, hosts).Ok? <==>
      forall h :: h in hosts ==> CompareOnHost(site, root, w, h, generated).Ok?
    ensures CompareHosts(site, root, w, generated, hosts).Ok? ==>
      forall h, p :: h in hosts && p in CompareOnHost(site, root, w, h, generated).value ==>
        p in CompareHosts(site, root, w, generated, hosts).value
    decreases |hosts|
  {
    if hosts != [] {
      HostsComplete(site, root, w, generated, hosts[1..]);
      assert forall h :: h in hosts <==> h == hosts[0] || h in hosts[1..];
    }
  }

  /** The comparison goes through exactly when every tracked path can be compared
      on every host, and then reports every path that applies on every host. */
  lemma ComparedComplete(site: Site, root: string, w: Entries, generated: Generator, hosts: seq<string>)
    ensures var r := CompareHosts(site, root, w, generated, hosts);
      && (r.Ok? <==> forall h, i :: h in hosts && 0 <= i < |site.tracked| ==>
                       CompareTracked(site, root, w, h, generated, site.tracked[i]).Ok?)
      && (r.Ok? ==> forall h, i :: h in hosts && 0 <= i < |site.tracked|
                                   && (site.tracked[i].projection == Direct || h in site.controlPlanes) ==>
                       CompareTracked(site, root, w, h, generated, site.tracked[i]).value in r.value)
  {
    HostsComplete(site, root, w, generated, hosts);
    forall h | h in hosts
      ensures CompareOnHost(site, root, w, h, generated).Ok? <==>
        forall i :: 0 <= i < |site.tracked| ==> CompareTracked(site, root, w, h, generated, site.tracked[i]).Ok?
      ensures CompareOnHost(site, root, w, h, generated).Ok? ==>
        forall i :: 0 <= i < |site.tracked| && Applies(site, h, site.tracked[i]) ==>
          CompareTracked(site, root, w, h, generated, site.tracked[i]).value
            in CompareOnHost(site, root, w, h, generated).value
    {
      KeptComplete((t: Tracked) => CompareTracked(site, root, w, h, generated, t), (t: Tracked) => Applies(site, h, t),
                   site.tracked);
    }
  }
}
