/** `applySyncRevertTargets` and the steps below it: rewriting host entries and
    Kubernetes objects from the bundle, stopping at the first error. */
module RevertApply {
  import opened GoStrings
  import opened Paths
  import opened Revert
  import DesiredObjects
  import OwnedFields

  type Entries = map<Loc, Entry>

  /** The entries after a step, and the error that stopped it. */
  datatype Step = Step(entries: Entries, error: Option<string>)

  // ------------------------------------------------------------- small steps

  function Above(l: Loc, n: nat): Loc
    requires n <= |l.path.comps|
  {
    l.(path := CPath(l.path.rooted, l.path.comps[..n]))
  }

  /** `os.MkdirAll` on the parents of `l` from component `n` on: directories are
      made where nothing stands; a file in the way stops it. A parent that is a
      symbolic link leaves the model (an error here). */
  function MakeParents(w: Entries, l: Loc, n: nat): Step
    decreases |l.path.comps| - n
  {
    if n >= |l.path.comps| then Step(w, None)
    else
      var here := Above(l, n);
      if here !in w then MakeParents(w[here := Dir], l, n + 1)
      else if w[here].Dir? then MakeParents(w, l, n + 1)
      else Step(w, Some("create host path parent"))
  }

  /** The scratch name an upload is written under before it is renamed. */
  function Scratch(l: Loc): Loc {
    var c := l.path.comps;
    if c == [] then l else l.(path := CPath(l.path.rooted, c[..|c| - 1] + [c[|c| - 1] + ".tmp"]))
  }

  /** The checks made on a target before anything is touched. */
  function Checked(desired: Result<Entry>, local: bool, reachable: bool, t: Tracked): Result<Entry> {
    if !local && !reachable then Err("remote execution client is not configured")
    else if local && !IsAbs(t.hostPath) then Err("tracked host path must be absolute")
    else if desired.Err? then desired
    else match t.fileType
      case UnknownType => Err("unsupported host path type")
      case RegularFile => if desired.value.File? then desired else Err("desired host path is not a regular file")
      case SymlinkType => if desired.value.Symlink? then desired else Err("desired host path is not a symlink")
  }

  /** The bundle entry a target is rewritten from. */
  function Source(site: Site, p: HostStatus): Result<Entry> {
    Checked(DesiredEntry(site, p.host, p.tracked), IsLocal(site, p.host), site.hasExecutor, p.tracked)
  }

  /** What a write leaves for a bundle entry: the local one drops special mode
      bits, the upload keeps them. */
  function Placed(local: bool, src: Entry): Entry {
    if local then Permissions(src) else src
  }

  /** `copySyncRegularFile`: parents, destination check, write, chmod. Writing to
      a special file leaves a special file. */
  function CopyRegular(w: Entries, l: Loc, src: Entry): Step {
    var made := MakeParents(w, l, 0);
    if made.error.Some? then made
    else if l in made.entries && made.entries[l].Dir? then
      Step(made.entries, Some("cannot revert host path onto existing directory"))
    else if l in made.entries && made.entries[l].Special? then made
    else Step(made.entries[l := Permissions(src)], None)
  }

  /** `copySyncSymlink`. */
  function CopySymlink(w: Entries, l: Loc, src: Entry): Step {
    var made := MakeParents(w, l, 0);
    if made.error.Some? then made
    else if l in made.entries && made.entries[l].Dir? then
      Step(made.entries, Some("cannot revert host path onto existing directory"))
    else Step(made.entries[l := src], None)
  }

  /** `[ -d "$dst" ]`: a directory, or a link to one. */
  predicate TestsAsDirectory(site: Site, w: Entries, l: Loc) {
    l in w && (w[l].Dir? || (w[l].Symlink? && l in site.dirLinks))
  }

  /** `prepareSyncRemoteRegularDestination`: refuse a directory, remove a link. */
  function PrepareRemote(site: Site, w: Entries, l: Loc): Step {
    if TestsAsDirectory(site, w, l) then Step(w, Some("cannot revert host path onto existing directory"))
    else if l in w && w[l].Symlink? then Step(w - {l}, None)
    else Step(w, None)
  }

  /** `Copy` over SFTP: parents, upload to the scratch name, rename onto `l`.
      A scratch name that is a link leaves the model (an error here). */
  function Upload(w: Entries, l: Loc, src: Entry): Step {
    var made := MakeParents(w, l, 0);
    var tmp := Scratch(l);
    if made.error.Some? then made
    else if l.path.comps == [] then Step(made.entries, Some("failed to rename"))
    else if tmp in made.entries && (made.entries[tmp].Dir? || made.entries[tmp].Symlink?) then
      Step(made.entries, Some("failed to create"))
    else if l in made.entries && made.entries[l].Dir? then
      Step(made.entries[tmp := src], Some("failed to rename"))
    else Step((made.entries - {tmp})[l := src], None)
  }

  /** `copySyncRemoteSymlink`. */
  function RemoteSymlink(site: Site, w: Entries, l: Loc, src: Entry): Step {
    var made := MakeParents(w, l, 0);
    if made.error.Some? then made
    else if TestsAsDirectory(site, made.entries, l) then
      Step(made.entries, Some("cannot revert host path onto existing directory"))
    else Step(made.entries[l := src], None)
  }

  /** Writing one checked bundle entry, here or on a remote host. */
  function Write(site: Site, w: Entries, local: bool, l: Loc, src: Entry): Step {
    if local then if src.File? then CopyRegular(w, l, src) else CopySymlink(w, l, src)
    else if src.File? then
      var prepared := PrepareRemote(site, w, l);
      if prepared.error.Some? then prepared else Upload(prepared.entries, l, src)
    else RemoteSymlink(site, w, l, src)
  }

  /** `applySyncRevertHostPath` for a path that is copied from the bundle. */
  function RevertPath(site: Site, w: Entries, p: HostStatus): Step {
    match Source(site, p)
    case Err(e) => Step(w, Some(e))
    case Ok(src) => Write(site, w, IsLocal(site, p.host), LocOf(site, p.host, p.tracked), src)
  }

  /** The effect of generated control-plane repair on a host, which is left open. */
  type Repair = (Entries, string) -> Step

  function RevertOne(site: Site, repair: Repair, w: Entries, p: HostStatus): Step {
    if p.tracked.projection == Generated then repair(w, if Blank(p.host) then "localhost" else p.host)
    else RevertPath(site, w, p)
  }

  function RevertPaths(site: Site, repair: Repair, w: Entries, ps: seq<HostStatus>): Step
    decreases |ps|
  {
    if ps == [] then Step(w, None)
    else
      var s := RevertOne(site, repair, w, ps[0]);
      if s.error.Some? then s else RevertPaths(site, repair, s.entries, ps[1..])
  }

  /** The object a tracked object should be. */
  function Desired(site: Site, o: TrackedObject): OwnedFields.Value {
    DesiredObjects.Compile(site.encode, o.fragments)
  }

  datatype ObjectStep = ObjectStep(objects: map<ObjectId, OwnedFields.Value>, error: Option<string>)

  /** Applying objects one by one, each as wanted, unless it is refused. */
  function SetObjects(refused: set<ObjectId>, want: TrackedObject -> OwnedFields.Value,
                      w: map<ObjectId, OwnedFields.Value>, os: seq<ObjectStatus>): ObjectStep
    decreases |os|
  {
    if os == [] then ObjectStep(w, None)
    else if os[0].tracked.id in refused then ObjectStep(w, Some("apply desired object"))
    else SetObjects(refused, want, w[os[0].tracked.id := want(os[0].tracked)], os[1..])
  }

  /** Applying the desired object makes it the live one. */
  function ApplyObjects(site: Site, w: map<ObjectId, OwnedFields.Value>, os: seq<ObjectStatus>): ObjectStep {
    SetObjects(site.refused, (o: TrackedObject) => Desired(site, o), w, os)
  }

  /** `syncRevertTargetsNeedRemoteHostAccess`. */
  predicate NeedsRemote(site: Site, ps: seq<HostStatus>) {
    exists i :: 0 <= i < |ps| && !IsLocal(site, ps[i].host)
  }

  /** `applySyncRevertTargets`: host paths first, then objects; nothing at all when
      remote hosts are needed and cannot be reached. */
  function Apply(site: Site, repair: Repair, w: World, t: Targets): (World, Option<string>)
  {
    if NeedsRemote(site, t.hostPaths) && !site.hasExecutor then (w, Some("remote execution client"))
    else ApplyReachable(site, repair, w, t)
  }

  function ApplyReachable(site: Site, repair: Repair, w: World, t: Targets): (World, Option<string>)
  {
    var s := RevertPaths(site, repair, w.entries, t.hostPaths);
    if s.error.Some? then (World(s.entries, w.objects), s.error)
    else
      var a := ApplyObjects(site, w.objects, t.objects);
      (World(s.entries, a.objects), a.error)
  }

  /** The command between its two comparisons: plan, then apply the plan. */
  function RevertCommand(site: Site, repair: Repair, w: World, c: Compared, scope: Scope, sel: Selection)
    : (World, Option<string>)
  {
    match Plan(site, c, scope, sel)
    case Err(e) => (w, Some(e))
    case Ok(t) => Apply(site, repair, w, t)
  }

  // ------------------------------------------------------- what a step leaves

  /** Nothing that stood outside `touched` changes; a new entry there can only be
      a directory made for a parent. */
  ghost predicate OnlyParentsAdded(w: Entries, w2: Entries, touched: set<Loc>) {
    forall l :: l !in touched ==>
      && (l in w ==> l in w2 && w2[l] == w[l])
      && (l !in w ==> l in w2 ==> w2[l] == Dir)
  }

  lemma OnlyParentsTrans(a: Entries, b: Entries, c: Entries, s: set<Loc>, t: set<Loc>)
    requires OnlyParentsAdded(a, b, s) && OnlyParentsAdded(b, c, t)
    ensures OnlyParentsAdded(a, c, s + t)
  {
  }

  lemma {:induction false} MakeParentsFrame(w: Entries, l: Loc, n: nat)
    ensures OnlyParentsAdded(w, MakeParents(w, l, n).entries, {})
    decreases |l.path.comps| - n
  {
    if n < |l.path.comps| {
      var here := Above(l, n);
      if here !in w {
        MakeParentsFrame(w[here := Dir], l, n + 1);
      } else if w[here].Dir? {
        MakeParentsFrame(w, l, n + 1);
      }
    }
  }

  /** The locations one target may write: its own and, for an upload, the scratch
      name beside it. */
  function Touched(local: bool, l: Loc): set<Loc> {
    if local then {l} else {l, Scratch(l)}
  }

  lemma LocalFrame(w: Entries, l: Loc, src: Entry)
    ensures OnlyParentsAdded(w, CopyRegular(w, l, src).entries, {l})
    ensures OnlyParentsAdded(w, CopySymlink(w, l, src).entries, {l})
  {
    MakeParentsFrame(w, l, 0);
  }

  lemma UploadFrame(w: Entries, l: Loc, src: Entry)
    ensures OnlyParentsAdded(w, Upload(w, l, src).entries, {l, Scratch(l)})
  {
    MakeParentsFrame(w, l, 0);
  }

  lemma PreparedFrame(site: Site, w: Entries, l: Loc)
    ensures OnlyParentsAdded(w, PrepareRemote(site, w, l).entries, {l})
  {
  }

  lemma RemoteSymlinkFrame(site: Site, w: Entries, l: Loc, src: Entry)
    ensures OnlyParentsAdded(w, RemoteSymlink(site, w, l, src).entries, {l})
  {
    MakeParentsFrame(w, l, 0);
  }

  lemma WriteFrame(site: Site, w: Entries, local: bool, l: Loc, src: Entry)
    ensures OnlyParentsAdded(w, Write(site, w, local, l, src).entries, Touched(local, l))
  {
    if local {
      LocalFrame(w, l, src);
    } else if src.File? {
      var prepared := PrepareRemote(site, w, l);
      PreparedFrame(site, w, l);
      UploadFrame(prepared.entries, l, src);
      OnlyParentsTrans(w, prepared.entries, Upload(prepared.entries, l, src).entries, {l}, {l, Scratch(l)});
      assert {l} + {l, Scratch(l)} == {l, Scratch(l)};
      FrameWider(w, prepared.entries, {l}, {l, Scratch(l)});
    } else {
      RemoteSymlinkFrame(site, w, l, src);
      FrameWider(w, RemoteSymlink(site, w, l, src).entries, {l}, {l, Scratch(l)});
    }
  }

  lemma FrameWider(w: Entries, w2: Entries, s: set<Loc>, t: set<Loc>)
    requires OnlyParentsAdded(w, w2, s) && s <= t
    ensures OnlyParentsAdded(w, w2, t)
  {
  }

  /** A write that succeeds leaves the entry in place, unless a special file
      stood there. */
  lemma WriteWrites(site: Site, w: Entries, local: bool, l: Loc, src: Entry)
    requires Write(site, w, local, l, src).error.None?
    ensures var w2 := Write(site, w, local, l, src).entries;
            l in w2 && (w2[l] == Placed(local, src) || (l in w && w[l].Special?))
  {
    MakeParentsFrame(w, l, 0);
  }

  /** Reverting one desired file on a remote host against reverting it locally:
      it is refused in the same cases, and also for a link to a directory and for
      a directory or link under the scratch name; it has the same effect, except
      that the scratch file goes, special mode bits stay, and a special file is
      replaced. */
  lemma LocalRemoteAgree(site: Site, w: Entries, l: Loc, src: Entry)
    requires src.File? && l.path.comps != []
    ensures var remote, here := Write(site, w, false, l, src), Write(site, w, true, l, src);
            && (remote.error.None? <==>
                  && here.error.None?
                  && !(l in w && w[l].Symlink? && l in site.dirLinks)
                  && !(Scratch(l) in w && (w[Scratch(l)].Dir? || w[Scratch(l)].Symlink?)))
            && (remote.error.None? ==> remote.entries == (here.entries - {Scratch(l)})[l := src])
  {
    ScratchDiffers(l);
    MakeParentsFrame(w, l, 0);
    MadeIsParent(w, l, 0);
    assert forall k :: 0 <= k < |l.path.comps| ==> |Above(l, k).path.comps| == k;
    var prepared := PrepareRemote(site, w, l);
    if prepared.error.None? {
      MakeParentsFrame(prepared.entries, l, 0);
      if l in w && w[l].Symlink? {
        MakeParentsWithout(w, l, 0);
      }
      var made, madeP := MakeParents(w, l, 0).entries, MakeParents(prepared.entries, l, 0).entries;
      assert (madeP - {Scratch(l)})[l := src] == (made[l := Permissions(src)] - {Scratch(l)})[l := src];
      assert (madeP - {Scratch(l)})[l := src] == (made - {Scratch(l)})[l := src];
    }
  }

  /** Only parents are made. */
  lemma {:induction false} MadeIsParent(w: Entries, l: Loc, n: nat)
    ensures forall q :: q in MakeParents(w, l, n).entries && q !in w ==>
              exists k :: n <= k < |l.path.comps| && q == Above(l, k)
    decreases |l.path.comps| - n
  {
    if n < |l.path.comps| {
      var here := Above(l, n);
      if here !in w {
        MadeIsParent(w[here := Dir], l, n + 1);
      } else if w[here].Dir? {
        MadeIsParent(w, l, n + 1);
      }
    }
  }

  lemma ScratchDiffers(l: Loc)
    requires l.path.comps != []
    ensures Scratch(l) != l && |Scratch(l).path.comps| == |l.path.comps|
  {
    var c := l.path.comps;
    assert |Scratch(l).path.comps[|c| - 1]| == |c[|c| - 1]| + 4;
  }

  /** What stands at the path itself does not matter to making its parents. */
  lemma {:induction false} MakeParentsWithout(w: Entries, l: Loc, n: nat)
    requires l in w
    ensures MakeParents(w - {l}, l, n).error == MakeParents(w, l, n).error
    ensures MakeParents(w - {l}, l, n).entries == MakeParents(w, l, n).entries - {l}
    decreases |l.path.comps| - n
  {
    if n < |l.path.comps| {
      var here := Above(l, n);
      assert |here.path.comps| == n < |l.path.comps|;
      if here !in w {
        assert (w - {l})[here := Dir] == w[here := Dir] - {l};
        MakeParentsWithout(w[here := Dir], l, n + 1);
      } else if w[here].Dir? {
        MakeParentsWithout(w, l, n + 1);
      }
    }
  }
}
