/** The revert command in its own form: planning loops that append, and a fleet
    of hosts and objects that is rewritten in place, step by step. */
module RevertRun {
  import opened GoStrings
  import opened Revert
  import opened RevertApply
  import OwnedFields

  /** A loop that keeps the items a test accepts, in order. */
  method Keep<T(!new)>(items: seq<T>, test: T -> bool) returns (kept: seq<T>)
    ensures kept == Filter(items, test)
  {
    kept := [];
    for i := 0 to |items|
      invariant kept == Filter(items[..i], test)
    {
      FilterSnoc(items[..i], test, items[i]);
      assert items[..i + 1] == items[..i] + [items[i]];
      if test(items[i]) {
        kept := kept + [items[i]];
      }
    }
    assert items[..|items|] == items;
  }

  /** `planSyncRevertTargets`. */
  method PlanTargets(site: Site, c: Compared, scope: Scope, sel: Selection) returns (r: Result<Targets>)
    ensures r == Plan(site, c, scope, sel)
  {
    var objects := Keep(c.objects, ObjectDrifted);
    var paths := Keep(c.hostPaths, PathDrifted);
    if objects == [] && paths == [] {
      return Ok(Targets([], []));
    }
    if sel.hostPath.Some? {
      r := SelectOnePath(site, paths, c, scope, sel);
    } else if Active(sel.obj) {
      var hits := Keep(objects, (o: ObjectStatus) => Selects(sel.obj, o));
      r := PlanOneObject(hits, scope);
    } else {
      r := TakeAll(site, objects, paths, c, scope, sel);
    }
  }

  /** No selection: everything in scope that can be reverted. */
  method TakeAll(
    site: Site, objects: seq<ObjectStatus>, paths: seq<HostStatus>, c: Compared, scope: Scope, sel: Selection)
    returns (r: Result<Targets>)
    requires objects == DriftedObjects(c) && paths == DriftedPaths(c) && (objects != [] || paths != [])
    ensures r == PlanBy(site, c, scope, sel, Everything)
  {
    if scope == LocalOnly {
      var os := Keep(objects, (o: ObjectStatus) => o.state == Drifted(Dirty));
      var ps := Keep(paths, (p: HostStatus) => p.state == Drifted(Dirty) && CanRevert(site, p));
      r := if os == [] && ps == [] then Err("no local-owned drift found to revert") else Ok(Targets(os, ps));
    } else {
      var ps := Keep(paths, (p: HostStatus) => CanRevert(site, p));
      r := Ok(Targets(objects, ps));
    }
  }

  /** The host-path selection. */
  method SelectOnePath(site: Site, paths: seq<HostStatus>, c: Compared, scope: Scope, sel: Selection)
    returns (r: Result<Targets>)
    requires paths == DriftedPaths(c)
    ensures r == PlanOnePath(site, SelectedPaths(c, sel), scope)
  {
    var hits := KeepWhile(paths, PathSelector(sel), Revertable(site));
    if hits.None? {
      return Err("generated host path cannot be reverted yet");
    }
    r := PlanOnePath(site, hits.value, scope);
  }

  function Revertable(site: Site): HostStatus -> bool {
    (p: HostStatus) => CanRevert(site, p)
  }

  /** The matching loop, which gives up at the first match that is not allowed. */
  method KeepWhile<T(!new)>(items: seq<T>, test: T -> bool, allowed: T -> bool) returns (kept: Option<seq<T>>)
    ensures kept.Some? <==> forall x :: x in Filter(items, test) ==> allowed(x)
    ensures kept.Some? ==> kept.value == Filter(items, test)
  {
    var hits: seq<T> := [];
    for i := 0 to |items|
      invariant hits == Filter(items[..i], test)
      invariant forall x :: x in hits ==> allowed(x)
    {
      FilterSnoc(items[..i], test, items[i]);
      assert items[..i + 1] == items[..i] + [items[i]];
      if test(items[i]) {
        if !allowed(items[i]) {
          assert items[i] in Filter(items, test);
          return None;
        }
        hits := hits + [items[i]];
      }
    }
    assert items[..|items|] == items;
    return Some(hits);
  }

  /** The hosts' files and the cluster's objects. */
  class Fleet {
    var entries: Entries
    var objects: map<ObjectId, OwnedFields.Value>

    constructor (w: World)
      ensures entries == w.entries && objects == w.objects
    {
      entries, objects := w.entries, w.objects;
    }

    /** `os.MkdirAll` on a path's parents, outermost first. */
    method MakeParentDirs(l: Loc) returns (error: Option<string>)
      modifies this`entries
      ensures Step(entries, error) == MakeParents(old(entries), l, 0)
    {
      var n := 0;
      while n < |l.path.comps|
        invariant n <= |l.path.comps|
        invariant MakeParents(entries, l, n) == MakeParents(old(entries), l, 0)
      {
        var here := Above(l, n);
        if here !in entries {
          entries := entries[here := Dir];
        } else if !entries[here].Dir? {
          return Some("create host path parent");
        }
        n := n + 1;
      }
      error := None;
    }

    /** `copySyncRegularFile`. */
    method CopyRegularFile(l: Loc, src: Entry) returns (error: Option<string>)
      modifies this`entries
      ensures Step(entries, error) == CopyRegular(old(entries), l, src)
    {
      error := MakeParentDirs(l);
      if error.Some? {
        return;
      }
      if l in entries && entries[l].Dir? {
        return Some("cannot revert host path onto existing directory");
      }
      if l in entries && entries[l].Symlink? {
        entries := entries - {l};
      }
      if !(l in entries && entries[l].Special?) {
        ghost var made := MakeParents(old(entries), l, 0).entries;
        entries := entries[l := Permissions(src)];
        assert entries == made[l := Permissions(src)];
      }
    }

    /** `copySyncSymlink`. */
    method CopySymbolicLink(l: Loc, src: Entry) returns (error: Option<string>)
      modifies this`entries
      ensures Step(entries, error) == CopySymlink(old(entries), l, src)
    {
      error := MakeParentDirs(l);
      if error.Some? {
        return;
      }
      if l in entries && entries[l].Dir? {
        return Some("cannot revert host path onto existing directory");
      }
      ghost var made := entries;
      if l in entries {
        entries := entries - {l};
      }
      entries := entries[l := src];
      assert entries == made[l := src];
    }

    /** `Copy`: write the scratch file, then rename it over the destination. */
    method UploadFile(l: Loc, src: Entry) returns (error: Option<string>)
      modifies this`entries
      ensures Step(entries, error) == Upload(old(entries), l, src)
    {
      error := MakeParentDirs(l);
      if error.Some? {
        return;
      }
      if l.path.comps == [] {
        return Some("failed to rename");
      }
      ghost var made := entries;
      var tmp := Scratch(l);
      if tmp in entries && (entries[tmp].Dir? || entries[tmp].Symlink?) {
        return Some("failed to create");
      }
      entries := entries[tmp := src];
      ScratchDiffers(l);
      if l in entries && entries[l].Dir? {
        return Some("failed to rename");
      }
      entries := (entries - {tmp})[l := src];
      assert entries == (made - {tmp})[l := src];
    }

    /** `applySyncRevertRemoteHostPath` and its local counterpart, after the checks
        on the bundle side. */
    method WriteEntry(site: Site, local: bool, l: Loc, src: Entry) returns (error: Option<string>)
      modifies this`entries
      ensures Step(entries, error) == Write(site, old(entries), local, l, src)
    {
      if local {
        if src.File? {
          error := CopyRegularFile(l, src);
        } else {
          error := CopySymbolicLink(l, src);
        }
      } else if src.File? {
        if TestsAsDirectory(site, entries, l) {
          return Some("cannot revert host path onto existing directory");
        }
        if l in entries && entries[l].Symlink? {
          entries := entries - {l};
        }
        error := UploadFile(l, src);
      } else {
        error := MakeParentDirs(l);
        if error.Some? {
          return;
        }
        if TestsAsDirectory(site, entries, l) {
          return Some("cannot revert host path onto existing directory");
        }
        ghost var made := entries;
        entries := entries - {l};
        entries := entries[l := src];
        assert entries == made[l := src];
      }
    }

    /** `applySyncRevertHostPath`. */
    method RevertHostPath(site: Site, repair: Repair, p: HostStatus) returns (error: Option<string>)
      modifies this`entries
      ensures Step(entries, error) == RevertOne(site, repair, old(entries), p)
    {
      if p.tracked.projection == Generated {
        var s := repair(entries, if Blank(p.host) then "localhost" else p.host);
        entries, error := s.entries, s.error;
        return;
      }
      var src := Source(site, p);
      if src.Err? {
        return Some(src.error);
      }
      error := WriteEntry(site, IsLocal(site, p.host), LocOf(site, p.host, p.tracked), src.value);
    }

    /** `syncRevertTargetsNeedRemoteHostAccess`. */
    static method TargetsNeedRemote(site: Site, ps: seq<HostStatus>) returns (needed: bool)
      ensures needed == NeedsRemote(site, ps)
    {
      for i := 0 to |ps|
        invariant forall k :: 0 <= k < i ==> IsLocal(site, ps[k].host)
      {
        if !IsLocal(site, ps[i].host) {
          return true;
        }
      }
      return false;
    }

    /** `applySyncRevertTargets`: the first error stops the run where it is. */
    method ApplyTargets(site: Site, repair: Repair, t: Targets) returns (error: Option<string>)
      modifies this
      ensures (World(entries, objects), error) == Apply(site, repair, World(old(entries), old(objects)), t)
    {
      var remote := TargetsNeedRemote(site, t.hostPaths);
      if remote && !site.hasExecutor {
        return Some("remote execution client");
      }
      for i := 0 to |t.hostPaths|
        invariant objects == old(objects)
        invariant RevertPaths(site, repair, entries, t.hostPaths[i..])
               == RevertPaths(site, repair, old(entries), t.hostPaths)
      {
        error := RevertHostPath(site, repair, t.hostPaths[i]);
        assert t.hostPaths[i..][0] == t.hostPaths[i] && t.hostPaths[i..][1..] == t.hostPaths[i + 1..];
        if error.Some? {
          return;
        }
      }
      for i := 0 to |t.objects|
        invariant Step(entries, None) == RevertPaths(site, repair, old(entries), t.hostPaths)
        invariant ApplyObjects(site, objects, t.objects[i..]) == ApplyObjects(site, old(objects), t.objects)
      {
        assert t.objects[i..][0] == t.objects[i] && t.objects[i..][1..] == t.objects[i + 1..];
        if t.objects[i].tracked.id in site.refused {
          return Some("apply desired object");
        }
        objects := objects[t.objects[i].tracked.id := Desired(site, t.objects[i].tracked)];
      }
      error := None;
    }
  }
}
