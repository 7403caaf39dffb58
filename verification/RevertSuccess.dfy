/** When a revert succeeds, told from the state before it, and what each way of
    writing then leaves. */
module RevertSuccess {
  import opened GoStrings
  import opened Paths
  import opened Revert
  import opened RevertApply
  import opened Staging
  import opened RevertTheorems
  import OwnedFields

  // ---------------------------------------------------------------- one write

  /** Every proper ancestor that exists is a directory. */
  ghost predicate ParentsOpen(w: Entries, l: Loc, n: nat) {
    forall k :: n <= k < |l.path.comps| ==> Above(l, k) in w ==> w[Above(l, k)].Dir?
  }

  lemma {:induction false} ParentsSucceed(w: Entries, l: Loc, n: nat)
    ensures MakeParents(w, l, n).error.None? <==> ParentsOpen(w, l, n)
    decreases |l.path.comps| - n
  {
    if n < |l.path.comps| {
      var here := Above(l, n);
      assert forall k :: 0 <= k < |l.path.comps| ==> |Above(l, k).path.comps| == k;
      var w2 := if here in w then w else w[here := Dir];
      ParentsSucceed(w2, l, n + 1);
      assert ParentsOpen(w2, l, n + 1) <==> ParentsOpen(w, l, n + 1);
    }
  }

  /** What stands at `q` once the parents of `l` were made. */
  function WithParents(w: Entries, l: Loc, q: Loc): Option<Entry> {
    if q in w then Some(w[q]) else if Under(l, q) then Some(Dir) else None
  }

  lemma ParentPlaces(l: Loc, q: Loc)
    ensures Under(l, q) <==> exists k :: 0 <= k < |l.path.comps| && q == Above(l, k)
  {
    if Under(l, q) {
      assert q == Above(l, |q.path.comps|);
    }
    forall k | 0 <= k < |l.path.comps|
      ensures Under(l, Above(l, k))
    {
      AboveIsUnder(l, k);
    }
  }

  lemma ParentsLeave(w: Entries, l: Loc, q: Loc)
    requires ParentsOpen(w, l, 0)
    ensures MakeParents(w, l, 0).error.None? && Get(MakeParents(w, l, 0).entries, q) == WithParents(w, l, q)
  {
    ParentsFine(w, l, 0);
    ParentPlaces(l, q);
  }

  ghost predicate IsDir(w: Entries, l: Loc) {
    l in w && w[l].Dir?
  }

  /** A local write, of a file or a link, succeeds exactly if the ancestors are
      directories and the place is not one. */
  lemma LocalSucceeds(w: Entries, l: Loc, src: Entry)
    ensures CopyRegular(w, l, src).error.None? <==> ParentsOpen(w, l, 0) && !IsDir(w, l)
    ensures CopySymlink(w, l, src).error.None? <==> ParentsOpen(w, l, 0) && !IsDir(w, l)
  {
    ParentsSucceed(w, l, 0);
    if ParentsOpen(w, l, 0) {
      ParentsLeave(w, l, l);
    }
  }

  ghost predicate LinkToDir(site: Site, w: Entries, l: Loc) {
    l in w && w[l].Symlink? && l in site.dirLinks
  }

  /** A remote link also needs the place not to be a link to a directory. */
  lemma RemoteLinkSucceeds(site: Site, w: Entries, l: Loc, src: Entry)
    ensures RemoteSymlink(site, w, l, src).error.None? <==>
      ParentsOpen(w, l, 0) && !IsDir(w, l) && !LinkToDir(site, w, l)
  {
    ParentsSucceed(w, l, 0);
    if ParentsOpen(w, l, 0) {
      ParentsLeave(w, l, l);
    }
  }

  /** No directory and no link stands under the scratch name. */
  ghost predicate ScratchOpen(w: Entries, l: Loc) {
    l.path.comps != [] && !(Scratch(l) in w && (w[Scratch(l)].Dir? || w[Scratch(l)].Symlink?))
  }

  lemma PlainUploadSucceeds(w: Entries, l: Loc, src: Entry)
    ensures Upload(w, l, src).error.None? <==> ParentsOpen(w, l, 0) && ScratchOpen(w, l) && !IsDir(w, l)
  {
    ParentsSucceed(w, l, 0);
    if ParentsOpen(w, l, 0) {
      ParentsLeave(w, l, l);
      ParentsLeave(w, l, Scratch(l));
      if l.path.comps != [] {
        ScratchDiffers(l);
      }
    }
  }

  /** An upload also needs its scratch name. */
  lemma UploadSucceeds(site: Site, w: Entries, l: Loc, src: Entry)
    requires src.File?
    ensures Write(site, w, false, l, src).error.None? <==>
      ParentsOpen(w, l, 0) && !IsDir(w, l) && !LinkToDir(site, w, l) && ScratchOpen(w, l)
  {
    var prepared := PrepareRemote(site, w, l);
    if prepared.error.None? {
      assert forall k :: 0 <= k < |l.path.comps| ==> |Above(l, k).path.comps| == k;
      if l.path.comps != [] {
        ScratchDiffers(l);
      }
      assert ParentsOpen(prepared.entries, l, 0) <==> ParentsOpen(w, l, 0);
      PlainUploadSucceeds(prepared.entries, l, src);
    }
  }

  /** The place can be written from here or over the network. */
  ghost predicate Writable(site: Site, w: Entries, local: bool, file: bool, l: Loc) {
    && ParentsOpen(w, l, 0) && !IsDir(w, l)
    && (!local ==> !LinkToDir(site, w, l))
    && (!local && file ==> ScratchOpen(w, l))
  }

  /** All four ways of writing. */
  lemma WriteSucceeds(site: Site, w: Entries, local: bool, l: Loc, src: Entry)
    ensures Write(site, w, local, l, src).error.None? <==> Writable(site, w, local, src.File?, l)
  {
    if local {
      LocalSucceeds(w, l, src);
    } else if src.File? {
      UploadSucceeds(site, w, l, src);
    } else {
      RemoteLinkSucceeds(site, w, l, src);
    }
  }

  // ------------------------------------------------------- what a write leaves

  /** What stands at `q` after a write that succeeds: the new entry (a special
      file stays when it is written to locally), nothing under an upload's scratch
      name, a directory for a missing parent, else what stood there. */
  function AfterWrite(w: Entries, local: bool, l: Loc, src: Entry, q: Loc): Option<Entry> {
    if q == l then
      if local && src.File? && l in w && w[l].Special? then Some(Special)
      else if local && src.File? then Some(src.(mode := src.mode % 512)) else Some(src)
    else if !local && src.File? && q == Scratch(l) then None
    else WithParents(w, l, q)
  }

  lemma LocalLeaves(w: Entries, l: Loc, src: Entry, q: Loc)
    requires ParentsOpen(w, l, 0) && !IsDir(w, l)
    ensures src.File? ==> Get(CopyRegular(w, l, src).entries, q) == AfterWrite(w, true, l, src, q)
    ensures !src.File? ==> Get(CopySymlink(w, l, src).entries, q) == AfterWrite(w, true, l, src, q)
  {
    ParentsLeave(w, l, q);
    ParentsLeave(w, l, l);
  }

  lemma UploadLeaves(site: Site, w: Entries, l: Loc, src: Entry, q: Loc)
    requires src.File? && Writable(site, w, false, true, l)
    ensures Get(Write(site, w, false, l, src).entries, q) == AfterWrite(w, false, l, src, q)
  {
    var prepared := PrepareRemote(site, w, l).entries;
    ScratchDiffers(l);
    assert forall k :: 0 <= k < |l.path.comps| ==> |Above(l, k).path.comps| == k;
    UploadSucceeds(site, w, l, src);
    assert ParentsOpen(prepared, l, 0);
    ParentsLeave(prepared, l, q);
    ParentsLeave(prepared, l, l);
    ParentsLeave(prepared, l, Scratch(l));
  }

  lemma RemoteLinkLeaves(site: Site, w: Entries, l: Loc, src: Entry, q: Loc)
    requires !src.File? && Writable(site, w, false, false, l)
    ensures Get(RemoteSymlink(site, w, l, src).entries, q) == AfterWrite(w, false, l, src, q)
  {
    ParentsLeave(w, l, q);
    ParentsLeave(w, l, l);
  }

  lemma WriteLeaves(site: Site, w: Entries, local: bool, l: Loc, src: Entry, q: Loc)
    requires Writable(site, w, local, src.File?, l)
    ensures Get(Write(site, w, local, l, src).entries, q) == AfterWrite(w, local, l, src, q)
  {
    if local {
      LocalLeaves(w, l, src, q);
    } else if src.File? {
      UploadLeaves(site, w, l, src, q);
    } else {
      RemoteLinkLeaves(site, w, l, src, q);
    }
  }

  // ------------------------------------------------------------------ one step

  ghost predicate TargetWritable(site: Site, w: Entries, p: HostStatus) {
    Writable(site, w, IsLocal(site, p.host), p.tracked.fileType == RegularFile, Dest(site, p))
  }

  /** The bundle entry of a target is usable: its path resolves inside the bundle
      to an entry of the tracked type, a local path is absolute, and a remote host
      can be reached. */
  ghost predicate Sourced(site: Site, p: HostStatus) {
    var desired := DesiredEntry(site, p.host, p.tracked);
    && (if IsLocal(site, p.host) then IsAbs(p.tracked.hostPath) else site.hasExecutor)
    && desired.Ok?
    && ((p.tracked.fileType == RegularFile && desired.value.File?)
        || (p.tracked.fileType == SymlinkType && desired.value.Symlink?))
  }

  lemma SourceExact(site: Site, p: HostStatus)
    ensures Source(site, p).Ok? <==> Sourced(site, p)
    ensures Source(site, p).Ok? ==> (Source(site, p).value.File? <==> p.tracked.fileType == RegularFile)
  {
    CheckedExact(DesiredEntry(site, p.host, p.tracked), IsLocal(site, p.host), site.hasExecutor, p.tracked);
  }

  lemma CheckedExact(desired: Result<Entry>, local: bool, reachable: bool, t: Tracked)
    ensures Checked(desired, local, reachable, t).Ok? <==>
      && (if local then IsAbs(t.hostPath) else reachable) && desired.Ok?
      && ((t.fileType == RegularFile && desired.value.File?) || (t.fileType == SymlinkType && desired.value.Symlink?))
    ensures Checked(desired, local, reachable, t).Ok? ==>
      (Checked(desired, local, reachable, t).value.File? <==> t.fileType == RegularFile)
  {
  }

  /** One copied target succeeds exactly if its bundle entry is usable and its
      place can be written. */
  lemma StepSucceeds(site: Site, repair: Repair, w: Entries, p: HostStatus)
    requires p.tracked.projection == Direct
    ensures RevertOne(site, repair, w, p).error.None? <==> Sourced(site, p) && TargetWritable(site, w, p)
  {
    SourceExact(site, p);
    if Source(site, p).Ok? {
      WriteSucceeds(site, w, IsLocal(site, p.host), Dest(site, p), Source(site, p).value);
    }
  }

  // ------------------------------------------------------------------- a run

  /** A run succeeds exactly if every step does in the state the steps before it
      left. */
  lemma {:induction false} RunStepwise(site: Site, repair: Repair, w: Entries, ps: seq<HostStatus>)
    ensures RevertPaths(site, repair, w, ps).error.None? <==>
      forall i :: 0 <= i < |ps| ==> StepAt(site, repair, w, ps, i).error.None?
    decreases |ps|
  {
    if ps != [] {
      var n := |ps| - 1;
      var init := ps[..n];
      RunStepwise(site, repair, w, init);
      RunSnoc(site, repair, w, init, ps[n]);
      assert ps == init + [ps[n]];
      forall i | 0 <= i < n
        ensures StepAt(site, repair, w, init, i) == StepAt(site, repair, w, ps, i)
      {
        assert init[..i] == ps[..i] && init[i] == ps[i];
      }
      assert StepAt(site, repair, w, ps, n) ==
             RevertOne(site, repair, RevertPaths(site, repair, w, init).entries, ps[n]);
      if RevertPaths(site, repair, w, init).error.Some? {
        var i :| 0 <= i < |init| && StepAt(site, repair, w, init, i).error.Some?;
        assert StepAt(site, repair, w, ps, i).error.Some?;
      }
    }
  }

  /** Step `i` of a run, after the steps before it. */
  function StepAt(site: Site, repair: Repair, w: Entries, ps: seq<HostStatus>, i: int): Step
    requires 0 <= i < |ps|
  {
    RevertOne(site, repair, RevertPaths(site, repair, w, ps[..i]).entries, ps[i])
  }

  lemma {:induction false} RunSnoc(site: Site, repair: Repair, w: Entries, ps: seq<HostStatus>, p: HostStatus)
    ensures RevertPaths(site, repair, w, ps + [p])
         == if RevertPaths(site, repair, w, ps).error.Some? then RevertPaths(site, repair, w, ps)
            else RevertOne(site, repair, RevertPaths(site, repair, w, ps).entries, p)
    decreases |ps|
  {
    if ps == [] {
      assert [p][1..] == [];
      assert ps + [p] == [p];
      RunOne(site, repair, w, p);
    } else {
      assert (ps + [p])[0] == ps[0] && (ps + [p])[1..] == ps[1..] + [p];
      var s := RevertOne(site, repair, w, ps[0]);
      if s.error.None? {
        RunSnoc(site, repair, s.entries, ps[1..], p);
      }
    }
  }

  lemma RunOne(site: Site, repair: Repair, w: Entries, p: HostStatus)
    ensures RevertPaths(site, repair, w, [p]) == RevertOne(site, repair, w, p)
  {
    assert [p][1..] == [];
    var s := RevertOne(site, repair, w, p);
    assert s.error.None? ==> s == Step(s.entries, None);
  }

  predicate Uploads(site: Site, p: HostStatus) {
    !IsLocal(site, p.host) && p.tracked.fileType == RegularFile
  }

  /** `t` does not get in the way of `p`: their places differ and neither lies
      under the other, nor does a scratch name. */
  ghost predicate Clear(site: Site, t: HostStatus, p: HostStatus) {
    var d, l := Dest(site, t), Dest(site, p);
    && d != l && !Under(d, l) && !Under(l, d)
    && (Uploads(site, t) ==> Scratch(d) != l && !Under(l, Scratch(d)))
    && (Uploads(site, p) ==> Scratch(l) != d && !Under(d, Scratch(l)))
  }

  /** The copied targets keep clear of each other. */
  ghost predicate AllClear(site: Site, ps: seq<HostStatus>) {
    forall i, j :: 0 <= i < |ps| && 0 <= j < |ps| && i != j
                   && ps[i].tracked.projection == Direct && ps[j].tracked.projection == Direct ==>
      Clear(site, ps[i], ps[j])
  }

  /** The place of a target, its ancestors and its scratch name. */
  predicate Near(site: Site, p: HostStatus, q: Loc) {
    q == Dest(site, p) || Under(Dest(site, p), q) || q == Scratch(Dest(site, p))
  }

  /** Repair of generated files goes through and leaves alone what is near a copied
      target. */
  ghost predicate QuietRepair(site: Site, repair: Repair, ps: seq<HostStatus>) {
    forall w: Entries, h: string :: repair(w, h).error.None? &&
      forall i, q :: 0 <= i < |ps| && ps[i].tracked.projection == Direct && Near(site, ps[i], q) ==>
        Get(repair(w, h).entries, q) == Get(w, q)
  }

  lemma ScratchInjective(a: Loc, b: Loc)
    requires Scratch(a) == Scratch(b) && a.path.comps != [] && b.path.comps != []
    ensures a == b
  {
    var c, d := a.path.comps, b.path.comps;
    var x, y := c[|c| - 1], d[|d| - 1];
    assert Scratch(a).path.comps[|c| - 1] == x + ".tmp" && Scratch(b).path.comps[|d| - 1] == y + ".tmp";
    assert |Scratch(a).path.comps| == |c| && |Scratch(b).path.comps| == |d|;
    assert (x + ".tmp")[..|x|] == x && (y + ".tmp")[..|y|] == y;
    assert Scratch(a).path.comps[..|c| - 1] == c[..|c| - 1] && Scratch(b).path.comps[..|d| - 1] == d[..|d| - 1];
    assert c == c[..|c| - 1] + [x] && d == d[..|d| - 1] + [y];
  }

  lemma StaysOpen(site: Site, w: Entries, local: bool, d: Loc, src: Entry, l: Loc, w2: Entries)
    requires Writable(site, w, local, src.File?, d) && w2 == Write(site, w, local, d, src).entries
    requires !Under(l, d) && (!local && src.File? ==> !Under(l, Scratch(d)))
    ensures ParentsOpen(w2, l, 0) <==> ParentsOpen(w, l, 0)
  {
    forall k | 0 <= k < |l.path.comps|
      ensures (Above(l, k) in w2 ==> w2[Above(l, k)].Dir?) <==> (Above(l, k) in w ==> w[Above(l, k)].Dir?)
    {
      AboveIsUnder(l, k);
      WriteLeaves(site, w, local, d, src, Above(l, k));
    }
  }

  /** A write, seen from a place it keeps clear of. */
  lemma PlaceStays(site: Site, w: Entries, local: bool, d: Loc, src: Entry, w2: Entries, here: bool, file: bool, l: Loc)
    requires Writable(site, w, local, src.File?, d) && w2 == Write(site, w, local, d, src).entries
    requires d != l && !Under(d, l) && !Under(l, d)
    requires !local && src.File? ==> Scratch(d) != l && !Under(l, Scratch(d))
    requires !here && file ==> Scratch(l) != d && !Under(d, Scratch(l))
    ensures Writable(site, w2, here, file, l) <==> Writable(site, w, here, file, l)
  {
    WriteLeaves(site, w, local, d, src, l);
    StaysOpen(site, w, local, d, src, l, w2);
    assert Get(w2, l) == Get(w, l);
    if !here && file && l.path.comps != [] {
      ScratchStays(site, w, local, d, src, w2, l);
    }
  }

  lemma ScratchStays(site: Site, w: Entries, local: bool, d: Loc, src: Entry, w2: Entries, l: Loc)
    requires Writable(site, w, local, src.File?, d) && w2 == Write(site, w, local, d, src).entries
    requires d != l && l.path.comps != [] && Scratch(l) != d && !Under(d, Scratch(l))
    ensures ScratchOpen(w2, l) <==> ScratchOpen(w, l)
  {
    WriteLeaves(site, w, local, d, src, Scratch(l));
    if !local && src.File? && Scratch(d) == Scratch(l) {
      ScratchInjective(d, l);
    }
  }

  lemma StepWrites(site: Site, repair: Repair, w: Entries, t: HostStatus)
    requires t.tracked.projection == Direct && RevertOne(site, repair, w, t).error.None?
    ensures Source(site, t).Ok? && (Source(site, t).value.File? <==> t.tracked.fileType == RegularFile)
    ensures TargetWritable(site, w, t)
    ensures RevertOne(site, repair, w, t).entries
         == Write(site, w, IsLocal(site, t.host), Dest(site, t), Source(site, t).value).entries
  {
    StepSucceeds(site, repair, w, t);
    SourceExact(site, t);
  }

  /** A step that succeeds leaves a clear target as writable as it was. */
  lemma StaysWritable(site: Site, repair: Repair, w: Entries, t: HostStatus, p: HostStatus)
    requires t.tracked.projection == Direct && Clear(site, t, p)
    requires RevertOne(site, repair, w, t).error.None?
    ensures TargetWritable(site, RevertOne(site, repair, w, t).entries, p) <==> TargetWritable(site, w, p)
  {
    StepWrites(site, repair, w, t);
    PlaceStays(site, w, IsLocal(site, t.host), Dest(site, t), Source(site, t).value,
               RevertOne(site, repair, w, t).entries,
               IsLocal(site, p.host), p.tracked.fileType == RegularFile, Dest(site, p));
  }

  lemma NearSame(site: Site, w: Entries, w2: Entries, p: HostStatus)
    requires forall q :: Near(site, p, q) ==> Get(w2, q) == Get(w, q)
    ensures TargetWritable(site, w2, p) <==> TargetWritable(site, w, p)
  {
    var l := Dest(site, p);
    forall k | 0 <= k < |l.path.comps|
      ensures Get(w2, Above(l, k)) == Get(w, Above(l, k))
    {
      AboveIsUnder(l, k);
    }
    assert Get(w2, l) == Get(w, l) && Get(w2, Scratch(l)) == Get(w, Scratch(l));
  }

  /** A copied target that a run can write. */
  ghost predicate Ready(site: Site, w: Entries, p: HostStatus) {
    p.tracked.projection == Direct ==> Sourced(site, p) && TargetWritable(site, w, p)
  }

  ghost predicate Each<T>(s: seq<T>, f: T -> bool) {
    forall i :: 0 <= i < |s| ==> f(s[i])
  }

  lemma EachSame<T>(s: seq<T>, f: T -> bool, g: T -> bool)
    requires forall i :: 0 <= i < |s| ==> f(s[i]) == g(s[i])
    ensures Each(s, f) <==> Each(s, g)
  {
  }

  lemma RestSame<T>(s: seq<T>, f: T -> bool, g: T -> bool)
    requires s != [] && forall i :: 1 <= i < |s| ==> f(s[i]) == g(s[i])
    ensures Each(s[1..], f) <==> Each(s[1..], g)
  {
    assert forall i :: 0 <= i < |s[1..]| ==> s[1..][i] == s[i + 1];
    EachSame(s[1..], f, g);
  }

  lemma EachCons<T>(s: seq<T>, f: T -> bool)
    requires s != []
    ensures Each(s, f) <==> f(s[0]) && Each(s[1..], f)
  {
    assert forall i :: 0 <= i < |s[1..]| ==> s[1..][i] == s[i + 1];
    assert forall i :: 1 <= i < |s| ==> s[i] == s[1..][i - 1];
  }

  ghost function ReadyIn(site: Site, w: Entries): HostStatus -> bool {
    (p: HostStatus) => Ready(site, w, p)
  }

  ghost predicate AllReady(site: Site, w: Entries, ps: seq<HostStatus>) {
    Each(ps, ReadyIn(site, w))
  }

  /** Either every target is copied, or repair is quiet. */
  ghost predicate Undisturbed(site: Site, repair: Repair, ps: seq<HostStatus>) {
    (forall i :: 0 <= i < |ps| ==> ps[i].tracked.projection == Direct) || QuietRepair(site, repair, ps)
  }

  lemma StepStays(site: Site, repair: Repair, w: Entries, ps: seq<HostStatus>, i: nat)
    requires 1 <= i < |ps| && AllClear(site, ps) && Undisturbed(site, repair, ps)
    requires RevertOne(site, repair, w, ps[0]).error.None?
    ensures ReadyIn(site, RevertOne(site, repair, w, ps[0]).entries)(ps[i]) == ReadyIn(site, w)(ps[i])
  {
    if ps[i].tracked.projection == Direct {
      if ps[0].tracked.projection == Direct {
        StaysWritable(site, repair, w, ps[0], ps[i]);
      } else {
        NearSame(site, w, RevertOne(site, repair, w, ps[0]).entries, ps[i]);
      }
    }
  }

  lemma FirstSucceeds(site: Site, repair: Repair, w: Entries, ps: seq<HostStatus>)
    requires ps != [] && Undisturbed(site, repair, ps)
    ensures RevertOne(site, repair, w, ps[0]).error.None? <==> Ready(site, w, ps[0])
  {
    if ps[0].tracked.projection == Direct {
      StepSucceeds(site, repair, w, ps[0]);
    }
  }

  lemma RestUndisturbed(site: Site, repair: Repair, ps: seq<HostStatus>)
    requires ps != [] && AllClear(site, ps) && Undisturbed(site, repair, ps)
    ensures AllClear(site, ps[1..]) && Undisturbed(site, repair, ps[1..])
  {
    var rest := ps[1..];
    assert forall i :: 0 <= i < |rest| ==> rest[i] == ps[i + 1];
  }

  lemma RestStays(site: Site, repair: Repair, w: Entries, ps: seq<HostStatus>)
    requires ps != [] && AllClear(site, ps) && Undisturbed(site, repair, ps)
    requires RevertOne(site, repair, w, ps[0]).error.None?
    ensures AllReady(site, RevertOne(site, repair, w, ps[0]).entries, ps[1..]) <==> AllReady(site, w, ps[1..])
  {
    var f, g := ReadyIn(site, RevertOne(site, repair, w, ps[0]).entries), ReadyIn(site, w);
    forall i | 1 <= i < |ps|
      ensures f(ps[i]) == g(ps[i])
    {
      StepStays(site, repair, w, ps, i);
    }
    RestSame(ps, f, g);
  }

  lemma RunCons(site: Site, repair: Repair, w: Entries, ps: seq<HostStatus>)
    requires ps != []
    ensures var s := RevertOne(site, repair, w, ps[0]);
      RevertPaths(site, repair, w, ps).error.None? <==>
      s.error.None? && RevertPaths(site, repair, s.entries, ps[1..]).error.None?
  {
  }

  /** A run whose copied targets keep clear of each other, undisturbed by repair,
      succeeds exactly if each of them has its bundle entry and a place that could
      be written from the start. */
  lemma {:induction false} ClearRunSucceeds(site: Site, repair: Repair, w: Entries, ps: seq<HostStatus>)
    requires AllClear(site, ps) && Undisturbed(site, repair, ps)
    ensures RevertPaths(site, repair, w, ps).error.None? <==> AllReady(site, w, ps)
    decreases |ps|
  {
    if ps != [] {
      RunCons(site, repair, w, ps);
      FirstSucceeds(site, repair, w, ps);
      EachCons(ps, ReadyIn(site, w));
      if RevertOne(site, repair, w, ps[0]).error.None? {
        RestUndisturbed(site, repair, ps);
        RestStays(site, repair, w, ps);
        ClearRunSucceeds(site, repair, RevertOne(site, repair, w, ps[0]).entries, ps[1..]);
      }
    }
  }

  lemma {:induction false} WantedSucceed(refused: set<ObjectId>, want: TrackedObject -> OwnedFields.Value,
                                         w: map<ObjectId, OwnedFields.Value>, os: seq<ObjectStatus>)
    ensures SetObjects(refused, want, w, os).error.None? <==> forall o :: o in os ==> o.tracked.id !in refused
    decreases |os|
  {
    if os != [] {
      assert forall o :: o in os <==> o == os[0] || o in os[1..];
      WantedSucceed(refused, want, w[os[0].tracked.id := want(os[0].tracked)], os[1..]);
    }
  }

  /** Applying a plan succeeds exactly if remote hosts can be reached when one is
      needed, the run over its paths succeeds, and no object is refused. */
  lemma ApplySucceeds(site: Site, repair: Repair, w: World, t: Targets)
    ensures Apply(site, repair, w, t).1.None? <==>
      && ((exists i :: 0 <= i < |t.hostPaths| && !IsLocal(site, t.hostPaths[i].host)) ==> site.hasExecutor)
      && RevertPaths(site, repair, w.entries, t.hostPaths).error.None?
      && forall o :: o in t.objects ==> o.tracked.id !in site.refused
  {
    WantedSucceed(site.refused, (o: TrackedObject) => Desired(site, o), w.objects, t.objects);
  }

  // -------------------------------------------- a drifted link is put right

  /** A local link that points elsewhere: reverting it succeeds and leaves the
      bundle's link. */
  lemma LinkPutRight(site: Site, repair: Repair, w: Entries, p: HostStatus, was: string, target: string)
    requires p.tracked.projection == Direct && p.tracked.fileType == SymlinkType && IsLocal(site, p.host)
    requires IsAbs(p.tracked.hostPath) && DesiredEntry(site, p.host, p.tracked) == Ok(Symlink(target))
    requires Get(w, Dest(site, p)) == Some(Symlink(was)) && ParentsOpen(w, Dest(site, p), 0)
    ensures var s := RevertOne(site, repair, w, p);
            s.error.None? && Get(s.entries, Dest(site, p)) == Some(Symlink(target))
  {
    StepSucceeds(site, repair, w, p);
    SourceExact(site, p);
    SourceIsDesired(site, p);
    WriteLeaves(site, w, true, Dest(site, p), Symlink(target), Dest(site, p));
  }
}
