/** What a revert achieves: afterwards the comparison finds the rewritten entries
    clean, nothing else moved, and planning again finds nothing left to do. */
module RevertTheorems {
  import opened GoStrings
  import opened Paths
  import opened Revert
  import opened RevertApply
  import opened Staging
  import opened Comparison
  import DesiredObjects
  import OwnedFields

  function Dest(site: Site, p: HostStatus): Loc {
    LocOf(site, p.host, p.tracked)
  }

  /** Repair of generated files leaves the copied paths alone. */
  ghost predicate Confined(repair: Repair, keep: set<Loc>) {
    forall w: Entries, h: string, l: Loc :: l in keep ==>
      (l in repair(w, h).entries <==> l in w) && (l in w ==> repair(w, h).entries[l] == w[l])
  }

  /** Two tracked entries at one place want the same thing there. */
  ghost predicate Consistent(site: Site, ps: seq<HostStatus>) {
    forall p, q :: p in ps && q in ps && p.tracked.projection == Direct && q.tracked.projection == Direct
                   && Dest(site, p) == Dest(site, q) ==>
      && DesiredEntry(site, p.host, p.tracked) == DesiredEntry(site, q.host, q.tracked)
      && p.tracked.fileType == q.tracked.fileType
  }

  /** The statuses of a comparison, made with temporary trees below `root`, are
      those of tracked entries. */
  ghost predicate ComparedWith(site: Site, root: string, w: World, c: Compared) {
    && (forall p :: p in c.hostPaths ==> FromTracked(site, root, w.entries, p))
    && (forall o :: o in c.objects ==>
          CompareObject(site, w, o.tracked) == o)
    && DistinctIds(c.objects)
  }

  /** Every remote host of the comparison can be staged. */
  ghost predicate AllStageable(site: Site, c: Compared) {
    forall p :: p in c.hostPaths && !IsLocal(site, p.host) ==> Stageable(site, p.host)
  }

  function Places(site: Site, ps: seq<HostStatus>): (r: set<Loc>)
    ensures forall p :: p in ps && p.tracked.projection == Direct ==> Dest(site, p) in r
  {
    set p | p in ps && p.tracked.projection == Direct :: Dest(site, p)
  }

  // ------------------------------------------------- what a run does to a place

  /** The target is written to this place. */
  predicate Hits(site: Site, t: HostStatus, l: Loc) {
    t.tracked.projection == Direct && Dest(site, t) == l
  }

  /** The target is uploaded with this place as scratch name. */
  predicate Scratches(site: Site, t: HostStatus, l: Loc) {
    && t.tracked.projection == Direct && !IsLocal(site, t.host) && t.tracked.fileType == RegularFile
    && Scratch(Dest(site, t)) == l && Dest(site, t) != l
  }

  /** What the last target that touches a place does to it. */
  datatype Fate = Untouched | Written | Removed

  function FateIn(site: Site, ps: seq<HostStatus>, l: Loc): Fate
    decreases |ps|
  {
    if ps == [] then Untouched
    else
      var later := FateIn(site, ps[1..], l);
      if later != Untouched then later
      else if Hits(site, ps[0], l) then Written
      else if Scratches(site, ps[0], l) then Removed
      else Untouched
  }

  /** Some item passes the first test, and none after it the second. */
  ghost predicate Last<T(!new)>(s: seq<T>, first: T -> bool, second: T -> bool) {
    exists j :: 0 <= j < |s| && first(s[j]) && forall k :: j < k < |s| ==> !second(s[k])
  }

  lemma LastCons<T(!new)>(s: seq<T>, first: T -> bool, second: T -> bool)
    requires s != []
    ensures Last(s, first, second) <==>
            Last(s[1..], first, second) || (first(s[0]) && forall x :: x in s[1..] ==> !second(x))
  {
    var rest := s[1..];
    assert forall k :: 0 <= k < |rest| ==> rest[k] == s[k + 1];
    assert forall k :: 1 <= k < |s| ==> s[k] == rest[k - 1] && s[k] in rest;
    if j :| 0 <= j < |s| && first(s[j]) && forall k :: j < k < |s| ==> !second(s[k]) {
      if j > 0 {
        assert first(rest[j - 1]);
      }
    }
    if j :| 0 <= j < |rest| && first(rest[j]) && forall k :: j < k < |rest| ==> !second(rest[k]) {
      assert first(s[j + 1]);
    }
  }

  /** Some upload has the place as scratch name, and nothing is written to the
      place from then on. */
  ghost predicate Lost(site: Site, ps: seq<HostStatus>, l: Loc) {
    Last(ps, (t: HostStatus) => Scratches(site, t, l), (t: HostStatus) => Hits(site, t, l))
  }

  /** A place that ends up removed is lost; one left alone is touched by none. */
  lemma {:induction false} FateExact(site: Site, ps: seq<HostStatus>, l: Loc)
    ensures FateIn(site, ps, l) == Removed <==> Lost(site, ps, l)
    ensures FateIn(site, ps, l) == Untouched ==>
              forall t :: t in ps ==> !Hits(site, t, l) && !Scratches(site, t, l)
    ensures FateIn(site, ps, l) == Written ==> exists t :: t in ps && Hits(site, t, l)
    decreases |ps|
  {
    if ps != [] {
      FateExact(site, ps[1..], l);
      LastCons(ps, (t: HostStatus) => Scratches(site, t, l), (t: HostStatus) => Hits(site, t, l));
      assert ps[0] in ps && forall t :: t in ps ==> t == ps[0] || t in ps[1..];
    }
  }

  /** The place is a parent of another. */
  predicate Under(d: Loc, l: Loc) {
    d.machine == l.machine && d.path.rooted == l.path.rooted && |l.path.comps| < |d.path.comps|
    && d.path.comps[..|l.path.comps|] == l.path.comps
  }

  lemma AboveIsUnder(d: Loc, k: nat)
    requires k < |d.path.comps|
    ensures Under(d, Above(d, k)) && Above(d, k) != d
  {
    assert |Above(d, k).path.comps| == k;
  }

  lemma CopiedFate(w: Entries, d: Loc, src: Entry, l: Loc)
    ensures var s := CopyRegular(w, d, src); s.error.None? && l != d && !Under(d, l) && l !in w ==> l !in s.entries
    ensures var s := CopySymlink(w, d, src); s.error.None? && l != d && !Under(d, l) && l !in w ==> l !in s.entries
  {
    MadeIsParent(w, d, 0);
    forall k | 0 <= k < |d.path.comps|
      ensures Under(d, Above(d, k))
    {
      AboveIsUnder(d, k);
    }
  }

  lemma UploadedFate(site: Site, w: Entries, d: Loc, src: Entry, l: Loc)
    requires src.File? && Write(site, w, false, d, src).error.None? && l != d
    ensures var w2 := Write(site, w, false, d, src).entries;
      && (l == Scratch(d) ==> l !in w2)
      && (!Under(d, l) && l !in w ==> l !in w2)
  {
    var prepared := PrepareRemote(site, w, d).entries;
    MadeIsParent(prepared, d, 0);
    forall k | 0 <= k < |d.path.comps|
      ensures Under(d, Above(d, k))
    {
      AboveIsUnder(d, k);
    }
  }

  lemma LinkedFate(site: Site, w: Entries, d: Loc, src: Entry, l: Loc)
    requires RemoteSymlink(site, w, d, src).error.None? && l != d && !Under(d, l) && l !in w
    ensures l !in RemoteSymlink(site, w, d, src).entries
  {
    MadeIsParent(w, d, 0);
    forall k | 0 <= k < |d.path.comps|
      ensures Under(d, Above(d, k))
    {
      AboveIsUnder(d, k);
    }
  }

  lemma WrittenFate(site: Site, w: Entries, local: bool, d: Loc, src: Entry, l: Loc)
    requires (src.File? || src.Symlink?) && Write(site, w, local, d, src).error.None? && l != d
    ensures var w2 := Write(site, w, local, d, src).entries;
      && (!local && src.File? && l == Scratch(d) ==> l !in w2)
      && (!Under(d, l) && l !in w ==> l !in w2)
      && ((local || !src.File? || l != Scratch(d)) && l in w ==> l in w2 && w2[l] == w[l])
  {
    if local {
      LocalFrame(w, d, src);
      CopiedFate(w, d, src, l);
    } else if src.File? {
      WriteFrame(site, w, false, d, src);
      UploadedFate(site, w, d, src, l);
    } else {
      RemoteSymlinkFrame(site, w, d, src);
      if !Under(d, l) && l !in w {
        LinkedFate(site, w, d, src, l);
      }
    }
  }

  /** One step, seen from a place. */
  lemma StepFate(site: Site, repair: Repair, w: Entries, t: HostStatus, keep: set<Loc>, l: Loc)
    requires Confined(repair, keep) && l in keep && Ordinary(w, l)
    requires RevertOne(site, repair, w, t).error.None?
    ensures var w2 := RevertOne(site, repair, w, t).entries;
      && Ordinary(w2, l)
      && (Hits(site, t, l) ==>
            Source(site, t).Ok? && l in w2 && w2[l] == Placed(IsLocal(site, t.host), Source(site, t).value))
      && (Scratches(site, t, l) ==> l !in w2)
      && (!Hits(site, t, l) && !Scratches(site, t, l) && l in w ==> l in w2 && w2[l] == w[l])
      && (!Hits(site, t, l) && !(t.tracked.projection == Direct && Under(Dest(site, t), l)) && l !in w ==> l !in w2)
  {
    OtherTarget(site, repair, w, t, keep, l);
    if t.tracked.projection == Direct {
      SourceIsDesired(site, t);
      var local, d, src := IsLocal(site, t.host), Dest(site, t), Source(site, t).value;
      if d == l {
        WriteWrites(site, w, local, d, src);
      } else {
        WrittenFate(site, w, local, d, src, l);
      }
    }
  }

  /** Every target written to the place would leave this entry there. */
  ghost predicate Agreed(site: Site, ps: seq<HostStatus>, l: Loc, e: Entry) {
    forall t :: t in ps && Hits(site, t, l) && Source(site, t).Ok? ==>
      Placed(IsLocal(site, t.host), Source(site, t).value) == e
  }

  /** No target lies under the place. */
  ghost predicate NoneUnder(site: Site, ps: seq<HostStatus>, l: Loc) {
    forall t :: t in ps && t.tracked.projection == Direct ==> !Under(Dest(site, t), l)
  }

  /** A run that succeeds, seen from a place: the last target that touches it
      decides. */
  lemma {:induction false} RunFate(site: Site, repair: Repair, w: Entries, ps: seq<HostStatus>, keep: set<Loc>,
                                   l: Loc, e: Entry)
    requires RevertPaths(site, repair, w, ps).error.None? && Confined(repair, keep) && l in keep
    requires Ordinary(w, l) && Agreed(site, ps, l, e)
    ensures var w2, f := RevertPaths(site, repair, w, ps).entries, FateIn(site, ps, l);
      && (f == Written ==> l in w2 && w2[l] == e)
      && (f == Untouched && l in w ==> l in w2 && w2[l] == w[l])
      && (NoneUnder(site, ps, l) && (f == Removed || (f == Untouched && l !in w)) ==> l !in w2)
    decreases |ps|
  {
    if ps != [] {
      var t, rest := ps[0], ps[1..];
      var s := RevertOne(site, repair, w, t);
      assert t in ps;
      StepFate(site, repair, w, t, keep, l);
      RunFate(site, repair, s.entries, rest, keep, l, e);
      assert NoneUnder(site, ps, l) ==>
        NoneUnder(site, rest, l) && !(t.tracked.projection == Direct && Under(Dest(site, t), l));
    }
  }

  ghost predicate Ordinary(w: Entries, l: Loc) {
    l in w ==> !w[l].Special?
  }

  /** Nothing a write adds or changes is special. */
  lemma OrdinaryLocal(w: Entries, d: Loc, src: Entry, l: Loc)
    requires Ordinary(w, l) && (src.File? || src.Symlink?)
    ensures Ordinary(CopyRegular(w, d, src).entries, l) && Ordinary(CopySymlink(w, d, src).entries, l)
  {
    MakeParentsFrame(w, d, 0);
  }

  lemma OrdinaryUpload(w: Entries, d: Loc, src: Entry, l: Loc)
    requires Ordinary(w, l) && (src.File? || src.Symlink?)
    ensures Ordinary(Upload(w, d, src).entries, l)
  {
    MakeParentsFrame(w, d, 0);
  }

  lemma OrdinaryRemoteSymlink(site: Site, w: Entries, d: Loc, src: Entry, l: Loc)
    requires Ordinary(w, l) && (src.File? || src.Symlink?)
    ensures Ordinary(RemoteSymlink(site, w, d, src).entries, l)
  {
    MakeParentsFrame(w, d, 0);
  }

  lemma StepOrdinary(site: Site, w: Entries, local: bool, d: Loc, src: Entry, l: Loc)
    requires Ordinary(w, l) && (src.File? || src.Symlink?)
    ensures Ordinary(Write(site, w, local, d, src).entries, l)
  {
    if local {
      OrdinaryLocal(w, d, src, l);
    } else if src.File? {
      assert Ordinary(PrepareRemote(site, w, d).entries, l);
      OrdinaryUpload(PrepareRemote(site, w, d).entries, d, src, l);
    } else {
      OrdinaryRemoteSymlink(site, w, d, src, l);
    }
  }

  lemma CheckedIsDesired(desired: Result<Entry>, local: bool, reachable: bool, t: Tracked)
    ensures var src := Checked(desired, local, reachable, t);
      src.Ok? ==> src == desired && (src.value.File? || src.value.Symlink?)
                  && (src.value.File? <==> t.fileType == RegularFile)
  {
  }

  lemma SourceIsDesired(site: Site, p: HostStatus)
    ensures Source(site, p).Ok? ==>
      && Source(site, p) == DesiredEntry(site, p.host, p.tracked)
      && (Source(site, p).value.File? || Source(site, p).value.Symlink?)
      && (Source(site, p).value.File? <==> p.tracked.fileType == RegularFile)
  {
    CheckedIsDesired(DesiredEntry(site, p.host, p.tracked), IsLocal(site, p.host), site.hasExecutor, p.tracked);
  }

  /** A step for another target leaves the place ordinary. */
  lemma OtherTarget(site: Site, repair: Repair, w: Entries, t: HostStatus, keep: set<Loc>, l: Loc)
    requires Confined(repair, keep) && l in keep && Ordinary(w, l)
    requires RevertOne(site, repair, w, t).error.None?
    ensures Ordinary(RevertOne(site, repair, w, t).entries, l)
  {
    if t.tracked.projection == Direct {
      SourceIsDesired(site, t);
      StepOrdinary(site, w, IsLocal(site, t.host), Dest(site, t), Source(site, t).value, l);
    }
  }

  /** Every copied target of a run that succeeds ends up holding its bundle entry,
      unless a later upload has it as scratch name. */
  lemma TargetWritten(site: Site, repair: Repair, w: Entries, ps: seq<HostStatus>, keep: set<Loc>, p: HostStatus)
    requires RevertPaths(site, repair, w, ps).error.None? && Confined(repair, keep) && Consistent(site, ps)
    requires p in ps && p.tracked.projection == Direct && Dest(site, p) in keep && Ordinary(w, Dest(site, p))
    requires !Lost(site, ps, Dest(site, p))
    ensures var w2 := RevertPaths(site, repair, w, ps).entries;
            && Source(site, p).Ok?
            && Dest(site, p) in w2 && w2[Dest(site, p)] == Placed(IsLocal(site, p.host), Source(site, p).value)
  {
    TargetSource(site, repair, w, ps, p);
    FateExact(site, ps, Dest(site, p));
    var e := Placed(IsLocal(site, p.host), Source(site, p).value);
    ConsistentAgreed(site, ps, p, e);
    RunFate(site, repair, w, ps, keep, Dest(site, p), e);
  }

  /** A run that succeeds has found every target's bundle entry. */
  lemma {:induction false} TargetSource(site: Site, repair: Repair, w: Entries, ps: seq<HostStatus>, p: HostStatus)
    requires RevertPaths(site, repair, w, ps).error.None? && p in ps && p.tracked.projection == Direct
    ensures Source(site, p).Ok?
    decreases |ps|
  {
    if p != ps[0] {
      TargetSource(site, repair, RevertOne(site, repair, w, ps[0]).entries, ps[1..], p);
    }
  }

  lemma SameMachine(site: Site, p: HostStatus, q: HostStatus)
    requires Dest(site, p) == Dest(site, q)
    ensures IsLocal(site, p.host) == IsLocal(site, q.host) && (!IsLocal(site, p.host) ==> p.host == q.host)
  {
  }

  lemma ConsistentAgreed(site: Site, ps: seq<HostStatus>, p: HostStatus, e: Entry)
    requires Consistent(site, ps) && p in ps && p.tracked.projection == Direct
    requires Source(site, p).Ok? && e == Placed(IsLocal(site, p.host), Source(site, p).value)
    ensures Agreed(site, ps, Dest(site, p), e)
  {
    forall t | t in ps && Hits(site, t, Dest(site, p)) && Source(site, t).Ok?
      ensures Placed(IsLocal(site, t.host), Source(site, t).value) == e
    {
      SourceIsDesired(site, t);
      SourceIsDesired(site, p);
      SameMachine(site, t, p);
    }
  }

  // -------------------------------------------------------------- convergence

  /** What the comparison sees of an entry that stands at a place. */
  function Seen(site: Site, host: string, live: Option<Entry>): Option<Entry> {
    match live
    case None => None
    case Some(e) => Some(if IsLocal(site, host) then e else Staged(site.created, e))
  }

  /** The status of a place is the verdict on what stands there. */
  ghost predicate Judged(site: Site, w: Entries, p: HostStatus) {
    Judge(site, p.host, p.tracked, Seen(site, p.host, Get(w, Dest(site, p)))) == Ok(p)
  }

  /** A status that was compared says what the comparison of any world finds. */
  lemma ComparedLive(site: Site, root: string, w: World, p: HostStatus, again: string, w2: Entries)
    requires CompareHostPath(site, root, w.entries, p.host, p.tracked) == Ok(p)
    requires p.tracked.projection == Direct && p.tracked in site.tracked
    requires !IsLocal(site, p.host) ==> Stageable(site, p.host)
    ensures IsAbs(p.tracked.hostPath)
    ensures CompareHostPath(site, again, w2, p.host, p.tracked)
         == Judge(site, p.host, p.tracked, Seen(site, p.host, Get(w2, Dest(site, p))))
  {
    if !IsLocal(site, p.host) {
      var paths := PathsFor(site, p.host);
      StagedAbsolute(HostOf(w.entries, p.host), root, site.created, EmptyTree(HostRoot(root)), paths);
      StagedLive(site, again, w2, p.host, p.tracked);
    }
  }

  lemma ComparedJudged(site: Site, root: string, w: World, c: Compared, p: HostStatus)
    requires ComparedWith(site, root, w, c) && AllStageable(site, c)
    requires p in c.hostPaths && p.tracked.projection == Direct
    ensures Judged(site, w.entries, p)
  {
    ComparedLive(site, root, w, p, root, w.entries);
  }

  /** What a verdict tells about the two entries. */
  lemma JudgedEntry(desired: Result<Entry>, p: HostStatus, live: Option<Entry>)
    requires JudgeEntry(desired, p.host, p.tracked, live) == Ok(p)
    ensures desired.Ok? && (p.state == Clean ==> live.Some?)
    ensures live.Some? ==> live.value.File? || live.value.Symlink?
  {
  }

  /** What a status tells about its place. */
  lemma JudgedOrdinary(site: Site, w: Entries, p: HostStatus)
    requires Judged(site, w, p)
    ensures Ordinary(w, Dest(site, p))
    ensures p.state == Clean ==> Dest(site, p) in w
    ensures DesiredEntry(site, p.host, p.tracked).Ok?
  {
    JudgedEntry(DesiredEntry(site, p.host, p.tracked), p, Seen(site, p.host, Get(w, Dest(site, p))));
  }

  lemma SameVerdict(desired: Result<Entry>, live: Option<Entry>, p: HostStatus, q: HostStatus)
    requires JudgeEntry(desired, p.host, p.tracked, live) == Ok(p)
    requires JudgeEntry(desired, q.host, q.tracked, live) == Ok(q)
    requires p.tracked.fileType == q.tracked.fileType
    ensures p.state == Clean <==> q.state == Clean
  {
  }

  /** Two statuses at one place agree. */
  lemma SamePlaceSameState(site: Site, w: Entries, p: HostStatus, q: HostStatus)
    requires Judged(site, w, p) && Judged(site, w, q) && Dest(site, p) == Dest(site, q)
    requires DesiredEntry(site, p.host, p.tracked) == DesiredEntry(site, q.host, q.tracked)
    requires p.tracked.fileType == q.tracked.fileType
    ensures p.state == Clean <==> q.state == Clean
  {
    SameMachine(site, p, q);
    SameVerdict(DesiredEntry(site, p.host, p.tracked), Seen(site, p.host, Get(w, Dest(site, p))), p, q);
  }

  lemma PathsApart(site: Site, host: string, p: string, q: string)
    requires Stageable(site, host) && p in PathsFor(site, host) && q in PathsFor(site, host)
    ensures !Under(Loc(Remote(host), CleanPath(q)), Loc(Remote(host), CleanPath(p)))
  {
    var all := Cleaned(PathsFor(site, host));
    assert CleanPath(p).comps in all && CleanPath(q).comps in all;
    assert !Prefixes(CleanPath(p).comps, CleanPath(q).comps);
  }

  /** A copied path of a host that can be staged lies under no other. */
  lemma PlacesApart(site: Site, root: string, w: World, c: Compared, ps: seq<HostStatus>, p: HostStatus)
    requires ComparedWith(site, root, w, c) && Stageable(site, p.host) && forall q :: q in ps ==> q in c.hostPaths
    requires p in c.hostPaths && p.tracked.projection == Direct && !IsLocal(site, p.host)
    ensures NoneUnder(site, ps, Dest(site, p))
  {
    forall t | t in ps && t.tracked.projection == Direct && Dest(site, t).machine == Dest(site, p).machine
      ensures !Under(Dest(site, t), Dest(site, p))
    {
      assert !IsLocal(site, t.host) && t.host == p.host;
      assert p.tracked in site.tracked && t.tracked in site.tracked;
      PathsApart(site, p.host, p.tracked.hostPath, t.tracked.hostPath);
    }
  }

  /** When a copied path compares clean after the run: no upload has removed it
      since it was last written, and, unless it is local or was clean, staging
      shows its desired entry as it is. */
  ghost predicate Settles(site: Site, ps: seq<HostStatus>, p: HostStatus) {
    && !Lost(site, ps, Dest(site, p))
    && (IsLocal(site, p.host) || p.state == Clean
        || (DesiredEntry(site, p.host, p.tracked).Ok?
            && SurvivesStaging(site.created, DesiredEntry(site, p.host, p.tracked).value, p.tracked.fileType)))
  }

  /** The plan rewrites a place exactly if its status had drifted. */
  lemma PlannedHits(site: Site, root: string, w: World, c: Compared, sel: Selection, p: HostStatus)
    requires ComparedWith(site, root, w, c) && Consistent(site, c.hostPaths) && AllStageable(site, c)
    requires Unselected(sel) && p in c.hostPaths && p.tracked.projection == Direct
    ensures Plan(site, c, All, sel).Ok?
    ensures var ps := Plan(site, c, All, sel).value.hostPaths;
      && (forall q :: q in ps ==> q in c.hostPaths)
      && (p.state != Clean ==> p in ps)
      && (p.state == Clean ==> forall q :: q in ps ==> !Hits(site, q, Dest(site, p)))
  {
    PlanAllComplete(site, c, sel);
    var ps := Plan(site, c, All, sel).value.hostPaths;
    if p.state == Clean {
      forall q | q in ps
        ensures !Hits(site, q, Dest(site, p))
      {
        if Hits(site, q, Dest(site, p)) {
          ComparedJudged(site, root, w, c, p);
          ComparedJudged(site, root, w, c, q);
          SamePlaceSameState(site, w.entries, p, q);
        }
      }
    }
  }

  /** What a run left at a place, when it succeeded. */
  ghost predicate Left(site: Site, w: Entries, w2: Entries, ps: seq<HostStatus>, p: HostStatus) {
    var l := Dest(site, p);
    if Lost(site, ps, l) then !IsLocal(site, p.host) && l !in w2
    else if p.state == Clean then l in w && l in w2 && w2[l] == w[l]
    else Source(site, p).Ok? && l in w2 && w2[l] == Placed(IsLocal(site, p.host), Source(site, p).value)
  }

  lemma LostIsRemote(site: Site, ps: seq<HostStatus>, p: HostStatus)
    requires Lost(site, ps, Dest(site, p))
    ensures !IsLocal(site, p.host)
  {
    var j :| 0 <= j < |ps| && Scratches(site, ps[j], Dest(site, p));
  }

  lemma PlaceAfter(site: Site, repair: Repair, w: Entries, ps: seq<HostStatus>, keep: set<Loc>, p: HostStatus)
    requires Judged(site, w, p) && Confined(repair, keep) && Dest(site, p) in keep
    requires RevertPaths(site, repair, w, ps).error.None? && p.tracked.projection == Direct
    requires if p.state == Clean then forall q :: q in ps ==> !Hits(site, q, Dest(site, p))
             else p in ps && Consistent(site, ps)
    requires !IsLocal(site, p.host) ==> NoneUnder(site, ps, Dest(site, p))
    ensures Left(site, w, RevertPaths(site, repair, w, ps).entries, ps, p)
  {
    var l := Dest(site, p);
    JudgedOrdinary(site, w, p);
    FateExact(site, ps, l);
    if Lost(site, ps, l) {
      LostIsRemote(site, ps, p);
    }
    if p.state != Clean {
      TargetSource(site, repair, w, ps, p);
      var e := Placed(IsLocal(site, p.host), Source(site, p).value);
      ConsistentAgreed(site, ps, p, e);
      RunFate(site, repair, w, ps, keep, l, e);
      assert Hits(site, p, l);
    } else {
      RunFate(site, repair, w, ps, keep, l, Dir);
      CleanFate(site, ps, l);
    }
  }

  /** The verdict on what the run left. */
  lemma LeftJudged(site: Site, w: Entries, w2: Entries, ps: seq<HostStatus>, p: HostStatus)
    requires Judged(site, w, p) && IsAbs(p.tracked.hostPath) && Left(site, w, w2, ps, p)
    ensures Judge(site, p.host, p.tracked, Seen(site, p.host, Get(w2, Dest(site, p))))
         == Ok(HostStatus(p.host, p.tracked, if Settles(site, ps, p) then Clean else Drifted(p.tracked.drift)))
  {
    var desired := DesiredEntry(site, p.host, p.tracked);
    if Lost(site, ps, Dest(site, p)) {
      JudgeMissing(desired, p, Seen(site, p.host, Get(w, Dest(site, p))));
    } else if p.state != Clean {
      SourceIsDesired(site, p);
      JudgeWritten(desired.value, site.created, p.host, p.tracked, IsLocal(site, p.host));
    }
  }

  lemma JudgeMissing(desired: Result<Entry>, p: HostStatus, live: Option<Entry>)
    requires JudgeEntry(desired, p.host, p.tracked, live) == Ok(p)
    ensures JudgeEntry(desired, p.host, p.tracked, None) == Ok(HostStatus(p.host, p.tracked, Drifted(p.tracked.drift)))
  {
  }

  /** Without a write a place is left alone or removed. */
  lemma {:induction false} CleanFate(site: Site, ps: seq<HostStatus>, l: Loc)
    requires forall q :: q in ps ==> !Hits(site, q, l)
    ensures FateIn(site, ps, l) != Written
    decreases |ps|
  {
    if ps != [] {
      CleanFate(site, ps[1..], l);
    }
  }

  /** The verdict on a bundle entry that stands where it belongs. */
  lemma JudgeWritten(src: Entry, created: Mode, host: string, t: Tracked, local: bool)
    requires IsAbs(t.hostPath) && (src.File? || src.Symlink?)
    ensures JudgeEntry(Ok(src), host, t, Some(if local then Permissions(src) else Staged(created, src)))
         == Ok(HostStatus(host, t, if local || SurvivesStaging(created, src, t.fileType) then Clean
                                   else Drifted(t.drift)))
  {
    StagedComparison(created, src, t.fileType);
  }

  lemma ApplyEntries(site: Site, repair: Repair, w: World, t: Targets)
    requires Apply(site, repair, w, t).1.None?
    ensures RevertPaths(site, repair, w.entries, t.hostPaths).error.None?
    ensures Apply(site, repair, w, t).0.entries == RevertPaths(site, repair, w.entries, t.hostPaths).entries
  {
  }

  /** After a full-scope, unselected revert that succeeds, comparing again, with
      remote hosts staged anew, finds a copied path clean exactly when it settles,
      and drifted otherwise. */
  lemma RevertConverges(site: Site, repair: Repair, root: string, w: World, c: Compared, sel: Selection,
                        p: HostStatus, again: string)
    requires ComparedWith(site, root, w, c) && Consistent(site, c.hostPaths) && AllStageable(site, c)
    requires Unselected(sel) && Confined(repair, Places(site, c.hostPaths))
    requires RevertCommand(site, repair, w, c, All, sel).1.None?
    requires p in c.hostPaths && p.tracked.projection == Direct
    ensures Plan(site, c, All, sel).Ok?
    ensures var w2, ps := RevertCommand(site, repair, w, c, All, sel).0, Plan(site, c, All, sel).value.hostPaths;
            CompareHostPath(site, again, w2.entries, p.host, p.tracked)
            == Ok(HostStatus(p.host, p.tracked, if Settles(site, ps, p) then Clean else Drifted(p.tracked.drift)))
  {
    PlannedHits(site, root, w, c, sel, p);
    var t := Plan(site, c, All, sel).value;
    var w2 := Apply(site, repair, w, t).0;
    ApplyEntries(site, repair, w, t);
    ComparedJudged(site, root, w, c, p);
    if !IsLocal(site, p.host) {
      PlacesApart(site, root, w, c, t.hostPaths, p);
    }
    PlaceAfter(site, repair, w.entries, t.hostPaths, Places(site, c.hostPaths), p);
    ComparedLive(site, root, w, p, again, w2.entries);
    LeftJudged(site, w.entries, w2.entries, t.hostPaths, p);
  }

  lemma UnshownJudged(target: string, created: Mode, live: Option<Entry>, host: string, t: Tracked)
    requires t.fileType == SymlinkType && !SurvivesStaging(created, Symlink(target), t.fileType)
    ensures var seen := match live case None => None case Some(e) => Some(Staged(created, e));
            JudgeEntry(Ok(Symlink(target)), host, t, seen) != Ok(HostStatus(host, t, Clean))
  {
    if live.Some? && live.value.Symlink? {
      SeenIsClean(live.value.target);
    }
  }

  lemma RemoteJudged(site: Site, root: string, w: Entries, host: string, t: Tracked)
    requires !IsLocal(site, host) && Stageable(site, host) && t.hostPath in PathsFor(site, host)
    ensures CompareHostPath(site, root, w, host, t).Ok? ==>
      CompareHostPath(site, root, w, host, t)
      == JudgeEntry(DesiredEntry(site, host, t), host, t,
                    match Get(w, LocOf(site, host, t)) case None => None case Some(e) => Some(Staged(site.created, e)))
  {
    if LiveEntry(site, root, w, host, t).Ok? {
      StagedAbsolute(HostOf(w, host), root, site.created, EmptyTree(HostRoot(root)), PathsFor(site, host));
      StagedLive(site, root, w, host, t);
    }
  }

  /** A desired link target that staging cannot show is drift on a remote host
      for ever, whatever is written there. */
  lemma UnshownNeverClean(site: Site, root: string, w: Entries, host: string, t: Tracked, target: string)
    requires !IsLocal(site, host) && Stageable(site, host)
    requires t in site.tracked && t.projection == Direct && t.fileType == SymlinkType
    requires DesiredEntry(site, host, t) == Ok(Symlink(target))
    requires !(Trimmed(target) && '\n' !in target)
    ensures CompareHostPath(site, root, w, host, t) != Ok(HostStatus(host, t, Clean))
  {
    RemoteJudged(site, root, w, host, t);
    UnshownJudged(target, site.created, Get(w, LocOf(site, host, t)), host, t);
  }

  // ------------------------------------------------------------------ objects

  lemma {:induction false} WantedSet(refused: set<ObjectId>, want: TrackedObject -> OwnedFields.Value,
                                     w: map<ObjectId, OwnedFields.Value>, os: seq<ObjectStatus>)
    requires SetObjects(refused, want, w, os).error.None? && DistinctIds(os)
    ensures var w2 := SetObjects(refused, want, w, os).objects;
            && (forall o :: o in os ==> o.tracked.id in w2 && w2[o.tracked.id] == want(o.tracked))
            && (forall id :: (forall o :: o in os ==> o.tracked.id != id) ==>
                  (id in w2 <==> id in w) && (id in w ==> w2[id] == w[id]))
    decreases |os|
  {
    if os != [] {
      assert os[0] in os;
      var w1 := w[os[0].tracked.id := want(os[0].tracked)];
      WantedSet(refused, want, w1, os[1..]);
      forall o | o in os[1..]
        ensures o.tracked.id != os[0].tracked.id
      {
        var j :| 0 <= j < |os[1..]| && os[1..][j] == o;
        assert os[j + 1] == o;
      }
    }
  }

  /** Applying objects sets exactly the targeted identities. */
  lemma ObjectsSet(site: Site, w: map<ObjectId, OwnedFields.Value>, os: seq<ObjectStatus>)
    requires ApplyObjects(site, w, os).error.None? && DistinctIds(os)
    ensures var w2 := ApplyObjects(site, w, os).objects;
            && (forall o :: o in os ==> o.tracked.id in w2 && w2[o.tracked.id] == Desired(site, o.tracked))
            && (forall id :: (forall o :: o in os ==> o.tracked.id != id) ==>
                  (id in w2 <==> id in w) && (id in w ==> w2[id] == w[id]))
  {
    WantedSet(site.refused, (o: TrackedObject) => Desired(site, o), w, os);
  }

  ghost predicate DistinctIds(os: seq<ObjectStatus>) {
    forall i, j :: 0 <= i < j < |os| ==> os[i].tracked.id != os[j].tracked.id
  }

  lemma {:induction false} FilterDistinct(os: seq<ObjectStatus>, keep: ObjectStatus -> bool)
    requires DistinctIds(os)
    ensures DistinctIds(Filter(os, keep))
    decreases |os|
  {
    if os != [] {
      var tail := os[1..];
      assert DistinctIds(tail);
      FilterDistinct(tail, keep);
      var rest := Filter(tail, keep);
      forall x | x in rest
        ensures x.tracked.id != os[0].tracked.id
      {
        var k :| 0 <= k < |tail| && tail[k] == x;
        assert os[k + 1] == x;
      }
      if keep(os[0]) {
        assert Filter(os, keep) == [os[0]] + rest;
      } else {
        assert Filter(os, keep) == rest;
      }
    }
  }

  lemma CommandObjects(site: Site, repair: Repair, w: World, c: Compared, sel: Selection)
    requires Unselected(sel) && RevertCommand(site, repair, w, c, All, sel).1.None?
    ensures var a := ApplyObjects(site, w.objects, DriftedObjects(c));
      a.error.None? && a.objects == RevertCommand(site, repair, w, c, All, sel).0.objects
  {
    PlanAllObjects(site, c, sel);
  }

  /** An object that was clean shares its identity with none that drifted. */
  lemma CleanApart(os: seq<ObjectStatus>, o: ObjectStatus)
    requires DistinctIds(os) && o in os && o.state == Clean
    ensures forall x :: x in Filter(os, ObjectDrifted) ==> x.tracked.id != o.tracked.id
  {
    forall x | x in Filter(os, ObjectDrifted)
      ensures x.tracked.id != o.tracked.id
    {
      var i :| 0 <= i < |os| && os[i] == x;
      var j :| 0 <= j < |os| && os[j] == o;
    }
  }

  lemma PlannedObjectsSet(site: Site, repair: Repair, w: World, c: Compared, sel: Selection, o: ObjectStatus)
    requires DistinctIds(c.objects) && Unselected(sel)
    requires RevertCommand(site, repair, w, c, All, sel).1.None?
    requires o in c.objects
    ensures var w2 := RevertCommand(site, repair, w, c, All, sel).0.objects;
            var id := o.tracked.id;
            && (o.state != Clean ==> id in w2 && w2[id] == Desired(site, o.tracked))
            && (o.state == Clean ==> (id in w2 <==> id in w.objects) && (id in w2 ==> w2[id] == w.objects[id]))
  {
    CommandObjects(site, repair, w, c, sel);
    FilterDistinct(c.objects, ObjectDrifted);
    ObjectsSet(site, w.objects, DriftedObjects(c));
    if o.state == Clean {
      CleanApart(c.objects, o);
    }
  }

  /** The compiled object, once live, compares clean. */
  ghost predicate ObjectSettles(site: Site, o: ObjectStatus) {
    var desired := Desired(site, o.tracked);
    OwnedFields.WellKeyed(None, desired) && DesiredObjects.NoProbeZero(desired)
  }

  /** After the revert an object that drifted compares clean exactly when its
      desired form repeats no merge key and no probe in it holds a zero default;
      objects that were clean are untouched. */
  lemma ObjectsConverge(site: Site, repair: Repair, root: string, w: World, c: Compared, sel: Selection,
                        o: ObjectStatus)
    requires ComparedWith(site, root, w, c) && Unselected(sel)
    requires RevertCommand(site, repair, w, c, All, sel).1.None?
    requires o in c.objects
    ensures var w2 := RevertCommand(site, repair, w, c, All, sel).0;
            && (o.state != Clean ==> (CompareObject(site, w2, o.tracked).state == Clean <==> ObjectSettles(site, o)))
            && (o.state == Clean ==> CompareObject(site, w2, o.tracked) == o)
  {
    PlannedObjectsSet(site, repair, w, c, sel, o);
    assert CompareObject(site, w, o.tracked) == o;
    DesiredObjects.CompiledCleanExact(site.encode, o.tracked.fragments);
  }

  lemma PlanAllObjects(site: Site, c: Compared, sel: Selection)
    requires Unselected(sel)
    ensures Plan(site, c, All, sel).Ok?
    ensures Plan(site, c, All, sel).value.objects == DriftedObjects(c)
  {
  }

  // -------------------------------------------------------------------- frame

  function AllTouched(site: Site, ps: seq<HostStatus>): set<Loc> {
    set p, l | p in ps && p.tracked.projection == Direct && l in Touched(IsLocal(site, p.host), Dest(site, p)) :: l
  }

  /** Nothing changes at this place, except that a missing parent may be made. */
  ghost predicate Framed(w: Entries, w2: Entries, l: Loc) {
    && (l in w ==> l in w2 && w2[l] == w[l])
    && (l !in w ==> l in w2 ==> w2[l] == Dir)
  }

  /** Outside the targets' places and the scratch names of uploads, a revert only
      adds missing parent directories, also when it fails: everywhere if all its
      targets are copied, else wherever repair keeps still. */
  lemma {:induction false} RevertFrame(site: Site, repair: Repair, w: Entries, ps: seq<HostStatus>, keep: set<Loc>,
                                       l: Loc)
    requires Confined(repair, keep) && l !in AllTouched(site, ps)
    requires l in keep || forall p :: p in ps ==> p.tracked.projection == Direct
    ensures Framed(w, RevertPaths(site, repair, w, ps).entries, l)
    decreases |ps|
  {
    if ps != [] {
      var p := ps[0];
      assert p in ps;
      var s := RevertOne(site, repair, w, p);
      if p.tracked.projection == Direct && Source(site, p).Ok? {
        WriteFrame(site, w, IsLocal(site, p.host), Dest(site, p), Source(site, p).value);
        assert l !in Touched(IsLocal(site, p.host), Dest(site, p));
      }
      assert Framed(w, s.entries, l);
      if s.error.None? {
        assert AllTouched(site, ps[1..]) <= AllTouched(site, ps);
        RevertFrame(site, repair, s.entries, ps[1..], keep, l);
      }
    }
  }

  /** The scratch name is a real exception: an upload that succeeds removes
      whatever file stood there. */
  lemma ScratchLost(site: Site, w: Entries, l: Loc, src: Entry)
    requires src.File? && Write(site, w, false, l, src).error.None?
    ensures l.path.comps != [] && Scratch(l) !in Write(site, w, false, l, src).entries
  {
    ScratchDiffers(l);
  }

  // -------------------------------------------------------------- second plan

  lemma PlannedExactly(site: Site, c: Compared, sel: Selection)
    requires Unselected(sel)
    ensures Plan(site, c, All, sel).Ok?
    ensures var t := Plan(site, c, All, sel).value;
      && (forall p :: p in c.hostPaths && p.tracked.projection == Direct ==> (p in t.hostPaths <==> p.state != Clean))
      && (forall o :: o in c.objects ==> (o in t.objects <==> o.state != Clean))
  {
    PlanAllComplete(site, c, sel);
  }

  /** Planning again after the revert, with `p` the new status of a copied path
      whose status was `q`: the new plan names it exactly if it did not settle. */
  lemma SecondPlan(site: Site, repair: Repair, root: string, w: World, c: Compared, sel: Selection,
                   again: string, c2: Compared, p: HostStatus, q: HostStatus)
    requires ComparedWith(site, root, w, c) && Consistent(site, c.hostPaths) && AllStageable(site, c)
    requires Unselected(sel) && Confined(repair, Places(site, c.hostPaths))
    requires RevertCommand(site, repair, w, c, All, sel).1.None?
    requires p in c2.hostPaths && FromTracked(site, again, RevertCommand(site, repair, w, c, All, sel).0.entries, p)
    requires q in c.hostPaths && p.host == q.host && p.tracked == q.tracked && q.tracked.projection == Direct
    ensures Plan(site, c, All, sel).Ok? && Plan(site, c2, All, sel).Ok?
    ensures p in Plan(site, c2, All, sel).value.hostPaths
       <==> !Settles(site, Plan(site, c, All, sel).value.hostPaths, q)
  {
    RevertConverges(site, repair, root, w, c, sel, q, again);
    PlannedExactly(site, c2, sel);
  }

  /** The same for an object: the new plan names it exactly if it had drifted and
      cannot settle. */
  lemma SecondPlanObject(site: Site, repair: Repair, root: string, w: World, c: Compared, sel: Selection,
                         c2: Compared, o: ObjectStatus, q: ObjectStatus)
    requires ComparedWith(site, root, w, c) && Unselected(sel)
    requires RevertCommand(site, repair, w, c, All, sel).1.None?
    requires o in c2.objects && CompareObject(site, RevertCommand(site, repair, w, c, All, sel).0, o.tracked) == o
    requires q in c.objects && o.tracked == q.tracked
    ensures Plan(site, c2, All, sel).Ok?
    ensures o in Plan(site, c2, All, sel).value.objects <==> q.state != Clean && !ObjectSettles(site, q)
  {
    PlannedExactly(site, c2, sel);
    ObjectsConverge(site, repair, root, w, c, sel, q);
  }
}
