/** Staging a remote host's tracked paths into a local tree before comparing:
    `inspectSyncRemoteTrackedHostPath`, `stageSyncRemoteTrackedHostPath`,
    `stageSyncRemoteHostRoot`. */
module Staging {
  import opened GoStrings
  import opened Paths
  import opened Revert
  import opened RevertApply
  import RevertRun

  /** What stands at the paths of the remote host; a file's mode is what
      `stat -c %a` prints, special bits included. */
  type Host = map<CPath, Entry>

  // ----------------------------------------------------------------- inspect

  /** What the script prints for the entry at the path. */
  function Report(e: Option<Entry>): string {
    match e
    case None => "missing\n"
    case Some(Symlink(target)) => "symlink\n" + target + "\n"
    case Some(File(_, mode)) => "file\n" + Octal(mode) + "\n"
    case Some(Dir) => "dir\n"
    case Some(Special) => "other\n"
  }

  datatype Info = Info(kind: string, target: string, mode: nat)

  /** Reading the script's output line by line. */
  function Inspect(output: string): Result<Info> {
    var lines := Split(Trim(output), '\n');
    var kind := Trim(lines[0]);
    if kind == "" then Err("returned empty result")
    else if kind == "file" && |lines| > 1 then
      match ParseOctal(Trim(lines[1]))
      case None => Err("returned invalid file mode")
      case Some(m) => Ok(Info(kind, "", m))
    else if kind == "symlink" && |lines| > 1 then Ok(Info(kind, Trim(lines[1]), 0))
    else Ok(Info(kind, "", 0))
  }

  lemma TrimNewline(s: string)
    requires s != "" && Trimmed(s)
    ensures Trim(s + "\n") == s
  {
    var t := s + "\n";
    assert t[0] == s[0];
    assert TrimLeft(t) == t;
    assert t[..|t| - 1] == s;
    TrimFixpoint(s);
    assert TrimRight(t) == TrimRight(s);
    assert TrimLeft(s) == s;
  }

  /** The first line of a trimmed two-part text is its head. */
  lemma TwoLines(head: string, tail: string)
    requires head != "" && Trimmed(head) && '\n' !in head
    ensures Split(head + "\n" + tail, '\n') == [head] + Split(tail, '\n')
  {
    SplitAtSep(head, tail, '\n');
    SplitWord(head, '\n');
    assert head + ['\n'] + tail == head + "\n" + tail;
  }

  /** A file's mode is always read back. */
  lemma InspectFile(content: string, mode: Mode)
    ensures Inspect(Report(Some(File(content, mode)))) == Ok(Info("file", "", mode))
  {
    var o := Octal(mode);
    OctalDigits(mode);
    assert Trimmed(o);
    var s := "file\n" + o;
    assert s[0] == 'f' && s[|s| - 1] == o[|o| - 1];
    TrimNewline(s);
    assert Report(Some(File(content, mode))) == s + "\n";
    assert s == "file" + "\n" + o;
    TwoLines("file", o);
    assert '\n' !in o;
    SplitWord(o, '\n');
    TrimFixpoint(o);
    TrimFixpoint("file");
  }

  lemma InspectPlain(kind: string, e: Option<Entry>)
    requires kind in ["missing", "dir", "other"] && Report(e) == kind + "\n"
    ensures Inspect(Report(e)) == Ok(Info(kind, "", 0))
  {
    assert Trimmed(kind) && '\n' !in kind;
    TrimNewline(kind);
    SplitWord(kind, '\n');
    TrimFixpoint(kind);
  }

  /** The link target the inspection hands on. */
  function SeenTarget(target: string): string {
    match Inspect(Report(Some(Symlink(target))))
    case Ok(info) => info.target
    case Err(_) => ""
  }

  lemma InspectSymlink(target: string)
    ensures Inspect(Report(Some(Symlink(target)))) == Ok(Info("symlink", SeenTarget(target), 0))
  {
    var out := Report(Some(Symlink(target)));
    TrimHead(target);
    var rest :| Trim(out) == "symlink" || Trim(out) == "symlink" + "\n" + rest;
    assert Trimmed("symlink") && '\n' !in "symlink";
    TrimFixpoint("symlink");
    if Trim(out) == "symlink" {
      SplitWord("symlink", '\n');
    } else {
      TwoLines("symlink", rest);
    }
  }

  /** Trimming the report keeps its first line. */
  lemma TrimHead(target: string)
    ensures var t := Trim(Report(Some(Symlink(target))));
            t == "symlink" || exists rest :: t == "symlink" + "\n" + rest
  {
    var out := "symlink\n" + target + "\n";
    assert out == Report(Some(Symlink(target)));
    assert out[0] == 's';
    assert TrimLeft(out) == out;
    var t := TrimRight(out);
    TrimRightExact(out);
    assert out[6] == 'k' && !IsSpace(out[6]);
    assert |t| >= 7;
    if |t| == 7 {
      assert t == "symlink";
    } else {
      assert t[7] == '\n';
      assert t == "symlink" + "\n" + t[8..];
    }
  }

  lemma SeenEmptyTarget()
    ensures SeenTarget("") == ""
  {
    var out := Report(Some(Symlink("")));
    assert out == "symlink" + "\n" + "\n";
    assert TrimLeft(out) == out;
    assert out[..8] == "symlink\n" && out[..8][..7] == "symlink";
    assert TrimRight(out) == TrimRight(out[..8]) == TrimRight("symlink") == "symlink";
    SplitWord("symlink", '\n');
    InspectSymlink("");
  }

  lemma SeenCleanTarget(target: string)
    requires target != "" && Trimmed(target) && '\n' !in target
    ensures SeenTarget(target) == target
  {
    var out := Report(Some(Symlink(target)));
    var s := "symlink\n" + target;
    assert s[0] == 's' && s[|s| - 1] == target[|target| - 1];
    TrimNewline(s);
    assert out == s + "\n" && s == "symlink" + "\n" + target;
    assert Trimmed("symlink") && '\n' !in "symlink";
    TwoLines("symlink", target);
    SplitWord(target, '\n');
    TrimFixpoint(target);
    TrimFixpoint("symlink");
  }

  /** Whatever the target, the inspection sees a line without white space at its
      ends. */
  lemma SeenIsClean(target: string)
    ensures Trimmed(SeenTarget(target)) && '\n' !in SeenTarget(target)
  {
    var lines := Split(Trim(Report(Some(Symlink(target)))), '\n');
    if |lines| > 1 {
      TrimIsTrimmed(lines[1]);
      TrimWithin(lines[1]);
    }
  }

  /** A link target is staged unchanged exactly when it has no white space at its
      ends and no newline. */
  lemma SeenTargetExact(target: string)
    ensures SeenTarget(target) == target <==> Trimmed(target) && '\n' !in target
  {
    if target == "" {
      SeenEmptyTarget();
    } else if Trimmed(target) && '\n' !in target {
      SeenCleanTarget(target);
    } else {
      SeenIsClean(target);
    }
  }

  // ------------------------------------------------------------------- stage

  /** `prepareSyncStagedHostPath`. */
  function Prepare(w: Entries, l: Loc, wantDir: bool): Step {
    if l !in w then Step(w, None)
    else if wantDir then if w[l].Dir? then Step(w, None) else Step(w - {l}, None)
    else if w[l].Dir? then Step(w, Some("local staged path already exists as a directory"))
    else Step(w - {l}, None)
  }

  function Place(tempRoot: string, path: string): Loc {
    Loc(Here, HostTarget(tempRoot, path))
  }

  /** What should stand in the staged tree for an entry of the remote host;
      `created` is the mode a new file gets before any chmod. */
  function Staged(created: Mode, e: Entry): Entry {
    match e
    case File(content, mode) => File(content, if mode == 0 then created else mode % 512)
    case Symlink(target) => Symlink(SeenTarget(target))
    case Dir => Dir
    case Special => Dir
  }

  /** A file or a link: parents, clear the place, then fetch or link. */
  function StageLeaf(w: Entries, l: Loc, leaf: Entry): Step {
    var made := MakeParents(w, l, 0);
    if made.error.Some? then made
    else
      var prepared := Prepare(made.entries, l, false);
      if prepared.error.Some? then prepared else Step(prepared.entries[l := leaf], None)
  }

  function StageDir(w: Entries, l: Loc): Step {
    var made := MakeParents(Prepare(w, l, true).entries, l, 0);
    if made.error.Some? then made else Step(made.entries[l := Dir], None)
  }

  /** What is done with an inspected entry. */
  function StageInfo(w: Entries, l: Loc, created: Mode, info: Info, live: Option<Entry>): Step {
    if info.kind == "missing" || live.None? then Step(w, None)
    else if info.kind == "file" then
      var content := if live.value.File? then live.value.content else "";
      StageLeaf(w, l, File(content, if info.mode != 0 then info.mode % 512 else created))
    else if info.kind == "symlink" then StageLeaf(w, l, Symlink(info.target))
    else if info.kind == "dir" || info.kind == "other" then StageDir(w, l)
    else Step(w, Some("unsupported remote host path kind"))
  }

  function Live(host: Host, path: string): Option<Entry> {
    if CleanPath(path) in host then Some(host[CleanPath(path)]) else None
  }

  /** `stageSyncRemoteTrackedHostPath`. */
  function StagePath(host: Host, tempRoot: string, created: Mode, w: Entries, path: string): Step {
    match ResolveHostPath(tempRoot, path)
    case Err(e) => Step(w, Some(e))
    case Ok(_) =>
      match Inspect(Report(Live(host, path)))
      case Err(e) => Step(w, Some(e))
      case Ok(info) => StageInfo(w, Place(tempRoot, path), created, info, Live(host, path))
  }

  /** `stageSyncRemoteHostRoot` over the paths that apply to the host. */
  function StageAll(host: Host, tempRoot: string, created: Mode, w: Entries, paths: seq<string>): Step
    decreases |paths|
  {
    if paths == [] then Step(w, None)
    else
      var s := StagePath(host, tempRoot, created, w, paths[0]);
      if s.error.Some? then s else StageAll(host, tempRoot, created, s.entries, paths[1..])
  }

  /** What the inspection reports for an entry. */
  function InfoOf(live: Option<Entry>): Info {
    match live
    case None => Info("missing", "", 0)
    case Some(File(_, mode)) => Info("file", "", mode)
    case Some(Symlink(target)) => Info("symlink", SeenTarget(target), 0)
    case Some(Dir) => Info("dir", "", 0)
    case Some(Special) => Info("other", "", 0)
  }

  /** Reading back the printed report never fails. */
  lemma InspectReport(live: Option<Entry>)
    ensures Inspect(Report(live)) == Ok(InfoOf(live))
  {
    match live
    case None => InspectPlain("missing", None);
    case Some(File(content, mode)) => InspectFile(content, mode);
    case Some(Symlink(target)) => InspectSymlink(target);
    case Some(Dir) => InspectPlain("dir", live);
    case Some(Special) => InspectPlain("other", live);
  }

  /** What staging a path comes to, the inspection being resolved. */
  function StageEntry(w: Entries, l: Loc, created: Mode, live: Option<Entry>): Step {
    match live
    case None => Step(w, None)
    case Some(e) => if e.File? || e.Symlink? then StageLeaf(w, l, Staged(created, e)) else StageDir(w, l)
  }

  lemma StageInfoCases(w: Entries, l: Loc, created: Mode, live: Option<Entry>)
    ensures StageInfo(w, l, created, InfoOf(live), live) == StageEntry(w, l, created, live)
  {
  }

  lemma StagePathCases(host: Host, tempRoot: string, created: Mode, w: Entries, path: string)
    requires IsAbs(path)
    ensures StagePath(host, tempRoot, created, w, path)
         == StageEntry(w, Place(tempRoot, path), created, Live(host, path))
  {
    ResolveHostPathExact(tempRoot, path);
    InspectReport(Live(host, path));
    StageInfoCases(w, Place(tempRoot, path), created, Live(host, path));
  }

  // ---------------------------------------------------------------- faithful

  type Comps = seq<string>

  ghost predicate Prefixes(a: Comps, b: Comps) {
    a <= b && a != b
  }

  /** No tracked path is the root directory or lies under another. */
  ghost predicate PrefixFree(paths: set<Comps>) {
    && [] !in paths
    && (forall p, q :: p in paths && q in paths ==> !Prefixes(p, q))
  }

  function At(root: CPath, c: Comps): Loc {
    Loc(Here, CPath(root.rooted, root.comps + c))
  }

  function Get(w: Entries, l: Loc): Option<Entry> {
    if l in w then Some(w[l]) else None
  }

  /** The staged tree over a temporary root: the root and its parents are
      directories, every staged path holds what is wanted there, and anything
      else below the root is a directory leading to a staged path. */
  ghost predicate Tree(root: CPath, w: Entries, done: set<Comps>, want: Comps -> Option<Entry>) {
    && (forall n :: 0 <= n <= |root.comps| ==> Get(w, Above(At(root, []), n)) == Some(Dir))
    && (forall c :: c in done ==> Get(w, At(root, c)) == want(c))
    && (forall c: Comps :: c != [] && At(root, c) in w && c !in done ==>
          w[At(root, c)].Dir? && exists d :: d in done && Prefixes(c, d))
  }

  lemma AtInjective(root: CPath, c: Comps, d: Comps)
    requires At(root, c) == At(root, d)
    ensures c == d
  {
    assert c == (root.comps + c)[|root.comps|..];
    assert d == (root.comps + d)[|root.comps|..];
  }

  /** The parents of a place are the root's parents and the places on the way. */
  lemma ParentOfPlace(root: CPath, c: Comps, k: nat)
    requires k < |root.comps| + |c|
    ensures k <= |root.comps| ==> Above(At(root, c), k) == Above(At(root, []), k)
    ensures k > |root.comps| ==> Above(At(root, c), k) == At(root, c[..k - |root.comps|])
  {
    assert k <= |root.comps| ==> (root.comps + c)[..k] == (root.comps + [])[..k];
    assert k > |root.comps| ==> (root.comps + c)[..k] == root.comps + c[..k - |root.comps|];
  }

  lemma ParentsReady(root: CPath, w: Entries, done: set<Comps>, want: Comps -> Option<Entry>, c: Comps)
    requires Tree(root, w, done, want) && PrefixFree(done + {c})
    ensures forall k :: 0 <= k < |At(root, c).path.comps| ==>
              Above(At(root, c), k) in w ==> w[Above(At(root, c), k)].Dir?
  {
    forall k | 0 <= k < |At(root, c).path.comps|
      ensures Above(At(root, c), k) in w ==> w[Above(At(root, c), k)].Dir?
    {
      ParentOfPlace(root, c, k);
      if k > |root.comps| {
        var d := c[..k - |root.comps|];
        assert Prefixes(d, c);
        assert d != [] && d !in done;
      } else {
        assert Get(w, Above(At(root, []), k)) == Some(Dir);
      }
    }
  }

  /** Before a path is staged its place is free, unless it was staged already. */
  lemma PlaceFree(root: CPath, w: Entries, done: set<Comps>, want: Comps -> Option<Entry>, c: Comps)
    requires Tree(root, w, done, want) && PrefixFree(done + {c})
    ensures At(root, c) in w ==> c in done && want(c) == Some(w[At(root, c)])
  {
  }

  lemma PlacedTree(root: CPath, w: Entries, done: set<Comps>, want: Comps -> Option<Entry>, c: Comps, w2: Entries)
    requires Tree(root, w, done, want) && PrefixFree(done + {c}) && want(c).Some?
    requires w2 == MakeParents(w, At(root, c), 0).entries[At(root, c) := want(c).value]
    ensures Tree(root, w2, done + {c}, want)
  {
    var l := At(root, c);
    ParentsReady(root, w, done, want, c);
    ParentsFine(w, l, 0);
    forall n | 0 <= n <= |root.comps|
      ensures Get(w2, Above(At(root, []), n)) == Some(Dir)
    {
      assert |Above(At(root, []), n).path.comps| < |l.path.comps|;
      assert Get(w, Above(At(root, []), n)) == Some(Dir);
    }
    forall d | d in done + {c}
      ensures Get(w2, At(root, d)) == want(d)
    {
      if d != c {
        if At(root, d) == l { AtInjective(root, c, d); }
        if At(root, d) in w2 && At(root, d) !in w {
          var k :| 0 <= k < |l.path.comps| && At(root, d) == Above(l, k);
          ParentOfPlace(root, c, k);
          assert |Above(l, k).path.comps| == k;
          AtInjective(root, d, c[..k - |root.comps|]);
          assert Prefixes(d, c);
          assert false;
        }
        assert Get(w, At(root, d)) == want(d);
      }
    }
    forall d: Comps | d != [] && At(root, d) in w2 && d !in done + {c}
      ensures w2[At(root, d)].Dir? && exists e :: e in done + {c} && Prefixes(d, e)
    {
      if At(root, d) == l { AtInjective(root, c, d); }
      if At(root, d) in w {
        var e :| e in done && Prefixes(d, e);
        assert e in done + {c};
      } else {
        var k :| 0 <= k < |l.path.comps| && At(root, d) == Above(l, k);
        ParentOfPlace(root, c, k);
        assert |Above(l, k).path.comps| == k;
        AtInjective(root, d, c[..k - |root.comps|]);
        assert Prefixes(d, c) && c in done + {c};
      }
    }
  }

  /** Staging one more path succeeds and keeps the tree faithful. */
  lemma StageOneFaithful(root: CPath, w: Entries, done: set<Comps>, want: Comps -> Option<Entry>, c: Comps,
                         created: Mode, live: Option<Entry>)
    requires Tree(root, w, done, want) && PrefixFree(done + {c})
    requires want(c) == (if live.Some? then Some(Staged(created, live.value)) else None)
    ensures var s := StageEntry(w, At(root, c), created, live);
            s.error.None? && Tree(root, s.entries, done + {c}, want)
  {
    var l := At(root, c);
    PlaceFree(root, w, done, want, c);
    if live.Some? {
      ParentsReady(root, w, done, want, c);
      ParentsFine(w, l, 0);
      var made := MakeParents(w, l, 0).entries;
      forall k | 0 <= k < |l.path.comps|
        ensures Above(l, k) != l
      {
        assert |Above(l, k).path.comps| == k;
      }
      var e := Staged(created, live.value);
      assert (made - {l})[l := e] == made[l := e];
      PlacedTree(root, w, done, want, c, made[l := e]);
    }
  }

  /** What should stand at a tracked path in the staged tree. */
  function Wanted(host: Host, created: Mode): Comps -> Option<Entry> {
    (c: Comps) => if CPath(true, c) in host then Some(Staged(created, host[CPath(true, c)])) else None
  }

  function Cleaned(paths: seq<string>): (r: set<Comps>)
    ensures forall p :: p in paths ==> CleanPath(p).comps in r
  {
    set p | p in paths :: CleanPath(p).comps
  }

  lemma StagePathTree(host: Host, tempRoot: string, created: Mode, w: Entries, p: string, done: set<Comps>)
    requires IsAbs(p) && Tree(HostRoot(tempRoot), w, done, Wanted(host, created))
    requires PrefixFree(done + {CleanPath(p).comps})
    ensures var s := StagePath(host, tempRoot, created, w, p);
      s.error.None? && Tree(HostRoot(tempRoot), s.entries, done + {CleanPath(p).comps}, Wanted(host, created))
  {
    var c := CleanPath(p).comps;
    CleanNormal(p);
    assert CleanPath(p) == CPath(true, c);
    StagePathCases(host, tempRoot, created, w, p);
    StageOneFaithful(HostRoot(tempRoot), w, done, Wanted(host, created), c, created, Live(host, p));
  }

  lemma {:induction false} StageAllTree(host: Host, tempRoot: string, created: Mode, w: Entries, paths: seq<string>,
                                        done: set<Comps>)
    requires forall p :: p in paths ==> IsAbs(p)
    requires Tree(HostRoot(tempRoot), w, done, Wanted(host, created))
    requires PrefixFree(done + Cleaned(paths))
    ensures var s := StageAll(host, tempRoot, created, w, paths);
            && s.error.None?
            && Tree(HostRoot(tempRoot), s.entries, done + Cleaned(paths), Wanted(host, created))
    decreases |paths|
  {
    if paths == [] {
      assert done + Cleaned(paths) == done;
    } else {
      var p := paths[0];
      assert p in paths;
      var c := CleanPath(p).comps;
      assert PrefixFree(done + {c});
      StagePathTree(host, tempRoot, created, w, p, done);
      var s := StagePath(host, tempRoot, created, w, p);
      assert done + {c} + Cleaned(paths[1..]) == done + Cleaned(paths);
      StageAllTree(host, tempRoot, created, s.entries, paths[1..], done + {c});
    }
  }

  /** Staging prefix-free tracked paths into an empty root always succeeds, and
      the place of every path then holds the copy of the host's entry: missing
      stays missing, kinds and contents are kept, links keep the target the
      inspection saw, files their permission bits. */
  lemma StagingFaithful(host: Host, tempRoot: string, created: Mode, w: Entries, paths: seq<string>, p: string)
    requires (forall q :: q in paths ==> IsAbs(q)) && PrefixFree(Cleaned(paths))
    requires Tree(HostRoot(tempRoot), w, {}, Wanted(host, created))
    requires p in paths
    ensures var s := StageAll(host, tempRoot, created, w, paths);
            && s.error.None?
            && Get(s.entries, Place(tempRoot, p)) ==
               (match Live(host, p) case None => None case Some(e) => Some(Staged(created, e)))
  {
    assert {} + Cleaned(paths) == Cleaned(paths);
    StageAllTree(host, tempRoot, created, w, paths, {});
    CleanNormal(p);
    var c := CleanPath(p).comps;
    assert CleanPath(p) == CPath(true, c) && c in Cleaned(paths);
    assert Place(tempRoot, p) == At(HostRoot(tempRoot), c);
  }

  /** Staging the paths a second time changes none of the staged paths. */
  lemma StagingTwice(host: Host, tempRoot: string, created: Mode, w: Entries, paths: seq<string>, p: string)
    requires (forall q :: q in paths ==> IsAbs(q)) && PrefixFree(Cleaned(paths))
    requires Tree(HostRoot(tempRoot), w, {}, Wanted(host, created))
    requires p in paths
    ensures var once := StageAll(host, tempRoot, created, w, paths);
            var twice := StageAll(host, tempRoot, created, once.entries, paths);
            twice.error.None? && Get(twice.entries, Place(tempRoot, p)) == Get(once.entries, Place(tempRoot, p))
  {
    var all := Cleaned(paths);
    assert {} + all == all && all + all == all;
    StageAllTree(host, tempRoot, created, w, paths, {});
    var once := StageAll(host, tempRoot, created, w, paths);
    StageAllTree(host, tempRoot, created, once.entries, paths, all);
    var c := CleanPath(p).comps;
    assert c in all && Place(tempRoot, p) == At(HostRoot(tempRoot), c);
  }

  /** A link target without white space at its ends or newlines, a mode that is
      not zero (or that of new files is zero too). */
  predicate SurvivesStaging(created: Mode, e: Entry, t: FileType) {
    && (e.File? ==> e.mode != 0 || created % 512 == 0)
    && (e.Symlink? && t == SymlinkType ==> Trimmed(e.target) && '\n' !in e.target)
  }

  /** For a file or a link, comparing the staged copy is comparing the host's own
      entry, whatever is desired, exactly when the copy kept a link's target and
      a file's mode was not lost as zero. */
  lemma StagedComparison(created: Mode, e: Entry, t: FileType)
    requires e.File? || e.Symlink?
    ensures Project(Staged(created, e), t) == Project(e, t) <==> SurvivesStaging(created, e, t)
  {
    if e.Symlink? {
      SeenTargetExact(e.target);
    }
  }

  /** Parents can be made for a path when none of them is anything but a
      directory. */
  lemma {:induction false} ParentsFine(w: Entries, l: Loc, n: nat)
    requires forall k :: n <= k < |l.path.comps| ==> Above(l, k) in w ==> w[Above(l, k)].Dir?
    ensures var s := MakeParents(w, l, n);
            && s.error.None?
            && (forall q :: q in s.entries <==>
                  q in w || exists k :: n <= k < |l.path.comps| && q == Above(l, k))
            && (forall q :: q in w ==> s.entries[q] == w[q])
            && (forall q :: q in s.entries && q !in w ==> s.entries[q] == Dir)
    decreases |l.path.comps| - n
  {
    if n < |l.path.comps| {
      var here := Above(l, n);
      assert |here.path.comps| == n;
      var w2 := if here in w then w else w[here := Dir];
      assert forall k :: n < k < |l.path.comps| ==> Above(l, k) != here by {
        forall k | n < k < |l.path.comps|
          ensures Above(l, k) != here
        {
          assert |Above(l, k).path.comps| == k;
        }
      }
      ParentsFine(w2, l, n + 1);
    }
  }

  // ----------------------------------------------------- the staging methods

  /** The branch for files and links. */
  method StageLeafEntry(fleet: RevertRun.Fleet, l: Loc, leaf: Entry) returns (error: Option<string>)
    modifies fleet`entries
    ensures Step(fleet.entries, error) == StageLeaf(old(fleet.entries), l, leaf)
  {
    error := fleet.MakeParentDirs(l);
    if error.Some? {
      return;
    }
    if l in fleet.entries {
      if fleet.entries[l].Dir? {
        return Some("local staged path already exists as a directory");
      }
      fleet.entries := fleet.entries - {l};
    }
    fleet.entries := fleet.entries[l := leaf];
  }

  /** The branch for directories and everything else. */
  method StageDirectory(fleet: RevertRun.Fleet, l: Loc) returns (error: Option<string>)
    modifies fleet`entries
    ensures Step(fleet.entries, error) == StageDir(old(fleet.entries), l)
  {
    if l in fleet.entries && !fleet.entries[l].Dir? {
      fleet.entries := fleet.entries - {l};
    }
    error := fleet.MakeParentDirs(l);
    if error.None? {
      fleet.entries := fleet.entries[l := Dir];
    }
  }

  /** `stageSyncRemoteTrackedHostPath`, writing into the local tree. */
  method StageTrackedPath(fleet: RevertRun.Fleet, host: Host, tempRoot: string, created: Mode, path: string)
    returns (error: Option<string>)
    modifies fleet`entries
    ensures Step(fleet.entries, error) == StagePath(host, tempRoot, created, old(fleet.entries), path)
  {
    var dst := ResolveHostPath(tempRoot, path);
    if dst.Err? {
      return Some(dst.error);
    }
    var live := Live(host, path);
    var seen := Inspect(Report(live));
    if seen.Err? {
      return Some(seen.error);
    }
    error := StageInspected(fleet, Place(tempRoot, path), created, seen.value, live);
  }

  method StageInspected(fleet: RevertRun.Fleet, l: Loc, created: Mode, info: Info, live: Option<Entry>)
    returns (error: Option<string>)
    modifies fleet`entries
    ensures Step(fleet.entries, error) == StageInfo(old(fleet.entries), l, created, info, live)
  {
    if info.kind == "missing" || live.None? {
      error := None;
    } else if info.kind == "file" {
      var content := if live.value.File? then live.value.content else "";
      error := StageLeafEntry(fleet, l, File(content, if info.mode != 0 then info.mode % 512 else created));
    } else if info.kind == "symlink" {
      error := StageLeafEntry(fleet, l, Symlink(info.target));
    } else if info.kind == "dir" || info.kind == "other" {
      error := StageDirectory(fleet, l);
    } else {
      error := Some("unsupported remote host path kind");
    }
  }

  /** `stageSyncRemoteHostRoot`: path by path, stopping at the first error. */
  method StageHostRoot(fleet: RevertRun.Fleet, host: Host, tempRoot: string, created: Mode, paths: seq<string>)
    returns (error: Option<string>)
    modifies fleet`entries
    ensures Step(fleet.entries, error) == StageAll(host, tempRoot, created, old(fleet.entries), paths)
  {
    for i := 0 to |paths|
      invariant StageAll(host, tempRoot, created, fleet.entries, paths[i..])
             == StageAll(host, tempRoot, created, old(fleet.entries), paths)
    {
      error := StageTrackedPath(fleet, host, tempRoot, created, paths[i]);
      assert paths[i..][0] == paths[i] && paths[i..][1..] == paths[i + 1..];
      if error.Some? {
        return;
      }
    }
    error := None;
  }
}
