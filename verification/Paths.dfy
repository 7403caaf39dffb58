/** Lexical path handling: Go's `filepath` (Unix), and the two resolvers that keep
    tracked paths inside a root (`resolveSyncHostPath`, `resolveSyncBundlePath`). */
module Paths {
  import opened GoStrings

  // ------------------------------------------------------ filepath, modelled

  /** A cleaned path: rooted or not, and its components. */
  datatype CPath = CPath(rooted: bool, comps: seq<string>)

  predicate Name(c: string) {
    c != "" && c != "." && '/' !in c
  }

  /** What `filepath.Clean` leaves: proper names, `..` only as an unrooted prefix. */
  ghost predicate Normal(p: CPath) {
    && (forall i :: 0 <= i < |p.comps| ==> Name(p.comps[i]))
    && (forall i :: 0 <= i < |p.comps| && p.comps[i] == ".." ==>
          !p.rooted && forall j :: 0 <= j < i ==> p.comps[j] == "..")
  }

  predicate IsAbs(s: string) {
    s != "" && s[0] == '/'
  }

  /** One component of the input against the components kept so far. */
  function Push(p: CPath, c: string): CPath {
    if c == "" || c == "." then p
    else if c == ".." then
      if |p.comps| > 0 && p.comps[|p.comps| - 1] != ".." then
        p.(comps := p.comps[..|p.comps| - 1])
      else if p.rooted then p
      else p.(comps := p.comps + [c])
    else p.(comps := p.comps + [c])
  }

  function PushAll(p: CPath, parts: seq<string>): CPath
    decreases |parts|
  {
    if parts == [] then p else PushAll(Push(p, parts[0]), parts[1..])
  }

  function CleanPath(s: string): CPath {
    PushAll(CPath(IsAbs(s), []), Split(s, '/'))
  }

  function Render(p: CPath): string {
    if p.rooted then "/" + Join(p.comps, '/')
    else if p.comps == [] then "."
    else Join(p.comps, '/')
  }

  /** `filepath.Clean`. */
  function Clean(s: string): string {
    Render(CleanPath(s))
  }

  /** `filepath.Join` of two elements: empty elements are dropped. */
  function JoinPath(a: string, b: string): string {
    if a == "" then if b == "" then "" else Clean(b)
    else if b == "" then Clean(a)
    else Clean(a + "/" + b)
  }

  function CommonPrefix(a: seq<string>, b: seq<string>): (n: nat)
    ensures n <= |a| && n <= |b| && a[..n] == b[..n]
    ensures n < |a| && n < |b| ==> a[n] != b[n]
  {
    if a == [] || b == [] || a[0] != b[0] then 0 else 1 + CommonPrefix(a[1..], b[1..])
  }

  function Ups(n: nat): (r: seq<string>)
    ensures |r| == n && forall i :: 0 <= i < n ==> r[i] == ".."
  {
    seq(n, _ => "..")
  }

  /** The components leading from one cleaned path to another. */
  function RelComps(b: CPath, t: CPath): Option<CPath> {
    var n := CommonPrefix(b.comps, t.comps);
    if b.rooted != t.rooted || (n < |b.comps| && b.comps[n] == "..") then None
    else Some(CPath(false, Ups(|b.comps| - n) + t.comps[n..]))
  }

  /** `filepath.Rel`. */
  function Rel(base: string, target: string): Result<string> {
    match RelComps(CleanPath(base), CleanPath(target))
    case None => Err("can't make relative")
    case Some(p) => Ok(Render(p))
  }

  /** The escape test both resolvers apply to a relative path. */
  predicate Escapes(rel: string) {
    rel == ".." || HasPrefix(rel, "../")
  }

  // -------------------------------------------------------- laws of cleaning

  lemma PushNormal(p: CPath, c: string)
    requires Normal(p) && '/' !in c
    ensures Normal(Push(p, c)) && Push(p, c).rooted == p.rooted
  {
  }

  lemma {:induction false} PushAllNormal(p: CPath, parts: seq<string>)
    requires Normal(p) && forall c :: c in parts ==> '/' !in c
    ensures Normal(PushAll(p, parts)) && PushAll(p, parts).rooted == p.rooted
    decreases |parts|
  {
    if parts != [] {
      assert parts[0] in parts;
      PushNormal(p, parts[0]);
      PushAllNormal(Push(p, parts[0]), parts[1..]);
    }
  }

  lemma CleanNormal(s: string)
    ensures Normal(CleanPath(s)) && CleanPath(s).rooted == IsAbs(s)
  {
    PushAllNormal(CPath(IsAbs(s), []), Split(s, '/'));
  }

  lemma {:induction false} PushAllConcat(p: CPath, a: seq<string>, b: seq<string>)
    ensures PushAll(p, a + b) == PushAll(PushAll(p, a), b)
    decreases |a|
  {
    if a == [] {
      assert a + b == b;
    } else {
      assert (a + b)[1..] == a[1..] + b;
      PushAllConcat(Push(p, a[0]), a[1..], b);
    }
  }

  /** Appending components that continue a normal path just appends them. */
  lemma {:induction false} PushAllAppends(p: CPath, more: seq<string>)
    requires Normal(CPath(p.rooted, p.comps + more))
    ensures PushAll(p, more) == CPath(p.rooted, p.comps + more)
    decreases |more|
  {
    if more == [] {
      assert p.comps + more == p.comps;
    } else {
      var all := p.comps + more;
      assert all[|p.comps|] == more[0];
      var q := CPath(p.rooted, p.comps + [more[0]]);
      if more[0] == ".." && p.comps != [] {
        assert all[|p.comps| - 1] == "..";
      }
      assert Push(p, more[0]) == q;
      assert q.comps + more[1..] == all;
      PushAllAppends(q, more[1..]);
    }
  }

  lemma SplitRender(p: CPath)
    requires Normal(p)
    ensures var lead := if p.rooted then [""] else [];
            Split(Render(p), '/') ==
            lead + (if p.comps != [] then p.comps else if p.rooted then [""] else ["."])
  {
    if p.comps != [] {
      SplitJoin(p.comps, '/');
    }
    if p.rooted {
      SplitAtSep("", Join(p.comps, '/'), '/');
      assert "" + ['/'] + Join(p.comps, '/') == Render(p);
      assert Split("", '/') == [""];
    } else if p.comps == [] {
      SplitWord(".", '/');
    }
  }

  lemma RenderAbs(p: CPath)
    requires Normal(p)
    ensures IsAbs(Render(p)) == p.rooted && Render(p) != ""
  {
    if !p.rooted && p.comps != [] {
      assert Join(p.comps, '/')[0] == p.comps[0][0];
      assert p.comps[0][0] in p.comps[0];
    }
  }

  /** Cleaning a rendered normal path gives it back: `Clean` is idempotent and a
      cleaned string determines its components. */
  lemma CleanRender(p: CPath)
    requires Normal(p)
    ensures CleanPath(Render(p)) == p
  {
    SplitRender(p);
    RenderAbs(p);
    var start := CPath(p.rooted, []);
    assert start.comps + p.comps == p.comps;
    PushAllAppends(start, p.comps);
    var lead: seq<string> := if p.rooted then [""] else [];
    if p.comps != [] {
      PushAllConcat(start, lead, p.comps);
    }
  }

  lemma RenderInjective(p: CPath, q: CPath)
    requires Normal(p) && Normal(q)
    ensures Render(p) == Render(q) <==> p == q
  {
    CleanRender(p);
    CleanRender(q);
  }

  lemma CleanIdempotent(s: string)
    ensures Clean(Clean(s)) == Clean(s)
  {
    CleanNormal(s);
    CleanRender(CleanPath(s));
  }

  /** Joining cleans the second path onto the cleaned first one. */
  lemma JoinSteps(a: string, b: string)
    requires a != ""
    ensures JoinPath(a, b) == Render(PushAll(CleanPath(a), Split(b, '/')))
  {
    if b != "" {
      SplitAtSep(a, b, '/');
      assert a + ['/'] + b == a + "/" + b;
      PushAllConcat(CPath(IsAbs(a), []), Split(a, '/'), Split(b, '/'));
    }
  }

  // ------------------------------------------------------------ the escape test

  /** On a rendered relative path the string test sees exactly a leading `..`. */
  lemma EscapesMeaning(p: CPath)
    requires Normal(p) && !p.rooted
    ensures Escapes(Render(p)) <==> p.comps != [] && p.comps[0] == ".."
  {
    if p.comps != [] {
      var j := Join(p.comps, '/');
      var c := p.comps[0];
      assert forall k :: 0 <= k < |c| ==> c[k] in c;
      assert |c| <= |j| && forall k :: 0 <= k < |c| ==> j[k] == c[k] && j[k] != '/';
      assert |p.comps| > 1 ==> |j| > |c| && j[|c|] == '/';
      assert |p.comps| == 1 ==> j == c;
      assert HasPrefix(j, "../") <==> |j| >= 3 && j[0] == '.' && j[1] == '.' && j[2] == '/';
      assert c == ".." <==> |c| == 2 && c[0] == '.' && c[1] == '.';
    }
  }

  lemma RelCompsVerdict(root: CPath, target: CPath)
    requires Normal(root) && Normal(target) && root.rooted == target.rooted
    ensures var rel := RelComps(root, target);
            && (rel.Some? ==> Normal(rel.value) && !rel.value.rooted)
            && ((rel.Some? && !(rel.value.comps != [] && rel.value.comps[0] == "..")) <==>
                (root.comps <= target.comps &&
                 (|target.comps| > |root.comps| ==> target.comps[|root.comps|] != "..")))
  {
    var n := CommonPrefix(root.comps, target.comps);
    if RelComps(root, target).Some? {
      BelowNormal(root, target, n);
      assert n == |root.comps| ==> RelComps(root, target).value.comps == target.comps[n..];
    }
  }

  /** What a resolver's `Rel` check decides for a target below, beside or above
      the root. */
  lemma RelVerdict(root: CPath, target: CPath)
    requires Normal(root) && Normal(target) && root.rooted == target.rooted
    ensures var rel := Rel(Render(root), Render(target));
            (rel.Ok? && !Escapes(rel.value)) <==>
            (root.comps <= target.comps &&
             (|target.comps| > |root.comps| ==> target.comps[|root.comps|] != ".."))
  {
    CleanRender(root);
    CleanRender(target);
    RelCompsVerdict(root, target);
    var rel := RelComps(root, target);
    if rel.Some? {
      EscapesMeaning(rel.value);
    }
  }

  lemma BelowNormal(root: CPath, target: CPath, n: nat)
    requires Normal(root) && Normal(target) && root.rooted == target.rooted
    requires n == CommonPrefix(root.comps, target.comps)
    requires !(n < |root.comps| && root.comps[n] == "..")
    ensures Normal(CPath(false, Ups(|root.comps| - n) + target.comps[n..]))
  {
    var ups := Ups(|root.comps| - n);
    var c := ups + target.comps[n..];
    forall i | 0 <= i < |c| && c[i] == ".."
      ensures forall j :: 0 <= j < i ==> c[j] == ".."
    {
      forall j | 0 <= j < i
        ensures c[j] == ".."
      {
        if j >= |ups| {
          assert c[i] == target.comps[n + i - |ups|];
          assert c[j] == target.comps[n + j - |ups|];
        }
      }
    }
  }

  // ----------------------------------------------------------- host paths

  /** `resolveSyncHostPath` (and its twin in package compare). */
  function ResolveHostPath(hostRoot: string, tracked: string): Result<string> {
    if Blank(tracked) then Err("tracked host path cannot be empty")
    else if !IsAbs(tracked) then Err("tracked host path must be absolute")
    else
      var root := if Blank(hostRoot) then "/" else hostRoot;
      var cleanRoot := Clean(root);
      var cleaned := Clean(tracked);
      var relative := if HasPrefix(cleaned, "/") then cleaned[1..] else cleaned;
      var resolved := JoinPath(cleanRoot, relative);
      match Rel(cleanRoot, resolved)
      case Err(e) => Err(e)
      case Ok(rel) => if Escapes(rel) then Err("tracked host path escapes host root") else Ok(resolved)
  }

  function HostRoot(hostRoot: string): CPath {
    CleanPath(if Blank(hostRoot) then "/" else hostRoot)
  }

  /** Where a tracked path lands: the cleaned root followed by the cleaned path. */
  function HostTarget(hostRoot: string, tracked: string): CPath {
    var r := HostRoot(hostRoot);
    CPath(r.rooted, r.comps + CleanPath(tracked).comps)
  }

  lemma AbsNotBlank(s: string)
    requires IsAbs(s)
    ensures !Blank(s)
  {
    BlankMeaning(s);
  }

  lemma HostTargetNormal(hostRoot: string, tracked: string)
    requires IsAbs(tracked)
    ensures Normal(HostTarget(hostRoot, tracked))
  {
    CleanNormal(if Blank(hostRoot) then "/" else hostRoot);
    CleanNormal(tracked);
  }

  /** Joining the root and the path without its slash appends the components. */
  lemma JoinBelow(root: CPath, path: CPath)
    requires Normal(root) && Normal(path) && path.rooted && Normal(CPath(root.rooted, root.comps + path.comps))
    ensures JoinPath(Render(root), Render(path)[1..]) == Render(CPath(root.rooted, root.comps + path.comps))
  {
    var relative := Join(path.comps, '/');
    assert Render(path)[1..] == relative;
    RenderAbs(root);
    CleanRender(root);
    JoinSteps(Render(root), relative);
    if path.comps == [] {
      assert Split(relative, '/') == [""];
      assert PushAll(root, [""]) == root;
      assert root.comps + path.comps == root.comps;
    } else {
      SplitJoin(path.comps, '/');
      PushAllAppends(root, path.comps);
    }
  }

  /** An absolute tracked path always resolves, to the root plus the cleaned path:
      neither the `Rel` error nor the escape branch can be reached. Any other
      path is refused. */
  lemma ResolveHostPathExact(hostRoot: string, tracked: string)
    ensures ResolveHostPath(hostRoot, tracked).Ok? <==> IsAbs(tracked)
    ensures IsAbs(tracked) ==>
      ResolveHostPath(hostRoot, tracked) == Ok(Render(HostTarget(hostRoot, tracked)))
  {
    if IsAbs(tracked) {
      var root, path := HostRoot(hostRoot), CleanPath(tracked);
      AbsNotBlank(tracked);
      CleanNormal(if Blank(hostRoot) then "/" else hostRoot);
      CleanNormal(tracked);
      HostTargetNormal(hostRoot, tracked);
      JoinBelow(root, path);
      RelVerdict(root, HostTarget(hostRoot, tracked));
    }
  }

  /** Under one root, two absolute tracked paths resolve to the same place exactly
      when they clean to the same path. */
  lemma ResolveHostPathInjective(hostRoot: string, a: string, b: string)
    requires IsAbs(a) && IsAbs(b)
    ensures ResolveHostPath(hostRoot, a) == ResolveHostPath(hostRoot, b) <==> Clean(a) == Clean(b)
  {
    ResolveHostPathExact(hostRoot, a);
    ResolveHostPathExact(hostRoot, b);
    HostTargetNormal(hostRoot, a);
    HostTargetNormal(hostRoot, b);
    RenderInjective(HostTarget(hostRoot, a), HostTarget(hostRoot, b));
    CleanNormal(a);
    CleanNormal(b);
    RenderInjective(CleanPath(a), CleanPath(b));
    var r := HostRoot(hostRoot).comps;
    if r + CleanPath(a).comps == r + CleanPath(b).comps {
      assert CleanPath(a).comps == (r + CleanPath(a).comps)[|r|..];
      assert CleanPath(b).comps == (r + CleanPath(b).comps)[|r|..];
    }
  }

  // ---------------------------------------------------------- bundle paths

  /** `resolveSyncBundlePath`. */
  function ResolveBundlePath(bundleRoot: string, bundleRel: string): Result<string> {
    if Blank(bundleRel) then Err("bundle path cannot be empty")
    else if IsAbs(bundleRel) then Err("bundle path must be relative")
    else
      var resolved := JoinPath(bundleRoot, bundleRel);
      match Rel(bundleRoot, resolved)
      case Err(e) => Err(e)
      case Ok(rel) => if Escapes(rel) then Err("bundle path escapes bundle root") else Ok(resolved)
  }

  /** The cleaned path a relative bundle path denotes under a root. */
  function BundleTarget(bundleRoot: string, bundleRel: string): CPath {
    PushAll(CleanPath(bundleRoot), Split(bundleRel, '/'))
  }

  lemma BundleJoin(bundleRoot: string, bundleRel: string)
    requires bundleRel != ""
    requires !IsAbs(bundleRel)
    ensures JoinPath(bundleRoot, bundleRel) == Render(BundleTarget(bundleRoot, bundleRel))
    ensures Normal(BundleTarget(bundleRoot, bundleRel))
    ensures BundleTarget(bundleRoot, bundleRel).rooted == CleanPath(bundleRoot).rooted
  {
    CleanNormal(bundleRoot);
    PushAllNormal(CleanPath(bundleRoot), Split(bundleRel, '/'));
    if bundleRoot == "" {
      assert CleanPath("") == CPath(false, []);
    } else {
      JoinSteps(bundleRoot, bundleRel);
    }
  }

  /** A bundle path is accepted exactly when it is not blank, is relative, and the
      joined path lies below the cleaned root: the root's components are a
      prefix and the next component does not climb. */
  lemma ResolveBundlePathExact(bundleRoot: string, bundleRel: string)
    ensures var root, target := CleanPath(bundleRoot).comps, BundleTarget(bundleRoot, bundleRel).comps;
            ResolveBundlePath(bundleRoot, bundleRel).Ok? <==>
            (&& !Blank(bundleRel) && !IsAbs(bundleRel)
             && root <= target && (|target| > |root| ==> target[|root|] != ".."))
    ensures ResolveBundlePath(bundleRoot, bundleRel).Ok? ==>
            ResolveBundlePath(bundleRoot, bundleRel).value == Render(BundleTarget(bundleRoot, bundleRel))
  {
    if !Blank(bundleRel) && !IsAbs(bundleRel) {
      var root, target := CleanPath(bundleRoot), BundleTarget(bundleRoot, bundleRel);
      BundleJoin(bundleRoot, bundleRel);
      CleanNormal(bundleRoot);
      RelVerdict(root, target);
      CleanRender(root);
    }
  }

  /** Under a rooted path, or one that ends in a name, being below the root is
      just having the root's components as a prefix. */
  lemma BundlePrefixExact(bundleRoot: string, bundleRel: string)
    requires !Blank(bundleRel) && !IsAbs(bundleRel)
    requires var root := CleanPath(bundleRoot);
             root.rooted || (root.comps != [] && root.comps[|root.comps| - 1] != "..")
    ensures ResolveBundlePath(bundleRoot, bundleRel).Ok? <==>
            CleanPath(bundleRoot).comps <= BundleTarget(bundleRoot, bundleRel).comps
  {
    ResolveBundlePathExact(bundleRoot, bundleRel);
    CleanNormal(bundleRoot);
    BundleJoin(bundleRoot, bundleRel);
  }

  /** For a root made only of climbs the prefix alone is not enough: joining `..`
      onto the root `..` keeps the prefix and is still refused. */
  lemma BundlePrefixNotEnough()
    ensures CleanPath("..").comps <= BundleTarget("..", "..").comps
    ensures ResolveBundlePath("..", "..").Err?
  {
    var dd := "..";
    SplitWord(dd, '/');
    var start := CPath(false, []);
    assert Push(start, dd) == CPath(false, [dd]);
    assert PushAll(start, [dd]) == PushAll(Push(start, dd), []);
    assert CleanPath(dd) == CPath(false, [dd]);
    assert PushAll(CPath(false, [dd]), [dd]) == PushAll(Push(CPath(false, [dd]), dd), []);
    assert BundleTarget(dd, dd).comps == [dd, dd];
    ResolveBundlePathExact(dd, dd);
  }
}
