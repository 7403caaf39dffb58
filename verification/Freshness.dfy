/** `syncRenderInputStatusForBundle`: rechecking recorded render inputs later,
    and what its verdict means. */
module Freshness {
  import opened GoStrings
  import opened Paths
  import opened DirectoryDigest
  import opened RenderInputs
  import Sorting

  datatype Change = Change(name: string, path: string, expected: string, current: string, reason: string)

  /** The part of the check that is in force when a release source is recorded. */
  function LookupChanges(c: Codec, s: Store, p: Provenance, revision: string): seq<Change> {
    match Lookup(c, s, p.line, p.channel, p.source)
    case Err(e) => [Change("releaseLookup", p.source, p.bomDigest, "", e)]
    case Ok(t) =>
      if Trim(t.bomDigest) != Trim(p.bomDigest) then
        [Change("releaseLookup", p.source, p.bomDigest, t.bomDigest, "resolved BOM digest mismatch")]
      else if t.doc.revision != revision then
        [Change("releaseLookup", p.source, revision, t.doc.revision, "resolved BOM revision mismatch")]
      else []
  }

  /** One recorded file against the bytes now at its path. */
  function FileChanges(c: Codec, s: Store, name: string, path: string, digest: string): seq<Change> {
    if Blank(path) || Blank(digest) then [Change(name, path, "", "", "missing provenance")]
    else match Read(s, path)
      case None => [Change(name, path, digest, "", "read")]
      case Some(data) =>
        if c.hash(data) != digest then [Change(name, path, digest, c.hash(data), "digest mismatch")] else []
  }

  function TargetChanges(c: Codec, s: Store, p: Provenance, revision: string): seq<Change> {
    if !Blank(p.source) then LookupChanges(c, s, p, revision)
    else
      (if Blank(p.channelPath) && Blank(p.channelDigest) then []
       else FileChanges(c, s, "releaseChannel", p.channelPath, p.channelDigest))
      + FileChanges(c, s, "bom", p.bomPath, p.bomDigest)
  }

  function RepoChanges(s: Store, path: string, revision: string): seq<Change> {
    if Blank(path) then []
    else match LoadRepo(s, path)
      case None => [Change("localRepo", path, revision, "", "load")]
      case Some(current) =>
        if current != revision then [Change("localRepo", path, revision, current, "revision mismatch")] else []
  }

  function SourceChange(c: Codec, s: Store, p: PackageSource): seq<Change> {
    var name := if Blank(p.component) then "packageSource" else "packageSource:" + p.component;
    match Entry(s, p.path)
    case None => [Change(name, p.path, "", "", "stat")]
    case Some(node) =>
      if node.FileNode? then [Change(name, p.path, "", "", "path is not a directory")]
      else if Blank(p.digest) then [Change(name, p.path, "", "", "missing package source digest provenance")]
      else match Digest(c.hash, node)
        case Err(e) => [Change(name, p.path, p.digest, "", e)]
        case Ok(d) => if d != p.digest then [Change(name, p.path, p.digest, d, "digest mismatch")] else []
  }

  function SourceChanges(c: Codec, s: Store, sources: seq<PackageSource>): seq<Change> {
    FlatMap(SourceCheck(c, s), sources)
  }

  function SourceCheck(c: Codec, s: Store): PackageSource -> seq<Change> {
    p => SourceChange(c, s, p)
  }

  function Changes(c: Codec, s: Store, p: Provenance, revision: string): seq<Change> {
    TargetChanges(c, s, p, revision) + RepoChanges(s, p.repoPath, p.repoRevision) + SourceChanges(c, s, p.sources)
  }

  datatype Status = Missing | Matched(provenance: Provenance) | Stale(provenance: Provenance, changes: seq<Change>)

  function StatusOf(c: Codec, s: Store, bundle: Option<Bundle>): Status {
    if bundle.None? || Empty(bundle.value.provenance) then Missing
    else
      var p := Normalize(bundle.value.provenance);
      var changes := Changes(c, s, p, bundle.value.revision);
      if changes == [] then Matched(p) else Stale(p, changes)
  }

  /** The check as written: `changes` grows step by step, the package sources
      last, one after the other. */
  method RenderInputStatus(c: Codec, s: Store, bundle: Option<Bundle>) returns (r: Status)
    ensures r == StatusOf(c, s, bundle)
  {
    if bundle.None? || Empty(bundle.value.provenance) {
      return Missing;
    }
    var p := Normalize(bundle.value.provenance);
    var changes := AppendTarget(c, s, p, bundle.value.revision);
    changes := changes + RepoChanges(s, p.repoPath, p.repoRevision);
    changes := AppendEach(SourceCheck(c, s), changes, p.sources);
    return if changes == [] then Matched(p) else Stale(p, changes);
  }

  method AppendTarget(c: Codec, s: Store, p: Provenance, revision: string) returns (changes: seq<Change>)
    ensures changes == TargetChanges(c, s, p, revision)
  {
    changes := [];
    if !Blank(p.source) {
      changes := changes + LookupChanges(c, s, p, revision);
    } else if !Blank(p.channelPath) || !Blank(p.channelDigest) {
      changes := changes + FileChanges(c, s, "releaseChannel", p.channelPath, p.channelDigest);
    }
    if Blank(p.source) {
      changes := changes + FileChanges(c, s, "bom", p.bomPath, p.bomDigest);
    }
  }

  // -------------------------------------------------- what a bundle records

  lemma AbsIsAbs(s: Store, p: string)
    requires IsAbs(s.cwd)
    ensures IsAbs(Abs(s, p)) && Clean(Abs(s, p)) == Abs(s, p)
    ensures !Blank(Abs(s, p)) && Trim(Abs(s, p)) != ""
  {
    var q := if IsAbs(p) then p else if p == "" then s.cwd else s.cwd + "/" + p;
    CleanNormal(q);
    RenderAbs(CleanPath(q));
    CleanIdempotent(q);
    AbsNotBlank(Abs(s, p));
  }

  /** An absolute path resolves to the same entry from every directory. */
  lemma AbsStable(s: Store, s1: Store, p: string)
    requires IsAbs(s.cwd)
    ensures Abs(s1, Abs(s, p)) == Abs(s, p)
  {
    AbsIsAbs(s, p);
  }

  ghost predicate GoodRoots(s: Store, roots: map<string, string>) {
    forall n :: n in roots ==>
      && n != "" && Trimmed(n)
      && Entry(s, roots[n]).Some?
      && exists p :: roots[n] == Abs(s, p)
  }

  lemma RootAdded(s: Store, roots: map<string, string>, n: string, root: string)
    requires IsAbs(s.cwd) && GoodRoots(s, roots) && n != "" && Trimmed(n) && Entry(s, Abs(s, root)).Some?
    ensures GoodRoots(s, roots[n := Abs(s, root)])
  {
  }

  lemma BindKeepsGood(c: Codec, s: Store, doc: Doc, roots: map<string, string>, value: string)
    requires IsAbs(s.cwd) && GoodRoots(s, roots) && BindSource(c, s, doc, roots, value).Ok?
    ensures GoodRoots(s, BindSource(c, s, doc, roots, value).value)
  {
    var (left, right) := Cut(value, '=').value;
    TrimIsTrimmed(left);
    RootAdded(s, roots, Trim(left), Trim(right));
  }

  lemma {:induction false} BoundRoots(c: Codec, s: Store, doc: Doc, roots: map<string, string>, values: seq<string>)
    requires IsAbs(s.cwd) && GoodRoots(s, roots) && BindSources(c, s, doc, roots, values).Ok?
    ensures GoodRoots(s, BindSources(c, s, doc, roots, values).value)
    decreases |values|
  {
    if values != [] {
      BindKeepsGood(c, s, doc, roots, values[0]);
      BoundRoots(c, s, doc, BindSource(c, s, doc, roots, values[0]).value, values[1..]);
    }
  }

  /** Source `i` of the record is the `i`-th name, its root and the digest of
      what stood there. */
  lemma {:induction false} RecordedSources(c: Codec, s: Store, roots: map<string, string>, names: seq<string>)
    requires forall n :: n in names ==> n in roots
    requires RecordSources(c, s, roots, names).Ok?
    ensures var r := RecordSources(c, s, roots, names).value;
            && |r| == |names|
            && forall i :: 0 <= i < |names| ==> RecordSource(c, s, names[i], roots[names[i]]) == Ok(r[i])
    decreases |names|
  {
    if names != [] {
      RecordedSources(c, s, roots, names[1..]);
    }
  }
}
