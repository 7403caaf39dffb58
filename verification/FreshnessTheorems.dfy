/** When a rendered bundle is reported fresh: exactly when every recorded input
    still has its recorded value at its recorded path. */
module FreshnessTheorems {
  import opened GoStrings
  import opened Paths
  import opened DirectoryDigest
  import opened RenderInputs
  import opened Freshness
  import Sorting

  // ---------------------------------------- what "unchanged" means, by input

  /** Where the BOM is recorded to be. */
  function BomPlace(c: Codec, s0: Store, t: Target): string {
    if IsRemote(c, t.bomPath) then t.bomPath else Abs(s0, t.bomPath)
  }

  /** The bytes the recorded BOM digest stands for, if one is recorded. */
  function BomBytes(c: Codec, s0: Store, t: Target): Option<string> {
    if Blank(t.bomPath) then None
    else if IsRemote(c, t.bomPath) then if t.bomDigest == "" then None else Some(t.data)
    else Read(s0, Abs(s0, t.bomPath))
  }

  ghost predicate LookupSame(c: Codec, s1: Store, t: Target)
    requires t.channelDoc.Some?
  {
    var found := Lookup(c, s1, Trim(t.channelDoc.value.distribution), t.channelDoc.value.channel, t.source);
    found.Ok? && found.value.data == t.data
  }

  ghost predicate ChannelSame(s0: Store, s1: Store, t: Target) {
    t.channelPath != "" ==>
      Read(s1, Trim(Abs(s0, t.channelPath))) == Read(s0, Abs(s0, t.channelPath))
  }

  ghost predicate BomSame(c: Codec, s0: Store, s1: Store, t: Target) {
    BomBytes(c, s0, t).Some? && Read(s1, Trim(BomPlace(c, s0, t))) == BomBytes(c, s0, t)
  }

  ghost predicate TargetSame(c: Codec, s0: Store, s1: Store, t: Target) {
    if t.source != "" then t.channelDoc.Some? && LookupSame(c, s1, t)
    else ChannelSame(s0, s1, t) && BomSame(c, s0, s1, t)
  }

  ghost predicate RepoSame(s1: Store, t: Trace) {
    t.repo.Some? ==> LoadRepo(s1, Trim(t.repoPath)) == t.repo
  }

  ghost predicate SourceSame(s0: Store, s1: Store, root: string)
    requires Entry(s0, root).Some?
  {
    Entry(s1, Trim(root)).Some? && Walked(Entry(s1, Trim(root)).value) == Walked(Entry(s0, root).value)
  }

  // ------------------------------------------------------- one file or lookup

  lemma FileFresh(c: Codec, s1: Store, name: string, path: string, digest: string, bytes: Option<string>)
    requires GoodHash(c.hash)
    requires bytes.Some? ==> digest == c.hash(bytes.value)
    requires bytes.None? ==> digest == ""
    requires Trim(path) == path
    ensures FileChanges(c, s1, name, path, digest) == [] <==> bytes.Some? && Read(s1, path) == bytes
  {
    if bytes.Some? {
      TrimFixpoint(digest);
    }
  }

  /** What `resolveSyncTarget` guarantees about each kind of target. */
  ghost predicate GoodTarget(c: Codec, s: Store, t: Target) {
    && (t.source != "" ==>
          && !Blank(t.source) && Trimmed(t.source) && t.channelPath == "" && t.channelSource == ""
          && t.channelDoc.Some? && t.bomDigest == c.hash(t.data) && !Blank(t.bomPath)
          && t.channelDoc.value.channel in CHANNELS
          && (!IsRemote(c, t.bomPath) ==> Read(s, t.bomPath) == Some(t.data))
          && c.bom(t.data) == Some(t.doc))
    && (t.source == "" ==>
          && (t.channelPath == "" ==> t.channelSource == "" && t.bomDigest == "")
          && (t.channelPath != "" ==>
                !Blank(t.channelPath) && Read(s, t.channelPath).Some? && t.bomDigest == c.hash(t.data)))
  }

  lemma LookupGood(c: Codec, s: Store, line: string, channel: string, source: string)
    requires GoodHash(c.hash) && ValidStore(s) && Trimmed(source)
    requires Lookup(c, s, line, channel, source).Ok?
    ensures GoodTarget(c, s, Lookup(c, s, line, channel, source).value)
    ensures Lookup(c, s, line, channel, source).value.source == source != ""
  {
    TrimFixpoint(source);
  }

  lemma TargetGood(c: Codec, s: Store, o: TargetOptions)
    requires GoodHash(c.hash) && ValidStore(s) && ResolveTarget(c, s, o).Ok?
    ensures GoodTarget(c, s, ResolveTarget(c, s, o).value)
  {
    TrimIsTrimmed(o.source);
    TrimIdempotent(o.channelPath);
    if Selected(o)[0].ByLookup? {
      LookupGood(c, s, Trim(o.line), Trim(o.channel), Trim(o.source));
    }
  }

  /** With a release source recorded: the lookup must find the same BOM bytes.
      The separate revision test never decides, the bytes already fix it. */
  lemma LookupFresh(c: Codec, s0: Store, s1: Store, t: Target, p: Provenance)
    requires GoodHash(c.hash) && ValidStore(s1) && GoodTarget(c, s0, t) && t.source != ""
    requires p.source == t.source && p.line == Trim(t.channelDoc.value.distribution)
    requires p.channel == t.channelDoc.value.channel && p.bomDigest == c.hash(t.data)
    ensures LookupChanges(c, s1, p, t.doc.revision) == [] <==> LookupSame(c, s1, t)
  {
    var found := Lookup(c, s1, p.line, p.channel, p.source);
    if found.Ok? {
      LookupGood(c, s1, p.line, p.channel, p.source);
      TrimFixpoint(c.hash(found.value.data));
      TrimFixpoint(c.hash(t.data));
    }
  }

  lemma RepoFresh(s1: Store, t: Trace)
    requires ValidStore(s1)
    requires t.repo.None? ==> t.repoPath == ""
    requires t.repo.Some? ==> Trim(t.repoPath) != "" && Trimmed(t.repo.value)
    ensures RepoChanges(s1, Trim(t.repoPath), Trim(RevisionOf(t.repo))) == []
       <==> RepoSame(s1, t)
  {
    TrimIdempotent(t.repoPath);
    if t.repo.Some? {
      TrimFixpoint(t.repo.value);
    }
  }

  lemma SourceFresh(c: Codec, s0: Store, s1: Store, name: string, root: string, p: PackageSource)
    requires GoodHash(c.hash) && ValidStore(s0) && ValidStore(s1)
    requires RecordSource(c, s0, name, root) == Ok(p)
    ensures SourceChange(c, s1, TrimSource(p)) == [] <==> SourceSame(s0, s1, root)
  {
    var was := Entry(s0, root).value;
    TrimFixpoint(p.digest);
    if Entry(s1, Trim(root)).Some? {
      var node := Entry(s1, Trim(root)).value;
      if Digest(c.hash, node).Ok? {
        DigestExact(c.hash, was, node);
      }
    }
  }

  lemma {:induction false} FlatMapEmpty<T(!new), R>(f: T -> seq<R>, s: seq<T>)
    ensures FlatMap(f, s) == [] <==> forall i :: 0 <= i < |s| ==> f(s[i]) == []
  {
    if s != [] {
      FlatMapEmpty(f, s[1..]);
      if FlatMap(f, s) == [] {
        assert f(s[0]) == [] && FlatMap(f, s[1..]) == [];
        forall i | 0 <= i < |s|
          ensures f(s[i]) == []
        {
          assert i > 0 ==> s[i] == s[1..][i - 1];
        }
      }
    }
  }

  // --------------------------------------------------------- the whole bundle

  lemma Assembled(t: Target, repoPath: string, repo: Option<string>, patch: string,
                  ch: Result<(string, string)>, bom: Result<(string, string)>, src: Result<seq<PackageSource>>,
                  r: Provenance)
    requires Assemble(t, repoPath, repo, patch, ch, bom, src) == Ok(r)
    ensures ch.Ok? && bom.Ok? && src == Ok(r.sources)
    ensures r == Provenance(ch.value.0, ch.value.1, Trim(t.source), LineOf(t), ChannelOf(t),
                            bom.value.0, bom.value.1, Trim(repoPath), RevisionOf(repo), Trim(patch), r.sources)
  {
  }

  lemma RecordNamed(c: Codec, s0: Store, o: RenderOptions, t: Trace, names: seq<string>)
    requires GoodRoots(s0, t.roots) && RecordedWith(c, s0, o, t, names)
    ensures NamedInOrder(t.recorded.sources) && |t.recorded.sources| == |names|
    ensures forall i :: 0 <= i < |names| ==>
      RecordSource(c, s0, names[i], t.roots[names[i]]) == Ok(t.recorded.sources[i])
  {
    Assembled(t.target, t.repoPath, t.repo, o.patch, RecordChannel(c, s0, t.target), RecordBom(c, s0, t.target),
              RecordSources(c, s0, t.roots, names), t.recorded);
    NamedSources(c, s0, t.roots, names, t.recorded.sources);
  }

  lemma NamedSources(c: Codec, s0: Store, roots: map<string, string>, names: seq<string>, r: seq<PackageSource>)
    requires GoodRoots(s0, roots) && Keys(names, roots) && RecordSources(c, s0, roots, names) == Ok(r)
    ensures NamedInOrder(r) && |r| == |names|
    ensures forall i :: 0 <= i < |names| ==> RecordSource(c, s0, names[i], roots[names[i]]) == Ok(r[i])
  {
    RecordedSources(c, s0, roots, names);
    forall i | 0 <= i < |r|
      ensures r[i].component == names[i] && names[i] in roots
    {
      assert RecordSource(c, s0, names[i], roots[names[i]]) == Ok(r[i]);
      assert names[i] in names;
    }
  }

  /** The sources part of the verdict. */
  lemma SourcesFresh(c: Codec, s0: Store, s1: Store, o: RenderOptions, t: Trace, names: seq<string>)
    requires GoodHash(c.hash) && ValidStore(s0) && ValidStore(s1)
    requires GoodRoots(s0, t.roots) && RecordedWith(c, s0, o, t, names)
    ensures SourceChanges(c, s1, TrimAll(t.recorded.sources)) == []
       <==> forall n :: n in t.roots ==> SourceSame(s0, s1, t.roots[n])
  {
    var r := t.recorded.sources;
    RecordNamed(c, s0, o, t, names);
    FlatMapEmpty(SourceCheck(c, s1), TrimAll(r));
    forall i | 0 <= i < |r|
      ensures SourceCheck(c, s1)(TrimAll(r)[i]) == [] <==> SourceSame(s0, s1, t.roots[names[i]])
    {
      SourceFresh(c, s0, s1, names[i], t.roots[names[i]], r[i]);
    }
    if forall i :: 0 <= i < |r| ==> SourceCheck(c, s1)(TrimAll(r)[i]) == [] {
      forall n | n in t.roots
        ensures SourceSame(s0, s1, t.roots[n])
      {
        assert n in names;
        var i :| 0 <= i < |names| && names[i] == n;
        assert SourceCheck(c, s1)(TrimAll(r)[i]) == [];
      }
    }
  }

  /** The target part of the verdict. */
  lemma TargetFresh(c: Codec, s0: Store, s1: Store, t: Target, p: Provenance)
    requires GoodHash(c.hash) && ValidStore(s0) && ValidStore(s1) && GoodTarget(c, s0, t)
    requires RecordChannel(c, s0, t).Ok? && RecordBom(c, s0, t).Ok?
    requires p.source == Trim(t.source)
    requires p.channelPath == Trim(RecordChannel(c, s0, t).value.0)
    requires p.channelDigest == Trim(RecordChannel(c, s0, t).value.1)
    requires p.bomPath == Trim(RecordBom(c, s0, t).value.0)
    requires p.bomDigest == Trim(RecordBom(c, s0, t).value.1)
    requires t.channelDoc.Some? ==> p.line == Trim(t.channelDoc.value.distribution)
    requires t.source != "" ==> p.channel == t.channelDoc.value.channel
    ensures TargetChanges(c, s1, p, t.doc.revision) == [] <==> TargetSame(c, s0, s1, t)
  {
    RecordedBom(c, s0, t);
    TrimFixpoint(t.source);
    TrimIdempotent(RecordBom(c, s0, t).value.0);
    TrimIdempotent(RecordChannel(c, s0, t).value.0);
    if t.source != "" {
      SameBomBytes(c, s0, t);
      LookupFresh(c, s0, s1, t, p);
    } else {
      FileFresh(c, s1, "bom", p.bomPath, p.bomDigest, BomBytes(c, s0, t));
      ChannelFresh(c, s0, s1, t, p);
    }
  }

  lemma RecordedBom(c: Codec, s0: Store, t: Target)
    requires GoodHash(c.hash) && ValidStore(s0) && GoodTarget(c, s0, t) && RecordBom(c, s0, t).Ok?
    ensures var (path, digest) := RecordBom(c, s0, t).value; var bytes := BomBytes(c, s0, t);
      && (bytes.Some? ==> Trim(digest) == c.hash(bytes.value) && Trim(path) == Trim(BomPlace(c, s0, t)))
      && (bytes.None? ==> Trim(digest) == "")
  {
    if BomBytes(c, s0, t).Some? {
      TrimFixpoint(c.hash(BomBytes(c, s0, t).value));
    }
    TrimIdempotent(t.bomPath);
  }

  lemma SameBomBytes(c: Codec, s0: Store, t: Target)
    requires GoodHash(c.hash) && ValidStore(s0) && GoodTarget(c, s0, t) && t.source != ""
    ensures BomBytes(c, s0, t) == Some(t.data)
  {
    AbsIsAbs(s0, t.bomPath);
  }

  lemma ChannelFresh(c: Codec, s0: Store, s1: Store, t: Target, p: Provenance)
    requires GoodHash(c.hash) && ValidStore(s0) && GoodTarget(c, s0, t) && t.source == ""
    requires RecordChannel(c, s0, t).Ok?
    requires p.channelPath == Trim(RecordChannel(c, s0, t).value.0)
    requires p.channelDigest == Trim(RecordChannel(c, s0, t).value.1)
    ensures (if Blank(p.channelPath) && Blank(p.channelDigest) then true
             else FileChanges(c, s1, "releaseChannel", p.channelPath, p.channelDigest) == [])
       <==> ChannelSame(s0, s1, t)
  {
    TrimIdempotent(RecordChannel(c, s0, t).value.0);
    if t.channelPath != "" {
      var text := Read(s0, Abs(s0, t.channelPath));
      TrimFixpoint(c.hash(text.value));
      FileFresh(c, s1, "releaseChannel", p.channelPath, p.channelDigest, text);
    }
  }

  /** Normalizing what was recorded only trims it. */
  lemma BundleNormal(c: Codec, s0: Store, o: RenderOptions, t: Trace, b: Bundle, names: seq<string>)
    requires GoodRoots(s0, t.roots) && RecordedWith(c, s0, o, t, names) && b == Bundled(o, t)
    ensures b.provenance.sources == TrimAll(t.recorded.sources)
    ensures Normalize(b.provenance) == b.provenance
  {
    var p := t.recorded;
    RecordNamed(c, s0, o, t, names);
    NormalizeSources(p.sources);
    NormalizeSources(TrimAll(p.sources));
    TrimAllTwice(p.sources);
    TrimIdempotent(p.channelPath);
    TrimIdempotent(p.channelDigest);
    TrimIdempotent(p.source);
    TrimIdempotent(p.line);
    TrimIdempotent(p.channel);
    TrimIdempotent(p.bomPath);
    TrimIdempotent(p.bomDigest);
    TrimIdempotent(p.repoPath);
    TrimIdempotent(RevisionOf(t.repo));
    TrimIdempotent(o.patch);
  }

  lemma RepoOpened(s0: Store, o: RenderOptions, t: Trace)
    requires ValidStore(s0) && OpenRepo(s0, o.repo) == Ok((t.repoPath, t.repo))
    ensures t.repo.None? ==> t.repoPath == ""
    ensures t.repo.Some? ==> Trim(t.repoPath) != "" && Trimmed(t.repo.value)
  {
    AbsIsAbs(s0, o.repo);
  }

  /** A bundle is reported fresh when no part of the check finds a change. */
  lemma Verdict(c: Codec, s1: Store, b: Bundle)
    requires Normalize(b.provenance) == b.provenance
    ensures var p := b.provenance;
      StatusOf(c, s1, Some(b)).Matched? <==>
        && !Empty(p) && TargetChanges(c, s1, p, b.revision) == []
        && RepoChanges(s1, p.repoPath, p.repoRevision) == [] && SourceChanges(c, s1, p.sources) == []
  {
  }

  lemma EmptyNotFresh(c: Codec, s1: Store, p: Provenance, revision: string)
    requires Empty(p)
    ensures TargetChanges(c, s1, p, revision) != []
  {
  }

  lemma BundleFields(c: Codec, s0: Store, o: RenderOptions, t: Trace, b: Bundle, names: seq<string>)
    requires RecordedWith(c, s0, o, t, names) && b == Bundled(o, t)
    ensures RecordChannel(c, s0, t.target).Ok? && RecordBom(c, s0, t.target).Ok?
    ensures var p, g := b.provenance, t.target;
      && p.source == Trim(g.source) && p.line == LineOf(g) && p.channel == Trim(ChannelOf(g))
      && p.channelPath == Trim(RecordChannel(c, s0, g).value.0)
      && p.channelDigest == Trim(RecordChannel(c, s0, g).value.1)
      && p.bomPath == Trim(RecordBom(c, s0, g).value.0)
      && p.bomDigest == Trim(RecordBom(c, s0, g).value.1)
      && p.repoPath == Trim(t.repoPath) && p.repoRevision == Trim(RevisionOf(t.repo))
  {
    var g := t.target;
    Assembled(g, t.repoPath, t.repo, o.patch, RecordChannel(c, s0, g), RecordBom(c, s0, g),
              RecordSources(c, s0, t.roots, names), t.recorded);
    TrimIdempotent(g.source);
    TrimIdempotent(t.repoPath);
    if g.channelDoc.Some? {
      TrimIdempotent(g.channelDoc.value.distribution);
    }
  }

  ghost predicate AllSourcesSame(s0: Store, s1: Store, roots: map<string, string>)
    requires forall n :: n in roots ==> Entry(s0, roots[n]).Some?
  {
    forall n :: n in roots ==> SourceSame(s0, s1, roots[n])
  }

  lemma KnownChannel(c: Codec, s0: Store, t: Target)
    requires GoodTarget(c, s0, t)
    ensures t.source != "" ==> Trim(ChannelOf(t)) == t.channelDoc.value.channel
  {
    if t.source != "" {
      TrimFixpoint(t.channelDoc.value.channel);
    }
  }

  lemma TargetVerdict(c: Codec, s0: Store, s1: Store, o: RenderOptions, t: Trace, b: Bundle, names: seq<string>)
    requires GoodHash(c.hash) && ValidStore(s0) && ValidStore(s1)
    requires GoodTarget(c, s0, t.target) && RecordedWith(c, s0, o, t, names) && b == Bundled(o, t)
    ensures TargetChanges(c, s1, b.provenance, b.revision) == [] <==> TargetSame(c, s0, s1, t.target)
  {
    BundleFields(c, s0, o, t, b, names);
    KnownChannel(c, s0, t.target);
    TargetFresh(c, s0, s1, t.target, b.provenance);
  }

  lemma RepoVerdict(c: Codec, s0: Store, s1: Store, o: RenderOptions, t: Trace, b: Bundle, names: seq<string>)
    requires GoodHash(c.hash) && ValidStore(s0) && ValidStore(s1)
    requires Resolved(c, s0, o, t) && RecordedWith(c, s0, o, t, names) && b == Bundled(o, t)
    ensures RepoChanges(s1, b.provenance.repoPath, b.provenance.repoRevision) == [] <==> RepoSame(s1, t)
  {
    RepoOpened(s0, o, t);
    BundleFields(c, s0, o, t, b, names);
    RepoFresh(s1, t);
  }

  lemma SourcesVerdict(c: Codec, s0: Store, s1: Store, o: RenderOptions, t: Trace, b: Bundle, names: seq<string>)
    requires GoodHash(c.hash) && ValidStore(s0) && ValidStore(s1)
    requires Resolved(c, s0, o, t) && RecordedWith(c, s0, o, t, names) && b == Bundled(o, t)
    ensures GoodRoots(s0, t.roots) && Normalize(b.provenance) == b.provenance
    ensures SourceChanges(c, s1, b.provenance.sources) == [] <==> AllSourcesSame(s0, s1, t.roots)
  {
    BoundRoots(c, s0, t.target.doc, map[], o.sources);
    BundleNormal(c, s0, o, t, b, names);
    SourcesFresh(c, s0, s1, o, t, names);
  }

  /** Freshness is sound and complete. `s0` is the world at render time, `s1` at
      any later time, under any working directory. */
  lemma FreshnessExact(c: Codec, s0: Store, s1: Store, o: RenderOptions, t: Trace, b: Bundle)
    requires GoodHash(c.hash) && ValidStore(s0) && ValidStore(s1) && Rendered(c, s0, o, t, b)
    ensures GoodRoots(s0, t.roots)
    ensures StatusOf(c, s1, Some(b)).Matched?
       <==> TargetSame(c, s0, s1, t.target) && RepoSame(s1, t) && AllSourcesSame(s0, s1, t.roots)
  {
    var names: seq<string> :| RecordedWith(c, s0, o, t, names);
    TargetGood(c, s0, o.target);
    TargetVerdict(c, s0, s1, o, t, b, names);
    RepoVerdict(c, s0, s1, o, t, b, names);
    SourcesVerdict(c, s0, s1, o, t, b, names);
    CombinedVerdict(c, s1, b);
  }

  lemma CombinedVerdict(c: Codec, s1: Store, b: Bundle)
    requires Normalize(b.provenance) == b.provenance
    ensures var p := b.provenance;
      StatusOf(c, s1, Some(b)).Matched? <==>
        && TargetChanges(c, s1, p, b.revision) == []
        && RepoChanges(s1, p.repoPath, p.repoRevision) == [] && SourceChanges(c, s1, p.sources) == []
  {
    Verdict(c, s1, b);
    if Empty(b.provenance) {
      EmptyNotFresh(c, s1, b.provenance, b.revision);
    }
  }

  // ------------------------------------------------------ the immediate recheck

  /** The BOM digest is recorded and no recorded path ends in white space. */
  ghost predicate SettledTarget(c: Codec, s0: Store, t: Target) {
    t.source == "" ==>
      && !Blank(t.bomPath) && !IsRemote(c, t.bomPath) && Trimmed(Abs(s0, t.bomPath))
      && (t.channelPath != "" ==> Trimmed(Abs(s0, t.channelPath)))
  }

  ghost predicate Settled(c: Codec, s0: Store, t: Trace) {
    && SettledTarget(c, s0, t.target)
    && Trimmed(t.repoPath)
    && (forall n :: n in t.roots ==> Trimmed(t.roots[n]))
  }

  /** Looking up the recorded line and channel finds what the options found. */
  lemma LookupAgain(c: Codec, s: Store, line: string, channel: string, source: string)
    requires Trimmed(line) && Trimmed(source) && Lookup(c, s, line, channel, source).Ok?
    ensures var t := Lookup(c, s, line, channel, source).value;
      t.channelDoc.Some? && t.source == source && LookupSame(c, s, t)
  {
    TrimFixpoint(line);
    TrimFixpoint(source);
  }

  lemma TargetAgain(c: Codec, s: Store, o: TargetOptions)
    requires ResolveTarget(c, s, o).Ok?
    ensures var t := ResolveTarget(c, s, o).value; t.source != "" ==> t.channelDoc.Some? && LookupSame(c, s, t)
  {
    TrimIsTrimmed(o.line);
    TrimIsTrimmed(o.source);
    if Selected(o)[0].ByLookup? {
      LookupAgain(c, s, Trim(o.line), Trim(o.channel), Trim(o.source));
    }
  }

  lemma RecheckFiles(c: Codec, s0: Store, t: Target)
    requires GoodTarget(c, s0, t) && SettledTarget(c, s0, t) && t.source == ""
    requires RecordBom(c, s0, t).Ok?
    ensures ChannelSame(s0, s0, t) && BomSame(c, s0, s0, t)
  {
    TrimFixpoint(Abs(s0, t.bomPath));
    TrimFixpoint(Abs(s0, t.channelPath));
  }

  lemma RecheckTarget(c: Codec, s0: Store, o: RenderOptions, t: Trace, names: seq<string>)
    requires GoodHash(c.hash) && ValidStore(s0) && ResolveTarget(c, s0, o.target) == Ok(t.target)
    requires SettledTarget(c, s0, t.target) && RecordBom(c, s0, t.target).Ok?
    ensures TargetSame(c, s0, s0, t.target)
  {
    TargetGood(c, s0, o.target);
    TargetAgain(c, s0, o.target);
    if t.target.source == "" {
      RecheckFiles(c, s0, t.target);
    }
  }

  lemma RecheckRepo(s0: Store, o: RenderOptions, t: Trace)
    requires ValidStore(s0) && OpenRepo(s0, o.repo) == Ok((t.repoPath, t.repo)) && Trimmed(t.repoPath)
    ensures RepoSame(s0, t)
  {
    AbsStable(s0, s0, o.repo);
    TrimFixpoint(t.repoPath);
  }

  /** Rechecking at once reports the bundle fresh when every recorded path ends
      in a visible character. */
  lemma RecheckMatched(c: Codec, s0: Store, o: RenderOptions, t: Trace, b: Bundle)
    requires GoodHash(c.hash) && ValidStore(s0) && Rendered(c, s0, o, t, b) && Settled(c, s0, t)
    ensures StatusOf(c, s0, Some(b)).Matched?
  {
    var names: seq<string> :| RecordedWith(c, s0, o, t, names);
    FreshnessExact(c, s0, s0, o, t, b);
    BundleFields(c, s0, o, t, b, names);
    RecheckTarget(c, s0, o, t, names);
    RecheckRepo(s0, o, t);
    forall n | n in t.roots
      ensures SourceSame(s0, s0, t.roots[n])
    {
      TrimFixpoint(t.roots[n]);
    }
  }

  /** Cleaning can leave a name that ends in white space, which the recorded path
      then loses: `/`, a name, a blank, then `/.` is such a path. */
  lemma CleanedBlank(name: string)
    requires '/' !in name && name != "" && name != "." && name != ".."
    ensures Clean("/" + name + "/.") == "/" + name
  {
    var path := "/" + name + "/.";
    var parts := ["", name, "."];
    assert parts[1..] == [name, "."] && [name, "."][1..] == ["."] && ["."][1..] == [];
    assert Join(parts, '/') == path by {
      assert Join([name, "."], '/') == name + "/" + ".";
      assert "" + ['/'] + (name + "/" + ".") == path;
    }
    SplitJoin(parts, '/');
    var root := CPath(true, []);
    assert PushAll(root, parts) == PushAll(Push(root, ""), [name, "."]);
    assert Push(root, "") == root && Push(root, name) == CPath(true, [name]);
    assert PushAll(root, [name, "."]) == PushAll(CPath(true, [name]), ["."]);
    assert Push(CPath(true, [name]), ".") == CPath(true, [name]);
    assert CleanPath(path) == CPath(true, [name]);
  }

  /** A BOM file recorded under such a path, with nothing at the path without
      the white space, is reported stale at once, though nothing changed. */
  lemma BlankEndGoesStale(c: Codec, s0: Store, o: RenderOptions, t: Trace, b: Bundle)
    requires GoodHash(c.hash) && ValidStore(s0) && Rendered(c, s0, o, t, b)
    requires t.target.source == "" && Read(s0, Trim(BomPlace(c, s0, t.target))).None?
    ensures !StatusOf(c, s0, Some(b)).Matched?
  {
    FreshnessExact(c, s0, s0, o, t, b);
  }

  /** A package directory given as a link: its contents may change freely, the
      bundle is still reported fresh. */
  lemma LinkedSourceUnseen(c: Codec, s0: Store, s1: Store, o: RenderOptions, t: Trace, b: Bundle, n: string,
                           items: seq<Item>)
    requires GoodHash(c.hash) && ValidStore(s0) && Rendered(c, s0, o, t, b) && Settled(c, s0, t)
    requires n in t.roots && Entry(s0, t.roots[n]).Some? && Entry(s0, t.roots[n]).value.LinkedDir?
    requires ValidStore(s1) && s1 == s0.(nodes := s0.nodes[Abs(s0, t.roots[n]) := LinkedDir(items)])
    ensures StatusOf(c, s1, Some(b)).Matched?
  {
    RecheckMatched(c, s0, o, t, b);
    FreshnessExact(c, s0, s0, o, t, b);
    FreshnessExact(c, s0, s1, o, t, b);
    LinkKeepsAll(c, s0, s1, t, Abs(s0, t.roots[n]), items);
  }

  lemma LinkKeepsAll(c: Codec, s0: Store, s1: Store, t: Trace, at: string, items: seq<Item>)
    requires at in s0.nodes && s0.nodes[at].LinkedDir? && s1 == s0.(nodes := s0.nodes[at := LinkedDir(items)])
    requires GoodRoots(s0, t.roots)
    requires TargetSame(c, s0, s0, t.target) && RepoSame(s0, t) && AllSourcesSame(s0, s0, t.roots)
    ensures TargetSame(c, s0, s1, t.target) && RepoSame(s1, t) && AllSourcesSame(s0, s1, t.roots)
  {
    LinkKeepsReads(c, s0, s1, at, items);
    LinkKeepsTarget(c, s0, s1, t.target);
    forall n | n in t.roots
      ensures SourceSame(s0, s1, t.roots[n])
    {
      assert SourceSame(s0, s0, t.roots[n]);
    }
  }

  lemma LinkKeepsReads(c: Codec, s0: Store, s1: Store, at: string, items: seq<Item>)
    requires at in s0.nodes && s0.nodes[at].LinkedDir? && s1 == s0.(nodes := s0.nodes[at := LinkedDir(items)])
    ensures forall p :: Abs(s1, p) == Abs(s0, p) && Read(s1, p) == Read(s0, p)
    ensures forall p :: LoadRepo(s1, p) == LoadRepo(s0, p)
    ensures forall p :: Entry(s1, p).Some? <==> Entry(s0, p).Some?
    ensures forall p :: Entry(s0, p).Some? ==> Walked(Entry(s1, p).value) == Walked(Entry(s0, p).value)
  {
  }

  lemma LinkKeepsTarget(c: Codec, s0: Store, s1: Store, t: Target)
    requires s1 == s0.(nodes := s1.nodes)
    requires forall p :: Read(s1, p) == Read(s0, p)
    requires TargetSame(c, s0, s0, t)
    ensures TargetSame(c, s0, s1, t)
  {
  }
}
