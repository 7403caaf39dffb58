/** Running the printed refresh command in an unchanged world renders the same
    bundle again. */
module RefreshTheorems {
  import opened GoStrings
  import opened Paths
  import opened DirectoryDigest
  import opened RenderInputs
  import opened Freshness
  import opened FreshnessTheorems
  import opened Refresh
  import Shell
  import opened SiblingPaths
  import Sorting

  // ------------------------------------------------------------- package pairs

  /** Every bound root is one the loop accepted. */
  ghost predicate Accepted(c: Codec, s: Store, doc: Doc, roots: map<string, string>) {
    forall n :: n in roots ==>
      n in doc.packages && Entry(s, roots[n]).Some? && c.package(Entry(s, roots[n]).value)
  }

  lemma AcceptOne(c: Codec, s: Store, doc: Doc, roots: map<string, string>, value: string)
    requires IsAbs(s.cwd) && Accepted(c, s, doc, roots) && BindSource(c, s, doc, roots, value).Ok?
    ensures Accepted(c, s, doc, BindSource(c, s, doc, roots, value).value)
  {
    var (left, right) := Cut(value, '=').value;
    AbsStable(s, s, Trim(right));
  }

  lemma {:induction false} AcceptAll(c: Codec, s: Store, doc: Doc, roots: map<string, string>, values: seq<string>)
    requires IsAbs(s.cwd) && Accepted(c, s, doc, roots) && BindSources(c, s, doc, roots, values).Ok?
    ensures Accepted(c, s, doc, BindSources(c, s, doc, roots, values).value)
    decreases |values|
  {
    if values != [] {
      AcceptOne(c, s, doc, roots, values[0]);
      AcceptAll(c, s, doc, BindSource(c, s, doc, roots, values[0]).value, values[1..]);
    }
  }

  ghost predicate Printed(roots: map<string, string>, names: seq<string>, values: seq<string>) {
    && |values| == |names|
    && forall i :: 0 <= i < |names| ==> names[i] in roots && values[i] == names[i] + "=" + roots[names[i]]
  }

  /** Roots that print as a pair and read back as the same pair. */
  ghost predicate Pairable(s: Store, roots: map<string, string>) {
    forall n :: n in roots ==> '=' !in n && Trimmed(roots[n]) && roots[n] != "" && Abs(s, roots[n]) == roots[n]
  }

  lemma RebindOne(c: Codec, s: Store, doc: Doc, roots: map<string, string>, done: map<string, string>, n: string)
    requires GoodRoots(s, roots) && Accepted(c, s, doc, roots) && Pairable(s, roots)
    requires n in roots && n !in done
    ensures BindSource(c, s, doc, done, n + "=" + roots[n]) == Ok(done[n := roots[n]])
  {
    CutAt(n, roots[n], '=');
    assert n + "=" + roots[n] == n + ['='] + roots[n];
    TrimFixpoint(n);
    TrimFixpoint(roots[n]);
  }

  /** The step adds each printed pair to the map. */
  ghost predicate AddsPairs(step: (map<string, string>, string) -> Result<map<string, string>>,
                            roots: map<string, string>) {
    forall done: map<string, string>, n: string :: n in roots && n !in done ==>
      step(done, n + "=" + roots[n]) == Ok(done[n := roots[n]])
  }

  lemma {:induction false} RefillMap(step: (map<string, string>, string) -> Result<map<string, string>>,
                                     roots: map<string, string>, done: map<string, string>,
                                     names: seq<string>, values: seq<string>)
    requires AddsPairs(step, roots)
    requires Printed(roots, names, values) && Sorting.NoRepeats(names)
    requires forall n :: n in roots <==> n in done || n in names
    requires forall n :: n in done ==> n !in names && roots[n] == done[n]
    ensures FoldOk(step, done, values) == Ok(roots)
    decreases |names|
  {
    if names == [] {
      assert done == roots;
    } else {
      var n := names[0];
      assert n in names;
      var more := done[n := roots[n]];
      assert Printed(roots, names[1..], values[1..]);
      forall x
        ensures x in names <==> x == n || x in names[1..]
      {
      }
      assert n !in names[1..];
      RefillMap(step, roots, more, names[1..], values[1..]);
    }
  }

  /** Binding the printed pairs one after the other gives the recorded map. */
  lemma Rebind(c: Codec, s: Store, doc: Doc, roots: map<string, string>, names: seq<string>, values: seq<string>)
    requires GoodRoots(s, roots) && Accepted(c, s, doc, roots) && Pairable(s, roots)
    requires Printed(roots, names, values) && Keys(names, roots)
    ensures BindSources(c, s, doc, map[], values) == Ok(roots)
  {
    forall done: map<string, string>, n | n in roots && n !in done
      ensures Binder(c, s, doc)(done, n + "=" + roots[n]) == Ok(done[n := roots[n]])
    {
      RebindOne(c, s, doc, roots, done, n);
    }
    RefillMap(Binder(c, s, doc), roots, map[], names, values);
  }

  lemma PrintedValues(sources: seq<PackageSource>)
    requires forall i :: 0 <= i < |sources| ==> Printable(sources[i])
    ensures FlatMap(KeptValue, sources) == seq(|sources|, i requires 0 <= i < |sources| => SourceValue(sources[i]))
  {
    FlatMapSingles(KeptValue, sources, seq(|sources|, i requires 0 <= i < |sources| => SourceValue(sources[i])));
  }

  // -------------------------------------------------------------------- target

  /** A URL needs a scheme, which no absolute path has. */
  ghost predicate PathsAreLocal(c: Codec) {
    forall p: string :: IsAbs(p) ==> !IsRemote(c, p)
  }

  /** Two targets that leave the same record. */
  ghost predicate RecordAlike(c: Codec, s: Store, t: Target, u: Target) {
    && u.doc == t.doc && u.source == t.source && LineOf(u) == LineOf(t) && ChannelOf(u) == ChannelOf(t)
    && RecordChannel(c, s, u) == RecordChannel(c, s, t)
    && RecordBom(c, s, u) == RecordBom(c, s, t)
  }

  lemma AbsLocal(c: Codec, s: Store, p: string)
    requires IsAbs(s.cwd) && PathsAreLocal(c) && Trimmed(Abs(s, p))
    ensures !IsRemote(c, Abs(s, p)) && Abs(s, Abs(s, p)) == Abs(s, p) && Trim(Abs(s, p)) == Abs(s, p)
    ensures !Blank(Abs(s, p)) && Abs(s, p) != ""
  {
    AbsIsAbs(s, p);
    TrimFixpoint(Abs(s, p));
  }

  lemma FileAgain(c: Codec, s: Store, o: TargetOptions, t: Target)
    requires IsAbs(s.cwd) && PathsAreLocal(c) && SettledTarget(c, s, t)
    requires Selected(o) == [ByFile] && ResolveTarget(c, s, o) == Ok(t)
    ensures var o2 := TargetOptions(Abs(s, t.bomPath), "", "", "", "");
      Selected(o2) == [ByFile] ==>
        ResolveTarget(c, s, o2).Ok? && RecordAlike(c, s, t, ResolveTarget(c, s, o2).value)
  {
    AbsLocal(c, s, t.bomPath);
  }

  /** The channel file is named by a proper last component. */
  ghost predicate ProperFile(path: string) {
    exists head: string, name: string :: path == head + name && FilePath(head, name)
  }

  lemma ChannelBomAgain(c: Codec, s: Store, path: string, named: string)
    requires IsAbs(s.cwd) && ProperFile(path) && named != "" && !IsAbs(named)
    ensures var a, b := JoinPath(DirOf(path), named), JoinPath(DirOf(Abs(s, path)), named);
      a != "" && b != "" && Abs(s, a) == Abs(s, b) && IsAbs(b)
  {
    var head: string, name: string :| path == head + name && FilePath(head, name);
    SiblingSame(s, head, name, named);
    HomeNormal(s, head);
    AbsOfFile(s, head, name);
    DirOfRendered(Home(s, head), name);
    JoinNotEmpty(DirOf(Abs(s, path)), named);
    JoinNotEmpty(DirOf(path), named);
    CleanNormal(DirOf(Abs(s, path)));
  }

  lemma JoinNotEmpty(dir: string, named: string)
    requires named != ""
    ensures JoinPath(dir, named) != ""
    ensures IsAbs(dir) ==> IsAbs(JoinPath(dir, named))
  {
    var q := if dir == "" then named else dir + "/" + named;
    CleanNormal(q);
    RenderAbs(CleanPath(q));
  }

  /** Where `ResolveReleaseChannelFile` finds the BOM. */
  function BomBeside(path: string, ch: ChannelDoc): string {
    var named := Trim(ch.bomPath);
    if IsAbs(named) then named else JoinPath(DirOf(path), named)
  }

  lemma BomBesideAgain(c: Codec, s: Store, path: string, ch: ChannelDoc)
    requires IsAbs(s.cwd) && ProperFile(path) && !Blank(ch.bomPath)
    ensures var a, b := BomBeside(path, ch), BomBeside(Abs(s, path), ch);
      Read(s, a) == Read(s, b) && Abs(s, a) == Abs(s, b) && IsAbs(b)
  {
    var named := Trim(ch.bomPath);
    if !IsAbs(named) {
      ChannelBomAgain(c, s, path, named);
    }
  }

  lemma ChannelTargetAgain(c: Codec, s: Store, path: string)
    requires IsAbs(s.cwd) && PathsAreLocal(c) && ProperFile(path) && Trimmed(Abs(s, path)) && path != ""
    requires FromChannelFile(c, s, path).Ok? && NamedBoms(c)
    ensures FromChannelFile(c, s, Abs(s, path)).Ok?
    ensures var t, u := FromChannelFile(c, s, path).value, FromChannelFile(c, s, Abs(s, path)).value;
      && u.doc == t.doc && u.channelDoc == t.channelDoc && u.source == t.source == ""
      && u.channelPath == Abs(s, path) && t.channelPath == path
      && Abs(s, u.bomPath) == Abs(s, t.bomPath) && IsAbs(u.bomPath)
  {
    AbsLocal(c, s, path);
    assert Read(s, Abs(s, path)) == Read(s, path);
    BomBesideAgain(c, s, path, c.channel(Read(s, path).value).value);
  }

  ghost predicate NamedBoms(c: Codec) {
    forall text: string :: c.channel(text).Some? ==> !Blank(c.channel(text).value.bomPath)
  }

  lemma ChannelRecordAlike(c: Codec, s: Store, t: Target, u: Target)
    requires IsAbs(s.cwd) && PathsAreLocal(c) && SettledTarget(c, s, t) && t.source == ""
    requires t.channelPath != "" && !Blank(t.channelPath) && u.channelPath == Abs(s, t.channelPath)
    requires u.doc == t.doc && u.channelDoc == t.channelDoc && u.source == t.source
    requires Abs(s, u.bomPath) == Abs(s, t.bomPath) && IsAbs(u.bomPath)
    ensures RecordAlike(c, s, t, u)
  {
    AbsLocal(c, s, t.channelPath);
    AbsNotBlank(u.bomPath);
  }

  /** Looking up the recorded line, channel and source gives the same target. */
  lemma LookupRepeats(c: Codec, s: Store, o: TargetOptions, t: Target)
    requires Selected(o) == [ByLookup] && ResolveTarget(c, s, o) == Ok(t)
    ensures t.channelDoc.Some? && t.source != "" && Trim(t.source) == t.source
    ensures Trim(LineOf(t)) == LineOf(t) && !Blank(LineOf(t))
    ensures Trim(ChannelOf(t)) == ChannelOf(t) && !Blank(ChannelOf(t))
    ensures Lookup(c, s, LineOf(t), ChannelOf(t), t.source) == Ok(t)
  {
    TrimIsTrimmed(o.line);
    TrimIsTrimmed(o.source);
    TrimIsTrimmed(o.channel);
    TrimFixpoint(Trim(o.line));
    TrimFixpoint(Trim(o.source));
    TrimFixpoint(Trim(o.channel));
  }

  /** The target options a refresh passes, by kind of target. */
  function RefreshTarget(s: Store, kind: Selector, t: Target): TargetOptions {
    match kind
    case ByLookup => TargetOptions("", "", t.source, LineOf(t), ChannelOf(t))
    case ByChannelFile => TargetOptions("", Abs(s, t.channelPath), "", "", "")
    case ByFile => TargetOptions(Abs(s, t.bomPath), "", "", "", "")
  }

  lemma RefreshTargetSelects(c: Codec, s: Store, o: TargetOptions, kind: Selector, t: Target)
    requires IsAbs(s.cwd) && Selected(o) == [kind] && ResolveTarget(c, s, o) == Ok(t)
    ensures Selected(RefreshTarget(s, kind, t)) == [kind]
  {
    AbsIsAbs(s, t.channelPath);
    AbsIsAbs(s, t.bomPath);
    SelectedBy(RefreshTarget(s, kind, t));
    if kind.ByLookup? {
      LookupRepeats(c, s, o, t);
    }
  }

  lemma ChannelTargetFields(c: Codec, s: Store, path: string, t: Target)
    requires FromChannelFile(c, s, path) == Ok(t)
    ensures t.source == "" && t.channelPath == path && path != ""
  {
  }

  lemma ByChannelPath(c: Codec, s: Store, o: TargetOptions)
    requires Selected(o) == [ByChannelFile]
    ensures ResolveTarget(c, s, o) == FromChannelFile(c, s, Trim(o.channelPath))
  {
  }

  lemma ByChannelTrimmed(c: Codec, s: Store, o: TargetOptions, t: Target)
    requires Selected(o) == [ByChannelFile] && ResolveTarget(c, s, o) == Ok(t)
    ensures FromChannelFile(c, s, t.channelPath) == Ok(t)
    ensures t.source == "" && t.channelPath != "" && !Blank(t.channelPath)
  {
    ByChannelPath(c, s, o);
    ChannelTargetFields(c, s, Trim(o.channelPath), t);
    TrimIdempotent(o.channelPath);
  }

  lemma ByChannelAgain(c: Codec, s: Store, path: string, u: Target)
    requires Trim(path) == path && FromChannelFile(c, s, path) == Ok(u)
    requires Selected(TargetOptions("", path, "", "", "")) == [ByChannelFile]
    ensures ResolveTarget(c, s, TargetOptions("", path, "", "", "")) == Ok(u)
  {
  }

  lemma ChannelReproduced(c: Codec, s: Store, o: TargetOptions, t: Target)
    requires IsAbs(s.cwd) && PathsAreLocal(c) && NamedBoms(c) && SettledTarget(c, s, t)
    requires Selected(o) == [ByChannelFile] && ResolveTarget(c, s, o) == Ok(t) && ProperFile(t.channelPath)
    requires Selected(RefreshTarget(s, ByChannelFile, t)) == [ByChannelFile]
    ensures var r := ResolveTarget(c, s, RefreshTarget(s, ByChannelFile, t)); r.Ok? && RecordAlike(c, s, t, r.value)
  {
    ByChannelTrimmed(c, s, o, t);
    ChannelTargetAgain(c, s, t.channelPath);
    AbsLocal(c, s, t.channelPath);
    var u := FromChannelFile(c, s, Abs(s, t.channelPath)).value;
    ByChannelAgain(c, s, Abs(s, t.channelPath), u);
    ChannelRecordAlike(c, s, t, u);
  }

  lemma LookupReproduced(c: Codec, s: Store, o: TargetOptions, t: Target)
    requires Selected(o) == [ByLookup] && ResolveTarget(c, s, o) == Ok(t)
    requires Selected(RefreshTarget(s, ByLookup, t)) == [ByLookup]
    ensures ResolveTarget(c, s, RefreshTarget(s, ByLookup, t)) == Ok(t)
  {
    LookupRepeats(c, s, o, t);
  }

  /** Resolving the options of a refresh leaves the same record. */
  lemma TargetReproduced(c: Codec, s: Store, o: TargetOptions, kind: Selector, t: Target)
    requires IsAbs(s.cwd) && PathsAreLocal(c) && NamedBoms(c) && SettledTarget(c, s, t)
    requires Selected(o) == [kind] && ResolveTarget(c, s, o) == Ok(t)
    requires kind.ByChannelFile? ==> ProperFile(t.channelPath)
    ensures var r := ResolveTarget(c, s, RefreshTarget(s, kind, t)); r.Ok? && RecordAlike(c, s, t, r.value)
  {
    RefreshTargetSelects(c, s, o, kind, t);
    match kind {
      case ByFile => FileAgain(c, s, o, t);
      case ByLookup => LookupReproduced(c, s, o, t);
      case ByChannelFile => ChannelReproduced(c, s, o, t);
    }
  }

  // ------------------------------------------------------------ the whole command

  /** The kind of selector a bundle was rendered from is the kind its refresh
      command names. */
  lemma RefreshTargetOptions(c: Codec, s: Store, o: RenderOptions, t: Trace, b: Bundle, names: seq<string>,
                             cluster: string)
    requires GoodHash(c.hash) && ValidStore(s) && SettledTarget(c, s, t.target)
    requires Resolved(c, s, o, t) && RecordedWith(c, s, o, t, names) && b == Bundled(o, t)
    ensures |Selected(o.target)| == 1
    ensures KindOf(b.provenance) == Selected(o.target)[0]
    ensures OptionsOf(RefreshFlags(cluster, b.provenance)).target == RefreshTarget(s, Selected(o.target)[0], t.target)
  {
    var p, g := b.provenance, t.target;
    var kind := Selected(o.target)[0];
    BundleFields(c, s, o, t, b, names);
    assert Selected(o.target) == [kind];
    if kind.ByLookup? {
      LookupRepeats(c, s, o.target, g);
      LookupOptions(cluster, p, s, g);
    } else if kind.ByChannelFile? {
      ChannelKind(c, s, o.target, g);
      ChannelOptions(cluster, p, s, g);
    } else {
      FileKind(c, s, o.target, g);
      FileOptions(cluster, p, s, g);
    }
  }

  lemma LookupOptions(cluster: string, p: Provenance, s: Store, t: Target)
    requires p.source == t.source && !Blank(t.source) && p.line == LineOf(t) && p.channel == ChannelOf(t)
    ensures KindOf(p) == ByLookup
    ensures OptionsOf(RefreshFlags(cluster, p)).target == RefreshTarget(s, ByLookup, t)
  {
  }

  lemma ChannelOptions(cluster: string, p: Provenance, s: Store, t: Target)
    requires p.source == "" && p.channelPath == Abs(s, t.channelPath) && !Blank(p.channelPath)
    ensures KindOf(p) == ByChannelFile
    ensures OptionsOf(RefreshFlags(cluster, p)).target == RefreshTarget(s, ByChannelFile, t)
  {
    BlankDefault();
  }

  lemma FileOptions(cluster: string, p: Provenance, s: Store, t: Target)
    requires p.source == "" && p.channelPath == "" && p.bomPath == Abs(s, t.bomPath) && !Blank(p.bomPath)
    ensures KindOf(p) == ByFile
    ensures OptionsOf(RefreshFlags(cluster, p)).target == RefreshTarget(s, ByFile, t)
  {
    BlankDefault();
  }

  lemma ChannelShape(c: Codec, s: Store, o: TargetOptions, t: Target)
    requires Selected(o) == [ByChannelFile] && ResolveTarget(c, s, o) == Ok(t)
    ensures t.source == "" && t.channelPath == Trim(o.channelPath) && !Blank(t.channelPath)
  {
    TrimIdempotent(o.channelPath);
  }

  lemma ChannelRecord(c: Codec, s: Store, t: Target)
    requires IsAbs(s.cwd) && !Blank(t.channelPath) && Trimmed(Abs(s, t.channelPath)) && RecordChannel(c, s, t).Ok?
    ensures Trim(RecordChannel(c, s, t).value.0) == Abs(s, t.channelPath) && !Blank(Abs(s, t.channelPath))
  {
    AbsIsAbs(s, t.channelPath);
    TrimFixpoint(Abs(s, t.channelPath));
  }

  lemma ChannelKind(c: Codec, s: Store, o: TargetOptions, t: Target)
    requires IsAbs(s.cwd) && SettledTarget(c, s, t)
    requires Selected(o) == [ByChannelFile] && ResolveTarget(c, s, o) == Ok(t)
    requires RecordChannel(c, s, t).Ok?
    ensures t.source == "" && Trim(t.source) == "" && t.channelPath != ""
    ensures Trim(RecordChannel(c, s, t).value.0) == Abs(s, t.channelPath) && !Blank(Abs(s, t.channelPath))
  {
    ChannelShape(c, s, o, t);
    BlankDefault();
    ChannelRecord(c, s, t);
  }

  lemma FileKind(c: Codec, s: Store, o: TargetOptions, t: Target)
    requires IsAbs(s.cwd) && SettledTarget(c, s, t)
    requires Selected(o) == [ByFile] && ResolveTarget(c, s, o) == Ok(t)
    requires RecordChannel(c, s, t).Ok? && RecordBom(c, s, t).Ok?
    ensures t.source == "" && Trim(t.source) == "" && Trim(RecordChannel(c, s, t).value.0) == ""
    ensures Trim(RecordBom(c, s, t).value.0) == Abs(s, t.bomPath) && !Blank(Abs(s, t.bomPath))
  {
    BlankDefault();
    AbsIsAbs(s, t.bomPath);
    TrimFixpoint(Abs(s, t.bomPath));
  }

  lemma RepoAgain(s: Store, o: RenderOptions, t: Trace)
    requires IsAbs(s.cwd) && OpenRepo(s, o.repo) == Ok((t.repoPath, t.repo)) && Trimmed(t.repoPath)
    ensures var again := if Blank(Trim(t.repoPath)) then "" else Trim(t.repoPath);
      OpenRepo(s, again) == Ok((t.repoPath, t.repo))
  {
    TrimFixpoint(t.repoPath);
    BlankDefault();
    if o.repo != "" {
      AbsStable(s, s, o.repo);
      AbsIsAbs(s, o.repo);
    }
  }

  lemma PairsPrinted(c: Codec, s: Store, roots: map<string, string>, names: seq<string>, recorded: seq<PackageSource>)
    requires GoodRoots(s, roots) && Pairable(s, roots) && Keys(names, roots) && |recorded| == |names|
    requires forall i :: 0 <= i < |names| ==> RecordSource(c, s, names[i], roots[names[i]]) == Ok(recorded[i])
    ensures Printed(roots, names, FlatMap(KeptValue, TrimAll(recorded)))
  {
    var r := TrimAll(recorded);
    forall i | 0 <= i < |r|
      ensures Printable(r[i]) && SourceValue(r[i]) == names[i] + "=" + roots[names[i]] && names[i] in roots
    {
      assert names[i] in names;
      SourceShape(c, s, names[i], roots[names[i]], recorded[i]);
    }
    PrintedValues(r);
  }

  /** The recorded sources print as pairs that bind to the same roots. */
  lemma SourcesAgain(c: Codec, s: Store, o: RenderOptions, t: Trace, b: Bundle, names: seq<string>)
    requires ValidStore(s) && Settled(c, s, t)
    requires Resolved(c, s, o, t) && RecordedWith(c, s, o, t, names) && b == Bundled(o, t)
    requires forall n :: n in t.roots ==> '=' !in n
    ensures BindSources(c, s, t.target.doc, map[], FlatMap(KeptValue, b.provenance.sources)) == Ok(t.roots)
  {
    BoundRoots(c, s, t.target.doc, map[], o.sources);
    AcceptAll(c, s, t.target.doc, map[], o.sources);
    BundleNormal(c, s, o, t, b, names);
    RecordNamed(c, s, o, t, names);
    SourcesRebind(c, s, t.target.doc, t.roots, names, t.recorded.sources);
  }

  lemma SourcesRebind(c: Codec, s: Store, doc: Doc, roots: map<string, string>, names: seq<string>,
                      recorded: seq<PackageSource>)
    requires IsAbs(s.cwd) && GoodRoots(s, roots) && Accepted(c, s, doc, roots) && Keys(names, roots)
    requires forall n :: n in roots ==> '=' !in n && Trimmed(roots[n])
    requires |recorded| == |names|
    requires forall i :: 0 <= i < |names| ==> RecordSource(c, s, names[i], roots[names[i]]) == Ok(recorded[i])
    ensures BindSources(c, s, doc, map[], FlatMap(KeptValue, TrimAll(recorded))) == Ok(roots)
  {
    RootsPairable(s, roots);
    PairsPrinted(c, s, roots, names, recorded);
    Rebind(c, s, doc, roots, names, FlatMap(KeptValue, TrimAll(recorded)));
  }

  lemma RootsPairable(s: Store, roots: map<string, string>)
    requires IsAbs(s.cwd) && GoodRoots(s, roots)
    requires forall n :: n in roots ==> '=' !in n && Trimmed(roots[n])
    ensures Pairable(s, roots)
  {
    forall n | n in roots
      ensures roots[n] != "" && Abs(s, roots[n]) == roots[n]
    {
      var p :| roots[n] == Abs(s, p);
      AbsStable(s, s, p);
      AbsIsAbs(s, p);
    }
  }

  lemma SourceShape(c: Codec, s: Store, n: string, root: string, p: PackageSource)
    requires RecordSource(c, s, n, root) == Ok(p)
    requires n != "" && Trimmed(n) && root != "" && Trimmed(root)
    ensures var q := TrimSource(p); Printable(q) && SourceValue(q) == n + "=" + root
  {
    TrimFixpoint(n);
    TrimFixpoint(root);
  }

  lemma PatchAgain(patch: string)
    ensures Trim(if Blank(Trim(patch)) then "" else Trim(patch)) == Trim(patch)
  {
    TrimIdempotent(patch);
    BlankDefault();
  }

  lemma RecordAgain(c: Codec, s: Store, o: RenderOptions, t: Trace, names: seq<string>, u: Target, patch: string)
    requires RecordedWith(c, s, o, t, names) && RecordAlike(c, s, t.target, u)
    ensures Record(c, s, u, t.repoPath, t.repo, patch, t.roots, names)
         == Ok(t.recorded.(patchRevision := Trim(patch)))
  {
    var g := t.target;
    Assembled(g, t.repoPath, t.repo, o.patch, RecordChannel(c, s, g), RecordBom(c, s, g),
              RecordSources(c, s, t.roots, names), t.recorded);
  }

  lemma BundleAgain(c: Codec, s: Store, o: RenderOptions, t: Trace, b: Bundle, names: seq<string>, o2: RenderOptions,
                    u: Target)
    requires Resolved(c, s, o, t) && RecordedWith(c, s, o, t, names) && b == Bundled(o, t)
    requires ResolveTarget(c, s, o2.target) == Ok(u) && RecordAlike(c, s, t.target, u)
    requires OpenRepo(s, o2.repo) == Ok((t.repoPath, t.repo))
    requires BindSources(c, s, u.doc, map[], o2.sources) == Ok(t.roots)
    requires Trim(o2.patch) == Trim(o.patch)
    ensures Rendered(c, s, o2, Trace(u, t.roots, t.repoPath, t.repo, t.recorded.(patchRevision := Trim(o2.patch))), b)
  {
    RecordAgain(c, s, o, t, names, u, o2.patch);
    var t2 := Trace(u, t.roots, t.repoPath, t.repo, t.recorded.(patchRevision := Trim(o2.patch)));
    assert RecordedWith(c, s, o2, t2, names);
  }

  /** Running the printed command where nothing has changed renders a bundle with
      the same revision and provenance. The components have no equals sign, the
      pairs no comma, quote or line break, and recorded paths do not end in
      white space. */
  lemma RefreshReproduces(c: Codec, s: Store, o: RenderOptions, t: Trace, b: Bundle, cluster: string)
    requires GoodHash(c.hash) && ValidStore(s) && PathsAreLocal(c) && NamedBoms(c)
    requires Rendered(c, s, o, t, b) && Settled(c, s, t)
    requires t.target.channelPath != "" ==> ProperFile(t.target.channelPath)
    requires PlainSources(b.provenance.sources) && forall n :: n in t.roots ==> '=' !in n
    ensures var f := ReadCommand(Shell.CommandLine(COMMAND + FlagArgs(cluster, Some(b.provenance))));
      f.Some? && f.value.cluster == cluster && exists t2: Trace :: Rendered(c, s, OptionsOf(f.value), t2, b)
  {
    var names: seq<string> :| RecordedWith(c, s, o, t, names);
    RefreshRoundTrip(cluster, b.provenance);
    RefreshKeepsCluster(cluster, b.provenance);
    RefreshRenders(c, s, o, t, b, names, cluster);
  }

  lemma RefreshKeepsCluster(cluster: string, p: Provenance)
    ensures RefreshFlags(cluster, p).cluster == cluster
  {
  }

  lemma RefreshRenders(c: Codec, s: Store, o: RenderOptions, t: Trace, b: Bundle, names: seq<string>, cluster: string)
    requires GoodHash(c.hash) && ValidStore(s) && PathsAreLocal(c) && NamedBoms(c) && Settled(c, s, t)
    requires Resolved(c, s, o, t) && RecordedWith(c, s, o, t, names) && b == Bundled(o, t)
    requires t.target.channelPath != "" ==> ProperFile(t.target.channelPath)
    requires forall n :: n in t.roots ==> '=' !in n
    ensures exists t2: Trace :: Rendered(c, s, OptionsOf(RefreshFlags(cluster, b.provenance)), t2, b)
  {
    var o2 := OptionsOf(RefreshFlags(cluster, b.provenance));
    RefreshTargetOptions(c, s, o, t, b, names, cluster);
    ReproducedTarget(c, s, o, t);
    InputsAgain(c, s, o, t, b, names, cluster);
    BundleAgain(c, s, o, t, b, names, o2, ResolveTarget(c, s, o2.target).value);
  }

  lemma InputsAgain(c: Codec, s: Store, o: RenderOptions, t: Trace, b: Bundle, names: seq<string>, cluster: string)
    requires ValidStore(s) && Settled(c, s, t)
    requires Resolved(c, s, o, t) && RecordedWith(c, s, o, t, names) && b == Bundled(o, t)
    requires forall n :: n in t.roots ==> '=' !in n
    ensures var o2 := OptionsOf(RefreshFlags(cluster, b.provenance));
      && OpenRepo(s, o2.repo) == Ok((t.repoPath, t.repo))
      && BindSources(c, s, t.target.doc, map[], o2.sources) == Ok(t.roots)
      && Trim(o2.patch) == Trim(o.patch)
  {
    RefreshSelectsOne(cluster, b.provenance);
    BundlePatch(c, s, o, t, b, names);
    RepoAgain(s, o, t);
    SourcesAgain(c, s, o, t, b, names);
    PatchAgain(o.patch);
  }

  lemma ReproducedTarget(c: Codec, s: Store, o: RenderOptions, t: Trace)
    requires IsAbs(s.cwd) && PathsAreLocal(c) && NamedBoms(c) && SettledTarget(c, s, t.target)
    requires ResolveTarget(c, s, o.target) == Ok(t.target) && |Selected(o.target)| == 1
    requires t.target.channelPath != "" ==> ProperFile(t.target.channelPath)
    ensures var r := ResolveTarget(c, s, RefreshTarget(s, Selected(o.target)[0], t.target));
      r.Ok? && RecordAlike(c, s, t.target, r.value)
  {
    var kind := Selected(o.target)[0];
    assert Selected(o.target) == [kind];
    TargetReproduced(c, s, o.target, kind, t.target);
  }

  lemma BundlePatch(c: Codec, s: Store, o: RenderOptions, t: Trace, b: Bundle, names: seq<string>)
    requires RecordedWith(c, s, o, t, names) && b == Bundled(o, t)
    ensures b.provenance.patchRevision == Trim(o.patch) && b.provenance.repoPath == Trim(t.repoPath)
  {
    BundleFields(c, s, o, t, b, names);
  }
}
