/** What `sealos sync render` reads and records: target selection, package
    sources, and the provenance kept in the bundle. */
module RenderInputs {
  import opened GoStrings
  import opened Paths
  import opened DirectoryDigest
  import Sorting

  // ------------------------------------------------------------ what is read

  datatype Doc = Doc(name: string, revision: string, packages: set<string>)

  /** `ReleaseChannelDocumentSpec` after `Normalize` and `Validate`. */
  datatype ChannelDoc = ChannelDoc(distribution: string, channel: string, targetRevision: string,
                                   bomPath: string, bomDigest: string)

  /** The pure functions of other packages: hashing, decoding, URL scheme test,
      and whether a directory is a component package. */
  datatype Codec = Codec(hash: Hash,
                         bom: string -> Option<Doc>,
                         channel: string -> Option<ChannelDoc>,
                         remote: string -> bool,
                         package: Node -> bool)

  type LookupKey = (string, string, string)

  /** A snapshot of everything outside the program: entries by absolute path,
      local repo revisions by root, and for a release source, line and channel
      the document found and the location of its BOM. */
  datatype Store = Store(cwd: string,
                         nodes: map<string, Node>,
                         repos: map<string, string>,
                         releases: map<LookupKey, (ChannelDoc, string)>,
                         web: map<string, string>)

  ghost predicate ValidStore(s: Store) {
    && IsAbs(s.cwd)
    && (forall p :: p in s.repos ==> Trimmed(s.repos[p]))
    && (forall p :: p in s.nodes ==> RealNode(s.nodes[p]))
    && (forall k :: k in s.releases ==> !Blank(s.releases[k].1))
  }

  /** `filepath.Abs`. */
  function Abs(s: Store, p: string): string {
    if IsAbs(p) then Clean(p) else JoinPath(s.cwd, p)
  }

  function Entry(s: Store, p: string): Option<Node> {
    if Abs(s, p) in s.nodes then Some(s.nodes[Abs(s, p)]) else None
  }

  function Read(s: Store, p: string): Option<string> {
    if p == "" then None
    else match Entry(s, p)
    case Some(FileNode(bytes)) => Some(bytes)
    case _ => None
  }

  function LoadRepo(s: Store, p: string): Option<string> {
    if !Blank(p) && Abs(s, p) in s.repos then Some(s.repos[Abs(s, p)]) else None
  }

  predicate IsRemote(c: Codec, location: string) {
    c.remote(Trim(location))
  }

  /** `filepath.Dir`. */
  function DirOf(p: string): string {
    if p == "" || p[|p| - 1] == '/' then Clean(p) else DirOf(p[..|p| - 1])
  }

  // ------------------------------------------------------------------ target

  datatype TargetOptions = TargetOptions(bomPath: string, channelPath: string, source: string,
                                         line: string, channel: string)

  /** `data` is what `LoadBytes` decoded into `doc`. */
  datatype Target = Target(doc: Doc, data: string, bomPath: string, bomDigest: string,
                           channelDoc: Option<ChannelDoc>, channelPath: string,
                           channelSource: string, source: string)

  datatype Selector = ByFile | ByChannelFile | ByLookup

  /** The kinds of selector the options name. */
  function Selected(o: TargetOptions): seq<Selector> {
    (if Blank(o.bomPath) then [] else [ByFile])
    + (if Blank(o.channelPath) then [] else [ByChannelFile])
    + (if Blank(o.source) && Blank(o.line) && Blank(o.channel) then [] else [ByLookup])
  }

  const CHANNELS := ["alpha", "beta", "stable"]

  function Checked(c: Codec, ch: ChannelDoc, data: string): Result<Doc> {
    var pinned := Trim(ch.bomDigest);
    if pinned != "" && pinned != c.hash(data) then Err("BOM digest mismatch")
    else match c.bom(data)
      case None => Err("unmarshal bom")
      case Some(doc) =>
        if doc.name != Trim(ch.distribution) then Err("distribution does not match")
        else if doc.revision != ch.targetRevision then Err("targetRevision does not match")
        else Ok(doc)
  }

  /** `ResolveReleaseChannelFile`. */
  function FromChannelFile(c: Codec, s: Store, path: string): Result<Target> {
    match Read(s, path)
    case None => Err("release channel file not found")
    case Some(text) =>
      match c.channel(text)
      case None => Err("unmarshal release channel")
      case Some(ch) =>
        var named := Trim(ch.bomPath);
        var bomPath := if IsAbs(named) then named else JoinPath(DirOf(path), named);
        match Read(s, bomPath)
        case None => Err("read bom")
        case Some(data) =>
          match Checked(c, ch, data)
          case Err(e) => Err(e)
          case Ok(doc) => Ok(Target(doc, data, bomPath, c.hash(data), Some(ch), path, path, ""))
  }

  function Fetch(c: Codec, s: Store, location: string): Option<string> {
    if IsRemote(c, location) then
      if location in s.web then Some(s.web[location]) else None
    else Read(s, location)
  }

  /** `ResolveReleaseChannelLookup`. */
  function Lookup(c: Codec, s: Store, line: string, channel: string, source: string): Result<Target> {
    if Blank(line) then Err("distribution line cannot be empty")
    else if channel !in CHANNELS then Err("channel")
    else if Blank(source) then Err("release source cannot be empty")
    else if (Trim(source), Trim(line), channel) !in s.releases then Err("release channel not found")
    else
      var (ch, location) := s.releases[(Trim(source), Trim(line), channel)];
      if Trim(ch.distribution) != Trim(line) then Err("resolved distribution")
      else if ch.channel != channel then Err("resolved channel")
      else if Blank(ch.bomDigest) then Err("must resolve a digest-pinned BOM")
      else match Fetch(c, s, location)
        case None => Err("read bom")
        case Some(data) =>
          match Checked(c, ch, data)
          case Err(e) => Err(e)
          case Ok(doc) => Ok(Target(doc, data, location, c.hash(data), Some(ch), "", "", source))
  }

  /** `resolveSyncTarget`. */
  function ResolveTarget(c: Codec, s: Store, o: TargetOptions): Result<Target> {
    var kinds := Selected(o);
    if |kinds| == 0 then Err("a target selector is required")
    else if |kinds| > 1 then Err("use only one target selector")
    else match kinds[0]
      case ByChannelFile => FromChannelFile(c, s, Trim(o.channelPath))
      case ByLookup =>
        if Blank(o.source) || Blank(o.line) || Blank(o.channel) then Err("must be set together")
        else Lookup(c, s, Trim(o.line), Trim(o.channel), Trim(o.source))
      case ByFile =>
        match Read(s, Trim(o.bomPath))
        case None => Err("bom file not found")
        case Some(data) =>
          match c.bom(data)
          case None => Err("unmarshal bom")
          case Some(doc) => Ok(Target(doc, data, Trim(o.bomPath), "", None, "", "", ""))
  }

  // --------------------------------------------------------- package sources

  /** One `component=dir` value against the roots bound so far. */
  function BindSource(c: Codec, s: Store, doc: Doc, roots: map<string, string>, value: string)
    : Result<map<string, string>>
  {
    match Cut(value, '=')
    case None => Err("want component=dir")
    case Some((left, right)) =>
      var component, root := Trim(left), Trim(right);
      if component == "" || root == "" then Err("want component=dir")
      else if component !in doc.packages then Err("component not found in BOM")
      else if component in roots then Err("duplicate package source")
      else match Entry(s, Abs(s, root))
        case None => Err("not a package")
        case Some(node) =>
          if c.package(node) then Ok(roots[component := Abs(s, root)]) else Err("not a package")
  }

  function Binder(c: Codec, s: Store, doc: Doc): (map<string, string>, string) -> Result<map<string, string>> {
    (roots, value) => BindSource(c, s, doc, roots, value)
  }

  /** `resolveSyncPackageSources`. */
  function BindSources(c: Codec, s: Store, doc: Doc, roots: map<string, string>, values: seq<string>)
    : Result<map<string, string>>
  {
    FoldOk(Binder(c, s, doc), roots, values)
  }

  // -------------------------------------------------------------- provenance

  datatype PackageSource = PackageSource(component: string, path: string, digest: string)

  datatype Provenance = Provenance(
    channelPath: string, channelDigest: string,
    source: string, line: string, channel: string,
    bomPath: string, bomDigest: string,
    repoPath: string, repoRevision: string, patchRevision: string,
    sources: seq<PackageSource>)

  /** The keys of a map as `sort.Strings` leaves them. */
  ghost predicate Keys(names: seq<string>, roots: map<string, string>) {
    && Sorting.Ascending(Sorting.Leq, names) && Sorting.NoRepeats(names)
    && forall n :: n in names <==> n in roots
  }

  function RecordChannel(c: Codec, s: Store, t: Target): Result<(string, string)> {
    if !Blank(t.channelPath) then
      match Read(s, Abs(s, t.channelPath))
      case None => Err("read ReleaseChannel path")
      case Some(text) => Ok((Abs(s, t.channelPath), c.hash(text)))
    else Ok((Trim(t.channelSource), ""))
  }

  function RecordBom(c: Codec, s: Store, t: Target): Result<(string, string)> {
    if Blank(t.bomPath) then Ok(("", ""))
    else if IsRemote(c, t.bomPath) then Ok((Trim(t.bomPath), Trim(t.bomDigest)))
    else match Read(s, Abs(s, t.bomPath))
      case None => Err("read BOM path")
      case Some(data) => Ok((Abs(s, t.bomPath), c.hash(data)))
  }

  function RecordSource(c: Codec, s: Store, name: string, root: string): Result<PackageSource> {
    match Entry(s, root)
    case None => Err("digest package source")
    case Some(node) =>
      match Digest(c.hash, node)
      case Err(e) => Err(e)
      case Ok(d) => Ok(PackageSource(name, root, d))
  }

  function RecordSources(c: Codec, s: Store, roots: map<string, string>, names: seq<string>)
    : Result<seq<PackageSource>>
    requires forall n :: n in names ==> n in roots
    decreases |names|
  {
    if names == [] then Ok([])
    else match RecordSource(c, s, names[0], roots[names[0]])
      case Err(e) => Err(e)
      case Ok(p) => Prepend([p], RecordSources(c, s, roots, names[1..]))
  }

  function Prepend(head: seq<PackageSource>, tail: Result<seq<PackageSource>>): Result<seq<PackageSource>> {
    match tail
    case Err(e) => Err(e)
    case Ok(rest) => Ok(head + rest)
  }

  /** The provenance of the three recorded parts, or the first error. */
  function Assemble(t: Target, repoPath: string, repo: Option<string>, patch: string,
                    channelPart: Result<(string, string)>, bomPart: Result<(string, string)>,
                    sourcePart: Result<seq<PackageSource>>): Result<Provenance>
  {
    match channelPart
    case Err(e) => Err(e)
    case Ok((channelPath, channelDigest)) =>
      match bomPart
      case Err(e) => Err(e)
      case Ok((bomPath, bomDigest)) =>
        match sourcePart
        case Err(e) => Err(e)
        case Ok(sources) =>
          Ok(Provenance(channelPath, channelDigest, Trim(t.source), LineOf(t), ChannelOf(t), bomPath, bomDigest,
                        Trim(repoPath), RevisionOf(repo), Trim(patch), sources))
  }

  function LineOf(t: Target): string {
    if t.channelDoc.Some? then Trim(t.channelDoc.value.distribution) else ""
  }

  function ChannelOf(t: Target): string {
    if t.channelDoc.Some? then t.channelDoc.value.channel else ""
  }

  function RevisionOf(repo: Option<string>): string {
    if repo.Some? then repo.value else ""
  }

  /** `syncRenderProvenance`; `names` are the sorted keys of `roots`. */
  function Record(c: Codec, s: Store, t: Target, repoPath: string, repo: Option<string>, patch: string,
                  roots: map<string, string>, names: seq<string>): Result<Provenance>
    requires forall n :: n in names ==> n in roots
  {
    Assemble(t, repoPath, repo, patch, RecordChannel(c, s, t), RecordBom(c, s, t), RecordSources(c, s, roots, names))
  }

  // --------------------------------------------------------------- normalize

  function TrimSource(p: PackageSource): PackageSource {
    PackageSource(Trim(p.component), Trim(p.path), Trim(p.digest))
  }

  predicate SourceLeq(a: PackageSource, b: PackageSource) {
    if a.component != b.component then Sorting.Leq(a.component, b.component)
    else Sorting.Leq(a.path, b.path)
  }

  function KeptSource(p: PackageSource): seq<PackageSource> {
    var q := TrimSource(p);
    if q.component == "" && q.path == "" then [] else [q]
  }

  /** The trimmed sources, those without component and path dropped. */
  function KeptSources(sources: seq<PackageSource>): seq<PackageSource> {
    FlatMap(KeptSource, sources)
  }

  /** `RenderProvenance.Normalize`. */
  function Normalize(p: Provenance): Provenance {
    Provenance(Trim(p.channelPath), Trim(p.channelDigest), Trim(p.source), Trim(p.line), Trim(p.channel),
               Trim(p.bomPath), Trim(p.bomDigest), Trim(p.repoPath), Trim(p.repoRevision),
               Trim(p.patchRevision), Sorting.Sort(SourceLeq, KeptSources(p.sources)))
  }

  /** `RenderProvenance.Empty`. */
  predicate Empty(p: Provenance) {
    && Blank(p.channelPath) && Blank(p.channelDigest) && Blank(p.source) && Blank(p.line)
    && Blank(p.channel) && Blank(p.bomPath) && Blank(p.bomDigest) && Blank(p.repoPath)
    && Blank(p.repoRevision) && Blank(p.patchRevision) && p.sources == []
  }

  /** Every source kept, its text trimmed: what normalizing does to sources
      that are named and already in the order of their names. */
  function TrimAll(sources: seq<PackageSource>): (r: seq<PackageSource>)
    ensures |r| == |sources| && forall i :: 0 <= i < |r| ==> r[i] == TrimSource(sources[i])
  {
    seq(|sources|, i requires 0 <= i < |sources| => TrimSource(sources[i]))
  }

  ghost predicate NamedInOrder(sources: seq<PackageSource>) {
    && (forall i :: 0 <= i < |sources| ==> sources[i].component != "" && Trimmed(sources[i].component))
    && (forall i, j :: 0 <= i < j < |sources| ==>
          sources[i].component != sources[j].component
          && Sorting.Leq(sources[i].component, sources[j].component))
  }

  lemma KeptAll(sources: seq<PackageSource>)
    requires forall i :: 0 <= i < |sources| ==> sources[i].component != "" && Trimmed(sources[i].component)
    ensures KeptSources(sources) == TrimAll(sources)
  {
    forall i | 0 <= i < |sources|
      ensures KeptSource(sources[i]) == [TrimAll(sources)[i]]
    {
      TrimFixpoint(sources[i].component);
    }
    FlatMapSingles(KeptSource, sources, TrimAll(sources));
  }

  lemma NormalizeSources(sources: seq<PackageSource>)
    requires NamedInOrder(sources)
    ensures Sorting.Sort(SourceLeq, KeptSources(sources)) == TrimAll(sources)
    ensures NamedInOrder(TrimAll(sources))
  {
    var r := TrimAll(sources);
    KeptAll(sources);
    forall i | 0 <= i < |r|
      ensures r[i].component == sources[i].component
    {
      TrimFixpoint(sources[i].component);
    }
    Sorting.SortFixpoint(SourceLeq, r);
  }

  lemma {:induction false} TrimAllTwice(sources: seq<PackageSource>)
    ensures TrimAll(TrimAll(sources)) == TrimAll(sources)
  {
    forall i | 0 <= i < |sources|
      ensures TrimSource(TrimSource(sources[i])) == TrimSource(sources[i])
    {
      TrimIdempotent(sources[i].component);
      TrimIdempotent(sources[i].path);
      TrimIdempotent(sources[i].digest);
    }
  }

  // ------------------------------------------------------------------ render

  datatype RenderOptions = RenderOptions(target: TargetOptions, repo: string, patch: string, sources: seq<string>)

  datatype Bundle = Bundle(revision: string, provenance: Provenance)

  /** The render steps up to the provenance: target, package roots, local repo,
      record. `Trace` keeps what each produced. */
  datatype Trace = Trace(target: Target, roots: map<string, string>, repoPath: string,
                         repo: Option<string>, recorded: Provenance)

  function OpenRepo(s: Store, repo: string): Result<(string, Option<string>)> {
    if repo == "" then Ok(("", None))
    else match LoadRepo(s, Abs(s, repo))
      case None => Err("load local repo")
      case Some(revision) => Ok((Abs(s, repo), Some(revision)))
  }

  /** The names a render recorded, in order. */
  ghost predicate RecordedWith(c: Codec, s0: Store, o: RenderOptions, t: Trace, names: seq<string>) {
    Keys(names, t.roots)
    && Record(c, s0, t.target, t.repoPath, t.repo, o.patch, t.roots, names) == Ok(t.recorded)
  }

  /** Target, package roots and local repo as the options resolve to them. */
  ghost predicate Resolved(c: Codec, s: Store, o: RenderOptions, t: Trace) {
    && ResolveTarget(c, s, o.target) == Ok(t.target)
    && BindSources(c, s, t.target.doc, map[], o.sources) == Ok(t.roots)
    && OpenRepo(s, o.repo) == Ok((t.repoPath, t.repo))
  }

  /** What `Materialize` stores of the record. */
  function Bundled(o: RenderOptions, t: Trace): Bundle {
    Bundle(t.target.doc.revision, Normalize(t.recorded.(repoRevision := RevisionOf(t.repo), patchRevision := o.patch)))
  }

  /** `newSyncMaterializeOptions` followed by the provenance part of
      `Materialize`, as a relation: `names` is the order the map keys took after
      sorting, which `Keys` determines. */
  ghost predicate Rendered(c: Codec, s: Store, o: RenderOptions, t: Trace, b: Bundle) {
    && Resolved(c, s, o, t)
    && (exists names: seq<string> :: RecordedWith(c, s, o, t, names))
    && b == Bundled(o, t)
  }

  /** The sorted key list of a map is unique, so a render records one provenance
      whatever order the map yields its keys in. */
  lemma RenderDeterministic(c: Codec, s: Store, o: RenderOptions, t: Trace, b: Bundle, t2: Trace, b2: Bundle)
    requires Rendered(c, s, o, t, b) && Rendered(c, s, o, t2, b2)
    ensures t == t2 && b == b2
  {
    var names: seq<string> :| RecordedWith(c, s, o, t, names);
    var names2: seq<string> :| RecordedWith(c, s, o, t2, names2);
    Sorting.StringOrder();
    Sorting.AscendingUnique(Sorting.Leq, names, names2);
  }

  // ------------------------------------------------------------------- loops

  /** The package-source loop. */
  method ResolvePackageSources(c: Codec, s: Store, doc: Doc, values: seq<string>)
    returns (r: Result<map<string, string>>)
    ensures r == BindSources(c, s, doc, map[], values)
  {
    var roots: map<string, string> := map[];
    for i := 0 to |values|
      invariant BindSources(c, s, doc, roots, values[i..]) == BindSources(c, s, doc, map[], values)
    {
      assert values[i..][0] == values[i] && values[i..][1..] == values[i + 1..];
      match BindSource(c, s, doc, roots, values[i]) {
        case Err(e) => return Err(e);
        case Ok(more) => roots := more;
      }
    }
    return Ok(roots);
  }

  /** The package part of `syncRenderProvenance`: collect the keys in whatever
      order the map yields them, sort, digest one by one. */
  method RecordPackageSources(c: Codec, s: Store, roots: map<string, string>)
    returns (r: Result<seq<PackageSource>>, ghost sorted: seq<string>)
    ensures Keys(sorted, roots)
    ensures r == RecordSources(c, s, roots, sorted)
  {
    var names := KeysInSomeOrder(roots);
    var order := Sorting.Sort(Sorting.Leq, names);
    SortedKeys(roots, names);
    sorted := order;
    r := DigestAll(c, s, roots, order);
  }

  method DigestAll(c: Codec, s: Store, roots: map<string, string>, order: seq<string>)
    returns (r: Result<seq<PackageSource>>)
    requires forall n :: n in order ==> n in roots
    ensures r == RecordSources(c, s, roots, order)
  {
    var out: seq<PackageSource> := [];
    PrependNone(RecordSources(c, s, roots, order));
    assert order[0..] == order;
    for i := 0 to |order|
      invariant RecordSources(c, s, roots, order) == Prepend(out, RecordSources(c, s, roots, order[i..]))
    {
      assert order[i..][0] == order[i] && order[i..][1..] == order[i + 1..];
      match RecordSource(c, s, order[i], roots[order[i]]) {
        case Err(e) => return Err(e);
        case Ok(p) =>
          PrependMore(out, p, RecordSources(c, s, roots, order[i + 1..]));
          out := out + [p];
      }
    }
    assert order[|order|..] == [] && out + [] == out;
    return Ok(out);
  }

  lemma PrependNone(tail: Result<seq<PackageSource>>)
    ensures Prepend([], tail) == tail
  {
    if tail.Ok? {
      assert [] + tail.value == tail.value;
    }
  }

  lemma PrependMore(head: seq<PackageSource>, x: PackageSource, tail: Result<seq<PackageSource>>)
    ensures Prepend(head, Prepend([x], tail)) == Prepend(head + [x], tail)
  {
    if tail.Ok? {
      assert head + ([x] + tail.value) == head + [x] + tail.value;
    }
  }

  lemma SortedKeys(roots: map<string, string>, names: seq<string>)
    requires Sorting.NoRepeats(names) && forall n :: n in names <==> n in roots
    ensures Keys(Sorting.Sort(Sorting.Leq, names), roots)
  {
    var r := Sorting.Sort(Sorting.Leq, names);
    Sorting.StringOrder();
    Sorting.SortAscending(Sorting.Leq, names);
    Sorting.SameElements(r, names);
    Sorting.SortNoRepeats(names, r);
  }

  /** Ranging over a Go map: every key once, in an order chosen by the runtime. */
  method KeysInSomeOrder(roots: map<string, string>) returns (names: seq<string>)
    ensures Sorting.NoRepeats(names)
    ensures forall n :: n in names <==> n in roots
  {
    names := [];
    var left := roots.Keys;
    while left != {}
      invariant left <= roots.Keys
      invariant Sorting.NoRepeats(names)
      invariant forall n :: n in names <==> n in roots && n !in left
    {
      var n :| n in left;
      names := names + [n];
      left := left - {n};
    }
  }
}
