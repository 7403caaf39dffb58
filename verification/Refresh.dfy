/** The refresh command printed for a bundle (`syncTopologyRefreshCommand`), read
    back: shell words, flags, target selection, package sources. */
module Refresh {
  import opened GoStrings
  import opened Paths
  import opened DirectoryDigest
  import opened RenderInputs
  import opened Shell
  import Csv

  // ----------------------------------------------------------------- printing

  function SourceValue(p: PackageSource): string {
    p.component + "=" + p.path
  }

  predicate Printable(p: PackageSource) {
    !Blank(p.component) && !Blank(p.path)
  }

  /** A long flag and its value, as two arguments. */
  function Opt(name: string, value: string): seq<string> {
    ["--" + name, value]
  }

  /** A flag printed only when its value is not blank. */
  function OptionalArgs(name: string, value: string): seq<string> {
    if Blank(value) then [] else Opt(name, value)
  }

  function SourceArgs(p: PackageSource): seq<string> {
    if Printable(p) then Opt("package-source", SourceValue(p)) else []
  }

  const PLACEHOLDER := "<bom.yaml>"

  function FileOr(bomPath: string): string {
    if Blank(bomPath) then PLACEHOLDER else bomPath
  }

  function TargetArgs(p: Provenance): seq<string> {
    if !Blank(p.source) then
      Opt("release-source", p.source) + Opt("release-line", p.line) + Opt("channel", p.channel)
    else if !Blank(p.channelPath) then Opt("release-channel", p.channelPath)
    else Opt("file", FileOr(p.bomPath))
  }

  function InputArgs(p: Provenance): seq<string> {
    OptionalArgs("local-repo", p.repoPath)
    + OptionalArgs("local-patch-revision", p.patchRevision)
    + FlatMap(SourceArgs, p.sources)
  }

  /** The flag arguments after `sealos sync render`. */
  function FlagArgs(cluster: string, p: Option<Provenance>): seq<string> {
    Opt("cluster", cluster)
    + match p
      case None => Opt("file", PLACEHOLDER)
      case Some(v) => TargetArgs(v) + InputArgs(v)
  }

  const COMMAND := ["sealos", "sync", "render"]

  /** The command text, argument by argument as the source appends them. */
  method RefreshCommand(cluster: string, p: Option<Provenance>) returns (line: string)
    ensures line == CommandLine(COMMAND + FlagArgs(cluster, p))
  {
    var args := COMMAND + Opt("cluster", cluster);
    match p {
      case None =>
        args := args + Opt("file", PLACEHOLDER);
        Regroup(COMMAND, Opt("cluster", cluster), Opt("file", PLACEHOLDER), []);
      case Some(v) =>
        args := args + TargetArgs(v);
        args := AppendInputs(args, v);
        Regroup(COMMAND, Opt("cluster", cluster), TargetArgs(v), InputArgs(v));
    }
    line := ShellCommand(args);
  }

  lemma Regroup(a: seq<string>, b: seq<string>, c: seq<string>, d: seq<string>)
    ensures a + b + c == a + (b + c) && a + b + c + d == a + (b + (c + d))
  {
    assert a + b + c + d == a + (b + (c + d));
  }

  method AppendInputs(start: seq<string>, v: Provenance) returns (args: seq<string>)
    ensures args == start + InputArgs(v)
  {
    args := start;
    if !Blank(v.repoPath) {
      args := args + Opt("local-repo", v.repoPath);
    }
    if !Blank(v.patchRevision) {
      args := args + Opt("local-patch-revision", v.patchRevision);
    }
    args := AppendEach(SourceArgs, args, v.sources);
  }

  // -------------------------------------------------------------- flag parsing

  datatype Flags = Flags(cluster: string, file: string, channelPath: string, source: string, line: string,
                         channel: string, repo: string, patch: string, sources: seq<string>)

  const DEFAULTS := Flags("default", "", "", "", "", "", "", "", [])

  /** `Set` of the flag called `name`; `None` for a flag the command lacks. */
  function SetFlag(f: Flags, name: string, value: string): Option<Flags> {
    match name
    case "cluster" => Some(f.(cluster := value))
    case "file" => Some(f.(file := value))
    case "release-channel" => Some(f.(channelPath := value))
    case "release-source" => Some(f.(source := value))
    case "release-line" => Some(f.(line := value))
    case "channel" => Some(f.(channel := value))
    case "local-repo" => Some(f.(repo := value))
    case "local-patch-revision" => Some(f.(patch := value))
    case "package-source" =>
      (match Csv.Fields(value)
       case None => None
       case Some(fields) => Some(f.(sources := f.sources + fields)))
    case _ => None
  }

  /** Long flags of `pflag`: `--name value` or `--name=value`. Anything else
      (positional words, shorthands, `--`) is refused, as the command takes no
      arguments. */
  function ParseFlags(args: seq<string>, f: Flags): Option<Flags>
    decreases |args|
  {
    if args == [] then Some(f)
    else if !HasPrefix(args[0], "--") || |args[0]| == 2 || args[0][2] in "-=" then None
    else match Cut(args[0][2..], '=')
      case Some((name, value)) =>
        (match SetFlag(f, name, value)
         case None => None
         case Some(g) => ParseFlags(args[1..], g))
      case None =>
        if |args| == 1 then None
        else match SetFlag(f, args[0][2..], args[1])
          case None => None
          case Some(g) => ParseFlags(args[2..], g)
  }

  function OptionsOf(f: Flags): RenderOptions {
    RenderOptions(TargetOptions(f.file, f.channelPath, f.source, f.line, f.channel), f.repo, f.patch, f.sources)
  }

  /** A typed command line: read by the shell, routed to `sync render`, parsed. */
  function ReadCommand(line: string): Option<Flags> {
    match FirstLine(line)
    case None => None
    case Some((words, rest)) =>
      if |words| >= 3 && words[..3] == COMMAND then ParseFlags(words[3..], DEFAULTS) else None
  }

  // -------------------------------------------------------------- one flag read

  /** A flag name as printed: two dashes, a letter, no equals sign. */
  predicate FlagName(name: string) {
    name != "" && name[0] !in "-=" && '=' !in name
  }

  lemma OneFlag(f: Flags, name: string, value: string, rest: seq<string>)
    requires FlagName(name)
    ensures ParseFlags(Opt(name, value) + rest, f)
         == (match SetFlag(f, name, value) case None => None case Some(g) => ParseFlags(rest, g))
  {
    var args := Opt(name, value) + rest;
    assert args[0] == "--" + name && args[0][2..] == name && args[1] == value;
    assert args[2..] == rest;
    assert HasPrefix(args[0], "--");
  }

  function KeptValue(p: PackageSource): seq<string> {
    if Printable(p) then [SourceValue(p)] else []
  }

  function AddSources(f: Flags, values: seq<string>): Flags {
    f.(sources := f.sources + values)
  }

  /** The values the flag gets from one printed source. */
  function SourceFields(p: PackageSource): Option<seq<string>> {
    if Printable(p) then Csv.Fields(SourceValue(p)) else Some([])
  }

  /** Reading every item, the first failure failing all. */
  function ReadAll<T>(read: T -> Option<seq<string>>, items: seq<T>): Option<seq<string>> {
    if items == [] then Some([])
    else
      match read(items[0])
      case None => None
      case Some(a) =>
        match ReadAll(read, items[1..])
        case None => None
        case Some(b) => Some(a + b)
  }

  function AllFields(sources: seq<PackageSource>): Option<seq<string>> {
    ReadAll(SourceFields, sources)
  }

  /** Every printed value is one plain field. */
  ghost predicate PlainSources(sources: seq<PackageSource>) {
    forall i :: 0 <= i < |sources| && Printable(sources[i]) ==> Csv.Plain(SourceValue(sources[i]))
  }

  lemma SetSource(f: Flags, value: string)
    ensures SetFlag(f, "package-source", value)
         == (match Csv.Fields(value) case None => None case Some(fields) => Some(AddSources(f, fields)))
  {
  }

  lemma ParseSource(f: Flags, p: PackageSource, rest: seq<string>)
    ensures ParseFlags(SourceArgs(p) + rest, f)
         == (match SourceFields(p) case None => None case Some(fields) => ParseFlags(rest, AddSources(f, fields)))
  {
    if Printable(p) {
      SetSource(f, SourceValue(p));
      OneFlag(f, "package-source", SourceValue(p), rest);
    } else {
      assert [] + rest == rest && f.sources + [] == f.sources;
    }
  }

  /** An item's arguments are read off the front of the line. */
  ghost predicate ReadsOff<T, F(!new)>(parse: (seq<string>, F) -> Option<F>, args: T -> seq<string>,
                                       read: T -> Option<seq<string>>, add: (F, seq<string>) -> F, item: T) {
    forall rest: seq<string>, f: F ::
      parse(args(item) + rest, f) == match read(item) case None => None case Some(x) => parse(rest, add(f, x))
  }

  ghost predicate Adds<F(!new)>(add: (F, seq<string>) -> F) {
    && (forall f: F :: add(f, []) == f)
    && (forall f: F, a, b :: add(add(f, a), b) == add(f, a + b))
  }

  lemma {:induction false} ParseMany<T, F(!new)>(parse: (seq<string>, F) -> Option<F>, args: T -> seq<string>,
                                                 read: T -> Option<seq<string>>, add: (F, seq<string>) -> F,
                                                 items: seq<T>, f: F)
    requires (forall g: F :: parse([], g) == Some(g)) && Adds(add)
    requires forall i :: 0 <= i < |items| ==> ReadsOff(parse, args, read, add, items[i])
    ensures parse(FlatMap(args, items), f)
         == match ReadAll(read, items) case None => None case Some(x) => Some(add(f, x))
    decreases |items|
  {
    if items != [] {
      assert ReadsOff(parse, args, read, add, items[0]);
      forall i | 0 <= i < |items[1..]|
        ensures ReadsOff(parse, args, read, add, items[1..][i])
      {
        assert items[1..][i] == items[i + 1];
      }
      if read(items[0]).Some? {
        ParseMany(parse, args, read, add, items[1..], add(f, read(items[0]).value));
      }
    }
  }

  lemma AddSourcesAdds()
    ensures Adds(AddSources)
  {
    assert forall f: Flags :: f.sources + [] == f.sources;
    assert forall f: Flags, a, b :: f.sources + a + b == f.sources + (a + b);
  }

  /** The printed source arguments come back as the values read from them. */
  lemma ParseSources(f: Flags, sources: seq<PackageSource>)
    ensures ParseFlags(FlatMap(SourceArgs, sources), f)
         == (match AllFields(sources) case None => None case Some(values) => Some(AddSources(f, values)))
  {
    forall i | 0 <= i < |sources|
      ensures ReadsOff(ParseFlags, SourceArgs, SourceFields, AddSources, sources[i])
    {
      forall rest: seq<string>, g: Flags
        ensures ParseFlags(SourceArgs(sources[i]) + rest, g)
             == match SourceFields(sources[i]) case None => None case Some(x) => ParseFlags(rest, AddSources(g, x))
      {
        ParseSource(g, sources[i], rest);
      }
    }
    AddSourcesAdds();
    ParseMany(ParseFlags, SourceArgs, SourceFields, AddSources, sources, f);
  }

  lemma SourceFieldsExact(p: PackageSource)
    requires Printable(p)
    ensures var v := SourceValue(p);
      && (Csv.Plain(v) ==> SourceFields(p) == Some([v]))
      && (SourceFields(p).Some? ==>
            SourceFields(p).value != [] && (SourceFields(p).value[0] == v ==> Csv.Plain(v)))
  {
    assert SourceValue(p)[|p.component|] == '=';
    Csv.FieldsExact(SourceValue(p));
  }

  /** Comparing two lists value by value, the first one first. */
  lemma FrontField(a: Option<seq<string>>, b: Option<seq<string>>, v: string, rest: seq<string>)
    requires a.Some? ==> a.value != []
    requires a.Some? && a.value[0] == v ==> a.value == [v]
    ensures (a.Some? && b.Some? && a.value + b.value == [v] + rest) <==> (a == Some([v]) && b == Some(rest))
  {
    if a.Some? && b.Some? && a.value + b.value == [v] + rest {
      assert (a.value + b.value)[0] == a.value[0];
      assert ([v] + b.value)[1..] == b.value && ([v] + rest)[1..] == rest;
    }
  }

  /** What reading an item gives against what was printed for it: nothing for
      nothing; else something, whose first value tells whether it is that alone. */
  ghost predicate FrontTells<T>(read: T -> Option<seq<string>>, kept: T -> seq<string>, item: T) {
    if kept(item) == [] then read(item) == Some([])
    else |kept(item)| == 1
         && (read(item).Some? ==> read(item).value != []
                                  && (read(item).value[0] == kept(item)[0] ==> read(item).value == kept(item)))
  }

  lemma {:induction false} ReadAllExact<T>(read: T -> Option<seq<string>>, kept: T -> seq<string>, items: seq<T>)
    requires forall i :: 0 <= i < |items| ==> FrontTells(read, kept, items[i])
    ensures ReadAll(read, items) == Some(FlatMap(kept, items)) <==>
            forall i :: 0 <= i < |items| ==> read(items[i]) == Some(kept(items[i]))
    decreases |items|
  {
    if items != [] {
      var first, rest := items[0], items[1..];
      assert forall i :: 0 <= i < |rest| ==> rest[i] == items[i + 1];
      assert forall i :: 1 <= i < |items| ==> items[i] == rest[i - 1];
      ReadAllExact(read, kept, rest);
      assert FrontTells(read, kept, first);
      if kept(first) != [] {
        assert kept(first) == [kept(first)[0]];
        FrontField(read(first), ReadAll(read, rest), kept(first)[0], FlatMap(kept, rest));
      } else {
        assert [] + FlatMap(kept, rest) == FlatMap(kept, rest);
        assert ReadAll(read, rest).Some? ==> [] + ReadAll(read, rest).value == ReadAll(read, rest).value;
      }
    }
  }

  /** The values read are the printed ones exactly if each is one plain field. */
  lemma AllFieldsExact(sources: seq<PackageSource>)
    ensures AllFields(sources) == Some(FlatMap(KeptValue, sources)) <==> PlainSources(sources)
  {
    forall i | 0 <= i < |sources|
      ensures FrontTells(SourceFields, KeptValue, sources[i])
      ensures SourceFields(sources[i]) == Some(KeptValue(sources[i])) <==>
              (Printable(sources[i]) ==> Csv.Plain(SourceValue(sources[i])))
    {
      if Printable(sources[i]) {
        SourceFieldsExact(sources[i]);
      }
    }
    ReadAllExact(SourceFields, KeptValue, sources);
  }

  // ------------------------------------------------------------- the round trip

  function TargetFlags(f: Flags, p: Provenance): Flags {
    if !Blank(p.source) then f.(source := p.source, line := p.line, channel := p.channel)
    else if !Blank(p.channelPath) then f.(channelPath := p.channelPath)
    else f.(file := FileOr(p.bomPath))
  }

  function InputFlags(f: Flags, p: Provenance): Flags {
    f.(repo := if Blank(p.repoPath) then f.repo else p.repoPath,
       patch := if Blank(p.patchRevision) then f.patch else p.patchRevision,
       sources := f.sources + FlatMap(KeptValue, p.sources))
  }

  lemma SetTarget(f: Flags, v: string)
    ensures SetFlag(f, "file", v) == Some(f.(file := v))
    ensures SetFlag(f, "release-channel", v) == Some(f.(channelPath := v))
    ensures SetFlag(f, "release-source", v) == Some(f.(source := v))
  {
  }

  lemma SetOther(f: Flags, v: string)
    ensures SetFlag(f, "release-line", v) == Some(f.(line := v))
    ensures SetFlag(f, "channel", v) == Some(f.(channel := v))
    ensures SetFlag(f, "local-repo", v) == Some(f.(repo := v))
    ensures SetFlag(f, "local-patch-revision", v) == Some(f.(patch := v))
    ensures SetFlag(f, "cluster", v) == Some(f.(cluster := v))
  {
  }

  lemma ParseLookup(f: Flags, p: Provenance, rest: seq<string>)
    requires !Blank(p.source)
    ensures ParseFlags(TargetArgs(p) + rest, f) == ParseFlags(rest, TargetFlags(f, p))
  {
    var last := Opt("channel", p.channel) + rest;
    var more := Opt("release-line", p.line) + last;
    assert TargetArgs(p) + rest == Opt("release-source", p.source) + more;
    var g := f.(source := p.source);
    var h := g.(line := p.line);
    SetTarget(f, p.source);
    SetOther(g, p.line);
    SetOther(h, p.channel);
    OneFlag(f, "release-source", p.source, more);
    OneFlag(g, "release-line", p.line, last);
    OneFlag(h, "channel", p.channel, rest);
  }

  lemma ParseTarget(f: Flags, p: Provenance, rest: seq<string>)
    ensures ParseFlags(TargetArgs(p) + rest, f) == ParseFlags(rest, TargetFlags(f, p))
  {
    if !Blank(p.source) {
      ParseLookup(f, p, rest);
    } else if !Blank(p.channelPath) {
      SetTarget(f, p.channelPath);
      OneFlag(f, "release-channel", p.channelPath, rest);
    } else {
      var bom := FileOr(p.bomPath);
      SetTarget(f, bom);
      OneFlag(f, "file", bom, rest);
    }
  }

  lemma ParseRepo(f: Flags, value: string, rest: seq<string>)
    ensures ParseFlags(OptionalArgs("local-repo", value) + rest, f)
         == ParseFlags(rest, f.(repo := if Blank(value) then f.repo else value))
  {
    if Blank(value) {
      assert [] + rest == rest;
    } else {
      SetOther(f, value);
      OneFlag(f, "local-repo", value, rest);
    }
  }

  lemma ParsePatch(f: Flags, value: string, rest: seq<string>)
    ensures ParseFlags(OptionalArgs("local-patch-revision", value) + rest, f)
         == ParseFlags(rest, f.(patch := if Blank(value) then f.patch else value))
  {
    if Blank(value) {
      assert [] + rest == rest;
    } else {
      SetOther(f, value);
      OneFlag(f, "local-patch-revision", value, rest);
    }
  }

  /** The flags after the target, but for the sources. */
  function PlainFlags(f: Flags, p: Provenance): Flags {
    f.(repo := if Blank(p.repoPath) then f.repo else p.repoPath,
       patch := if Blank(p.patchRevision) then f.patch else p.patchRevision)
  }

  lemma ParseInputs(f: Flags, p: Provenance)
    ensures ParseFlags(InputArgs(p), f)
         == (match AllFields(p.sources)
             case None => None
             case Some(values) => Some(AddSources(PlainFlags(f, p), values)))
  {
    var last := FlatMap(SourceArgs, p.sources);
    var more := OptionalArgs("local-patch-revision", p.patchRevision) + last;
    assert InputArgs(p) == OptionalArgs("local-repo", p.repoPath) + more;
    var g := f.(repo := if Blank(p.repoPath) then f.repo else p.repoPath);
    var h := g.(patch := if Blank(p.patchRevision) then g.patch else p.patchRevision);
    ParseRepo(f, p.repoPath, more);
    ParsePatch(g, p.patchRevision, last);
    ParseSources(h, p.sources);
    assert h == PlainFlags(f, p);
  }

  /** The flags a refresh of `p` sets. */
  function RefreshFlags(cluster: string, p: Provenance): Flags {
    InputFlags(TargetFlags(DEFAULTS.(cluster := cluster), p), p)
  }

  lemma ParseAll(cluster: string, p: Provenance)
    ensures ParseFlags(FlagArgs(cluster, Some(p)), DEFAULTS)
         == (match AllFields(p.sources)
             case None => None
             case Some(values) =>
               Some(AddSources(PlainFlags(TargetFlags(DEFAULTS.(cluster := cluster), p), p), values)))
  {
    var f := DEFAULTS.(cluster := cluster);
    SetOther(DEFAULTS, cluster);
    OneFlag(DEFAULTS, "cluster", cluster, TargetArgs(p) + InputArgs(p));
    assert ["--" + "cluster", cluster] == Opt("cluster", cluster);
    ParseTarget(f, p, InputArgs(p));
    ParseInputs(TargetFlags(f, p), p);
  }

  lemma AddSame(f: Flags, a: seq<string>, b: seq<string>)
    ensures AddSources(f, a) == AddSources(f, b) <==> a == b
  {
    assert (f.sources + a)[|f.sources|..] == a && (f.sources + b)[|f.sources|..] == b;
  }

  /** Pasting the printed command into a shell sets the recorded flags and no
      others exactly if every printed pair is one plain field: without comma,
      quote and newline, and not ending in a carriage return. */
  lemma RefreshRoundTrip(cluster: string, p: Provenance)
    ensures ReadCommand(CommandLine(COMMAND + FlagArgs(cluster, Some(p)))) == Some(RefreshFlags(cluster, p))
       <==> PlainSources(p.sources)
  {
    var words := COMMAND + FlagArgs(cluster, Some(p));
    CommandRoundTrip(words);
    assert words[..3] == COMMAND && words[3..] == FlagArgs(cluster, Some(p));
    ParseAll(cluster, p);
    AllFieldsExact(p.sources);
    var f, kept := PlainFlags(TargetFlags(DEFAULTS.(cluster := cluster), p), p), FlatMap(KeptValue, p.sources);
    assert RefreshFlags(cluster, p) == AddSources(f, kept);
    if AllFields(p.sources).Some? {
      AddSame(f, AllFields(p.sources).value, kept);
    }
  }

  /** Which kind of selector a provenance stands for. */
  function KindOf(p: Provenance): Selector {
    if !Blank(p.source) then ByLookup else if !Blank(p.channelPath) then ByChannelFile else ByFile
  }

  lemma BlankDefault()
    ensures Blank("") && !Blank(PLACEHOLDER)
  {
    BlankMeaning(PLACEHOLDER);
    assert PLACEHOLDER[0] == '<';
  }

  /** The selectors named by options whose fields are blank or not as given. */
  lemma SelectedBy(o: TargetOptions)
    ensures o.bomPath != "" && !Blank(o.bomPath) && o.channelPath == o.source == o.line == o.channel == ""
        ==> Selected(o) == [ByFile]
    ensures !Blank(o.channelPath) && o.bomPath == o.source == o.line == o.channel == ""
        ==> Selected(o) == [ByChannelFile]
    ensures !Blank(o.source) && o.bomPath == o.channelPath == "" ==> Selected(o) == [ByLookup]
  {
    assert Trim("") == "";
  }

  function TargetOf(f: Flags): TargetOptions {
    TargetOptions(f.file, f.channelPath, f.source, f.line, f.channel)
  }

  lemma TargetFlagsSelect(f: Flags, p: Provenance)
    requires f.file == f.channelPath == f.source == f.line == f.channel == ""
    ensures Selected(TargetOf(TargetFlags(f, p))) == [KindOf(p)]
  {
    BlankDefault();
    SelectedBy(TargetOf(TargetFlags(f, p)));
  }

  /** Exactly one target selector is set, whatever was recorded; local repo and
      patch revision are the recorded ones. */
  lemma RefreshSelectsOne(cluster: string, p: Provenance)
    ensures var o := OptionsOf(RefreshFlags(cluster, p));
      && Selected(o.target) == [KindOf(p)]
      && o.repo == (if Blank(p.repoPath) then "" else p.repoPath)
      && o.patch == (if Blank(p.patchRevision) then "" else p.patchRevision)
      && o.sources == FlatMap(KeptValue, p.sources)
  {
    var f := DEFAULTS.(cluster := cluster);
    TargetFlagsSelect(f, p);
    TargetFlagsKeep(f, p);
    assert [] + FlatMap(KeptValue, p.sources) == FlatMap(KeptValue, p.sources);
  }

  lemma TargetFlagsKeep(f: Flags, p: Provenance)
    ensures var g := TargetFlags(f, p); g.repo == f.repo && g.patch == f.patch && g.sources == f.sources
  {
  }

  /** A printed pair is cut back into the same pair exactly when the component
      has no equals sign. */
  lemma PairCutsBack(p: PackageSource)
    ensures Cut(SourceValue(p), '=') == Some((p.component, p.path)) <==> '=' !in p.component
  {
    if '=' !in p.component {
      CutAt(p.component, p.path, '=');
      assert SourceValue(p) == p.component + ['='] + p.path;
    }
  }

  /** A comma in a pair splits the value: the flag then holds two or more
      values, none of them the printed one. */
  lemma CommaSplits(p: PackageSource)
    requires var v := SourceValue(p); ',' in v && '"' !in v && '\n' !in v
    ensures var fields := Csv.Fields(SourceValue(p));
            fields.Some? && |fields.value| >= 2 && SourceValue(p) !in fields.value
  {
    Csv.CommaCuts(SourceValue(p));
  }
}
