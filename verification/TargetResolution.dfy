/** When a target and its package sources resolve, told from the store and the
    options: what has to be there, and what the result then carries. */
module TargetResolution {
  import opened GoStrings
  import opened Paths
  import opened RenderInputs

  /** The BOM is the one its channel names: same line, same revision, and where the
      channel pins a digest, that of the bytes read. The target carries the digest
      of those bytes. */
  ghost predicate BomFits(c: Codec, ch: ChannelDoc, t: Target) {
    && c.bom(t.data) == Some(t.doc)
    && t.doc.name == Trim(ch.distribution) && t.doc.revision == ch.targetRevision
    && (Trim(ch.bomDigest) == "" || Trim(ch.bomDigest) == c.hash(t.data))
    && t.bomDigest == c.hash(t.data)
  }

  lemma CheckedExact(c: Codec, ch: ChannelDoc, t: Target)
    requires t.bomDigest == c.hash(t.data)
    ensures Checked(c, ch, t.data) == Ok(t.doc) <==> BomFits(c, ch, t)
  {
  }

  /** The BOM file by itself. */
  ghost predicate FileTarget(c: Codec, s: Store, path: string, t: Target) {
    && Read(s, path) == Some(t.data) && c.bom(t.data) == Some(t.doc)
    && t.bomPath == path && t.bomDigest == "" && t.channelDoc == None
    && t.channelPath == t.channelSource == t.source == ""
  }

  /** A channel file that parses, and the BOM it names: an absolute path, or one
      relative to the channel file's directory. */
  ghost predicate ChannelTarget(c: Codec, s: Store, path: string, t: Target) {
    && t.channelDoc.Some? && Read(s, path).Some? && c.channel(Read(s, path).value) == t.channelDoc
    && var ch := t.channelDoc.value;
    var named := Trim(ch.bomPath);
    && t.bomPath == (if IsAbs(named) then named else JoinPath(DirOf(path), named))
    && Read(s, t.bomPath) == Some(t.data) && BomFits(c, ch, t)
    && t.channelPath == t.channelSource == path && t.source == ""
  }

  /** A release source that knows the line and channel asked for, pins the BOM and
      can deliver it. */
  ghost predicate LookupTarget(c: Codec, s: Store, line: string, channel: string, source: string, t: Target) {
    && line != "" && source != "" && channel in ["alpha", "beta", "stable"]
    && (source, line, channel) in s.releases
    && t.channelDoc == Some(s.releases[(source, line, channel)].0) && t.bomPath == s.releases[(source, line, channel)].1
    && var ch := t.channelDoc.value;
    && Trim(ch.distribution) == line && ch.channel == channel && Trim(ch.bomDigest) != ""
    && (if c.remote(Trim(t.bomPath)) then t.bomPath in s.web && s.web[t.bomPath] == t.data
        else Read(s, t.bomPath) == Some(t.data))
    && BomFits(c, ch, t)
    && t.channelPath == t.channelSource == "" && t.source == source
  }

  lemma ChannelFileExact(c: Codec, s: Store, path: string, t: Target)
    ensures FromChannelFile(c, s, path) == Ok(t) <==> ChannelTarget(c, s, path, t)
  {
    if Read(s, path).Some? && c.channel(Read(s, path).value).Some? {
      var ch := c.channel(Read(s, path).value).value;
      var named := Trim(ch.bomPath);
      var bomPath := if IsAbs(named) then named else JoinPath(DirOf(path), named);
      if Read(s, bomPath).Some? {
        var data := Read(s, bomPath).value;
        CheckedExact(c, ch, Target(t.doc, data, bomPath, c.hash(data), Some(ch), path, path, ""));
      }
    }
  }

  lemma LookupExact(c: Codec, s: Store, line: string, channel: string, source: string, t: Target)
    requires Trim(line) == line && Trim(source) == source
    ensures Lookup(c, s, line, channel, source) == Ok(t) <==> LookupTarget(c, s, line, channel, source, t)
  {
    var key := (source, line, channel);
    if key in s.releases {
      var (ch, location) := s.releases[key];
      if Fetch(c, s, location).Some? {
        var data := Fetch(c, s, location).value;
        CheckedExact(c, ch, Target(t.doc, data, location, c.hash(data), Some(ch), "", "", source));
      }
    }
  }

  /** Resolving a target succeeds exactly if the options name one selector and what
      it selects is there and fits; the result is what was found. */
  lemma ResolveExact(c: Codec, s: Store, o: TargetOptions, t: Target)
    ensures ResolveTarget(c, s, o) == Ok(t) <==>
      var file, channel := Trim(o.bomPath) != "", Trim(o.channelPath) != "";
      var lookup := Trim(o.source) != "" || Trim(o.line) != "" || Trim(o.channel) != "";
      || (file && !channel && !lookup && FileTarget(c, s, Trim(o.bomPath), t))
      || (!file && channel && !lookup && ChannelTarget(c, s, Trim(o.channelPath), t))
      || (!file && !channel && lookup
          && Trim(o.channel) != "" && LookupTarget(c, s, Trim(o.line), Trim(o.channel), Trim(o.source), t))
  {
    var kinds := Selected(o);
    if |kinds| == 1 {
      match kinds[0] {
        case ByFile => FileExact(c, s, o, t);
        case ByChannelFile => ChannelFileExact(c, s, Trim(o.channelPath), t);
        case ByLookup =>
          TrimIdempotent(o.line);
          TrimIdempotent(o.source);
          LookupExact(c, s, Trim(o.line), Trim(o.channel), Trim(o.source), t);
      }
    }
  }

  lemma FileExact(c: Codec, s: Store, o: TargetOptions, t: Target)
    requires Selected(o) == [ByFile]
    ensures ResolveTarget(c, s, o) == Ok(t) <==> FileTarget(c, s, Trim(o.bomPath), t)
  {
  }

  // ----------------------------------------------------------- package sources

  /** The two parts of a `component=dir` value, trimmed. */
  function Component(value: string): string {
    match Cut(value, '=') case None => "" case Some((left, _)) => Trim(left)
  }

  function Directory(value: string): string {
    match Cut(value, '=') case None => "" case Some((_, right)) => Trim(right)
  }

  /** Both parts are given, the BOM has the component, and the directory holds a
      package. */
  ghost predicate GoodPair(c: Codec, s: Store, doc: Doc, value: string) {
    && Component(value) != "" && Directory(value) != "" && Component(value) in doc.packages
    && Entry(s, Abs(s, Directory(value))).Some? && c.package(Entry(s, Abs(s, Directory(value))).value)
  }

  /** The items' keys are not taken, and no two are alike. */
  ghost predicate Free<T(!new)>(items: seq<T>, key: T -> string, taken: set<string>) {
    && (forall i :: 0 <= i < |items| ==> key(items[i]) !in taken)
    && (forall i, j :: 0 <= i < j < |items| ==> key(items[i]) != key(items[j]))
  }

  lemma FreeCons<T(!new)>(items: seq<T>, key: T -> string, taken: set<string>)
    requires items != []
    ensures Free(items, key, taken) <==> key(items[0]) !in taken && Free(items[1..], key, taken + {key(items[0])})
  {
    var rest := items[1..];
    assert forall i :: 0 <= i < |rest| ==> rest[i] == items[i + 1];
    assert forall i :: 1 <= i < |items| ==> items[i] == rest[i - 1];
    if key(items[0]) !in taken && Free(rest, key, taken + {key(items[0])}) {
      forall i, j | 0 <= i < j < |items|
        ensures key(items[i]) != key(items[j])
      {
        assert items[j] == rest[j - 1];
        if i > 0 { assert items[i] == rest[i - 1]; }
      }
    }
  }

  ghost predicate AllGood(c: Codec, s: Store, doc: Doc, values: seq<string>) {
    forall i :: 0 <= i < |values| ==> GoodPair(c, s, doc, values[i])
  }

  lemma AllGoodCons(c: Codec, s: Store, doc: Doc, values: seq<string>)
    requires values != []
    ensures AllGood(c, s, doc, values) <==> GoodPair(c, s, doc, values[0]) && AllGood(c, s, doc, values[1..])
  {
    assert forall i :: 0 <= i < |values[1..]| ==> values[1..][i] == values[i + 1];
    assert forall i :: 1 <= i < |values| ==> values[i] == values[1..][i - 1];
  }

  /** Every value is a good pair, and no component is bound twice. */
  ghost predicate Bindable(c: Codec, s: Store, doc: Doc, roots: map<string, string>, values: seq<string>) {
    AllGood(c, s, doc, values) && Free(values, Component, roots.Keys)
  }

  /** The roots after binding: those before, and each component's directory. */
  ghost predicate Bound(s: Store, roots: map<string, string>, values: seq<string>, after: map<string, string>) {
    && (forall n :: n in after <==> n in roots || exists i :: 0 <= i < |values| && Component(values[i]) == n)
    && (forall n :: n in roots && n in after ==> after[n] == roots[n])
    && (forall i :: 0 <= i < |values| ==>
          Component(values[i]) in after && after[Component(values[i])] == Abs(s, Directory(values[i])))
  }

  lemma BindOne(c: Codec, s: Store, doc: Doc, roots: map<string, string>, value: string)
    ensures BindSource(c, s, doc, roots, value).Ok? <==> GoodPair(c, s, doc, value) && Component(value) !in roots
    ensures BindSource(c, s, doc, roots, value).Ok? ==>
      BindSource(c, s, doc, roots, value).value == roots[Component(value) := Abs(s, Directory(value))]
  {
  }

  lemma BindableCons(c: Codec, s: Store, doc: Doc, roots: map<string, string>, values: seq<string>,
                     more: map<string, string>)
    requires values != [] && more.Keys == roots.Keys + {Component(values[0])}
    ensures Bindable(c, s, doc, roots, values) <==>
      GoodPair(c, s, doc, values[0]) && Component(values[0]) !in roots && Bindable(c, s, doc, more, values[1..])
  {
    AllGoodCons(c, s, doc, values);
    FreeCons(values, Component, roots.Keys);
  }

  /** Binding the values of the flag succeeds exactly if each is a good pair and no
      component is bound twice; each component then has its directory. */
  lemma {:induction false} BindExact(c: Codec, s: Store, doc: Doc, roots: map<string, string>, values: seq<string>)
    ensures BindSources(c, s, doc, roots, values).Ok? <==> Bindable(c, s, doc, roots, values)
    ensures BindSources(c, s, doc, roots, values).Ok? ==>
      Bound(s, roots, values, BindSources(c, s, doc, roots, values).value)
    decreases |values|
  {
    if values != [] {
      BindOne(c, s, doc, roots, values[0]);
      var more := roots[Component(values[0]) := Abs(s, Directory(values[0]))];
      BindableCons(c, s, doc, roots, values, more);
      BindCons(c, s, doc, roots, values);
      BindExact(c, s, doc, more, values[1..]);
      if BindSources(c, s, doc, roots, values).Ok? {
        BoundCons(s, roots, values, more, BindSources(c, s, doc, roots, values).value);
      }
    }
  }

  lemma BindCons(c: Codec, s: Store, doc: Doc, roots: map<string, string>, values: seq<string>)
    requires values != []
    ensures var one := BindSource(c, s, doc, roots, values[0]);
      && (one.Err? ==> BindSources(c, s, doc, roots, values).Err?)
      && (one.Ok? ==> BindSources(c, s, doc, roots, values) == BindSources(c, s, doc, one.value, values[1..]))
  {
  }

  lemma BoundCons(s: Store, roots: map<string, string>, values: seq<string>, more: map<string, string>,
                  after: map<string, string>)
    requires values != [] && Component(values[0]) !in roots
    requires more == roots[Component(values[0]) := Abs(s, Directory(values[0]))] && Bound(s, more, values[1..], after)
    ensures Bound(s, roots, values, after)
  {
    var rest := values[1..];
    assert forall i :: 0 <= i < |rest| ==> rest[i] == values[i + 1];
    assert forall i :: 1 <= i < |values| ==> values[i] == rest[i - 1];
    assert Component(values[0]) in more;
    forall n
      ensures n in after <==> n in roots || exists i :: 0 <= i < |values| && Component(values[i]) == n
    {
      NamedCons(values, n);
    }
  }

  lemma NamedCons(values: seq<string>, n: string)
    requires values != []
    ensures (exists i :: 0 <= i < |values| && Component(values[i]) == n) <==>
      Component(values[0]) == n || exists i :: 0 <= i < |values[1..]| && Component(values[1..][i]) == n
  {
    if i :| 0 <= i < |values[1..]| && Component(values[1..][i]) == n {
      assert Component(values[i + 1]) == n;
    }
    if i :| 0 < i < |values| && Component(values[i]) == n {
      assert Component(values[1..][i - 1]) == n;
    }
  }
}
