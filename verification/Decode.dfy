/** Decoding the resources of one kind from a multi-document file (`CRDForBytes`
    of `pkg/clusterfile/decode.go`). */
module Decode {
  import opened GoStrings
  import Sorting

  datatype Resource = Resource(name: string, content: string)

  /** One document as the decoder meets it: unreadable, empty or `null`, without
      a readable type, or typed, with the resource if it decodes as its kind. */
  datatype Document =
    | Unreadable
    | Blank
    | Untyped
    | Typed(kind: string, resource: Option<Resource>)

  /** The kinds the switch handles; any other kind yields nothing. */
  const KINDS := ["Cluster", "Config"]

  predicate Known(kind: string) {
    kind in KINDS
  }

  // --------------------------------------------------------------- specification

  /** What a document does to the decoding of `kind`. */
  datatype Effect = Stop | Skip | Take(resource: Resource)

  function EffectOf(d: Document, kind: string): Effect {
    match d
    case Unreadable => Stop
    case Blank => Skip
    case Untyped => Stop
    case Typed(k, r) =>
      if k != kind || !Known(kind) then Skip
      else match r
        case None => Stop
        case Some(v) => Take(v)
  }

  /** The resources of the kind in file order, if no document stops the loop. */
  function Taken(docs: seq<Document>, kind: string): Option<seq<Resource>> {
    if docs == [] then Some([])
    else match Taken(docs[..|docs| - 1], kind)
      case None => None
      case Some(before) =>
        match EffectOf(docs[|docs| - 1], kind)
        case Stop => None
        case Skip => Some(before)
        case Take(r) => Some(before + [r])
  }

  /** The last resource of a name. */
  function Last(rs: seq<Resource>, name: string): Option<Resource> {
    if rs == [] then None
    else if rs[|rs| - 1].name == name then Some(rs[|rs| - 1])
    else Last(rs[..|rs| - 1], name)
  }

  /** The names in order of first appearance. */
  function FirstSeen(rs: seq<Resource>): seq<string> {
    if rs == [] then []
    else
      var before := FirstSeen(rs[..|rs| - 1]);
      var name := rs[|rs| - 1].name;
      if name in before then before else before + [name]
  }

  lemma {:induction false} FirstSeenOnce(rs: seq<Resource>)
    ensures Sorting.NoRepeats(FirstSeen(rs))
  {
    if rs != [] {
      var before, last := FirstSeen(rs[..|rs| - 1]), rs[|rs| - 1].name;
      FirstSeenOnce(rs[..|rs| - 1]);
      if last !in before {
        Sorting.OneMoreApart(before, last);
      }
    }
  }

  lemma {:induction false} FirstSeenAll(rs: seq<Resource>)
    ensures forall n :: n in FirstSeen(rs) <==> Last(rs, n).Some?
  {
    if rs != [] {
      var init, last := rs[..|rs| - 1], rs[|rs| - 1].name;
      FirstSeenAll(init);
      forall n
        ensures n in FirstSeen(rs) <==> Last(rs, n).Some?
      {
        assert n in FirstSeen(rs) <==> n in FirstSeen(init) || n == last;
      }
    }
  }

  function Current(rs: seq<Resource>, name: string): Resource {
    match Last(rs, name)
    case Some(r) => r
    case None => Resource(name, "")
  }

  /** One resource per name, in order of first appearance, each the last of its
      name. */
  function Merged(rs: seq<Resource>): (r: seq<Resource>)
    ensures |r| == |FirstSeen(rs)| && forall i :: 0 <= i < |r| ==> r[i] == Current(rs, FirstSeen(rs)[i])
  {
    var names := FirstSeen(rs);
    seq(|names|, i requires 0 <= i < |names| => Current(rs, names[i]))
  }

  lemma {:induction false} LastNamed(rs: seq<Resource>, name: string)
    ensures Current(rs, name).name == name
    ensures Last(rs, name).Some? ==> Last(rs, name).value in rs
  {
    if rs != [] {
      LastNamed(rs[..|rs| - 1], name);
      assert rs == rs[..|rs| - 1] + [rs[|rs| - 1]];
    }
  }

  /** The index map is a bijection between the names seen and the positions. */
  ghost predicate Indexed(tmp: map<string, nat>, list: seq<Resource>) {
    && (forall i :: 0 <= i < |list| ==> list[i].name in tmp && tmp[list[i].name] == i)
    && (forall n :: n in tmp ==> tmp[n] < |list| && list[tmp[n]].name == n)
    && |tmp| == |list|
  }

  /** One more resource: it takes the place of the one with its name, or comes
      last. */
  lemma MergedSnoc(rs: seq<Resource>, r: Resource)
    ensures var names, list := FirstSeen(rs), Merged(rs);
      && (r.name !in names ==> Merged(rs + [r]) == list + [r])
      && forall k :: 0 <= k < |names| && names[k] == r.name ==> Merged(rs + [r]) == list[k := r]
  {
    var names, more := FirstSeen(rs), rs + [r];
    assert more[..|rs|] == rs;
    FirstSeenOnce(rs);
    assert FirstSeen(more) == if r.name in names then names else names + [r.name];
    forall n | n != r.name
      ensures Current(more, n) == Current(rs, n)
    {
    }
    assert Current(more, r.name) == r;
  }

  lemma IndexedNames(rs: seq<Resource>, tmp: map<string, nat>)
    requires Indexed(tmp, Merged(rs))
    ensures forall n :: n in tmp <==> n in FirstSeen(rs)
    ensures forall n :: n in tmp ==> FirstSeen(rs)[tmp[n]] == n
  {
    var names, list := FirstSeen(rs), Merged(rs);
    forall i | 0 <= i < |names|
      ensures list[i].name == names[i]
    {
      LastNamed(rs, names[i]);
    }
  }

  lemma IndexedNext(rs: seq<Resource>, r: Resource, tmp: map<string, nat>)
    requires Indexed(tmp, Merged(rs))
    ensures if r.name !in tmp
      then Merged(rs + [r]) == Merged(rs) + [r] && Indexed(tmp[r.name := |tmp|], Merged(rs + [r]))
      else Merged(rs + [r]) == Merged(rs)[tmp[r.name] := r] && Indexed(tmp, Merged(rs + [r]))
  {
    MergedSnoc(rs, r);
    IndexedNames(rs, tmp);
  }

  // ------------------------------------------------------------------- the loop

  /** `Ok(None)` is the nil result of a file without a document of the kind,
      which the callers' type assertion does not survive. */
  method CrdForBytes(docs: seq<Document>, kind: string) returns (out: Result<Option<seq<Resource>>>)
    ensures match Taken(docs, kind)
      case None => out.Err?
      case Some(rs) => out == Ok(if rs == [] then None else Some(Merged(rs)))
  {
    var list: seq<Resource> := [];
    var tmp: map<string, nat> := map[];
    var found: Option<seq<Resource>> := None;
    ghost var rs: seq<Resource> := [];
    for i := 0 to |docs|
      invariant Taken(docs[..i], kind) == Some(rs) && list == Merged(rs) && Indexed(tmp, list)
      invariant found == if rs == [] then None else Some(list)
    {
      assert docs[..i + 1][..i] == docs[..i];
      match EffectOf(docs[i], kind) {
        case Stop =>
          StopsForGood(docs, kind, i + 1);
          return Err("decode failed");
        case Skip =>
        case Take(r) =>
          IndexedNext(rs, r, tmp);
          if r.name !in tmp {
            tmp := tmp[r.name := |tmp|];
            list := list + [r];
          } else {
            list := list[tmp[r.name] := r];
          }
          rs := rs + [r];
          found := Some(list);
      }
    }
    assert docs[..|docs|] == docs;
    return Ok(found);
  }

  lemma {:induction false} StopsForGood(docs: seq<Document>, kind: string, i: nat)
    requires i <= |docs| && Taken(docs[..i], kind).None?
    ensures Taken(docs, kind).None?
    decreases |docs|
  {
    if i == |docs| {
      assert docs[..i] == docs;
    } else {
      assert docs[..|docs| - 1][..i] == docs[..i];
      StopsForGood(docs[..|docs| - 1], kind, i);
    }
  }

  // ------------------------------------------------------------------ theorems

  /** Every name exactly once, in order of first appearance, with the content of
      its last appearance. */
  lemma MergedExact(rs: seq<Resource>)
    ensures var list := Merged(rs);
      && (forall i, j :: 0 <= i < j < |list| ==> list[i].name != list[j].name)
      && (forall r :: r in rs ==> exists i :: 0 <= i < |list| && list[i].name == r.name)
      && (forall i :: 0 <= i < |list| ==> Last(rs, list[i].name) == Some(list[i]) && list[i] in rs)
      && (forall i :: 0 <= i < |list| ==> FirstSeen(rs)[i] == list[i].name)
  {
    var names, list := FirstSeen(rs), Merged(rs);
    FirstSeenOnce(rs);
    FirstSeenAll(rs);
    forall i | 0 <= i < |list|
      ensures list[i].name == names[i] && Last(rs, names[i]) == Some(list[i]) && list[i] in rs
    {
      LastNamed(rs, names[i]);
      assert names[i] in names;
    }
    forall r | r in rs
      ensures exists i :: 0 <= i < |list| && list[i].name == r.name
    {
      LastOfMember(rs, r);
      assert r.name in names;
      var i :| 0 <= i < |names| && names[i] == r.name;
      assert list[i].name == r.name;
    }
  }

  lemma {:induction false} LastOfMember(rs: seq<Resource>, r: Resource)
    requires r in rs
    ensures Last(rs, r.name).Some?
  {
    if rs[|rs| - 1].name != r.name {
      assert rs == rs[..|rs| - 1] + [rs[|rs| - 1]];
      LastOfMember(rs[..|rs| - 1], r);
    }
  }

  /** The position of a name: that of its first appearance among the names. An
      earlier name stays earlier, whatever repeats follow. */
  lemma {:induction false} FirstSeenPrefix(a: seq<Resource>, b: seq<Resource>)
    ensures FirstSeen(a) <= FirstSeen(a + b)
    decreases |b|
  {
    if b == [] {
      assert a + b == a;
    } else {
      assert (a + b)[..|a + b| - 1] == a + b[..|b| - 1];
      FirstSeenPrefix(a, b[..|b| - 1]);
    }
  }

  /** Documents of another kind, empty ones and `null` leave the result alone. */
  lemma {:induction false} OthersIgnored(docs: seq<Document>, kind: string, i: nat)
    requires i < |docs| && EffectOf(docs[i], kind) == Skip
    ensures Taken(docs, kind) == Taken(docs[..i] + docs[i + 1..], kind)
    decreases |docs|
  {
    var n := |docs| - 1;
    var rest := docs[..i] + docs[i + 1..];
    if i == n {
      assert rest == docs[..n];
    } else {
      assert docs[..n][..i] + docs[..n][i + 1..] == rest[..|rest| - 1];
      assert rest[|rest| - 1] == docs[n] && docs[..n][i] == docs[i];
      OthersIgnored(docs[..n], kind, i);
    }
  }

  /** What a document gives when clusters or configurations are asked for. */
  function Wanted(kind: string): Document -> seq<Resource> {
    (d: Document) => if d.Typed? && d.kind == kind && d.resource.Some? then [d.resource.value] else []
  }

  /** A document that ends the decoding: unreadable, without a type, or of the
      kind asked for and not decodable as such. */
  predicate Breaks(d: Document, kind: string) {
    || d.Unreadable? || d.Untyped?
    || (d.Typed? && d.kind == kind && (kind == "Cluster" || kind == "Config") && d.resource.None?)
  }

  /** The resources taken: for the two kinds those of all documents of the kind, in
      file order; for any other kind none. There are none at all exactly if some
      document breaks the decoding. */
  lemma {:induction false} TakenExact(docs: seq<Document>, kind: string)
    ensures Taken(docs, kind).None? <==> exists i :: 0 <= i < |docs| && Breaks(docs[i], kind)
    ensures Taken(docs, kind).Some? ==>
      Taken(docs, kind).value == if kind == "Cluster" || kind == "Config" then FlatMap(Wanted(kind), docs) else []
    decreases |docs|
  {
    if docs != [] {
      var n := |docs| - 1;
      var init, d := docs[..n], docs[n];
      TakenExact(init, kind);
      EffectExact(d, kind);
      assert docs == init + [d];
      assert forall i :: 0 <= i < n ==> init[i] == docs[i];
      FlatMapSnoc(Wanted(kind), init, d);
      if i :| 0 <= i < n && Breaks(init[i], kind) {
        assert Breaks(docs[i], kind);
      }
    }
  }

  lemma EffectExact(d: Document, kind: string)
    ensures EffectOf(d, kind) == Stop <==> Breaks(d, kind)
    ensures EffectOf(d, kind).Take? ==> Wanted(kind)(d) == [EffectOf(d, kind).resource]
    ensures EffectOf(d, kind) == Skip && (kind == "Cluster" || kind == "Config") ==> Wanted(kind)(d) == []
    ensures EffectOf(d, kind).Take? ==> kind == "Cluster" || kind == "Config"
  {
    assert kind in KINDS <==> kind == "Cluster" || kind == "Config";
  }
}
