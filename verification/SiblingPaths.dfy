/** A path named relative to a file's directory leads to the same place whether
    the file itself is given relatively or absolutely. */
module SiblingPaths {
  import opened GoStrings
  import opened Paths
  import opened RenderInputs

  /** Cleaning a relative path first, or reading it raw, moves a rooted base to
      the same place. */
  lemma PushThenReplay(base: CPath, p: CPath, c: string)
    requires Normal(base) && base.rooted && Normal(p) && !p.rooted && '/' !in c
    ensures PushAll(base, Push(p, c).comps) == Push(PushAll(base, p.comps), c)
  {
    var n := |p.comps|;
    if c == ".." && n > 0 && p.comps[n - 1] != ".." {
      var front := p.comps[..n - 1];
      assert p.comps == front + [p.comps[n - 1]];
      PushAllConcat(base, front, [p.comps[n - 1]]);
      var q := PushAll(base, front);
      assert forall x :: x in front ==> x in p.comps;
      PushAllNormal(base, front);
      assert Name(p.comps[n - 1]);
      assert PushAll(q, [p.comps[n - 1]]) == Push(q, p.comps[n - 1]);
    } else if Push(p, c) != p {
      PushAllConcat(base, p.comps, [c]);
    }
  }

  lemma {:induction false} ReplayCleaned(base: CPath, p: CPath, parts: seq<string>)
    requires Normal(base) && base.rooted && Normal(p) && !p.rooted && forall c :: c in parts ==> '/' !in c
    ensures PushAll(base, PushAll(p, parts).comps) == PushAll(PushAll(base, p.comps), parts)
    decreases |parts|
  {
    if parts != [] {
      assert parts[0] in parts;
      PushNormal(p, parts[0]);
      PushThenReplay(base, p, parts[0]);
      ReplayCleaned(base, Push(p, parts[0]), parts[1..]);
    }
  }

  /** Below an absolute base, a relative path may be cleaned first. */
  lemma BelowCleaned(base: CPath, r: CPath)
    requires Normal(base) && base.rooted && Normal(r) && !r.rooted
    ensures PushAll(base, Split(Render(r), '/')) == PushAll(base, r.comps)
  {
    SplitRender(r);
    if r.comps == [] {
      assert ([] + ["."]) == ["."];
      assert PushAll(base, ["."]) == base;
    } else {
      assert [] + r.comps == r.comps;
    }
  }

  /** A file path: a directory part, empty or ending in a slash, and a name. */
  ghost predicate FilePath(head: string, name: string) {
    Name(name) && name != ".." && (head == "" || head[|head| - 1] == '/')
  }

  lemma {:induction false} DirOfFile(head: string, name: string)
    requires '/' !in name && (head == "" || head[|head| - 1] == '/')
    ensures DirOf(head + name) == Clean(head)
    decreases |name|
  {
    if name == "" {
      assert head + name == head;
    } else {
      var s := head + name;
      assert s[|s| - 1] == name[|name| - 1] && name[|name| - 1] in name;
      assert s[..|s| - 1] == head + name[..|name| - 1];
      DirOfFile(head, name[..|name| - 1]);
    }
  }

  /** A trailing slash does not change the cleaned path, and a proper name after
      it is one more component. */
  lemma CleanFile(head: string, name: string)
    requires Name(name) && name != ".." && head != "" && head[|head| - 1] == '/'
    ensures CleanPath(head + name) == CPath(IsAbs(head), CleanPath(head).comps + [name])
  {
    var pre := head[..|head| - 1];
    assert head == pre + ['/'] + "" && head + name == pre + ['/'] + name;
    SplitAtSep(pre, "", '/');
    SplitAtSep(pre, name, '/');
    SplitWord(name, '/');
    assert Split("", '/') == [""];
    var start := CPath(IsAbs(head), []);
    PushAllConcat(start, Split(pre, '/'), [""]);
    PushAllConcat(start, Split(pre, '/'), [name]);
    CleanNormal(head);
    CleanNormal(pre);
    PushAllNormal(start, Split(pre, '/'));
    assert IsAbs(head + name) == IsAbs(head);
  }

  /** The directory of a rendered absolute file path. */
  lemma DirOfRendered(q: CPath, name: string)
    requires Normal(q) && q.rooted && Name(name) && name != ".."
    ensures CleanPath(DirOf(Render(CPath(true, q.comps + [name])))) == q
  {
    var head := if q.comps == [] then "/" else Render(q) + "/";
    JoinSnoc(q.comps, name);
    assert Render(CPath(true, q.comps + [name])) == head + name;
    DirOfFile(head, name);
    CleanRender(q);
    if q.comps == [] {
      SplitAtSep("", "", '/');
      assert "" + ['/'] + "" == "/" && Split("", '/') == [""];
      assert PushAll(CPath(true, []), ["", ""]) == CPath(true, []);
    } else {
      CleanSlash(Render(q));
      RenderAbs(q);
    }
    CleanIdempotent(head);
    CleanNormal(head);
    CleanRender(CleanPath(head));
  }

  lemma CleanSlash(s: string)
    requires s != ""
    ensures CleanPath(s + "/") == CleanPath(s)
  {
    assert s + "/" == s + ['/'] + "";
    SplitAtSep(s, "", '/');
    assert Split("", '/') == [""];
    PushAllConcat(CPath(IsAbs(s), []), Split(s, '/'), [""]);
  }

  lemma {:induction false} JoinSnoc(parts: seq<string>, last: string)
    ensures Join(parts + [last], '/') == if parts == [] then last else Join(parts, '/') + "/" + last
  {
    if |parts| > 0 {
      assert (parts + [last])[1..] == parts[1..] + [last];
      JoinSnoc(parts[1..], last);
    }
  }

  /** Where the absolute form of a file path has its directory. */
  function Home(s: Store, head: string): CPath {
    if IsAbs(head) then CleanPath(head) else PushAll(CleanPath(s.cwd), Split(head, '/'))
  }

  lemma HomeNormal(s: Store, head: string)
    requires IsAbs(s.cwd)
    ensures Normal(Home(s, head)) && Home(s, head).rooted
  {
    CleanNormal(head);
    CleanNormal(s.cwd);
    PushAllNormal(CleanPath(s.cwd), Split(head, '/'));
  }

  lemma AbsOfFile(s: Store, head: string, name: string)
    requires IsAbs(s.cwd) && FilePath(head, name)
    ensures Abs(s, head + name) == Render(CPath(true, Home(s, head).comps + [name]))
  {
    if IsAbs(head) {
      CleanFile(head, name);
    } else {
      var full := s.cwd + "/" + head;
      assert name[0] in name;
      assert !IsAbs(head + name);
      assert s.cwd + "/" + (head + name) == full + name;
      CleanFile(full, name);
      JoinSteps(s.cwd, head);
      assert full == s.cwd + ['/'] + head;
      SplitAtSep(s.cwd, head, '/');
      PushAllConcat(CPath(true, []), Split(s.cwd, '/'), Split(head, '/'));
    }
  }

  /** The theorem: `named`, taken relative to the directory of the file, resolves
      alike from the path as given and from its absolute form. */
  lemma SiblingSame(s: Store, head: string, name: string, named: string)
    requires IsAbs(s.cwd) && FilePath(head, name) && named != ""
    ensures Abs(s, JoinPath(DirOf(head + name), named))
         == Abs(s, JoinPath(DirOf(Abs(s, head + name)), named))
  {
    var home := Home(s, head);
    var parts := Split(named, '/');
    HomeNormal(s, head);
    AbsOfFile(s, head, name);
    DirOfFile(head, name);
    DirOfRendered(home, name);
    SiblingOfAbs(s, DirOf(Abs(s, head + name)), home, named);
    CleanNormal(head);
    CleanRender(CleanPath(head));
    RenderAbs(CleanPath(head));
    if IsAbs(head) {
      SiblingOfAbs(s, Clean(head), home, named);
    } else {
      SiblingOfRel(s, head, named);
    }
  }

  lemma SiblingOfAbs(s: Store, dir: string, home: CPath, named: string)
    requires CleanPath(dir) == home && home.rooted && Normal(home)
    ensures Abs(s, JoinPath(dir, named)) == Render(PushAll(home, Split(named, '/')))
  {
    CleanNormal(dir);
    JoinSteps(dir, named);
    var p := PushAll(home, Split(named, '/'));
    PushAllNormal(home, Split(named, '/'));
    RenderAbs(p);
    CleanRender(p);
  }

  lemma SiblingOfRel(s: Store, head: string, named: string)
    requires IsAbs(s.cwd) && !IsAbs(head)
    ensures Abs(s, JoinPath(Clean(head), named)) == Render(PushAll(Home(s, head), Split(named, '/')))
  {
    var base, p := CleanPath(s.cwd), CleanPath(head);
    var parts := Split(named, '/');
    CleanNormal(s.cwd);
    CleanNormal(head);
    CleanRender(p);
    RenderAbs(p);
    JoinSteps(Clean(head), named);
    var r := PushAll(p, parts);
    PushAllNormal(p, parts);
    RenderAbs(r);
    JoinSteps(s.cwd, Render(r));
    BelowCleaned(base, r);
    ReplayCleaned(base, p, parts);
    ReplayCleaned(base, CPath(false, []), Split(head, '/'));
  }
}
