/** `hydrate.DigestDirectory`: one hash over the records of a directory walk. */
module DirectoryDigest {
  import opened GoStrings

  /** One entry below the root, in walk order, as `Lstat` sees it. */
  datatype Item =
    | DirItem(rel: string)
    | LinkItem(rel: string, target: string)
    | FileItem(rel: string, perm: nat, bytes: string)
    | OtherItem(rel: string)

  /** What stands at a path. A link to a directory is a directory to `os.Stat`,
      but the walk does not follow it. */
  datatype Node = FileNode(bytes: string) | DirNode(items: seq<Item>) | LinkedDir(items: seq<Item>)

  type Hash = string -> string

  /** No collisions, and a printed form without blanks or NUL at the ends. */
  ghost predicate GoodHash(hash: Hash) {
    && (forall a, b :: hash(a) == hash(b) ==> a == b)
    && (forall a :: hash(a) != "" && Trimmed(hash(a)) && '\0' !in hash(a))
  }

  function Fields(hash: Hash, item: Item): seq<string> {
    match item
    case DirItem(rel) => ["dir", rel]
    case LinkItem(rel, target) => ["symlink", rel, target]
    case FileItem(rel, perm, bytes) => ["file", rel, Octal(perm), Decimal(|bytes|), hash(bytes)]
    case OtherItem(rel) => []
  }

  /** `writeDigestRecord`: every field followed by a NUL. */
  function Written(fields: seq<string>): string {
    if fields == [] then "" else fields[0] + "\0" + Written(fields[1..])
  }

  function Stream(hash: Hash, items: seq<Item>): string {
    if items == [] then "" else Written(Fields(hash, items[0])) + Stream(hash, items[1..])
  }

  predicate Digestible(items: seq<Item>) {
    forall i :: 0 <= i < |items| ==> !items[i].OtherItem?
  }

  /** The entries the walk visits below the root. */
  function Walked(node: Node): Option<seq<Item>> {
    match node
    case FileNode(_) => None
    case DirNode(items) => Some(items)
    case LinkedDir(_) => Some([])
  }

  function Digest(hash: Hash, node: Node): Result<string> {
    match Walked(node)
    case None => Err("must be a directory")
    case Some(items) =>
      if Digestible(items) then Ok(hash(Stream(hash, items))) else Err("unsupported bundle entry")
  }

  // --------------------------------------------- the digest tells all apart

  /** Names and link targets of a file system hold no NUL. */
  ghost predicate NulFree(items: seq<Item>) {
    forall i :: 0 <= i < |items| ==>
      '\0' !in items[i].rel && (items[i].LinkItem? ==> '\0' !in items[i].target)
  }

  lemma {:induction false} WrittenUnique(f: seq<string>, g: seq<string>, rest: string, other: string)
    requires |f| == |g|
    requires forall i :: 0 <= i < |f| ==> '\0' !in f[i] && '\0' !in g[i]
    requires Written(f) + rest == Written(g) + other
    ensures f == g && rest == other
    decreases |f|
  {
    if f == [] {
      assert Written(f) + rest == rest && Written(g) + other == other;
    } else {
      var a, b := Written(f[1..]) + rest, Written(g[1..]) + other;
      assert Written(f) + rest == f[0] + ['\0'] + a;
      assert Written(g) + other == g[0] + ['\0'] + b;
      CutAt(f[0], a, '\0');
      CutAt(g[0], b, '\0');
      WrittenUnique(f[1..], g[1..], rest, other);
      assert f == [f[0]] + f[1..] && g == [g[0]] + g[1..];
    }
  }

  lemma FieldsFree(hash: Hash, item: Item)
    requires GoodHash(hash) && NulFree([item]) && !item.OtherItem?
    ensures forall f :: f in Fields(hash, item) ==> '\0' !in f
  {
    assert [item][0] == item;
    if item.FileItem? {
      OctalDigits(item.perm);
    }
  }

  /** The first field tells how many follow. */
  lemma FirstFields(hash: Hash, x: Item, y: Item, rest: string, other: string)
    requires GoodHash(hash) && NulFree([x]) && NulFree([y]) && !x.OtherItem? && !y.OtherItem?
    requires Written(Fields(hash, x)) + rest == Written(Fields(hash, y)) + other
    ensures Fields(hash, x) == Fields(hash, y) && rest == other
  {
    var f, g := Fields(hash, x), Fields(hash, y);
    FieldsFree(hash, x);
    FieldsFree(hash, y);
    var a, b := Written(f[1..]) + rest, Written(g[1..]) + other;
    assert Written(f) + rest == f[0] + ['\0'] + a;
    assert Written(g) + other == g[0] + ['\0'] + b;
    CutAt(f[0], a, '\0');
    CutAt(g[0], b, '\0');
    assert f[0] == g[0];
    assert "dir"[0] == 'd' && "symlink"[0] == 's' && "file"[0] == 'f';
    WrittenUnique(f, g, rest, other);
  }

  lemma SameItem(hash: Hash, x: Item, y: Item)
    requires GoodHash(hash) && !x.OtherItem? && !y.OtherItem? && Fields(hash, x) == Fields(hash, y)
    ensures x == y
  {
    var f, g := Fields(hash, x), Fields(hash, y);
    assert f[0] == g[0] && f[1] == g[1];
    assert "dir"[0] == 'd' && "symlink"[0] == 's' && "file"[0] == 'f';
    if x.LinkItem? {
      assert f[2] == g[2];
    } else if x.FileItem? {
      assert f[2] == g[2] && f[4] == g[4];
      OctalDigits(x.perm);
      OctalDigits(y.perm);
    }
  }

  lemma StreamEmpty(hash: Hash, items: seq<Item>)
    requires Digestible(items)
    ensures Stream(hash, items) == "" <==> items == []
  {
    if items != [] {
      assert Written(Fields(hash, items[0])) != "";
    }
  }

  /** Two walks that write the same bytes saw the same entries. */
  lemma {:induction false} StreamInjective(hash: Hash, a: seq<Item>, b: seq<Item>)
    requires GoodHash(hash) && Digestible(a) && Digestible(b) && NulFree(a) && NulFree(b)
    requires Stream(hash, a) == Stream(hash, b)
    ensures a == b
    decreases |a|
  {
    StreamEmpty(hash, a);
    StreamEmpty(hash, b);
    if a != [] {
      assert [a[0]][0] == a[0] && [b[0]][0] == b[0];
      FirstFields(hash, a[0], b[0], Stream(hash, a[1..]), Stream(hash, b[1..]));
      SameItem(hash, a[0], b[0]);
      StreamInjective(hash, a[1..], b[1..]);
      assert a == [a[0]] + a[1..] && b == [b[0]] + b[1..];
    }
  }

  ghost predicate RealNode(node: Node) {
    node.DirNode? ==> NulFree(node.items)
  }

  /** Equal digests: the walks saw the same entries, and only then. */
  lemma DigestExact(hash: Hash, a: Node, b: Node)
    requires GoodHash(hash) && RealNode(a) && RealNode(b)
    requires Digest(hash, a).Ok? && Digest(hash, b).Ok?
    ensures Digest(hash, a) == Digest(hash, b) <==> Walked(a) == Walked(b)
  {
    var x, y := Walked(a).value, Walked(b).value;
    if Digest(hash, a) == Digest(hash, b) {
      assert Stream(hash, x) == Stream(hash, y);
      StreamInjective(hash, x, y);
    }
  }

  /** A directory reached through a link at its own path digests like an empty
      directory, whatever it holds. */
  lemma LinkedDirUnseen(hash: Hash, a: seq<Item>, b: seq<Item>)
    ensures Digest(hash, LinkedDir(a)) == Digest(hash, LinkedDir(b)) == Digest(hash, DirNode([]))
  {
  }
}
