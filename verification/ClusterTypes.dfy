/** The parts of the cluster resource that membership, SSH and environment code
    share, and the address form `ip:port`. */
module ClusterTypes {
  import opened GoStrings

  datatype SSH = SSH(user: string, passwd: string, pkName: string, pkData: string,
                     pk: string, pkPasswd: string, port: nat)

  datatype Host = Host(ips: seq<string>, roles: seq<string>, env: seq<string>, ssh: Option<SSH>)

  const MASTER := "master"
  const NODE := "node"

  /** `GetHostIPAndPortOrDefault`: the first two colon-separated parts. */
  function HostPort(a: string, defaultPort: string): (string, string) {
    if ':' !in a then (a, defaultPort)
    else
      var parts := Split(a, ':');
      (parts[0], if |parts| > 1 then parts[1] else "")
  }

  /** The address as `%s:%s` and, for IPv4, `net.JoinHostPort` print it. */
  function Canon(a: string, defaultPort: string): string {
    var (h, p) := HostPort(a, defaultPort);
    h + ":" + p
  }

  /** `GetHostIP`. */
  function HostIP(a: string): string {
    HostPort(a, "").0
  }

  lemma HostPortParts(a: string, defaultPort: string)
    requires ':' !in defaultPort
    ensures var (h, p) := HostPort(a, defaultPort); ':' !in h && ':' !in p
  {
    var parts := Split(a, ':');
    assert parts[0] in parts;
    if |parts| > 1 {
      assert parts[1] in parts;
    }
  }

  lemma CanonParts(h: string, p: string, defaultPort: string)
    requires ':' !in h && ':' !in p
    ensures HostPort(h + ":" + p, defaultPort) == (h, p)
    ensures Canon(h + ":" + p, defaultPort) == h + ":" + p && HostIP(h + ":" + p) == h
  {
    var a := h + ":" + p;
    assert a[|h|] == ':';
    SplitAtSep(h, p, ':');
    assert a == h + [':'] + p;
    SplitWord(h, ':');
    SplitWord(p, ':');
  }

  lemma CanonIdempotent(a: string, defaultPort: string)
    requires ':' !in defaultPort
    ensures Canon(Canon(a, defaultPort), defaultPort) == Canon(a, defaultPort)
    ensures HostIP(Canon(a, defaultPort)) == HostPort(a, defaultPort).0
  {
    var (h, p) := HostPort(a, defaultPort);
    HostPortParts(a, defaultPort);
    CanonParts(h, p, defaultPort);
  }

  function CanonAll(list: seq<string>, defaultPort: string): (r: seq<string>)
    ensures |r| == |list| && forall i :: 0 <= i < |r| ==> r[i] == Canon(list[i], defaultPort)
  {
    seq(|list|, i requires 0 <= i < |list| => Canon(list[i], defaultPort))
  }

  /** The elements of a list as a set. */
  function Members(s: seq<string>): (r: set<string>)
    ensures forall x :: x in r <==> x in s
  {
    set x | x in s
  }
}
