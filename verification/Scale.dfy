/** Adding hosts to and deleting hosts from a cluster: `verifyAndSetNodes` and
    `deleteNodes` of `pkg/apply/scale.go`. */
module Scale {
  import opened GoStrings
  import opened ClusterTypes

  /** What the code takes from elsewhere: the default port as text, which
      addresses validate, and the architecture probed on a host. */
  datatype Env = Env(port: string, valid: string -> bool, arch: string -> string)

  /** The requested lists after `ParseIPList`; `%s:%s` cannot be told from a
      validated address with a colon. */
  ghost predicate GoodEnv(e: Env) {
    && ':' !in e.port && !e.valid("")
    && forall a :: e.valid(a) && ':' in a ==> Canon(a, e.port) == a
  }

  predicate HasRole(h: Host, role: string) {
    role in h.roles
  }

  predicate AllValid(e: Env, list: seq<string>) {
    forall a :: a in list ==> e.valid(a)
  }

  /** `PreProcessIPList` and the two `validateIPList` calls. */
  predicate Accepted(e: Env, masters: seq<string>, nodes: seq<string>) {
    && Members(masters) !! Members(nodes)
    && AllValid(e, masters) && AllValid(e, nodes)
  }

  // --------------------------------------------------------------------- add

  function CanonHosts(hosts: seq<Host>, port: string): (r: seq<Host>)
    ensures |r| == |hosts|
    ensures forall i :: 0 <= i < |r| ==> r[i] == hosts[i].(ips := CanonAll(hosts[i].ips, port))
  {
    seq(|hosts|, i requires 0 <= i < |hosts| => hosts[i].(ips := CanonAll(hosts[i].ips, port)))
  }

  /** Every address of every group. */
  ghost predicate Joined(hosts: seq<Host>, a: string) {
    exists i :: 0 <= i < |hosts| && a in hosts[i].ips
  }

  ghost predicate RoleAddress(hosts: seq<Host>, role: string, a: string) {
    exists i :: 0 <= i < |hosts| && HasRole(hosts[i], role) && a in hosts[i].ips
  }

  function FreshAddress(port: string, exclude: set<string>): string -> seq<string> {
    (s: string) => if Canon(s, port) in exclude then [] else [Canon(s, port)]
  }

  /** The addresses of a new group, those of `exclude` left out. */
  function Fresh(list: seq<string>, port: string, exclude: set<string>): seq<string> {
    FlatMap(FreshAddress(port, exclude), list)
  }

  function Addresses(hosts: seq<Host>): (r: set<string>)
    ensures forall a :: a in r <==> Joined(hosts, a)
  {
    set i, a | 0 <= i < |hosts| && a in hosts[i].ips :: a
  }

  function ByRole(hosts: seq<Host>, role: string): (r: set<string>)
    ensures forall a :: a in r <==> RoleAddress(hosts, role, a)
  {
    set i, a | 0 <= i < |hosts| && HasRole(hosts[i], role) && a in hosts[i].ips :: a
  }

  predicate AlreadyIn(joined: set<string>, list: seq<string>, port: string) {
    exists i :: 0 <= i < |list| && Canon(list[i], port) in joined
  }

  /** `getHostFunc`: no group for an empty list. */
  function NewGroup(e: Env, joined: set<string>, exclude: set<string>, list: seq<string>, role: string,
                    ssh: Option<SSH>): Result<seq<Host>>
  {
    if AlreadyIn(joined, list, e.port) then Err("already joined")
    else
      var addrs := Fresh(list, e.port, exclude);
      if addrs == [] then Ok([])
      else Ok([Host(addrs, [role, e.arch(addrs[0])], [], ssh)])
  }

  predicate HasMaster(hosts: seq<Host>) {
    exists i :: 0 <= i < |hosts| && HasRole(hosts[i], MASTER)
  }

  /** `verifyAndSetNodes`: the new host groups, or an error. */
  function AddHosts(e: Env, hosts: seq<Host>, masters: seq<string>, nodes: seq<string>, ssh: Option<SSH>)
    : Result<seq<Host>>
  {
    if !Accepted(e, masters, nodes) then Err("invalid list")
    else if !HasMaster(hosts) then Err("master role not found")
    else
      var before := CanonHosts(hosts, e.port);
      var joined := Addresses(before);
      match NewGroup(e, joined, ByRole(hosts, MASTER), masters, MASTER, ssh)
      case Err(m) => Err(m)
      case Ok(m) =>
        match NewGroup(e, joined, ByRole(hosts, NODE), nodes, NODE, ssh)
        case Err(n) => Err(n)
        case Ok(n) => Ok(before + m + n)
  }

  // ------------------------------------------------------------------ delete

  /** `GetMaster0IPAndPort`. */
  function Master0(hosts: seq<Host>): string {
    if hosts == [] then ""
    else if HasRole(hosts[0], MASTER) then if hosts[0].ips == [] then "" else hosts[0].ips[0]
    else Master0(hosts[1..])
  }

  function KeptAddress(gone: set<string>, port: string): string -> seq<string> {
    (a: string) => if a in gone then [] else [Canon(a, port)]
  }

  /** `returnFilteredIPList`. */
  function Filtered(ips: seq<string>, gone: set<string>, port: string): seq<string> {
    FlatMap(KeptAddress(gone, port), ips)
  }

  function GoneFrom(h: Host, role: string, gone: seq<string>, port: string): Host {
    if gone != [] && HasRole(h, role) then h.(ips := Filtered(h.ips, Members(CanonAll(gone, port)), port)) else h
  }

  function WithoutRole(hosts: seq<Host>, role: string, gone: seq<string>, port: string): (r: seq<Host>)
    ensures |r| == |hosts| && forall i :: 0 <= i < |r| ==> r[i] == GoneFrom(hosts[i], role, gone, port)
  {
    seq(|hosts|, i requires 0 <= i < |hosts| => GoneFrom(hosts[i], role, gone, port))
  }

  function NonEmpty(h: Host): seq<Host> {
    if h.ips == [] then [] else [h]
  }

  function DropEmpty(hosts: seq<Host>): seq<Host> {
    FlatMap(NonEmpty, hosts)
  }

  /** `strings.Split(masters, ",")`: one empty element for an empty list. */
  function Elements(list: seq<string>): seq<string> {
    if list == [] then [""] else list
  }

  predicate NamesMaster0(hosts: seq<Host>, masters: seq<string>) {
    Master0(hosts) in Elements(masters) || HostIP(Master0(hosts)) in Elements(masters)
  }

  predicate AllJoined(joined: set<string>, list: seq<string>, port: string) {
    forall i :: 0 <= i < |list| ==> Canon(list[i], port) in joined
  }

  /** `deleteNodes`: the remaining host groups, or an error. */
  function DeleteHosts(e: Env, hosts: seq<Host>, masters: seq<string>, nodes: seq<string>): Result<seq<Host>> {
    if !Accepted(e, masters, nodes) then Err("invalid list")
    else if NamesMaster0(hosts, masters) then Err("master0 machine cannot be deleted")
    else if !AllJoined(Addresses(hosts), nodes, e.port) then Err("node must be in cluster")
    else if !AllJoined(Addresses(hosts), masters, e.port) then Err("master must be in cluster")
    else Ok(DropEmpty(WithoutRole(WithoutRole(hosts, MASTER, masters, e.port), NODE, nodes, e.port)))
  }

  // --------------------------------------------------------------- the methods

  class Cluster {
    var hosts: seq<Host>

    constructor (hosts: seq<Host>)
      ensures this.hosts == hosts
    {
      this.hosts := hosts;
    }

    /** Collects into locals; the cluster changes only with the last assignment. */
    method Add(e: Env, masters: seq<string>, nodes: seq<string>, ssh: Option<SSH>) returns (error: Option<string>)
      modifies this
      ensures match AddHosts(e, old(hosts), masters, nodes, ssh)
        case Ok(after) => error == None && hosts == after
        case Err(m) => error == Some(m) && hosts == old(hosts)
    {
      if !Accepted(e, masters, nodes) {
        return Some("invalid list");
      }
      var next: seq<Host> := [];
      var hasMaster := false;
      var alreadyIn: set<string> := {};
      for i := 0 to |hosts|
        invariant hosts == old(hosts)
        invariant next == CanonHosts(hosts[..i], e.port)
        invariant hasMaster <==> HasMaster(hosts[..i])
        invariant alreadyIn == Addresses(next)
      {
        AddOne(hosts, i, e.port);
        hasMaster := hasMaster || HasRole(hosts[i], MASTER);
        alreadyIn := alreadyIn + Members(CanonAll(hosts[i].ips, e.port));
        next := next + [hosts[i].(ips := CanonAll(hosts[i].ips, e.port))];
      }
      assert hosts[..|hosts|] == hosts;
      if !hasMaster {
        return Some("master role not found");
      }
      var mastersToAdd := BuildGroup(e, alreadyIn, ByRole(hosts, MASTER), masters, MASTER, ssh);
      if mastersToAdd.Err? {
        return Some(mastersToAdd.error);
      }
      next := next + mastersToAdd.value;
      var nodesToAdd := BuildGroup(e, alreadyIn, ByRole(hosts, NODE), nodes, NODE, ssh);
      if nodesToAdd.Err? {
        return Some(nodesToAdd.error);
      }
      next := next + nodesToAdd.value;
      hosts := next;
      return None;
    }

    /** All checks come first; then groups are filtered in place and rebuilt. */
    method Delete(e: Env, masters: seq<string>, nodes: seq<string>) returns (error: Option<string>)
      modifies this
      ensures match DeleteHosts(e, old(hosts), masters, nodes)
        case Ok(after) => error == None && hosts == after
        case Err(m) => error == Some(m) && hosts == old(hosts)
    {
      if !Accepted(e, masters, nodes) {
        return Some("invalid list");
      }
      if NamesMaster0(hosts, masters) {
        return Some("master0 machine cannot be deleted");
      }
      if !AllJoined(Addresses(hosts), nodes, e.port) {
        return Some("node must be in cluster");
      }
      if !AllJoined(Addresses(hosts), masters, e.port) {
        return Some("master must be in cluster");
      }
      FilterRole(MASTER, masters, e.port);
      FilterRole(NODE, nodes, e.port);
      hosts := Occupied(hosts);
      return None;
    }

    /** One filtering loop of `deleteNodes`. */
    method FilterRole(role: string, gone: seq<string>, port: string)
      modifies this
      ensures hosts == WithoutRole(old(hosts), role, gone, port)
    {
      if gone != [] {
        var drop := Members(CanonAll(gone, port));
        for i := 0 to |hosts|
          invariant |hosts| == |old(hosts)|
          invariant forall k :: 0 <= k < i ==> hosts[k] == GoneFrom(old(hosts)[k], role, gone, port)
          invariant forall k :: i <= k < |hosts| ==> hosts[k] == old(hosts)[k]
        {
          if role in hosts[i].roles {
            var kept := ReturnFiltered(hosts[i].ips, drop, port);
            hosts := hosts[i := hosts[i].(ips := kept)];
          }
        }
      }
      assert forall k :: 0 <= k < |hosts| ==> hosts[k] == GoneFrom(old(hosts)[k], role, gone, port);
    }
  }

  lemma AddOne(hosts: seq<Host>, i: nat, port: string)
    requires i < |hosts|
    ensures CanonHosts(hosts[..i + 1], port)
         == CanonHosts(hosts[..i], port) + [hosts[i].(ips := CanonAll(hosts[i].ips, port))]
    ensures HasMaster(hosts[..i + 1]) <==> HasMaster(hosts[..i]) || HasRole(hosts[i], MASTER)
    ensures Addresses(CanonHosts(hosts[..i + 1], port))
         == Addresses(CanonHosts(hosts[..i], port)) + Members(CanonAll(hosts[i].ips, port))
  {
    var r, q := CanonHosts(hosts[..i + 1], port), CanonHosts(hosts[..i], port);
    assert forall k :: 0 <= k < i ==> r[k] == q[k];
    assert hosts[..i + 1][i] == hosts[i];
    forall a
      ensures a in Addresses(r) <==> a in Addresses(q) || a in CanonAll(hosts[i].ips, port)
    {
      assert Joined(q, a) ==> Joined(r, a);
      assert a in r[i].ips ==> Joined(r, a);
    }
    if HasMaster(hosts[..i + 1]) {
      var k :| 0 <= k < i + 1 && HasRole(hosts[..i + 1][k], MASTER);
      assert k < i ==> HasRole(hosts[..i][k], MASTER);
    }
    if HasMaster(hosts[..i]) {
      var k :| 0 <= k < i && HasRole(hosts[..i][k], MASTER);
      assert HasRole(hosts[..i + 1][k], MASTER);
    }
  }

  lemma FreshSnoc(list: seq<string>, i: nat, port: string, exclude: set<string>)
    requires i < |list|
    ensures Fresh(list[..i + 1], port, exclude)
         == Fresh(list[..i], port, exclude) + if Canon(list[i], port) in exclude then [] else [Canon(list[i], port)]
  {
    FlatMapSnoc(FreshAddress(port, exclude), list[..i], list[i]);
    assert list[..i] + [list[i]] == list[..i + 1];
  }

  /** `getHostFunc`: stops at the first address that is already joined. */
  method BuildGroup(e: Env, joined: set<string>, exclude: set<string>, list: seq<string>, role: string,
                    ssh: Option<SSH>) returns (r: Result<seq<Host>>)
    ensures r == NewGroup(e, joined, exclude, list, role, ssh)
  {
    var addrs: seq<string> := [];
    for i := 0 to |list|
      invariant forall k :: 0 <= k < i ==> Canon(list[k], e.port) !in joined
      invariant addrs == Fresh(list[..i], e.port, exclude)
    {
      var addr := Canon(list[i], e.port);
      FreshSnoc(list, i, e.port, exclude);
      if addr in joined {
        return Err("already joined");
      }
      if addr !in exclude {
        addrs := addrs + [addr];
      }
    }
    assert list[..|list|] == list;
    if |addrs| > 0 {
      return Ok([Host(addrs, [role, e.arch(addrs[0])], [], ssh)]);
    }
    return Ok([]);
  }

  method ReturnFiltered(ips: seq<string>, drop: set<string>, port: string) returns (res: seq<string>)
    ensures res == Filtered(ips, drop, port)
  {
    res := AppendEach(KeptAddress(drop, port), [], ips);
    assert [] + Filtered(ips, drop, port) == Filtered(ips, drop, port);
  }

  /** The groups that still hold addresses. */
  method Occupied(hosts: seq<Host>) returns (kept: seq<Host>)
    ensures kept == DropEmpty(hosts)
  {
    kept := [];
    for i := 0 to |hosts|
      invariant kept == FlatMap(NonEmpty, hosts[..i])
    {
      FlatMapSnoc(NonEmpty, hosts[..i], hosts[i]);
      assert hosts[..i] + [hosts[i]] == hosts[..i + 1];
      if |hosts[i].ips| != 0 {
        kept := kept + [hosts[i]];
      }
    }
    assert hosts[..|hosts|] == hosts;
  }

  // ------------------------------------------------------------------ theorems

  /** Every address is `ip:port` already, no group is empty, there is a master. */
  ghost predicate CanonicalGroup(h: Host, port: string) {
    && h.ips != []
    && forall a :: a in h.ips ==> Canon(a, port) == a && HostIP(a) != "" && ':' in a
  }

  ghost predicate CanonicalCluster(hosts: seq<Host>, port: string) {
    HasMaster(hosts) && forall i :: 0 <= i < |hosts| ==> CanonicalGroup(hosts[i], port)
  }

  lemma {:induction false} FilteredExact(ips: seq<string>, gone: set<string>, port: string)
    requires forall a :: a in ips ==> Canon(a, port) == a
    ensures Filtered(ips, gone, port) == Without(ips, gone)
  {
    if ips != [] {
      FilteredExact(ips[1..], gone, port);
    }
  }

  /** The addresses a delete takes from a group: the masters named if it has the
      master role, the nodes named if it has the node role. */
  function GoneOf(h: Host, masters: seq<string>, nodes: seq<string>, port: string): set<string> {
    (if HasRole(h, MASTER) then Members(CanonAll(masters, port)) else {})
    + (if HasRole(h, NODE) then Members(CanonAll(nodes, port)) else {})
  }

  lemma {:induction false} WithoutTwice(s: seq<string>, a: set<string>, b: set<string>)
    ensures Without(Without(s, a), b) == Without(s, a + b)
  {
    if s != [] {
      WithoutTwice(s[1..], a, b);
    }
  }

  /** One filtering of a group of canonical addresses. */
  lemma RoleExact(h: Host, role: string, gone: seq<string>, port: string)
    requires forall a :: a in h.ips ==> Canon(a, port) == a
    ensures var drop := if HasRole(h, role) then Members(CanonAll(gone, port)) else {};
      GoneFrom(h, role, gone, port) == h.(ips := Without(h.ips, drop))
  {
    FilteredExact(h.ips, Members(CanonAll(gone, port)), port);
    if gone == [] || !HasRole(h, role) {
      WithoutNone(h.ips, if HasRole(h, role) then Members(CanonAll(gone, port)) else {});
    }
  }

  lemma GroupExact(h: Host, masters: seq<string>, nodes: seq<string>, port: string)
    requires forall a :: a in h.ips ==> Canon(a, port) == a
    ensures GoneFrom(GoneFrom(h, MASTER, masters, port), NODE, nodes, port)
         == h.(ips := Without(h.ips, GoneOf(h, masters, nodes, port)))
  {
    var m := if HasRole(h, MASTER) then Members(CanonAll(masters, port)) else {};
    var n := if HasRole(h, NODE) then Members(CanonAll(nodes, port)) else {};
    RoleExact(h, MASTER, masters, port);
    RoleExact(h.(ips := Without(h.ips, m)), NODE, nodes, port);
    WithoutTwice(h.ips, m, n);
  }

  function Remaining(hosts: seq<Host>, masters: seq<string>, nodes: seq<string>, port: string): (r: seq<Host>)
    ensures |r| == |hosts|
    ensures forall i :: 0 <= i < |r| ==>
      r[i] == hosts[i].(ips := Without(hosts[i].ips, GoneOf(hosts[i], masters, nodes, port)))
  {
    seq(|hosts|, i requires 0 <= i < |hosts| =>
      hosts[i].(ips := Without(hosts[i].ips, GoneOf(hosts[i], masters, nodes, port))))
  }

  lemma {:induction false} DropEmptyExact(hosts: seq<Host>)
    ensures forall h :: h in DropEmpty(hosts) <==> h in hosts && h.ips != []
  {
    if hosts != [] {
      DropEmptyExact(hosts[1..]);
    }
  }

  /** A successful delete removes from each group exactly the addresses named
      under that group's role, keeps the order, and leaves no empty group. */
  lemma DeleteExact(e: Env, hosts: seq<Host>, masters: seq<string>, nodes: seq<string>)
    requires forall i, a :: 0 <= i < |hosts| && a in hosts[i].ips ==> Canon(a, e.port) == a
    requires DeleteHosts(e, hosts, masters, nodes).Ok?
    ensures var r := DeleteHosts(e, hosts, masters, nodes).value;
      r == DropEmpty(Remaining(hosts, masters, nodes, e.port)) && forall h :: h in r ==> h.ips != []
  {
    var w := WithoutRole(WithoutRole(hosts, MASTER, masters, e.port), NODE, nodes, e.port);
    forall i | 0 <= i < |hosts|
      ensures w[i] == Remaining(hosts, masters, nodes, e.port)[i]
    {
      GroupExact(hosts[i], masters, nodes, e.port);
    }
    assert w == Remaining(hosts, masters, nodes, e.port);
    DropEmptyExact(w);
  }

  // ------------------------------------------------------------ the first master

  /** Group `i` is the first with the master role and starts with `m0`. */
  predicate FirstMaster(hosts: seq<Host>, i: nat, m0: string) {
    && i < |hosts| && HasRole(hosts[i], MASTER) && hosts[i].ips != [] && hosts[i].ips[0] == m0
    && forall j :: 0 <= j < i ==> !HasRole(hosts[j], MASTER)
  }

  lemma {:induction false} Master0Joined(hosts: seq<Host>) returns (i: nat)
    requires Master0(hosts) != ""
    ensures FirstMaster(hosts, i, Master0(hosts))
  {
    if HasRole(hosts[0], MASTER) {
      i := 0;
    } else {
      var k := Master0Joined(hosts[1..]);
      i := k + 1;
      assert hosts[i] == hosts[1..][k];
      forall j | 0 <= j < i
        ensures !HasRole(hosts[j], MASTER)
      {
        assert j > 0 ==> hosts[j] == hosts[1..][j - 1];
      }
    }
  }

  /** Unless the list names master0 literally, none of its entries means it. */
  lemma Master0NotMeant(e: Env, m0: string, masters: seq<string>)
    requires GoodEnv(e) && AllValid(e, masters) && m0 !in masters && HostIP(m0) !in masters
    ensures m0 !in CanonAll(masters, e.port)
  {
    if m0 in CanonAll(masters, e.port) {
      var i :| 0 <= i < |masters| && Canon(masters[i], e.port) == m0;
      var a := masters[i];
      assert e.valid(a);
      if ':' !in a {
        CanonParts(a, e.port, e.port);
      }
    }
  }

  lemma {:induction false} Master0Of(hosts: seq<Host>, i: nat, m0: string)
    requires FirstMaster(hosts, i, m0)
    ensures Master0(hosts) == m0
    decreases i
  {
    if i > 0 {
      assert !HasRole(hosts[0], MASTER);
      assert hosts[1..][i - 1] == hosts[i];
      assert forall j :: 0 <= j < i - 1 ==> hosts[1..][j] == hosts[j + 1];
      Master0Of(hosts[1..], i - 1, m0);
    }
  }

  lemma {:induction false} DropKeepsMaster0(hosts: seq<Host>)
    requires Master0(hosts) != ""
    ensures Master0(DropEmpty(hosts)) == Master0(hosts)
  {
    if HasRole(hosts[0], MASTER) {
      assert DropEmpty(hosts)[0] == hosts[0];
    } else {
      DropKeepsMaster0(hosts[1..]);
      if hosts[0].ips != [] {
        assert DropEmpty(hosts)[1..] == DropEmpty(hosts[1..]);
      } else {
        assert [] + DropEmpty(hosts[1..]) == DropEmpty(hosts[1..]);
      }
    }
  }

  /** A successful delete keeps the first master, if no group is both kinds. */
  lemma DeleteKeepsMaster0(e: Env, hosts: seq<Host>, masters: seq<string>, nodes: seq<string>)
    requires GoodEnv(e) && Master0(hosts) != "" && DeleteHosts(e, hosts, masters, nodes).Ok?
    requires forall i :: 0 <= i < |hosts| ==> !(HasRole(hosts[i], MASTER) && HasRole(hosts[i], NODE))
    ensures Master0(DeleteHosts(e, hosts, masters, nodes).value)
         == if masters == [] then Master0(hosts) else Canon(Master0(hosts), e.port)
  {
    var m0 := Master0(hosts);
    var i := Master0Joined(hosts);
    DeletePassed(e, hosts, masters, nodes);
    if masters != [] {
      Master0NotMeant(e, m0, masters);
    }
    RestKeepsMaster0(e, hosts, masters, nodes, i, m0);
  }

  lemma DeletePassed(e: Env, hosts: seq<Host>, masters: seq<string>, nodes: seq<string>)
    requires DeleteHosts(e, hosts, masters, nodes).Ok?
    ensures AllValid(e, masters)
    ensures masters != [] ==> Master0(hosts) !in masters && HostIP(Master0(hosts)) !in masters
    ensures DeleteHosts(e, hosts, masters, nodes).value
         == DropEmpty(WithoutRole(WithoutRole(hosts, MASTER, masters, e.port), NODE, nodes, e.port))
  {
  }

  lemma RestKeepsMaster0(e: Env, hosts: seq<Host>, masters: seq<string>, nodes: seq<string>, i: nat, m0: string)
    requires FirstMaster(hosts, i, m0) && m0 != "" && !HasRole(hosts[i], NODE)
    requires masters != [] ==> m0 !in CanonAll(masters, e.port)
    ensures Master0(DropEmpty(WithoutRole(WithoutRole(hosts, MASTER, masters, e.port), NODE, nodes, e.port)))
         == if masters == [] then m0 else Canon(m0, e.port)
  {
    var w := WithoutRole(WithoutRole(hosts, MASTER, masters, e.port), NODE, nodes, e.port);
    FilterKeepsMaster(e, hosts, masters, nodes, i, m0);
    Master0Of(w, i, if masters == [] then m0 else Canon(m0, e.port));
    CanonNotEmpty(m0, e.port);
    DropKeepsMaster0(w);
  }

  lemma FilterKeepsMaster(e: Env, hosts: seq<Host>, masters: seq<string>, nodes: seq<string>, i: nat, m0: string)
    requires FirstMaster(hosts, i, m0) && !HasRole(hosts[i], NODE)
    requires masters != [] ==> m0 !in CanonAll(masters, e.port)
    ensures FirstMaster(WithoutRole(WithoutRole(hosts, MASTER, masters, e.port), NODE, nodes, e.port), i,
                        if masters == [] then m0 else Canon(m0, e.port))
  {
    var h := hosts[i];
    if masters != [] {
      var drop := Members(CanonAll(masters, e.port));
      assert Filtered(h.ips, drop, e.port)[0] == Canon(m0, e.port);
    }
  }

  lemma CanonNotEmpty(a: string, port: string)
    ensures Canon(a, port) != ""
  {
  }

  // ------------------------------------------------------ add, then delete again

  lemma ExcludedIsJoined(hosts: seq<Host>, role: string, a: string, port: string)
    requires Canon(a, port) == a && a in ByRole(hosts, role)
    ensures a in Addresses(CanonHosts(hosts, port))
  {
    var i :| 0 <= i < |hosts| && HasRole(hosts[i], role) && a in hosts[i].ips;
    var k :| 0 <= k < |hosts[i].ips| && hosts[i].ips[k] == a;
    assert CanonHosts(hosts, port)[i].ips[k] == a;
  }

  /** The `exclude` filter never drops anything: an excluded address is already
      joined, and that is an error before the filter is asked. */
  lemma {:induction false} ExcludeNeverDecides(hosts: seq<Host>, list: seq<string>, role: string, port: string)
    requires ':' !in port
    requires !AlreadyIn(Addresses(CanonHosts(hosts, port)), list, port)
    ensures Fresh(list, port, ByRole(hosts, role)) == CanonAll(list, port)
  {
    if list != [] {
      var a := Canon(list[0], port);
      var before := CanonHosts(hosts, port);
      assert a !in Addresses(before);
      CanonIdempotent(list[0], port);
      if a in ByRole(hosts, role) {
        ExcludedIsJoined(hosts, role, a, port);
      }
      forall i | 0 <= i < |list[1..]|
        ensures Canon(list[1..][i], port) !in Addresses(before)
      {
        assert list[1..][i] == list[i + 1];
      }
      ExcludeNeverDecides(hosts, list[1..], role, port);
      assert CanonAll(list, port) == [a] + CanonAll(list[1..], port);
    }
  }

  /** The group an accepted list adds. */
  function Group(e: Env, list: seq<string>, role: string, ssh: Option<SSH>): seq<Host> {
    var addrs := CanonAll(list, e.port);
    if addrs == [] then [] else [Host(addrs, [role, e.arch(addrs[0])], [], ssh)]
  }

  lemma CanonSame(hosts: seq<Host>, port: string)
    requires CanonicalCluster(hosts, port)
    ensures CanonHosts(hosts, port) == hosts
  {
    forall i | 0 <= i < |hosts|
      ensures CanonHosts(hosts, port)[i] == hosts[i]
    {
      assert CanonicalGroup(hosts[i], port);
      assert CanonAll(hosts[i].ips, port) == hosts[i].ips;
    }
  }

  /** None of the list is in the cluster. */
  ghost predicate New(hosts: seq<Host>, list: seq<string>, port: string) {
    forall i :: 0 <= i < |list| ==> !Joined(hosts, Canon(list[i], port))
  }

  lemma GroupAdded(e: Env, hosts: seq<Host>, list: seq<string>, role: string, ssh: Option<SSH>)
    requires ':' !in e.port && CanonicalCluster(hosts, e.port)
    requires NewGroup(e, Addresses(hosts), ByRole(hosts, role), list, role, ssh).Ok?
    ensures NewGroup(e, Addresses(hosts), ByRole(hosts, role), list, role, ssh) == Ok(Group(e, list, role, ssh))
    ensures New(hosts, list, e.port)
  {
    CanonSame(hosts, e.port);
    ExcludeNeverDecides(hosts, list, role, e.port);
  }

  lemma Added(e: Env, hosts: seq<Host>, masters: seq<string>, nodes: seq<string>, ssh: Option<SSH>)
    requires ':' !in e.port && CanonicalCluster(hosts, e.port) && AddHosts(e, hosts, masters, nodes, ssh).Ok?
    ensures AddHosts(e, hosts, masters, nodes, ssh).value
         == hosts + Group(e, masters, MASTER, ssh) + Group(e, nodes, NODE, ssh)
    ensures New(hosts, masters, e.port) && New(hosts, nodes, e.port) && Accepted(e, masters, nodes)
  {
    CanonSame(hosts, e.port);
    GroupAdded(e, hosts, masters, MASTER, ssh);
    GroupAdded(e, hosts, nodes, NODE, ssh);
  }

  lemma {:induction false} Master0Append(hosts: seq<Host>, more: seq<Host>)
    requires HasMaster(hosts)
    ensures Master0(hosts + more) == Master0(hosts)
  {
    if !HasRole(hosts[0], MASTER) {
      var i :| 0 <= i < |hosts| && HasRole(hosts[i], MASTER);
      assert HasRole(hosts[1..][i - 1], MASTER);
      Master0Append(hosts[1..], more);
      assert (hosts + more)[1..] == hosts[1..] + more;
    }
  }

  lemma {:induction false} Master0Canonical(hosts: seq<Host>, port: string)
    requires CanonicalCluster(hosts, port)
    ensures var m0 := Master0(hosts);
      m0 != "" && HostIP(m0) != "" && Canon(m0, port) == m0 && Joined(hosts, m0)
  {
    assert CanonicalGroup(hosts[0], port);
    if HasRole(hosts[0], MASTER) {
      assert hosts[0].ips[0] in hosts[0].ips;
      CanonNotEmpty(Master0(hosts), port);
    } else {
      var i :| 0 <= i < |hosts| && HasRole(hosts[i], MASTER);
      assert HasRole(hosts[1..][i - 1], MASTER);
      assert forall k :: 0 <= k < |hosts[1..]| ==> hosts[1..][k] == hosts[k + 1];
      Master0Canonical(hosts[1..], port);
      var j :| 0 <= j < |hosts[1..]| && Master0(hosts) in hosts[1..][j].ips;
      assert Master0(hosts) in hosts[j + 1].ips;
    }
  }

  /** After an add, the delete is refused exactly for the bare address of the
      first master. */
  lemma RefusedForBare(e: Env, hosts: seq<Host>, more: seq<Host>, masters: seq<string>)
    requires CanonicalCluster(hosts, e.port) && New(hosts, masters, e.port)
    ensures NamesMaster0(hosts + more, masters) <==> HostIP(Master0(hosts)) in masters
  {
    var m0 := Master0(hosts);
    Master0Append(hosts, more);
    Master0Canonical(hosts, e.port);
    forall i | 0 <= i < |masters|
      ensures masters[i] != m0
    {
      assert !Joined(hosts, Canon(masters[i], e.port));
    }
  }

  lemma AllIn(e: Env, before: seq<Host>, list: seq<string>, role: string, ssh: Option<SSH>, after: seq<Host>)
    ensures AllJoined(Addresses(before + Group(e, list, role, ssh) + after), list, e.port)
  {
    var all := before + Group(e, list, role, ssh) + after;
    forall i | 0 <= i < |list|
      ensures Joined(all, Canon(list[i], e.port))
    {
      assert all[|before|].ips == CanonAll(list, e.port);
      assert CanonAll(list, e.port)[i] in all[|before|].ips;
    }
  }

  /** What is left of a group no named address stands in: all of it. */
  lemma GroupKept(hosts: seq<Host>, i: nat, masters: seq<string>, nodes: seq<string>, port: string)
    requires i < |hosts| && New(hosts, masters, port) && New(hosts, nodes, port)
    ensures Without(hosts[i].ips, GoneOf(hosts[i], masters, nodes, port)) == hosts[i].ips
  {
    forall a | a in hosts[i].ips
      ensures a !in CanonAll(masters, port) && a !in CanonAll(nodes, port)
    {
      assert Joined(hosts, a);
    }
    WithoutNone(hosts[i].ips, GoneOf(hosts[i], masters, nodes, port));
  }

  lemma GroupGone(e: Env, list: seq<string>, role: string, ssh: Option<SSH>, masters: seq<string>, nodes: seq<string>)
    requires (role == MASTER && list == masters) || (role == NODE && list == nodes)
    ensures forall h :: h in Group(e, list, role, ssh) ==> Without(h.ips, GoneOf(h, masters, nodes, e.port)) == []
  {
    forall h | h in Group(e, list, role, ssh)
      ensures Without(h.ips, GoneOf(h, masters, nodes, e.port)) == []
    {
      assert HasRole(h, role);
      WithoutAll(h.ips, GoneOf(h, masters, nodes, e.port));
    }
  }

  lemma {:induction false} DropEmptyTail(hosts: seq<Host>, tail: seq<Host>)
    requires forall i :: 0 <= i < |hosts| ==> hosts[i].ips != []
    requires forall i :: 0 <= i < |tail| ==> tail[i].ips == []
    ensures DropEmpty(hosts + tail) == hosts
  {
    if hosts != [] {
      assert (hosts + tail)[1..] == hosts[1..] + tail;
      DropEmptyTail(hosts[1..], tail);
      assert [hosts[0]] + hosts[1..] == hosts;
    } else if tail != [] {
      assert hosts + tail == tail && [] + tail[1..] == tail[1..];
      DropEmptyTail([], tail[1..]);
    }
  }

  lemma GroupCanonical(e: Env, list: seq<string>, role: string, ssh: Option<SSH>)
    requires ':' !in e.port
    ensures forall h, a :: h in Group(e, list, role, ssh) && a in h.ips ==> Canon(a, e.port) == a
  {
    forall h, a | h in Group(e, list, role, ssh) && a in h.ips
      ensures Canon(a, e.port) == a
    {
      var i :| 0 <= i < |list| && CanonAll(list, e.port)[i] == a;
      CanonIdempotent(list[i], e.port);
    }
  }

  /** Deleting what was added leaves the groups that were there before. */
  lemma Restored(e: Env, hosts: seq<Host>, masters: seq<string>, nodes: seq<string>, ssh: Option<SSH>)
    requires CanonicalCluster(hosts, e.port) && New(hosts, masters, e.port) && New(hosts, nodes, e.port)
    ensures var more := hosts + Group(e, masters, MASTER, ssh) + Group(e, nodes, NODE, ssh);
      DropEmpty(Remaining(more, masters, nodes, e.port)) == hosts
  {
    var mg, ng := Group(e, masters, MASTER, ssh), Group(e, nodes, NODE, ssh);
    var r := Remaining(hosts + mg + ng, masters, nodes, e.port);
    GroupGone(e, masters, MASTER, ssh, masters, nodes);
    GroupGone(e, nodes, NODE, ssh, masters, nodes);
    var tail := r[|hosts|..];
    forall i | 0 <= i < |tail|
      ensures tail[i].ips == []
    {
      var h := (hosts + mg + ng)[|hosts| + i];
      assert h == (mg + ng)[i];
    }
    forall i | 0 <= i < |hosts|
      ensures r[i] == hosts[i] && hosts[i].ips != []
    {
      assert CanonicalGroup(hosts[i], e.port);
      GroupKept(hosts, i, masters, nodes, e.port);
    }
    assert r == hosts + tail;
    DropEmptyTail(hosts, tail);
  }

  /** The round trip. On a cluster of canonical addresses, deleting the lists
      that were just added restores the host groups in order, unless the master
      list names the bare address of the first master (accepted by the add when
      that master listens on another port): then the delete is refused. */
  lemma AddThenDelete(e: Env, hosts: seq<Host>, masters: seq<string>, nodes: seq<string>, ssh: Option<SSH>)
    requires GoodEnv(e) && CanonicalCluster(hosts, e.port) && AddHosts(e, hosts, masters, nodes, ssh).Ok?
    ensures var r := DeleteHosts(e, AddHosts(e, hosts, masters, nodes, ssh).value, masters, nodes);
      && (r == Ok(hosts) <==> HostIP(Master0(hosts)) !in masters)
      && (r.Err? <==> HostIP(Master0(hosts)) in masters)
  {
    var mg, ng := Group(e, masters, MASTER, ssh), Group(e, nodes, NODE, ssh);
    Added(e, hosts, masters, nodes, ssh);
    assert hosts + mg + ng == hosts + (mg + ng);
    RefusedForBare(e, hosts, mg + ng, masters);
    AllIn(e, hosts, masters, MASTER, ssh, ng);
    assert hosts + mg + ng == hosts + mg + ng + [];
    AllIn(e, hosts + mg, nodes, NODE, ssh, []);
    if HostIP(Master0(hosts)) !in masters {
      AllCanonical(e, hosts, masters, nodes, ssh);
      DeleteExact(e, hosts + mg + ng, masters, nodes);
      Restored(e, hosts, masters, nodes, ssh);
    }
  }

  lemma AllCanonical(e: Env, hosts: seq<Host>, masters: seq<string>, nodes: seq<string>, ssh: Option<SSH>)
    requires ':' !in e.port && CanonicalCluster(hosts, e.port)
    ensures var more := hosts + Group(e, masters, MASTER, ssh) + Group(e, nodes, NODE, ssh);
      forall i, a :: 0 <= i < |more| && a in more[i].ips ==> Canon(a, e.port) == a
  {
    var mg, ng := Group(e, masters, MASTER, ssh), Group(e, nodes, NODE, ssh);
    GroupCanonical(e, masters, MASTER, ssh);
    GroupCanonical(e, nodes, NODE, ssh);
    var more := hosts + mg + ng;
    forall i, a | 0 <= i < |more| && a in more[i].ips
      ensures Canon(a, e.port) == a
    {
      if i < |hosts| {
        assert CanonicalGroup(hosts[i], e.port);
      } else {
        assert more[i] in mg || more[i] in ng;
      }
    }
  }

  // ------------------------------------------------- when a request is refused

  /** Written out with the default port, one of the cluster's addresses. */
  ghost predicate InCluster(hosts: seq<Host>, a: string, port: string) {
    exists i, k :: 0 <= i < |hosts| && 0 <= k < |hosts[i].ips| && Canon(hosts[i].ips[k], port) == Canon(a, port)
  }

  lemma InClusterJoined(hosts: seq<Host>, a: string, port: string)
    ensures InCluster(hosts, a, port) <==> Canon(a, port) in Addresses(CanonHosts(hosts, port))
  {
    var all := CanonHosts(hosts, port);
    if i, k :| 0 <= i < |hosts| && 0 <= k < |hosts[i].ips| && Canon(hosts[i].ips[k], port) == Canon(a, port) {
      assert all[i].ips[k] == Canon(a, port);
      assert Joined(all, Canon(a, port));
    }
    if Canon(a, port) in Addresses(all) {
      var i :| 0 <= i < |all| && Canon(a, port) in all[i].ips;
      var k :| 0 <= k < |all[i].ips| && all[i].ips[k] == Canon(a, port);
      assert Canon(hosts[i].ips[k], port) == Canon(a, port);
    }
  }

  lemma NewGroupExact(e: Env, hosts: seq<Host>, list: seq<string>, role: string, ssh: Option<SSH>)
    requires ':' !in e.port
    ensures var r := NewGroup(e, Addresses(CanonHosts(hosts, e.port)), ByRole(hosts, role), list, role, ssh);
      && (r.Ok? <==> forall a :: a in list ==> !InCluster(hosts, a, e.port))
      && (r.Ok? ==> r.value == Group(e, list, role, ssh))
  {
    forall a | a in list
      ensures InCluster(hosts, a, e.port) <==> Canon(a, e.port) in Addresses(CanonHosts(hosts, e.port))
    {
      InClusterJoined(hosts, a, e.port);
    }
    var joined := Addresses(CanonHosts(hosts, e.port));
    if AlreadyIn(joined, list, e.port) {
      var i :| 0 <= i < |list| && Canon(list[i], e.port) in joined;
      assert list[i] in list;
    } else {
      ExcludeNeverDecides(hosts, list, role, e.port);
    }
  }

  /** Adding succeeds exactly if the lists are valid and share no address, the
      cluster has a master group, and no address given is in the cluster, written
      out; the groups that were there, written out, are then followed by one group
      for the masters and one for the nodes, each holding its list. */
  lemma AddExact(e: Env, hosts: seq<Host>, masters: seq<string>, nodes: seq<string>, ssh: Option<SSH>)
    requires ':' !in e.port
    ensures AddHosts(e, hosts, masters, nodes, ssh).Ok? <==>
      && (forall a :: a in masters + nodes ==> e.valid(a)) && (forall a :: a in masters ==> a !in nodes)
      && (exists i :: 0 <= i < |hosts| && MASTER in hosts[i].roles)
      && (forall a :: a in masters + nodes ==> !InCluster(hosts, a, e.port))
    ensures AddHosts(e, hosts, masters, nodes, ssh).Ok? ==>
      AddHosts(e, hosts, masters, nodes, ssh).value
      == CanonHosts(hosts, e.port) + Group(e, masters, MASTER, ssh) + Group(e, nodes, NODE, ssh)
  {
    NewGroupExact(e, hosts, masters, MASTER, ssh);
    NewGroupExact(e, hosts, nodes, NODE, ssh);
    AcceptedExact(e, masters, nodes);
    MasterThere(hosts);
  }

  lemma AcceptedExact(e: Env, masters: seq<string>, nodes: seq<string>)
    ensures Accepted(e, masters, nodes) <==>
      (forall a :: a in masters + nodes ==> e.valid(a)) && (forall a :: a in masters ==> a !in nodes)
  {
    assert forall a :: a in Members(masters) <==> a in masters;
    assert forall a :: a in Members(nodes) <==> a in nodes;
  }

  lemma MasterThere(hosts: seq<Host>)
    ensures HasMaster(hosts) <==> exists i :: 0 <= i < |hosts| && MASTER in hosts[i].roles
  {
    if i :| 0 <= i < |hosts| && MASTER in hosts[i].roles {
      assert HasRole(hosts[i], MASTER);
    }
  }

  lemma MasterUnnamed(hosts: seq<Host>, masters: seq<string>)
    ensures !NamesMaster0(hosts, masters) <==>
      && Master0(hosts) !in masters && HostIP(Master0(hosts)) !in masters
      && (masters == [] ==> Master0(hosts) != "" && HostIP(Master0(hosts)) != "")
  {
  }

  /** Deleting succeeds exactly if the lists are valid and share no address, the
      masters name the first master neither with nor without its port (for no
      masters at all, there is a first master), and every address given, written
      out, is one the cluster lists in this form. */
  lemma DeleteSucceeds(e: Env, hosts: seq<Host>, masters: seq<string>, nodes: seq<string>)
    ensures DeleteHosts(e, hosts, masters, nodes).Ok? <==>
      && (forall a :: a in masters + nodes ==> e.valid(a)) && (forall a :: a in masters ==> a !in nodes)
      && Master0(hosts) !in masters && HostIP(Master0(hosts)) !in masters
      && (masters == [] ==> Master0(hosts) != "" && HostIP(Master0(hosts)) != "")
      && (forall a :: a in masters ==> exists i :: 0 <= i < |hosts| && Canon(a, e.port) in hosts[i].ips)
      && (forall a :: a in nodes ==> exists i :: 0 <= i < |hosts| && Canon(a, e.port) in hosts[i].ips)
  {
    AcceptedExact(e, masters, nodes);
    MasterUnnamed(hosts, masters);
    ListJoined(hosts, masters, e.port);
    ListJoined(hosts, nodes, e.port);
  }

  lemma ListJoined(hosts: seq<Host>, list: seq<string>, port: string)
    ensures AllJoined(Addresses(hosts), list, port) <==>
      forall a :: a in list ==> exists i :: 0 <= i < |hosts| && Canon(a, port) in hosts[i].ips
  {
    if AllJoined(Addresses(hosts), list, port) {
      forall a | a in list
        ensures exists i :: 0 <= i < |hosts| && Canon(a, port) in hosts[i].ips
      {
        var k :| 0 <= k < |list| && list[k] == a;
        assert Joined(hosts, Canon(list[k], port));
      }
    } else {
      var k :| 0 <= k < |list| && Canon(list[k], port) !in Addresses(hosts);
      assert list[k] in list && !Joined(hosts, Canon(list[k], port));
    }
  }
}
