/** Grouping the requested addresses of `sealos run` by port
    (`ClusterArgs.setHostWithIpsPort` and its two calls in `runArgs`), for every
    order in which a Go map may be walked. */
module RunHosts {
  import opened GoStrings
  import opened ClusterTypes
  import Sorting

  // ------------------------------------------------------------ what is grouped

  function Unjoined(joined: seq<string>, port: string): string -> seq<string> {
    (a: string) => if Canon(a, port) in joined then [] else [Canon(a, port)]
  }

  /** The requested addresses, as `ip:port`, that the cluster does not have. */
  function Wanted(ips: seq<string>, joined: seq<string>, port: string): seq<string> {
    FlatMap(Unjoined(joined, port), ips)
  }

  /** The port of an `ip:port`. */
  function PortOf(a: string): string {
    HostPort(a, "").1
  }

  function AtPort(p: string): string -> seq<string> {
    (a: string) => if PortOf(a) == p then [a] else []
  }

  function WithPort(list: seq<string>, p: string): seq<string> {
    FlatMap(AtPort(p), list)
  }

  /** `RemoveDuplicate`: first occurrences, in order. */
  function Dedup(s: seq<string>): (r: seq<string>)
    ensures forall x :: x in r <==> x in s
  {
    if s == [] then []
    else
      var r := Dedup(s[..|s| - 1]);
      var last := s[|s| - 1];
      assert s == s[..|s| - 1] + [last];
      if last in r then r else r + [last]
  }

  /** The group of one port. */
  function GroupOf(list: seq<string>, p: string, roles: seq<string>): Host {
    Host(Dedup(WithPort(list, p)), roles, [], None)
  }

  /** `hostMap` after the first loop. */
  ghost predicate Gathered(groups: map<string, seq<string>>, list: seq<string>) {
    && (forall p :: p in groups <==> exists a :: a in list && PortOf(a) == p)
    && (forall p :: p in groups ==> groups[p] == WithPort(list, p))
  }

  lemma {:induction false} WithPortExact(list: seq<string>, p: string)
    ensures forall a :: a in WithPort(list, p) <==> a in list && PortOf(a) == p
  {
    if list != [] {
      WithPortExact(list[1..], p);
    }
  }

  lemma {:induction false} WithPortNone(list: seq<string>, p: string)
    requires forall a :: a in list ==> PortOf(a) != p
    ensures WithPort(list, p) == []
  {
    if list != [] {
      WithPortNone(list[1..], p);
    }
  }

  /** The map with `a` added to the entry of its port. */
  function AddTo(groups: map<string, seq<string>>, p: string, a: string): map<string, seq<string>> {
    if p !in groups then groups[p := [a]] else groups[p := groups[p] + [a]]
  }

  lemma GatherOne(groups: map<string, seq<string>>, list: seq<string>, p: string, a: string)
    requires Gathered(groups, list) && PortOf(a) == p
    ensures Gathered(AddTo(groups, p, a), list + [a])
  {
    var g2 := AddTo(groups, p, a);
    forall q | q in g2
      ensures g2[q] == WithPort(list + [a], q)
    {
      FlatMapSnoc(AtPort(q), list, a);
      if q !in groups {
        WithPortNone(list, q);
      }
    }
    forall q
      ensures q in g2 <==> exists b :: b in list + [a] && PortOf(b) == q
    {
      if q in groups {
        var b :| b in list && PortOf(b) == q;
        assert b in list + [a];
      }
      assert a in list + [a];
    }
  }

  // ------------------------------------------------------------------ the result

  /** New groups as one walk over the map leaves them: `order` names the ports,
      `first` says which one, if any, was put in front. */
  ghost predicate Walk(order: seq<string>, list: seq<string>) {
    && Sorting.NoRepeats(order)
    && forall p :: p in order <==> exists a :: a in list && PortOf(a) == p
  }

  /** Groups put at either end of a host list, in the order of a map walk. */
  function PlaceAll(hosts: seq<Host>, order: seq<string>, group: string -> Host, front: string -> bool): seq<Host> {
    if order == [] then hosts
    else
      var before := PlaceAll(hosts, order[..|order| - 1], group, front);
      var p := order[|order| - 1];
      if front(p) then [group(p)] + before else before + [group(p)]
  }

  function GroupBy(list: seq<string>, roles: seq<string>): string -> Host {
    (p: string) => GroupOf(list, p, roles)
  }

  function FrontPort(roles: seq<string>, port0: string): string -> bool {
    (p: string) => p == port0 && MASTER in roles
  }

  /** Prepending the first master's port, appending every other. */
  function Placed(hosts: seq<Host>, order: seq<string>, list: seq<string>, roles: seq<string>, port0: string)
    : seq<Host>
  {
    PlaceAll(hosts, order, GroupBy(list, roles), FrontPort(roles, port0))
  }

  /** `ClusterArgs`, with the addresses of the cluster it extends. */
  class ClusterArgs {
    const joined: seq<string>
    const port: string
    var hosts: seq<Host>

    constructor (joined: seq<string>, port: string)
      ensures this.joined == joined && this.port == port && hosts == []
    {
      this.joined, this.port := joined, port;
      hosts := [];
    }

    /** For whatever order the runtime walks the map in, the result is `Placed`
        for that order. */
    method SetHostWithIpsPort(ips: seq<string>, roles: seq<string>) returns (ghost order: seq<string>)
      requires ips != [] && ':' !in port
      modifies this`hosts
      ensures Walk(order, Wanted(ips, joined, port))
      ensures hosts == Placed(old(hosts), order, Wanted(ips, joined, port), roles, HostPort(ips[0], port).1)
    {
      var groups := Gather(ips);
      ghost var list := Wanted(ips, joined, port);
      WantedNotEmpty(ips, joined, port);
      order := PlaceGroups(groups, list, roles, HostPort(ips[0], port).1);
      WalkOfKeys(groups, list, order);
    }

    /** The second loop: one group per map entry, in the order the map yields. */
    method PlaceGroups(groups: map<string, seq<string>>, ghost list: seq<string>, roles: seq<string>, port0: string)
      returns (ghost order: seq<string>)
      requires Gathered(groups, list) && forall a :: a in list ==> a != ""
      modifies this`hosts
      ensures Sorting.NoRepeats(order) && forall p :: p in order <==> p in groups
      ensures hosts == Placed(old(hosts), order, list, roles, port0)
    {
      order := [];
      var left := groups.Keys;
      while left != {}
        invariant left <= groups.Keys
        invariant Sorting.NoRepeats(order)
        invariant forall p :: p in order <==> p in groups && p !in left
        invariant hosts == Placed(old(hosts), order, list, roles, port0)
      {
        var p :| p in left;
        var group := Settle(groups, list, roles, p);
        PlaceNext(old(hosts), order, list, roles, port0, p, group);
        Sorting.OneMoreApart(order, p);
        if p == port0 && MASTER in roles {
          hosts := [group] + hosts;
        } else {
          hosts := hosts + [group];
        }
        order := order + [p];
        left := left - {p};
      }
    }

    /** The first loop: addresses by port, in the order requested. */
    method Gather(ips: seq<string>) returns (groups: map<string, seq<string>>)
      requires ':' !in port
      ensures Gathered(groups, Wanted(ips, joined, port))
    {
      groups := map[];
      for i := 0 to |ips|
        invariant Gathered(groups, Wanted(ips[..i], joined, port))
      {
        var (ip, p) := HostPort(ips[i], port);
        var socket := ip + ":" + p;
        GatherStep(groups, ips, i, joined, port);
        if socket !in joined {
          if p !in groups {
            groups := groups[p := [socket]];
          } else {
            groups := groups[p := groups[p] + [socket]];
          }
        }
      }
      assert ips[..|ips|] == ips;
    }
  }

  /** One address more: joined already, or added to the group of its port. */
  lemma GatherStep(groups: map<string, seq<string>>, ips: seq<string>, i: nat, joined: seq<string>, port: string)
    requires i < |ips| && ':' !in port && Gathered(groups, Wanted(ips[..i], joined, port))
    ensures var socket, p := Canon(ips[i], port), HostPort(ips[i], port).1;
      Gathered(if socket in joined then groups else AddTo(groups, p, socket), Wanted(ips[..i + 1], joined, port))
  {
    var socket, p := Canon(ips[i], port), HostPort(ips[i], port).1;
    var list := Wanted(ips[..i], joined, port);
    WantedSnoc(ips, i, joined, port);
    if socket in joined {
      assert list + [] == list;
    } else {
      SocketPort(ips[i], port);
      GatherOne(groups, list, p, socket);
    }
  }

  lemma SocketPort(a: string, port: string)
    requires ':' !in port
    ensures PortOf(Canon(a, port)) == HostPort(a, port).1
  {
    HostPortParts(a, port);
    CanonParts(HostPort(a, port).0, HostPort(a, port).1, "");
  }

  lemma WantedSnoc(ips: seq<string>, i: nat, joined: seq<string>, port: string)
    requires i < |ips|
    ensures Wanted(ips[..i + 1], joined, port)
         == Wanted(ips[..i], joined, port) + if Canon(ips[i], port) in joined then [] else [Canon(ips[i], port)]
  {
    FlatMapSnoc(Unjoined(joined, port), ips[..i], ips[i]);
    assert ips[..i] + [ips[i]] == ips[..i + 1];
  }

  /** What is wanted: exactly the requested addresses that are not joined. */
  lemma {:induction false} WantedExact(ips: seq<string>, joined: seq<string>, port: string)
    ensures forall a :: a in Wanted(ips, joined, port) <==>
      a !in joined && exists i :: 0 <= i < |ips| && a == Canon(ips[i], port)
  {
    if ips != [] {
      WantedExact(ips[1..], joined, port);
      assert forall i :: 0 < i < |ips| ==> ips[i] == ips[1..][i - 1];
      assert forall i :: 0 <= i < |ips[1..]| ==> ips[1..][i] == ips[i + 1];
    }
  }

  lemma WantedNotEmpty(ips: seq<string>, joined: seq<string>, port: string)
    ensures forall a :: a in Wanted(ips, joined, port) ==> a != ""
  {
    WantedExact(ips, joined, port);
    forall i | 0 <= i < |ips|
      ensures Canon(ips[i], port) != ""
    {
      var (h, p) := HostPort(ips[i], port);
      assert (h + ":" + p)[|h|] == ':';
    }
  }

  lemma WalkOfKeys(groups: map<string, seq<string>>, list: seq<string>, order: seq<string>)
    requires Gathered(groups, list) && Sorting.NoRepeats(order) && forall p :: p in order <==> p in groups
    ensures Walk(order, list)
  {
  }

  /** The group of one map entry, duplicates and empty addresses removed. */
  method Settle(groups: map<string, seq<string>>, ghost list: seq<string>, roles: seq<string>, p: string)
    returns (group: Host)
    requires Gathered(groups, list) && p in groups && forall a :: a in list ==> a != ""
    ensures group == GroupOf(list, p, roles)
  {
    KeepAll(groups[p], list, p);
    group := Host(RemoveDuplicatesAndEmpty(groups[p]), roles, [], None);
  }

  lemma PlaceNext(hosts: seq<Host>, order: seq<string>, list: seq<string>, roles: seq<string>, port0: string,
                  p: string, group: Host)
    requires group == GroupOf(list, p, roles)
    ensures var before := Placed(hosts, order, list, roles, port0);
      Placed(hosts, order + [p], list, roles, port0)
      == if p == port0 && MASTER in roles then [group] + before else before + [group]
  {
    assert (order + [p])[..|order|] == order;
  }

  /** `removeIPListDuplicatesAndEmpty`. */
  function RemoveDuplicatesAndEmpty(s: seq<string>): seq<string> {
    Dedup(Without(s, {""}))
  }

  lemma KeepAll(group: seq<string>, list: seq<string>, p: string)
    requires group == WithPort(list, p)
    requires forall a :: a in list ==> a != ""
    ensures RemoveDuplicatesAndEmpty(group) == Dedup(WithPort(list, p))
  {
    WithPortExact(list, p);
    WithoutNone(group, {""});
  }

  // -------------------------------------------------------------- exactly once

  function AllIps(hosts: seq<Host>): multiset<string> {
    if hosts == [] then multiset{}
    else AllIps(hosts[..|hosts| - 1]) + multiset(hosts[|hosts| - 1].ips)
  }

  lemma {:induction false} AllIpsConcat(a: seq<Host>, b: seq<Host>)
    ensures AllIps(a + b) == AllIps(a) + AllIps(b)
    decreases |b|
  {
    if b == [] {
      assert a + b == a;
    } else {
      assert (a + b)[..|a + b| - 1] == a + b[..|b| - 1];
      AllIpsConcat(a, b[..|b| - 1]);
    }
  }

  lemma {:induction false} DedupOnce(s: seq<string>)
    ensures forall x :: multiset(Dedup(s))[x] == if x in s then 1 else 0
  {
    if s != [] {
      var init, last := s[..|s| - 1], s[|s| - 1];
      DedupOnce(init);
      assert s == init + [last];
    }
  }

  /** One copy of `a` in its port's group, none in any other. */
  lemma GroupCount(list: seq<string>, p: string, roles: seq<string>, a: string)
    ensures multiset(GroupOf(list, p, roles).ips)[a] == if a in list && PortOf(a) == p then 1 else 0
  {
    WithPortExact(list, p);
    DedupOnce(WithPort(list, p));
  }

  /** A group put at either end adds its addresses. */
  lemma OneMore(before: seq<Host>, g: Host)
    ensures AllIps([g] + before) == AllIps(before) + multiset(g.ips)
    ensures AllIps(before + [g]) == AllIps(before) + multiset(g.ips)
  {
    AllIpsConcat([g], before);
    AllIpsConcat(before, [g]);
    assert [g][..0] == [] && AllIps([g]) == AllIps([]) + multiset(g.ips);
  }

  /** How often `a` occurs in a group: `n` times in that of its port, else not. */
  ghost predicate Counts(group: string -> Host, a: string, q: string, n: nat) {
    forall p :: multiset(group(p).ips)[a] == if p == q then n else 0
  }

  lemma {:induction false} PlacedCount(hosts: seq<Host>, order: seq<string>, group: string -> Host,
                                       front: string -> bool, a: string, q: string, n: nat)
    requires Sorting.NoRepeats(order) && Counts(group, a, q, n)
    ensures AllIps(PlaceAll(hosts, order, group, front))[a] == AllIps(hosts)[a] + if q in order then n else 0
    decreases |order|
  {
    if order != [] {
      var init, p := order[..|order| - 1], order[|order| - 1];
      Sorting.LastApart(order);
      PlacedCount(hosts, init, group, front, a, q, n);
      OneMore(PlaceAll(hosts, init, group, front), group(p));
      AddCounts(AllIps(PlaceAll(hosts, init, group, front)), multiset(group(p).ips), a);
    }
  }

  lemma AddCounts(m: multiset<string>, k: multiset<string>, a: string)
    ensures (m + k)[a] == m[a] + k[a]
  {
  }

  /** One call, any map order: every wanted address is in the new groups exactly
      once, and nothing else is. */
  lemma CallExactlyOnce(hosts: seq<Host>, order: seq<string>, list: seq<string>, roles: seq<string>, port0: string)
    requires Walk(order, list)
    ensures AllIps(Placed(hosts, order, list, roles, port0)) == AllIps(hosts) + multiset(Dedup(list))
  {
    DedupOnce(list);
    forall a
      ensures AllIps(Placed(hosts, order, list, roles, port0))[a] == (AllIps(hosts) + multiset(Dedup(list)))[a]
    {
      var n := if a in list then 1 else 0;
      forall p
        ensures multiset(GroupBy(list, roles)(p).ips)[a] == if p == PortOf(a) then n else 0
      {
        GroupCount(list, p, roles, a);
      }
      PlacedCount(hosts, order, GroupBy(list, roles), FrontPort(roles, port0), a, PortOf(a), n);
    }
  }

  /** One port per group. */
  lemma {:induction false} OnePort(hosts: seq<Host>, order: seq<string>, list: seq<string>, roles: seq<string>,
                                   port0: string, g: Host)
    requires g in Placed(hosts, order, list, roles, port0)
    ensures g in hosts || exists p :: p in order && g == GroupOf(list, p, roles)
                                      && forall a :: a in g.ips ==> a in list && PortOf(a) == p
    decreases |order|
  {
    if order != [] {
      var init, p := order[..|order| - 1], order[|order| - 1];
      assert order == init + [p];
      if g == GroupOf(list, p, roles) {
        WithPortExact(list, p);
      } else {
        OnePort(hosts, init, list, roles, port0, g);
      }
    }
  }

  // ------------------------------------------------------------- the first master

  lemma {:induction false} FrontGroup(hosts: seq<Host>, order: seq<string>, list: seq<string>, roles: seq<string>,
                                      port0: string)
    requires Sorting.NoRepeats(order) && MASTER in roles && port0 in order
    ensures var r := Placed(hosts, order, list, roles, port0); r != [] && r[0] == GroupOf(list, port0, roles)
    decreases |order|
  {
    var init, p := order[..|order| - 1], order[|order| - 1];
    assert order == init + [p];
    if p != port0 {
      FrontGroup(hosts, init, list, roles, port0);
    }
  }

  /** Groups without the master role are only appended. */
  lemma {:induction false} AppendedOnly(hosts: seq<Host>, order: seq<string>, list: seq<string>, roles: seq<string>,
                                        port0: string)
    requires MASTER !in roles
    ensures hosts <= Placed(hosts, order, list, roles, port0)
    decreases |order|
  {
    if order != [] {
      AppendedOnly(hosts, order[..|order| - 1], list, roles, port0);
    }
  }

  lemma {:induction false} DedupFirst(s: seq<string>)
    requires s != []
    ensures Dedup(s) != [] && Dedup(s)[0] == s[0]
  {
    if |s| > 1 {
      DedupFirst(s[..|s| - 1]);
    } else {
      assert s[..0] == [];
    }
  }

  /** Both calls, any two map orders. With masters given, the group of the first
      master's port, if it has any address, is in front, also after the nodes. */
  lemma MasterGroupInFront(order: seq<string>, list: seq<string>, roles: seq<string>, port0: string,
                           order2: seq<string>, list2: seq<string>, roles2: seq<string>, port2: string)
    requires Walk(order, list) && MASTER in roles && MASTER !in roles2
    requires exists a :: a in list && PortOf(a) == port0
    ensures var r := Placed(Placed([], order, list, roles, port0), order2, list2, roles2, port2);
      r != [] && r[0] == GroupOf(list, port0, roles)
  {
    var first := Placed([], order, list, roles, port0);
    FrontGroup([], order, list, roles, port0);
    AppendedOnly(first, order2, list2, roles2, port2);
  }

  /** So the first requested master, if it is not joined yet, is the first
      address of the first group: the first master of a new cluster. */
  lemma FirstMasterFirst(masters: seq<string>, joined: seq<string>, port: string, roles: seq<string>)
    requires masters != [] && ':' !in port && Canon(masters[0], port) !in joined
    ensures var list := Wanted(masters, joined, port); var port0 := HostPort(masters[0], port).1;
      var g := GroupOf(list, port0, roles);
      && (exists a :: a in list && PortOf(a) == port0)
      && g.ips != [] && g.ips[0] == Canon(masters[0], port)
  {
    var list := Wanted(masters, joined, port);
    var (h, p) := HostPort(masters[0], port);
    HostPortParts(masters[0], port);
    CanonParts(h, p, "");
    assert list[0] == Canon(masters[0], port) && PortOf(list[0]) == p;
    assert list[0] in list;
    assert WithPort(list, p)[0] == list[0];
    DedupFirst(WithPort(list, p));
  }

  // --------------------------------------------------------------- the two calls

  /** After both calls every wanted address is in exactly one group exactly when
      no node, written out, is one of the masters written out. */
  lemma TwoCallsExactlyOnce(order: seq<string>, masters: seq<string>, roles: seq<string>, port0: string,
                            order2: seq<string>, nodes: seq<string>, roles2: seq<string>, port2: string)
    requires Walk(order, masters) && Walk(order2, nodes)
    ensures var r := Placed(Placed([], order, masters, roles, port0), order2, nodes, roles2, port2);
      (forall a :: a in masters || a in nodes ==> AllIps(r)[a] == 1)
      <==> forall a :: a in masters ==> a !in nodes
  {
    var first := Placed([], order, masters, roles, port0);
    CallExactlyOnce([], order, masters, roles, port0);
    CallExactlyOnce(first, order2, nodes, roles2, port2);
    DedupOnce(masters);
    DedupOnce(nodes);
    var r := Placed(first, order2, nodes, roles2, port2);
    assert forall a :: AllIps(r)[a] == multiset(Dedup(masters))[a] + multiset(Dedup(nodes))[a];
  }

  /** The check on the raw lists does not give that: any host, given once bare
      and once with the default port, passes it as a master and as a node, and
      lands in a master group and in a node group. */
  lemma SameHostTwice(host: string, port: string)
    requires ':' !in host && ':' !in port
    ensures var masters, nodes := [host], [host + ":" + port];
      && Members(masters) !! Members(nodes)
      && Wanted(masters, [], port) == Wanted(nodes, [], port) == [host + ":" + port]
  {
    var masters, nodes := [host], [host + ":" + port];
    CanonParts(host, port, port);
    assert nodes[0][|host|] == ':';
    WantedOne(host, port);
    WantedOne(host + ":" + port, port);
  }

  lemma WantedOne(a: string, port: string)
    ensures Wanted([a], [], port) == [Canon(a, port)]
  {
    assert [a][1..] == [];
    assert FlatMap(Unjoined([], port), [a]) == Unjoined([], port)(a) + FlatMap(Unjoined([], port), []);
  }
}
