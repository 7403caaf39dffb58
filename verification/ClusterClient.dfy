/** The caching SSH client of a cluster (`pkg/ssh/clusterclient.go`): options per
    host from layered overrides, looked up and filled in by concurrent callers. */
module ClusterClient {
  import opened GoStrings
  import opened ClusterTypes

  // ---------------------------------------------------------------- overriding

  function Or(value: string, fallback: string): string {
    if value != "" then value else fallback
  }

  /** The settings after one override. */
  function Over(o: SSH, v: Option<SSH>): SSH {
    match v
    case None => o
    case Some(s) =>
      SSH(Or(s.user, o.user), Or(s.passwd, o.passwd), o.pkName, Or(s.pkData, o.pkData), Or(s.pk, o.pk),
          Or(s.pkPasswd, o.pkPasswd), if s.port > 0 then s.port else o.port)
  }

  /** The settings object that `OverSSHConfig` updates field by field. */
  class Settings {
    var user: string
    var passwd: string
    var pkName: string
    var pkData: string
    var pk: string
    var pkPasswd: string
    var port: nat

    /** `DeepCopy`. */
    constructor (s: SSH)
      ensures Value() == s
    {
      user, passwd, pkName, pkData, pk, pkPasswd, port :=
        s.user, s.passwd, s.pkName, s.pkData, s.pk, s.pkPasswd, s.port;
    }

    function Value(): SSH
      reads this
    {
      SSH(user, passwd, pkName, pkData, pk, pkPasswd, port)
    }

    method OverSSHConfig(override: Option<SSH>)
      modifies this
      ensures Value() == Over(old(Value()), override)
    {
      if override.Some? {
        var v := override.value;
        if v.user != "" { user := v.user; }
        if v.passwd != "" { passwd := v.passwd; }
        if v.pk != "" { pk := v.pk; }
        if v.pkData != "" { pkData := v.pkData; }
        if v.pkPasswd != "" { pkPasswd := v.pkPasswd; }
        if v.port > 0 { port := v.port; }
      }
    }
  }

  /** A group takes part if one of its addresses ends with the host text. */
  predicate Matches(h: Host, host: string) {
    exists j :: 0 <= j < |h.ips| && HasSuffix(h.ips[j], host)
  }

  /** The settings of a host: each matching group once, in order. */
  function ConfigFor(global: SSH, hosts: seq<Host>, host: string): SSH {
    if hosts == [] then global
    else
      var before := ConfigFor(global, hosts[..|hosts| - 1], host);
      var h := hosts[|hosts| - 1];
      if Matches(h, host) then Over(before, h.ssh) else before
  }

  lemma OverTwice(o: SSH, v: Option<SSH>)
    ensures Over(Over(o, v), v) == Over(o, v)
  {
  }

  /** The loop overrides once per matching address; repeating an override is
      idle, so once per matching group is the same. */
  method ComputeConfig(global: SSH, hosts: seq<Host>, host: string) returns (config: SSH)
    ensures config == ConfigFor(global, hosts, host)
  {
    var settings := new Settings(global);
    for i := 0 to |hosts|
      invariant fresh(settings)
      invariant settings.Value() == ConfigFor(global, hosts[..i], host)
    {
      ghost var before := settings.Value();
      for j := 0 to |hosts[i].ips|
        invariant settings.Value()
          == if exists k :: 0 <= k < j && HasSuffix(hosts[i].ips[k], host) then Over(before, hosts[i].ssh) else before
      {
        if HasSuffix(hosts[i].ips[j], host) {
          OverTwice(before, hosts[i].ssh);
          settings.OverSSHConfig(hosts[i].ssh);
        }
      }
      assert hosts[..i + 1][..i] == hosts[..i];
    }
    assert hosts[..|hosts|] == hosts;
    config := settings.Value();
  }

  // ------------------------------------------------------------- what it means

  /** The last non-empty value wins, the fallback if there is none. */
  function LastSet(values: seq<string>, fallback: string): string {
    if values == [] then fallback
    else Or(values[|values| - 1], LastSet(values[..|values| - 1], fallback))
  }

  /** The overrides in force for a host, in group order. */
  function Overrides(hosts: seq<Host>, host: string): seq<SSH> {
    if hosts == [] then []
    else
      var h := hosts[|hosts| - 1];
      Overrides(hosts[..|hosts| - 1], host)
      + if Matches(h, host) && h.ssh.Some? then [h.ssh.value] else []
  }

  function Field(f: SSH -> string, overrides: seq<SSH>): (r: seq<string>)
    ensures |r| == |overrides| && forall i :: 0 <= i < |r| ==> r[i] == f(overrides[i])
  {
    seq(|overrides|, i requires 0 <= i < |overrides| => f(overrides[i]))
  }

  lemma LastSetSnoc(f: SSH -> string, overrides: seq<SSH>, v: SSH, fallback: string)
    ensures LastSet(Field(f, overrides + [v]), fallback) == Or(f(v), LastSet(Field(f, overrides), fallback))
  {
    assert Field(f, overrides + [v])[..|overrides|] == Field(f, overrides);
  }

  function UserOf(s: SSH): string { s.user }
  function PasswdOf(s: SSH): string { s.passwd }
  function PkOf(s: SSH): string { s.pk }
  function PkDataOf(s: SSH): string { s.pkData }
  function PkPasswdOf(s: SSH): string { s.pkPasswd }

  function LastPort(overrides: seq<SSH>, fallback: nat): nat {
    if overrides == [] then fallback
    else
      var v := overrides[|overrides| - 1];
      if v.port > 0 then v.port else LastPort(overrides[..|overrides| - 1], fallback)
  }

  /** The last override that sets a field decides it, the global setting if none
      does; the key name is never overridden. */
  ghost predicate ByField(global: SSH, overrides: seq<SSH>, c: SSH) {
    && c.user == LastSet(Field(UserOf, overrides), global.user)
    && c.passwd == LastSet(Field(PasswdOf, overrides), global.passwd)
    && c.pk == LastSet(Field(PkOf, overrides), global.pk)
    && c.pkData == LastSet(Field(PkDataOf, overrides), global.pkData)
    && c.pkPasswd == LastSet(Field(PkPasswdOf, overrides), global.pkPasswd)
    && c.port == LastPort(overrides, global.port) && c.pkName == global.pkName
  }

  lemma ByFieldNext(global: SSH, overrides: seq<SSH>, c: SSH, v: SSH)
    requires ByField(global, overrides, c)
    ensures ByField(global, overrides + [v], Over(c, Some(v)))
  {
    LastSetSnoc(UserOf, overrides, v, global.user);
    LastSetSnoc(PasswdOf, overrides, v, global.passwd);
    LastSetSnoc(PkOf, overrides, v, global.pk);
    LastSetSnoc(PkDataOf, overrides, v, global.pkData);
    LastSetSnoc(PkPasswdOf, overrides, v, global.pkPasswd);
    assert (overrides + [v])[..|overrides|] == overrides;
  }

  /** Field by field, the settings of a host come from its matching groups. */
  lemma {:induction false} ConfigByField(global: SSH, hosts: seq<Host>, host: string)
    ensures ByField(global, Overrides(hosts, host), ConfigFor(global, hosts, host))
  {
    if hosts != [] {
      var init, h := hosts[..|hosts| - 1], hosts[|hosts| - 1];
      ConfigByField(global, init, host);
      if Matches(h, host) && h.ssh.Some? {
        ByFieldNext(global, Overrides(init, host), ConfigFor(global, init, host), h.ssh.value);
      } else {
        assert Overrides(init, host) + [] == Overrides(init, host);
      }
    }
  }

  /** Matching is by suffix: an address that merely ends with the host's text
      lends that host its group's settings. */
  lemma SuffixMatches(prefix: string, host: string, h: Host)
    requires prefix + host in h.ips
    ensures Matches(h, host)
  {
    var j :| 0 <= j < |h.ips| && h.ips[j] == prefix + host;
    assert (prefix + host)[|prefix|..] == host;
  }

  // ------------------------------------------------------------------- options

  /** `Option`, without the callback and timeout, which are constants here. */
  datatype ConnOption = ConnOption(stdout: bool, sudo: bool, user: string, password: string,
                                   privateKey: string, rawKey: string, passphrase: string)

  const DEFAULT_USER := "root"

  /** `newOptionFromSSH`; `homeKey` is the key file found in the home directory. */
  function NewOption(s: SSH, stdout: bool, homeKey: string): ConnOption {
    var o := ConnOption(stdout, false, DEFAULT_USER, "", homeKey, "", "");
    var o := if s.user != "" then o.(user := s.user) else o;
    var o := if s.passwd != "" then o.(password := s.passwd) else o;
    var o := if s.pk != "" then o.(privateKey := s.pk, passphrase := s.pkPasswd) else o;
    var o := if s.pkData != "" then o.(rawKey := s.pkData, passphrase := s.pkPasswd) else o;
    if s.user != "" && s.user != DEFAULT_USER then o.(sudo := true) else o
  }

  /** The options made from settings: the user given, else root; sudo for anyone
      but root; the password; the key file given, else the one found; the key text;
      the passphrase only together with a key that was given. */
  lemma OptionFields(s: SSH, stdout: bool, homeKey: string)
    ensures var o := NewOption(s, stdout, homeKey);
      && o.stdout == stdout && o.user == (if s.user == "" then "root" else s.user)
      && (o.sudo <==> s.user != "" && s.user != "root") && o.password == s.passwd
      && o.privateKey == (if s.pk == "" then homeKey else s.pk) && o.rawKey == s.pkData
      && o.passphrase == (if s.pk == "" && s.pkData == "" then "" else s.pkPasswd)
  {
  }

  // ---------------------------------------------------------- concurrent callers

  /** The cluster, fixed while clients are made. */
  datatype Setup = Setup(global: SSH, hosts: seq<Host>, stdout: bool, homeKey: string)

  function OptionFor(c: Setup, host: string): ConnOption {
    NewOption(ConfigFor(c.global, c.hosts, host), c.stdout, c.homeKey)
  }

  /** An option object is known by its index; a client remembers the object it
      was built from. */
  datatype Client = Client(made: nat)

  /** Where a caller of `getClientForHost` stands. */
  datatype Call =
    | Begin
    | Miss
    | Computed(option: nat)
    | HaveOption(option: nat)
    | NoClient(option: nat)
    | Built(option: nat, client: Client)
    | Returned(option: nat, client: Client)
    | Failed

  /** Shared state: option objects allocated so far, and the two maps. */
  datatype Shared = Shared(objects: seq<ConnOption>, configs: map<string, nat>, cache: map<nat, Client>)

  datatype Machine = Machine(shared: Shared, calls: seq<Call>)

  /** One step of a caller for `host`, each step under one lock acquisition or
      none; `ok` decides whether building a client succeeds. */
  function CallStep(c: Setup, host: string, s: Shared, call: Call, ok: bool): (Shared, Call) {
    match call
    case Begin => (s, if host in s.configs then HaveOption(s.configs[host]) else Miss)
    case Miss => (s.(objects := s.objects + [OptionFor(c, host)]), Computed(|s.objects|))
    case Computed(o) => (s.(configs := s.configs[host := o]), HaveOption(o))
    case HaveOption(o) => (s, if o in s.cache then Returned(o, s.cache[o]) else NoClient(o))
    case NoClient(o) => (s, if ok then Built(o, Client(o)) else Failed)
    case Built(o, client) => (s.(cache := s.cache[o := client]), Returned(o, client))
    case Returned(_, _) => (s, call)
    case Failed => (s, call)
  }

  function Step(c: Setup, hosts: seq<string>, m: Machine, who: nat, ok: bool): (r: Machine)
    ensures |r.calls| == |m.calls|
  {
    if who >= |m.calls| || who >= |hosts| then m
    else
      var (s, call) := CallStep(c, hosts[who], m.shared, m.calls[who], ok);
      Machine(s, m.calls[who := call])
  }

  /** Concurrent calls, one per entry of `hosts`, under a schedule. */
  function Run(c: Setup, hosts: seq<string>, schedule: seq<(nat, bool)>): (r: Machine)
    ensures |r.calls| == |hosts|
  {
    if schedule == [] then Machine(Shared([], map[], map[]), seq(|hosts|, _ => Begin))
    else
      var (who, ok) := schedule[|schedule| - 1];
      Step(c, hosts, Run(c, hosts, schedule[..|schedule| - 1]), who, ok)
  }

  /** The object holds the direct computation for the host. */
  ghost predicate Right(c: Setup, s: Shared, host: string, o: nat) {
    o < |s.objects| && s.objects[o] == OptionFor(c, host)
  }

  ghost predicate SharedInv(c: Setup, s: Shared) {
    && (forall h :: h in s.configs ==> Right(c, s, h, s.configs[h]))
    && (forall o :: o in s.cache ==> o < |s.objects| && s.cache[o].made == o)
  }

  ghost predicate CallInv(c: Setup, s: Shared, host: string, call: Call) {
    match call
    case Computed(o) => Right(c, s, host, o)
    case HaveOption(o) => Right(c, s, host, o)
    case NoClient(o) => Right(c, s, host, o)
    case Built(o, client) => Right(c, s, host, o) && client.made == o
    case Returned(o, client) => Right(c, s, host, o) && client.made == o
    case _ => true
  }

  ghost predicate Inv(c: Setup, hosts: seq<string>, m: Machine) {
    && |m.calls| == |hosts| && SharedInv(c, m.shared)
    && forall i :: 0 <= i < |hosts| ==> CallInv(c, m.shared, hosts[i], m.calls[i])
  }

  lemma CallStepInv(c: Setup, host: string, s: Shared, call: Call, ok: bool)
    requires SharedInv(c, s) && CallInv(c, s, host, call)
    ensures var (s2, call2) := CallStep(c, host, s, call, ok);
      SharedInv(c, s2) && CallInv(c, s2, host, call2) && s.objects <= s2.objects
  {
  }

  lemma OthersKept(c: Setup, s: Shared, s2: Shared, host: string, call: Call)
    requires s.objects <= s2.objects && CallInv(c, s, host, call)
    ensures CallInv(c, s2, host, call)
  {
  }

  lemma {:induction false} RunInv(c: Setup, hosts: seq<string>, schedule: seq<(nat, bool)>)
    ensures Inv(c, hosts, Run(c, hosts, schedule))
    decreases |schedule|
  {
    if schedule != [] {
      var before := schedule[..|schedule| - 1];
      var (who, ok) := schedule[|schedule| - 1];
      RunInv(c, hosts, before);
      var m := Run(c, hosts, before);
      if who < |hosts| {
        CallStepInv(c, hosts[who], m.shared, m.calls[who], ok);
        var (s, call) := CallStep(c, hosts[who], m.shared, m.calls[who], ok);
        forall i | 0 <= i < |hosts| && i != who
          ensures CallInv(c, s, hosts[i], m.calls[i])
        {
          OthersKept(c, m.shared, s, hosts[i], m.calls[i]);
        }
      }
    }
  }

  /** Every call, in every interleaving, ends with the options the direct
      computation gives for its host, and with a client built from them. */
  lemma ClientRight(c: Setup, hosts: seq<string>, schedule: seq<(nat, bool)>, i: nat)
    requires i < |hosts| && Run(c, hosts, schedule).calls[i].Returned?
    ensures var m := Run(c, hosts, schedule);
      var r := m.calls[i];
      r.option < |m.shared.objects| && m.shared.objects[r.option] == OptionFor(c, hosts[i])
      && r.client.made == r.option
  {
    RunInv(c, hosts, schedule);
  }

  /** Each cached client was built from the very object it is filed under, also
      when two misses for one host have each installed an object. */
  lemma CacheKeyed(c: Setup, hosts: seq<string>, schedule: seq<(nat, bool)>)
    ensures var s := Run(c, hosts, schedule).shared;
      forall o :: o in s.cache ==> o < |s.objects| && s.cache[o].made == o
  {
    RunInv(c, hosts, schedule);
  }

  lemma RunSnoc(c: Setup, hosts: seq<string>, schedule: seq<(nat, bool)>, who: nat, ok: bool)
    ensures Run(c, hosts, schedule + [(who, ok)]) == Step(c, hosts, Run(c, hosts, schedule), who, ok)
  {
    assert (schedule + [(who, ok)])[..|schedule|] == schedule;
  }

  /** Two callers for one host can both miss: two objects are made, the later
      one stays in the map, and both callers hold options equal to the direct
      computation. */
  lemma RaceMakesTwo(c: Setup, host: string)
    ensures exists schedule :: var m := Run(c, [host, host], schedule);
      && m.shared.objects == [OptionFor(c, host), OptionFor(c, host)]
      && m.calls == [HaveOption(0), HaveOption(1)] && m.shared.configs == map[host := 1]
  {
    var hosts, opt := [host, host], OptionFor(c, host);
    var s1 := [(0, true)];
    var s2 := s1 + [(1, true)];
    var s3 := s2 + [(0, true)];
    var s4 := s3 + [(1, true)];
    var s5 := s4 + [(0, true)];
    var s6 := s5 + [(1, true)];
    assert [] + [(0, true)] == s1;
    RunSnoc(c, hosts, [], 0, true);
    RunSnoc(c, hosts, s1, 1, true);
    assert Run(c, hosts, s2) == Machine(Shared([], map[], map[]), [Miss, Miss]);
    TwoMisses(c, hosts, s2, host);
    RunSnoc(c, hosts, s4, 0, true);
    assert Run(c, hosts, s5) == Machine(Shared([opt, opt], map[host := 0], map[]), [HaveOption(0), Computed(1)]);
    RunSnoc(c, hosts, s5, 1, true);
    assert map[host := 0][host := 1] == map[host := 1];
    assert Run(c, hosts, s6) == Machine(Shared([opt, opt], map[host := 1], map[]), [HaveOption(0), HaveOption(1)]);
  }

  lemma TwoMisses(c: Setup, hosts: seq<string>, s: seq<(nat, bool)>, host: string)
    requires hosts == [host, host] && Run(c, hosts, s) == Machine(Shared([], map[], map[]), [Miss, Miss])
    ensures var opt := OptionFor(c, host);
      Run(c, hosts, s + [(0, true)] + [(1, true)])
      == Machine(Shared([opt, opt], map[], map[]), [Computed(0), Computed(1)])
  {
    var opt := OptionFor(c, host);
    RunSnoc(c, hosts, s, 0, true);
    assert Run(c, hosts, s + [(0, true)]) == Machine(Shared([opt], map[], map[]), [Computed(0), Miss]);
    RunSnoc(c, hosts, s + [(0, true)], 1, true);
  }

  /** Option objects are never changed once made. */
  lemma ObjectsFixed(c: Setup, hosts: seq<string>, schedule: seq<(nat, bool)>, more: seq<(nat, bool)>)
    ensures Run(c, hosts, schedule).shared.objects <= Run(c, hosts, schedule + more).shared.objects
    decreases |more|
  {
    if more == [] {
      assert schedule + more == schedule;
    } else {
      assert (schedule + more)[..|schedule + more| - 1] == schedule + more[..|more| - 1];
      ObjectsFixed(c, hosts, schedule, more[..|more| - 1]);
      RunInv(c, hosts, schedule + more[..|more| - 1]);
    }
  }
}
