/** Per-host environments (`pkg/env/env.go`): how one is computed, and the cache
    filled by concurrent readers under a mutex. */
module EnvCache {
  import opened GoStrings
  import opened ClusterTypes
  import Sorting

  type Vars = map<string, string>

  // ------------------------------------------------------------- computing one

  const SYSTEM := "SEALOS_SYS"

  /** `maps.FromSlice`: `key=value` at the first equals sign, later lines win,
      other lines are ignored. */
  function FromSlice(lines: seq<string>): Vars {
    if lines == [] then map[]
    else
      var before := FromSlice(lines[..|lines| - 1]);
      match Cut(lines[|lines| - 1], '=')
      case None => before
      case Some((k, v)) => before[k := v]
  }

  /** `ExcludeKeysWithPrefix`. */
  function Visible(m: Vars): Vars {
    map k | k in m && !HasPrefix(k, SYSTEM) :: m[k]
  }

  /** The environment lines of the last group that lists the address. */
  function LinesOf(hosts: seq<Host>, ip: string): seq<string> {
    if hosts == [] then []
    else if ip in hosts[|hosts| - 1].ips then hosts[|hosts| - 1].env
    else LinesOf(hosts[..|hosts| - 1], ip)
  }

  /** `getHostEnv`. */
  function HostEnv(spec: seq<string>, hosts: seq<Host>, ip: string): Vars {
    Visible(FromSlice(spec)) + Visible(FromSlice(LinesOf(hosts, ip)))
  }

  /** The last line that gives the key a value. */
  function LastValue(lines: seq<string>, key: string): Option<string> {
    if lines == [] then None
    else match Cut(lines[|lines| - 1], '=')
      case Some((k, v)) => if k == key then Some(v) else LastValue(lines[..|lines| - 1], key)
      case None => LastValue(lines[..|lines| - 1], key)
  }

  lemma {:induction false} FromSliceExact(lines: seq<string>, key: string)
    ensures var m := FromSlice(lines);
      LastValue(lines, key) == if key in m then Some(m[key]) else None
  {
    if lines != [] {
      FromSliceExact(lines[..|lines| - 1], key);
    }
  }

  /** What a host sees: nothing of the system's, its own last line for a key,
      else the cluster's last line, else nothing. */
  lemma HostEnvExact(spec: seq<string>, hosts: seq<Host>, ip: string, key: string)
    ensures var m := HostEnv(spec, hosts, ip);
      var own, global := LastValue(LinesOf(hosts, ip), key), LastValue(spec, key);
      (if key in m then Some(m[key]) else None)
      == if HasPrefix(key, SYSTEM) then None else if own.Some? then own else global
  {
    FromSliceExact(spec, key);
    FromSliceExact(LinesOf(hosts, ip), key);
  }

  method ParseLines(lines: seq<string>) returns (m: Vars)
    ensures m == FromSlice(lines)
  {
    m := map[];
    for i := 0 to |lines|
      invariant m == FromSlice(lines[..i])
    {
      assert lines[..i + 1][..i] == lines[..i];
      if lines[i] != "" {
        match Cut(lines[i], '=') {
          case None =>
          case Some((k, v)) => m := m[k := v];
        }
      }
    }
    assert lines[..|lines|] == lines;
  }

  /** Walks the map in whatever order. */
  method ExcludeKeysWithPrefix(m: Vars, prefix: string) returns (kept: Vars, excluded: seq<string>)
    ensures kept == map k | k in m && !HasPrefix(k, prefix) :: m[k]
    ensures forall k :: k in excluded <==> k in m && HasPrefix(k, prefix)
  {
    kept, excluded := map[], [];
    var left := m.Keys;
    while left != {}
      invariant left <= m.Keys
      invariant kept == map k | k in m && k !in left && !HasPrefix(k, prefix) :: m[k]
      invariant forall k :: k in excluded <==> k in m && k !in left && HasPrefix(k, prefix)
    {
      var k :| k in left;
      if HasPrefix(k, prefix) {
        excluded := excluded + [k];
      } else {
        kept := kept[k := m[k]];
      }
      left := left - {k};
    }
  }

  method GetHostEnv(spec: seq<string>, hosts: seq<Host>, ip: string) returns (m: Vars)
    ensures m == HostEnv(spec, hosts, ip)
  {
    var lines: seq<string> := [];
    for i := 0 to |hosts|
      invariant lines == LinesOf(hosts[..i], ip)
    {
      ghost var before := lines;
      for j := 0 to |hosts[i].ips|
        invariant lines == if ip in hosts[i].ips[..j] then hosts[i].env else before
      {
        if hosts[i].ips[j] == ip {
          lines := hosts[i].env;
        }
      }
      assert hosts[i].ips[..|hosts[i].ips|] == hosts[i].ips;
      assert hosts[..i + 1][..i] == hosts[..i];
    }
    assert hosts[..|hosts|] == hosts;
    var own := ParseLines(lines);
    var global := ParseLines(spec);
    var ownKept, _ := ExcludeKeysWithPrefix(own, SYSTEM);
    var globalKept, _ := ExcludeKeysWithPrefix(global, SYSTEM);
    m := globalKept + ownKept;
  }

  // ---------------------------------------------------------- the cache, alone

  /** A Go map: a reference others may hold. */
  class VarMap {
    var vars: Vars

    constructor (vars: Vars)
      ensures this.vars == vars
    {
      this.vars := vars;
    }
  }

  class Processor {
    const spec: seq<string>
    const hosts: seq<Host>
    var cache: map<string, VarMap>

    ghost predicate Valid()
      reads this, cache.Values
    {
      forall ip :: ip in cache ==> cache[ip].vars == HostEnv(spec, hosts, ip)
    }

    constructor (spec: seq<string>, hosts: seq<Host>)
      ensures Valid() && this.spec == spec && this.hosts == hosts && cache == map[]
    {
      this.spec, this.hosts := spec, hosts;
      cache := map[];
    }

    /** One caller at a time: the entry is made once and then kept. */
    method GetHostEnvInCache(ip: string) returns (v: VarMap)
      requires Valid()
      modifies this`cache
      ensures Valid() && v.vars == HostEnv(spec, hosts, ip)
      ensures ip in old(cache) ==> cache == old(cache) && v == cache[ip]
      ensures ip !in old(cache) ==> fresh(v) && cache == old(cache)[ip := v]
    {
      if ip in cache {
        return cache[ip];
      }
      var m := GetHostEnv(spec, hosts, ip);
      v := new VarMap(m);
      cache := cache[ip := v];
    }

    /** The map handed out is new: writing to it touches nothing cached. */
    method Getenv(ip: string) returns (env: VarMap)
      requires Valid()
      modifies this`cache
      ensures Valid() && env.vars == HostEnv(spec, hosts, ip)
      ensures fresh(env) && forall h :: h in cache ==> cache[h] != env
    {
      var envs := GetHostEnvInCache(ip);
      env := CopyVars(envs);
    }
  }

  /** The copying loop of `Getenv`. */
  method CopyVars(envs: VarMap) returns (env: VarMap)
    ensures fresh(env) && env.vars == envs.vars
  {
    env := new VarMap(map[]);
    var left := envs.vars.Keys;
    while left != {}
      invariant left <= envs.vars.Keys && fresh(env)
      invariant env.vars == map k | k in envs.vars && k !in left :: envs.vars[k]
    {
      var k :| k in left;
      env.vars := env.vars[k := envs.vars[k]];
      left := left - {k};
    }
    assert env.vars == envs.vars;
  }

  // ------------------------------------------------------- concurrent readers

  /** A reader: before the first look, past a miss, holding the mutex for the
      second look, holding it to compute, or done with a map object. */
  datatype Reader = Begin | Missed | Looking | Computing | Done(entry: nat)

  /** Map objects made so far, the cache, the mutex's holder, and the hosts
      computed for, in order. */
  datatype Shared = Shared(objects: seq<Vars>, cache: map<string, nat>, holder: Option<nat>, computed: seq<string>)

  datatype Machine = Machine(shared: Shared, readers: seq<Reader>)

  datatype Setup = Setup(spec: seq<string>, hosts: seq<Host>)

  /** One atomic step of reader `who` for `ip`; waiting for the mutex is to stay. */
  function ReadStep(c: Setup, who: nat, ip: string, s: Shared, r: Reader): (Shared, Reader) {
    match r
    case Begin =>
      if s.holder.Some? then (s, r)
      else (s, if ip in s.cache then Done(s.cache[ip]) else Missed)
    case Missed => if s.holder.Some? then (s, r) else (s.(holder := Some(who)), Looking)
    case Looking =>
      if ip in s.cache then (s.(holder := None), Done(s.cache[ip])) else (s, Computing)
    case Computing =>
      (Shared(s.objects + [HostEnv(c.spec, c.hosts, ip)], s.cache[ip := |s.objects|], None, s.computed + [ip]),
       Done(|s.objects|))
    case Done(_) => (s, r)
  }

  function Step(c: Setup, ips: seq<string>, m: Machine, who: nat): (r: Machine)
    ensures |r.readers| == |m.readers|
  {
    if who >= |m.readers| || who >= |ips| then m
    else
      var (s, r) := ReadStep(c, who, ips[who], m.shared, m.readers[who]);
      Machine(s, m.readers[who := r])
  }

  function Run(c: Setup, ips: seq<string>, schedule: seq<nat>): (r: Machine)
    ensures |r.readers| == |ips|
  {
    if schedule == [] then Machine(Shared([], map[], None, []), seq(|ips|, _ => Begin))
    else Step(c, ips, Run(c, ips, schedule[..|schedule| - 1]), schedule[|schedule| - 1])
  }

  predicate Holds(r: Reader) {
    r.Looking? || r.Computing?
  }

  ghost predicate SharedInv(c: Setup, s: Shared) {
    && (forall ip :: ip in s.cache ==>
          s.cache[ip] < |s.objects| && s.objects[s.cache[ip]] == HostEnv(c.spec, c.hosts, ip))
    && Sorting.NoRepeats(s.computed)
    && (forall ip :: ip in s.computed <==> ip in s.cache)
  }

  ghost predicate ReaderInv(c: Setup, who: nat, ip: string, s: Shared, r: Reader) {
    && (Holds(r) <==> s.holder == Some(who))
    && (r.Computing? ==> ip !in s.cache)
    && (r.Done? ==> r.entry < |s.objects| && s.objects[r.entry] == HostEnv(c.spec, c.hosts, ip))
  }

  ghost predicate Inv(c: Setup, ips: seq<string>, m: Machine) {
    && |m.readers| == |ips| && SharedInv(c, m.shared)
    && (m.shared.holder.Some? ==> m.shared.holder.value < |ips|)
    && forall i :: 0 <= i < |ips| ==> ReaderInv(c, i, ips[i], m.shared, m.readers[i])
  }

  lemma ReadStepInv(c: Setup, who: nat, ip: string, s: Shared, r: Reader)
    requires SharedInv(c, s) && ReaderInv(c, who, ip, s, r)
    ensures var (s2, r2) := ReadStep(c, who, ip, s, r);
      && SharedInv(c, s2) && ReaderInv(c, who, ip, s2, r2)
      && s.objects <= s2.objects && (s.holder.Some? && s.holder != Some(who) ==> s2 == s)
      && (s2.holder == s.holder || s2.holder == None || s2.holder == Some(who))
      && forall k :: k in s.cache ==> k in s2.cache && s2.cache[k] == s.cache[k]
  {
  }

  /** A step of another reader leaves what is known of this one. */
  lemma OtherKept(c: Setup, who: nat, i: nat, ip: string, s: Shared, s2: Shared, r: Reader)
    requires who != i && ReaderInv(c, i, ip, s, r) && s.objects <= s2.objects
    requires s.holder.Some? && s.holder != Some(who) ==> s2 == s
    requires s2.holder == s.holder || s2.holder == None || s2.holder == Some(who)
    ensures ReaderInv(c, i, ip, s2, r)
  {
  }

  lemma {:induction false} RunInv(c: Setup, ips: seq<string>, schedule: seq<nat>)
    ensures Inv(c, ips, Run(c, ips, schedule))
    decreases |schedule|
  {
    if schedule != [] {
      var before, who := schedule[..|schedule| - 1], schedule[|schedule| - 1];
      RunInv(c, ips, before);
      StepInv(c, ips, Run(c, ips, before), who);
    }
  }

  lemma StepInv(c: Setup, ips: seq<string>, m: Machine, who: nat)
    requires Inv(c, ips, m)
    ensures Inv(c, ips, Step(c, ips, m, who))
  {
    if who < |ips| {
      ReadStepInv(c, who, ips[who], m.shared, m.readers[who]);
      var (s, r) := ReadStep(c, who, ips[who], m.shared, m.readers[who]);
      forall i | 0 <= i < |ips|
        ensures ReaderInv(c, i, ips[i], s, m.readers[who := r][i])
      {
        if i != who {
          OtherKept(c, who, i, ips[i], m.shared, s, m.readers[i]);
        }
      }
    }
  }

  /** In every interleaving a host's environment is computed at most once. */
  lemma ComputedOnce(c: Setup, ips: seq<string>, schedule: seq<nat>)
    ensures Sorting.NoRepeats(Run(c, ips, schedule).shared.computed)
  {
    RunInv(c, ips, schedule);
  }

  /** In every interleaving each reader gets the direct computation. */
  lemma ReadersRight(c: Setup, ips: seq<string>, schedule: seq<nat>, i: nat)
    requires i < |ips| && Run(c, ips, schedule).readers[i].Done?
    ensures var m := Run(c, ips, schedule);
      m.readers[i].entry < |m.shared.objects|
      && m.shared.objects[m.readers[i].entry] == HostEnv(c.spec, c.hosts, ips[i])
  {
    RunInv(c, ips, schedule);
  }

  /** A cache entry, once there, stays the same object with the same contents. */
  lemma {:induction false} EntriesFixed(c: Setup, ips: seq<string>, schedule: seq<nat>, more: seq<nat>, ip: string)
    requires ip in Run(c, ips, schedule).shared.cache
    ensures var s, s2 := Run(c, ips, schedule).shared, Run(c, ips, schedule + more).shared;
      ip in s2.cache && s2.cache[ip] == s.cache[ip] && s.objects <= s2.objects
    decreases |more|
  {
    if more == [] {
      assert schedule + more == schedule;
    } else {
      var init, who := more[..|more| - 1], more[|more| - 1];
      assert (schedule + more)[..|schedule + more| - 1] == schedule + init;
      EntriesFixed(c, ips, schedule, init, ip);
      RunInv(c, ips, schedule + init);
      var m := Run(c, ips, schedule + init);
      if who < |ips| {
        ReadStepInv(c, who, ips[who], m.shared, m.readers[who]);
      }
    }
  }

  /** No reader waits for ever on a held mutex: while someone is not done, some
      reader can move. */
  lemma SomeoneMoves(c: Setup, ips: seq<string>, schedule: seq<nat>, i: nat)
    requires i < |ips| && !Run(c, ips, schedule).readers[i].Done?
    ensures exists who :: Step(c, ips, Run(c, ips, schedule), who) != Run(c, ips, schedule)
  {
    RunInv(c, ips, schedule);
    var m := Run(c, ips, schedule);
    var who := if m.shared.holder.Some? then m.shared.holder.value else i;
    var (s, r) := ReadStep(c, who, ips[who], m.shared, m.readers[who]);
    assert r != m.readers[who];
    assert Step(c, ips, m, who).readers[who] == r;
  }

  /** The group whose lines a host gets is the last that lists its address. */
  lemma {:induction false} LinesExact(hosts: seq<Host>, ip: string, i: nat)
    requires i < |hosts| && ip in hosts[i].ips && forall j :: i < j < |hosts| ==> ip !in hosts[j].ips
    ensures LinesOf(hosts, ip) == hosts[i].env
    decreases |hosts|
  {
    if i < |hosts| - 1 {
      LinesExact(hosts[..|hosts| - 1], ip, i);
    }
  }

  /** A host that no group lists gets none. */
  lemma {:induction false} NoLines(hosts: seq<Host>, ip: string)
    requires forall i :: 0 <= i < |hosts| ==> ip !in hosts[i].ips
    ensures LinesOf(hosts, ip) == []
    decreases |hosts|
  {
    if hosts != [] {
      NoLines(hosts[..|hosts| - 1], ip);
    }
  }
}
