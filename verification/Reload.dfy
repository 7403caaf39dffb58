/** The configuration watcher of the image shim (`watchAuthConfig`), driven by
    ticks: what is reloaded, when, and how often. */
module Reload {
  import opened GoStrings
  import opened DirectoryDigest

  /** The part of a parsed configuration the watcher itself looks at. */
  datatype Config = Config(reloadInterval: int)

  /** SHA-256 in hexadecimal, and the parser. */
  datatype Codec = Codec(hash: Hash, parse: string -> Option<Config>)

  /** What a tick meets: the file's content if it can be read, and whether
      preprocessing the parsed configuration succeeds then. */
  datatype Tick = Tick(data: Option<string>, preprocessed: bool)

  const DEFAULT_INTERVAL: int := 15_000_000_000

  /** `shim` is the content the shim was last set up or updated from; `updates`
      counts the updates sent to it. */
  datatype State = State(lastHash: string, interval: int, shim: string, updates: nat)

  function Positive(interval: int): int {
    if interval <= 0 then DEFAULT_INTERVAL else interval
  }

  /** Before the loop: the shim runs what was loaded at start-up; the file, read
      again, gives the hash to compare with. */
  function Begin(c: Codec, loaded: string, interval: int, data: Option<string>): State {
    State(if data.Some? && c.parse(data.value).Some? then c.hash(data.value) else "",
          Positive(interval), loaded, 0)
  }

  /** One tick of the loop. */
  function OnTick(c: Codec, s: State, t: Tick): State {
    match t.data
    case None => s
    case Some(data) =>
      match c.parse(data)
      case None => s
      case Some(cfg) =>
        if c.hash(data) == s.lastHash then s
        else if !t.preprocessed then s
        else State(c.hash(data), Positive(cfg.reloadInterval), data, s.updates + 1)
  }

  function Run(c: Codec, s: State, ticks: seq<Tick>): State {
    if ticks == [] then s else OnTick(c, Run(c, s, ticks[..|ticks| - 1]), ticks[|ticks| - 1])
  }

  /** The watcher with its variables. */
  class Watcher {
    const codec: Codec
    var lastHash: string
    var currentInterval: int
    var shim: string
    var updates: nat

    function Value(): State
      reads this
    {
      State(lastHash, currentInterval, shim, updates)
    }

    constructor (codec: Codec, loaded: string, interval: int, data: Option<string>)
      ensures this.codec == codec && Value() == Begin(codec, loaded, interval, data)
    {
      this.codec, shim, updates := codec, loaded, 0;
      currentInterval := if interval <= 0 then DEFAULT_INTERVAL else interval;
      lastHash := if data.Some? && codec.parse(data.value).Some? then codec.hash(data.value) else "";
    }

    /** The select loop until the context ends, tick by tick. */
    method Watch(ticks: seq<Tick>)
      modifies this
      ensures Value() == Run(codec, old(Value()), ticks)
    {
      for i := 0 to |ticks|
        invariant Value() == Run(codec, old(Value()), ticks[..i])
      {
        assert ticks[..i + 1][..i] == ticks[..i];
        var data := ticks[i].data;
        if data.None? {
          continue;
        }
        var cfg := codec.parse(data.value);
        if cfg.None? {
          continue;
        }
        var hash := codec.hash(data.value);
        if hash == lastHash {
          continue;
        }
        if !ticks[i].preprocessed {
          continue;
        }
        shim, updates := data.value, updates + 1;
        lastHash := hash;
        var newInterval := cfg.value.reloadInterval;
        if newInterval <= 0 {
          newInterval := DEFAULT_INTERVAL;
        }
        if newInterval != currentInterval {
          currentInterval := newInterval;
        }
      }
      assert ticks[..|ticks|] == ticks;
    }
  }

  // ------------------------------------------------------------------ theorems

  /** The last accepted content: of the last update, else of the watcher's own
      first read if that parsed. */
  function Accepted(c: Codec, data: Option<string>, ticks: seq<Tick>): Option<string> {
    if ticks == [] then
      if data.Some? && c.parse(data.value).Some? then data else None
    else
      var before := Accepted(c, data, ticks[..|ticks| - 1]);
      var t := ticks[|ticks| - 1];
      if t.data.Some? && c.parse(t.data.value).Some? && t.preprocessed && t.data != before then t.data else before
  }

  lemma {:induction false} HashOfAccepted(c: Codec, loaded: string, interval: int, data: Option<string>,
                                          ticks: seq<Tick>)
    requires GoodHash(c.hash)
    ensures var s, a := Run(c, Begin(c, loaded, interval, data), ticks), Accepted(c, data, ticks);
      s.lastHash == if a.Some? then c.hash(a.value) else ""
    decreases |ticks|
  {
    if ticks != [] {
      HashOfAccepted(c, loaded, interval, data, ticks[..|ticks| - 1]);
    }
  }

  /** A tick updates the shim exactly when its content parses, preprocesses and
      differs from the last accepted content, and then polls at the interval the
      content asks for (every 15 seconds if it asks for none); any other tick
      changes nothing. */
  lemma UpdateExact(c: Codec, loaded: string, interval: int, data: Option<string>, ticks: seq<Tick>, t: Tick)
    requires GoodHash(c.hash)
    ensures var s := Run(c, Begin(c, loaded, interval, data), ticks);
      var s2 := Run(c, Begin(c, loaded, interval, data), ticks + [t]);
      var news := t.data.Some? && c.parse(t.data.value).Some? && t.preprocessed && t.data != Accepted(c, data, ticks);
      if news then
        && s2.updates == s.updates + 1 && s2.shim == t.data.value
        && var wanted := c.parse(t.data.value).value.reloadInterval;
        s2.interval == if wanted > 0 then wanted else 15_000_000_000
      else s2 == s
  {
    HashOfAccepted(c, loaded, interval, data, ticks);
    assert (ticks + [t])[..|ticks|] == ticks;
  }

  /** The polling interval is always positive. */
  lemma {:induction false} IntervalPositive(c: Codec, loaded: string, interval: int, data: Option<string>,
                                            ticks: seq<Tick>)
    ensures Run(c, Begin(c, loaded, interval, data), ticks).interval > 0
    decreases |ticks|
  {
    if ticks != [] {
      IntervalPositive(c, loaded, interval, data, ticks[..|ticks| - 1]);
    }
  }

  /** From here on the file holds `d`, and `d` is a good configuration. */
  ghost predicate Settled(c: Codec, d: string, ticks: seq<Tick>) {
    c.parse(d).Some? && forall i :: 0 <= i < |ticks| ==> ticks[i] == Tick(Some(d), true)
  }

  /** A good file that stops changing is accepted by the next tick, with at most
      one update however many ticks follow, none if it was accepted before. */
  lemma {:induction false} SettledOnce(c: Codec, s: State, d: string, ticks: seq<Tick>)
    requires Settled(c, d, ticks) && ticks != []
    ensures Run(c, s, ticks)
         == if s.lastHash == c.hash(d) then s
            else State(c.hash(d), Positive(c.parse(d).value.reloadInterval), d, s.updates + 1)
    decreases |ticks|
  {
    var init := ticks[..|ticks| - 1];
    assert ticks[|ticks| - 1] == Tick(Some(d), true);
    if init != [] {
      SettledOnce(c, s, d, init);
    }
  }

  lemma {:induction false} RunSplit(c: Codec, s: State, a: seq<Tick>, b: seq<Tick>)
    ensures Run(c, s, a + b) == Run(c, Run(c, s, a), b)
    decreases |b|
  {
    if b == [] {
      assert a + b == a;
    } else {
      assert (a + b)[..|a + b| - 1] == a + b[..|b| - 1];
      RunSplit(c, s, a, b[..|b| - 1]);
    }
  }

  /** What holds between the hash and the shim: they agree once an update was
      made, and until then nothing has changed. */
  lemma {:induction false} ShimFollows(c: Codec, loaded: string, interval: int, first: Option<string>,
                                       ticks: seq<Tick>)
    ensures var s0 := Begin(c, loaded, interval, first);
      var s := Run(c, s0, ticks);
      if s.updates > 0 then s.lastHash == c.hash(s.shim) else s == s0
    decreases |ticks|
  {
    if ticks != [] {
      ShimFollows(c, loaded, interval, first, ticks[..|ticks| - 1]);
    }
  }

  /** Whatever the watcher's first read was, a good file that stops changing as
      `d` is what the shim runs from the next tick on, exactly if it was loaded at
      start-up, or was not yet what the first read found, or an update was made
      before it settled. */
  lemma AdoptedExact(c: Codec, loaded: string, interval: int, first: Option<string>, ticks: seq<Tick>,
                     d: string, tail: seq<Tick>)
    requires GoodHash(c.hash) && Settled(c, d, tail) && tail != []
    ensures var s0 := Begin(c, loaded, interval, first);
      Run(c, s0, ticks + tail).shim == d <==> d == loaded || first != Some(d) || Run(c, s0, ticks).updates > 0
  {
    var s0 := Begin(c, loaded, interval, first);
    RunSplit(c, s0, ticks, tail);
    ShimFollows(c, loaded, interval, first, ticks);
    SettledOnce(c, Run(c, s0, ticks), d, tail);
  }

  /** If the file did not change between start-up and the watcher's first read, a
      good file that stops changing is adopted, with at most one more update. */
  lemma SettledAdopted(c: Codec, loaded: string, interval: int, ticks: seq<Tick>, d: string, tail: seq<Tick>)
    requires GoodHash(c.hash) && c.parse(loaded).Some? && Settled(c, d, tail) && tail != []
    ensures var s0 := Begin(c, loaded, interval, Some(loaded));
      Run(c, s0, ticks + tail).shim == d
      && Run(c, s0, ticks + tail).updates <= Run(c, s0, ticks).updates + 1
  {
    var s0 := Begin(c, loaded, interval, Some(loaded));
    RunSplit(c, s0, ticks, tail);
    SettledOnce(c, Run(c, s0, ticks), d, tail);
    AdoptedExact(c, loaded, interval, Some(loaded), ticks, d, tail);
  }

  /** If it did change in between, to a good configuration `d`, the shim keeps
      running the old one for as long as the file stays `d`. */
  lemma ChangeBeforeWatchMissed(c: Codec, loaded: string, interval: int, d: string, ticks: seq<Tick>)
    requires Settled(c, d, ticks)
    ensures Run(c, Begin(c, loaded, interval, Some(d)), ticks).shim == loaded
  {
    if ticks != [] {
      SettledOnce(c, Begin(c, loaded, interval, Some(d)), d, ticks);
    }
  }
}
