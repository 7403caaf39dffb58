/** The phased runner of `pkg/bootstrap/bootstrap.go`: `Apply` takes all hosts
    through one applier before the next, `Delete` lets every host undo its own
    sequence. Goroutines are modelled by schedules: lists of choices of which
    worker moves next, over which every statement is universal. */
module Bootstrap {
  import opened GoStrings

  // ------------------------------------------------------------- registration

  /** The appliers of each phase. */
  datatype Phases<A> = Phases(preflights: seq<A>, initializers: seq<A>, postflights: seq<A>) {
    /** The order `Apply` builds. */
    function ApplyOrder(): seq<A> {
      preflights + initializers + postflights
    }

    /** The order `Delete` builds: phases reversed, each phase as registered. */
    function DeleteOrder(): seq<A> {
      postflights + initializers + preflights
    }

    /** Which phase a position in the apply order belongs to. */
    function ApplyPhase(a: nat): nat {
      if a < |preflights| then 0 else if a < |preflights| + |initializers| then 1 else 2
    }

    function DeletePhase(a: nat): nat {
      if a < |postflights| then 0 else if a < |postflights| + |initializers| then 1 else 2
    }

    function Register(phase: string, appliers: seq<A>): Phases<A> {
      if phase == "preflight" then this.(preflights := preflights + appliers)
      else if phase == "init" then this.(initializers := initializers + appliers)
      else if phase == "postflight" then this.(postflights := postflights + appliers)
      else this
    }
  }

  datatype Registration<A> = Registration(phase: string, appliers: seq<A>)

  /** A series of registrations, starting from none. */
  function RegisterAll<A>(regs: seq<Registration<A>>): Phases<A> {
    if regs == [] then Phases([], [], [])
    else RegisterAll(regs[..|regs| - 1]).Register(regs[|regs| - 1].phase, regs[|regs| - 1].appliers)
  }

  function ForPhase<A>(phase: string): Registration<A> -> seq<A> {
    (r: Registration<A>) => if r.phase == phase then r.appliers else []
  }

  /** Each phase holds what was registered for it, in order, however the
      registrations for the phases alternate. */
  lemma {:induction false} RegisteredExact<A>(regs: seq<Registration<A>>)
    ensures RegisterAll(regs).preflights == FlatMap(ForPhase("preflight"), regs)
    ensures RegisterAll(regs).initializers == FlatMap(ForPhase("init"), regs)
    ensures RegisterAll(regs).postflights == FlatMap(ForPhase("postflight"), regs)
    decreases |regs|
  {
    if regs != [] {
      var before, last := regs[..|regs| - 1], regs[|regs| - 1];
      RegisteredExact(before);
      assert before + [last] == regs;
      FlatMapSnoc(ForPhase("preflight"), before, last);
      FlatMapSnoc(ForPhase("init"), before, last);
      FlatMapSnoc(ForPhase("postflight"), before, last);
    }
  }

  /** `realBootstrap`, over any kind of applier. */
  class Registry<A> {
    var preflights: seq<A>
    var initializers: seq<A>
    var postflights: seq<A>

    function Value(): Phases<A>
      reads this
    {
      Phases(preflights, initializers, postflights)
    }

    constructor ()
      ensures Value() == Phases([], [], [])
    {
      preflights, initializers, postflights := [], [], [];
    }

    method RegisterApplier(phase: string, appliers: seq<A>) returns (error: Option<string>)
      modifies this
      ensures error.None? <==> phase in ["preflight", "init", "postflight"]
      ensures Value() == old(Value()).Register(phase, appliers)
    {
      match phase {
        case "preflight" => preflights := preflights + appliers;
        case "init" => initializers := initializers + appliers;
        case "postflight" => postflights := postflights + appliers;
        case _ => return Some("unknown phase");
      }
      return None;
    }
  }

  // ------------------------------------------------------------------- history

  /** How an applier fares on a worker's host: not applicable, or the outcome of
      running it. A worker is a position in the host list; hosts may repeat. */
  datatype Verdict = Skip | Succeed | Fail

  type Oracle = (int, int) -> Verdict

  datatype Event = Skipped(applier: nat, worker: nat)
                 | Began(applier: nat, worker: nat)
                 | Ended(applier: nat, worker: nat, ok: bool)

  /** One worker going through one applier. */
  function Attempt(o: Oracle, a: nat, w: nat): seq<Event> {
    match o(a, w)
    case Skip => [Skipped(a, w)]
    case Succeed => [Began(a, w), Ended(a, w, true)]
    case Fail => [Began(a, w), Ended(a, w, false)]
  }

  /** Where a worker is with an applier: before it, running it, past it. */
  datatype Phase = Ready | Busy | Over

  /** What a worker has recorded when it has finished appliers `0` to `a - 1` and
      is in phase `p` of applier `a`. */
  function History(o: Oracle, w: nat, a: nat, p: Phase): seq<Event>
    decreases a, if p == Ready then 0 else 1
  {
    match p
    case Ready => if a == 0 then [] else History(o, w, a - 1, Over)
    case Busy => History(o, w, a, Ready) + [Began(a, w)]
    case Over => History(o, w, a, Ready) + Attempt(o, a, w)
  }

  /** One worker going through appliers `0` to `n - 1` in order. */
  function Attempts(o: Oracle, w: nat, n: nat): seq<Event> {
    History(o, w, n, Ready)
  }

  /** The next event of a worker in phase `p` of applier `a`. */
  function NextEvent(o: Oracle, a: nat, w: nat, p: Phase): Event {
    if p == Busy then Ended(a, w, o(a, w) == Succeed)
    else if o(a, w) == Skip then Skipped(a, w)
    else Began(a, w)
  }

  function NextPhase(o: Oracle, a: nat, w: nat, p: Phase): Phase {
    if p == Busy || o(a, w) == Skip then Over else Busy
  }

  lemma HistoryNext(o: Oracle, w: nat, a: nat, p: Phase)
    requires p != Over && (p == Busy ==> o(a, w) != Skip)
    ensures History(o, w, a, p) + [NextEvent(o, a, w, p)] == History(o, w, a, NextPhase(o, a, w, p))
  {
    if p == Busy {
      var done := History(o, w, a, Ready);
      assert done + [Began(a, w)] + [NextEvent(o, a, w, p)] == done + [Began(a, w), NextEvent(o, a, w, p)];
    }
  }

  /** The history of one worker. */
  function Of(log: seq<Event>, w: nat): seq<Event> {
    if log == [] then []
    else Of(log[..|log| - 1], w) + if log[|log| - 1].worker == w then [log[|log| - 1]] else []
  }

  lemma {:induction false} OfExact(log: seq<Event>, w: nat)
    ensures forall e :: e in Of(log, w) <==> e in log && e.worker == w
  {
    if log != [] {
      OfExact(log[..|log| - 1], w);
      assert log == log[..|log| - 1] + [log[|log| - 1]];
    }
  }

  lemma OfSnoc(log: seq<Event>, e: Event, w: nat)
    ensures Of(log + [e], w) == Of(log, w) + if e.worker == w then [e] else []
  {
    assert (log + [e])[..|log|] == log;
  }

  // --------------------------------------------------------------------- Apply

  datatype ApplyState = ApplyState(round: nat, phase: seq<Phase>, log: seq<Event>,
                                   first: Option<(nat, nat)>, done: bool)

  /** Which goroutine moves: a worker, or the caller waiting at the barrier. */
  datatype Choice = Worker(w: nat) | Caller

  function Fresh(h: nat): (r: seq<Phase>)
    ensures |r| == h && forall w :: 0 <= w < h ==> r[w] == Ready
  {
    seq(h, _ => Ready)
  }

  predicate AllOver(s: ApplyState) {
    forall w :: 0 <= w < |s.phase| ==> s.phase[w] == Over
  }

  /** A worker's next atomic step in the current round: the filter, the start,
      or the end of the applier. */
  function WorkerStep(o: Oracle, s: ApplyState, w: nat): ApplyState
    requires w < |s.phase|
  {
    var p := s.phase[w];
    if p == Over then s
    else
      s.(phase := s.phase[w := NextPhase(o, s.round, w, p)],
         log := s.log + [NextEvent(o, s.round, w, p)],
         first := if s.first.None? && p == Busy && o(s.round, w) == Fail then Some((s.round, w)) else s.first)
  }

  /** `eg.Wait()`: passes once every worker is over; stops at a failure. */
  function CallerStep(s: ApplyState): ApplyState {
    if !AllOver(s) then s
    else if s.first.Some? then s.(done := true)
    else s.(round := s.round + 1, phase := Fresh(|s.phase|))
  }

  /** A choice that is not possible leaves the state as it is. */
  function ApplyStep(o: Oracle, n: nat, s: ApplyState, c: Choice): ApplyState {
    if s.done then s
    else if s.round == n then s.(done := true)
    else match c
      case Worker(w) => if w < |s.phase| then WorkerStep(o, s, w) else s
      case Caller => CallerStep(s)
  }

  /** The state after a schedule: `n` appliers on `h` hosts. */
  function Apply(o: Oracle, n: nat, h: nat, schedule: seq<Choice>): (s: ApplyState)
    ensures |s.phase| == h
  {
    if schedule == [] then ApplyState(0, Fresh(h), [], None, false)
    else ApplyStep(o, n, Apply(o, n, h, schedule[..|schedule| - 1]), schedule[|schedule| - 1])
  }

  predicate RoundFails(o: Oracle, a: nat, h: nat) {
    exists w :: 0 <= w < h && o(a, w) == Fail
  }

  /** Each worker has made its attempts at the finished rounds, and part of the
      current one. */
  ghost predicate Histories(o: Oracle, h: nat, s: ApplyState)
    requires |s.phase| == h
  {
    forall w :: 0 <= w < h ==>
      Of(s.log, w) == History(o, w, s.round, s.phase[w])
  }

  ghost predicate InOrder(h: nat, s: ApplyState) {
    && (forall e :: e in s.log ==> e.worker < h && e.applier <= s.round)
    && (forall i, j :: 0 <= i < j < |s.log| ==> s.log[i].applier <= s.log[j].applier)
  }

  predicate FailedNow(o: Oracle, s: ApplyState, w: nat)
    requires w < |s.phase|
  {
    s.phase[w] == Over && o(s.round, w) == Fail
  }

  /** An error is held exactly if a worker has failed in the current round. */
  ghost predicate ErrorHeld(o: Oracle, h: nat, s: ApplyState)
    requires |s.phase| == h
  {
    && (forall w :: 0 <= w < h && FailedNow(o, s, w) ==> s.first.Some?)
    && (s.first.Some? ==> s.first.value.0 == s.round && s.first.value.1 < h
                          && FailedNow(o, s, s.first.value.1))
  }

  ghost predicate RoundsFine(o: Oracle, n: nat, h: nat, s: ApplyState)
    requires |s.phase| == h
  {
    && s.round <= n
    && (s.round == n ==> s.phase == Fresh(h))
    && (forall a :: 0 <= a < s.round ==> !RoundFails(o, a, h))
    && (forall w :: 0 <= w < h && s.phase[w] == Busy ==> o(s.round, w) != Skip)
    && (s.done ==> if s.first.Some? then AllOver(s) else s.round == n)
  }

  ghost predicate ApplyInv(o: Oracle, n: nat, h: nat, s: ApplyState) {
    |s.phase| == h && RoundsFine(o, n, h, s) && Histories(o, h, s) && InOrder(h, s) && ErrorHeld(o, h, s)
  }

  lemma WorkerHistories(o: Oracle, n: nat, h: nat, s: ApplyState, w: nat)
    requires |s.phase| == h && Histories(o, h, s) && RoundsFine(o, n, h, s) && w < h
    ensures Histories(o, h, WorkerStep(o, s, w))
  {
    var s2 := WorkerStep(o, s, w);
    if s.phase[w] != Over {
      var e := NextEvent(o, s.round, w, s.phase[w]);
      assert s2.log == s.log + [e] && s2.round == s.round;
      HistoryNext(o, w, s.round, s.phase[w]);
      forall v | 0 <= v < h
        ensures Of(s2.log, v) == History(o, v, s.round, s2.phase[v])
      {
        OfSnoc(s.log, e, v);
        assert Of(s.log, v) == History(o, v, s.round, s.phase[v]);
      }
    }
  }

  lemma WorkerError(o: Oracle, h: nat, s: ApplyState, w: nat)
    requires |s.phase| == h && ErrorHeld(o, h, s) && w < h
    requires s.phase[w] == Busy ==> o(s.round, w) != Skip
    ensures ErrorHeld(o, h, WorkerStep(o, s, w))
  {
    var s2 := WorkerStep(o, s, w);
    assert forall v :: 0 <= v < h && v != w ==> (FailedNow(o, s2, v) <==> FailedNow(o, s, v));
    assert FailedNow(o, s, w) ==> FailedNow(o, s2, w);
  }

  lemma WorkerRest(o: Oracle, n: nat, h: nat, s: ApplyState, w: nat)
    requires |s.phase| == h && RoundsFine(o, n, h, s) && InOrder(h, s) && !s.done && s.round < n && w < h
    ensures RoundsFine(o, n, h, WorkerStep(o, s, w)) && InOrder(h, WorkerStep(o, s, w))
  {
    assert forall i :: 0 <= i < |s.log| ==> s.log[i] in s.log;
  }

  lemma NextRound(o: Oracle, n: nat, h: nat, s: ApplyState)
    requires ApplyInv(o, n, h, s) && s.round < n && AllOver(s) && s.first.None?
    ensures !RoundFails(o, s.round, h)
    ensures Histories(o, h, s.(round := s.round + 1, phase := Fresh(h)))
  {
    forall w | 0 <= w < h
      ensures o(s.round, w) != Fail
      ensures Of(s.log, w) == History(o, w, s.round + 1, Ready)
    {
      assert !FailedNow(o, s, w);
      assert Of(s.log, w) == History(o, w, s.round, s.phase[w]);
    }
  }

  lemma NextRoundRest(o: Oracle, n: nat, h: nat, s: ApplyState)
    requires |s.phase| == h && RoundsFine(o, n, h, s) && InOrder(h, s) && !s.done && s.round < n && s.first.None?
    requires !RoundFails(o, s.round, h)
    ensures var s2 := s.(round := s.round + 1, phase := Fresh(h));
      RoundsFine(o, n, h, s2) && InOrder(h, s2) && ErrorHeld(o, h, s2)
  {
    var s2 := s.(round := s.round + 1, phase := Fresh(h));
    assert forall w :: 0 <= w < h ==> !FailedNow(o, s2, w);
  }

  lemma SameError(o: Oracle, h: nat, s: ApplyState)
    requires |s.phase| == h && ErrorHeld(o, h, s)
    ensures ErrorHeld(o, h, s.(done := true))
  {
    assert forall w :: 0 <= w < h ==> (FailedNow(o, s.(done := true), w) <==> FailedNow(o, s, w));
  }

  lemma CallerKeepsInv(o: Oracle, n: nat, h: nat, s: ApplyState)
    requires ApplyInv(o, n, h, s) && !s.done && s.round < n
    ensures ApplyInv(o, n, h, CallerStep(s))
  {
    if AllOver(s) {
      if s.first.None? {
        NextRound(o, n, h, s);
        NextRoundRest(o, n, h, s);
      } else {
        SameError(o, h, s);
      }
    }
  }

  lemma DoneKeepsInv(o: Oracle, n: nat, h: nat, s: ApplyState)
    requires ApplyInv(o, n, h, s) && s.round == n
    ensures ApplyInv(o, n, h, s.(done := true))
  {
    var s2 := s.(done := true);
    assert forall w :: 0 <= w < h ==> (FailedNow(o, s2, w) <==> FailedNow(o, s, w)) && !FailedNow(o, s, w);
  }

  /** Kept by every step of every worker and of the caller. */
  lemma {:induction false} ApplyKeepsInv(o: Oracle, n: nat, h: nat, schedule: seq<Choice>)
    ensures ApplyInv(o, n, h, Apply(o, n, h, schedule))
    decreases |schedule|
  {
    if schedule != [] {
      var before := schedule[..|schedule| - 1];
      ApplyKeepsInv(o, n, h, before);
      var s := Apply(o, n, h, before);
      match schedule[|schedule| - 1] {
        case Worker(w) =>
          if !s.done && s.round < n && w < h {
            WorkerHistories(o, n, h, s, w);
            WorkerError(o, h, s, w);
            WorkerRest(o, n, h, s, w);
          } else if !s.done && s.round == n {
            DoneKeepsInv(o, n, h, s);
          }
        case Caller =>
          if !s.done && s.round < n {
            CallerKeepsInv(o, n, h, s);
          } else if !s.done && s.round == n {
            DoneKeepsInv(o, n, h, s);
          }
      }
    }
  }

  /** In a log that is ordered by applier, an earlier applier's event stands
      before. */
  lemma EventBefore(log: seq<Event>, k: nat, e: Event)
    requires forall i, j :: 0 <= i < j < |log| ==> log[i].applier <= log[j].applier
    requires k < |log| && e in log && e.applier < log[k].applier
    ensures exists j :: 0 <= j < k && log[j] == e
  {
    var j :| 0 <= j < |log| && log[j] == e;
    assert j < k;
  }

  /** What a worker recorded of an applier it is past. */
  function PastEvent(o: Oracle, a: nat, w: nat): Event {
    if o(a, w) == Skip then Skipped(a, w) else Ended(a, w, true)
  }

  lemma PastRecorded(o: Oracle, n: nat, h: nat, s: ApplyState, a: nat, w: nat)
    requires ApplyInv(o, n, h, s) && a < s.round && w < h
    ensures PastEvent(o, a, w) in s.log
  {
    AttemptsHold(o, w, s.round, a);
    assert !RoundFails(o, a, h);
    assert PastEvent(o, a, w) in Attempts(o, w, s.round);
    OfExact(s.log, w);
    assert PastEvent(o, a, w) in Of(s.log, w);
  }

  /** The barrier. Whatever the schedule, an applier has begun on a host only
      after every earlier applier was over, without failure, on every host. */
  lemma ApplyBarrier(o: Oracle, n: nat, h: nat, schedule: seq<Choice>, k: nat, a: nat, w: nat)
    requires var s := Apply(o, n, h, schedule); k < |s.log| && a < s.log[k].applier
    requires w < h
    ensures var s := Apply(o, n, h, schedule);
      exists j :: 0 <= j < k && (s.log[j] == Skipped(a, w) || s.log[j] == Ended(a, w, true))
  {
    var s := Apply(o, n, h, schedule);
    ApplyKeepsInv(o, n, h, schedule);
    assert s.log[k] in s.log;
    PastRecorded(o, n, h, s, a, w);
    EventBefore(s.log, k, PastEvent(o, a, w));
  }

  lemma {:induction false} AttemptsHold(o: Oracle, w: nat, n: nat, a: nat)
    requires a < n
    ensures forall e :: e in Attempt(o, a, w) ==> e in Attempts(o, w, n)
  {
    assert Attempts(o, w, n) == History(o, w, n - 1, Over);
    if a < n - 1 {
      AttemptsHold(o, w, n - 1, a);
    }
  }

  /** The rounds `Apply` goes through: all, or up to the first that fails. */
  function Rounds(o: Oracle, n: nat, h: nat): (r: nat)
    ensures r <= n
    ensures forall a :: 0 <= a < r - 1 ==> !RoundFails(o, a, h)
    ensures r < n ==> r > 0 && RoundFails(o, r - 1, h)
  {
    if n == 0 then 0
    else
      var r := Rounds(o, n - 1, h);
      if r < n - 1 || (r > 0 && RoundFails(o, r - 1, h)) then r else n
  }

  /** The outcome does not depend on the schedule. Once `Apply` has returned,
      every host's history is its attempts at the same appliers, those up to and
      including the first that failed anywhere; an error is returned exactly if
      one failed, and it is a failure of that last applier. */
  lemma ApplyOutcome(o: Oracle, n: nat, h: nat, schedule: seq<Choice>)
    requires Apply(o, n, h, schedule).done
    ensures SameAttempts(o, h, Apply(o, n, h, schedule).log, Rounds(o, n, h))
    ensures ErrorOf(o, n, h, Apply(o, n, h, schedule).first)
  {
    var s := Apply(o, n, h, schedule);
    ApplyKeepsInv(o, n, h, schedule);
    if s.first.Some? {
      FailedOutcome(o, n, h, s);
    } else {
      CleanOutcome(o, n, h, s);
    }
  }

  ghost predicate SameAttempts(o: Oracle, h: nat, log: seq<Event>, n: nat) {
    forall w :: 0 <= w < h ==> Of(log, w) == Attempts(o, w, n)
  }

  /** An error names a failure of the last applier run; there is one exactly if
      some applier fails somewhere. */
  ghost predicate ErrorOf(o: Oracle, n: nat, h: nat, first: Option<(nat, nat)>) {
    && (first.Some? <==> exists a :: 0 <= a < n && RoundFails(o, a, h))
    && (first.Some? ==> first.value.0 == Rounds(o, n, h) - 1 && first.value.1 < h
                        && o(first.value.0, first.value.1) == Fail)
  }

  lemma FailedOutcome(o: Oracle, n: nat, h: nat, s: ApplyState)
    requires ApplyInv(o, n, h, s) && s.done && s.first.Some?
    ensures SameAttempts(o, h, s.log, Rounds(o, n, h)) && ErrorOf(o, n, h, s.first)
  {
    FailedRound(o, n, h, s);
    forall w | 0 <= w < h
      ensures Of(s.log, w) == Attempts(o, w, s.round + 1)
    {
      HistoryDone(o, w, s.round);
    }
  }

  lemma HistoryDone(o: Oracle, w: nat, a: nat)
    ensures Attempts(o, w, a + 1) == History(o, w, a, Over)
  {
  }

  lemma FailedRound(o: Oracle, n: nat, h: nat, s: ApplyState)
    requires |s.phase| == h && RoundsFine(o, n, h, s) && ErrorHeld(o, h, s) && s.first.Some?
    ensures Rounds(o, n, h) == s.round + 1 && ErrorOf(o, n, h, s.first)
  {
    assert o(s.round, s.first.value.1) == Fail;
    assert RoundFails(o, s.round, h);
    RoundsAt(o, n, h, s.round);
  }

  lemma CleanOutcome(o: Oracle, n: nat, h: nat, s: ApplyState)
    requires ApplyInv(o, n, h, s) && s.done && s.first.None?
    ensures SameAttempts(o, h, s.log, Rounds(o, n, h)) && ErrorOf(o, n, h, s.first)
  {
    assert Rounds(o, n, h) == n;
  }

  lemma {:induction false} RoundsAt(o: Oracle, n: nat, h: nat, a: nat)
    requires a < n && RoundFails(o, a, h) && forall b :: 0 <= b < a ==> !RoundFails(o, b, h)
    ensures Rounds(o, n, h) == a + 1
  {
    var r := Rounds(o, n, h);
    assert r < a + 1 ==> r < n;
  }

  /** Nobody waits for ever: while `Apply` has not returned, every worker that is
      not over can move, and when all are over the caller can. */
  lemma ApplyProgress(o: Oracle, n: nat, h: nat, schedule: seq<Choice>, c: Choice)
    requires !Apply(o, n, h, schedule).done
    requires match c
      case Worker(w) => w < h && Apply(o, n, h, schedule).phase[w] != Over
      case Caller => AllOver(Apply(o, n, h, schedule))
    ensures Apply(o, n, h, schedule + [c]) != Apply(o, n, h, schedule)
  {
    var s := Apply(o, n, h, schedule);
    ApplyKeepsInv(o, n, h, schedule);
    assert (schedule + [c])[..|schedule|] == schedule;
    if s.round < n && c.Worker? {
      assert |WorkerStep(o, s, c.w).log| > |s.log|;
    }
  }

  // -------------------------------------------------------------------- Delete

  /** Every worker has its own position in the list of appliers. At a position,
      `Over` means stopped there by a failure. */
  datatype DeleteState = DeleteState(pos: seq<nat>, phase: seq<Phase>, log: seq<Event>, first: Option<nat>)

  datatype Moved = Moved(pos: nat, phase: Phase, event: Option<Event>)

  /** What one atomic step does to the worker that takes it; a worker that is
      done or stopped stays. */
  function Move(o: Oracle, n: nat, w: nat, pos: nat, phase: Phase): (m: Moved)
    ensures m.event.Some? ==> m.event.value.worker == w
  {
    if pos >= n || phase == Over then Moved(pos, phase, None)
    else if phase == Ready then
      if o(pos, w) == Skip then Moved(pos + 1, Ready, Some(Skipped(pos, w)))
      else Moved(pos, Busy, Some(Began(pos, w)))
    else if o(pos, w) == Succeed then Moved(pos + 1, Ready, Some(Ended(pos, w, true)))
    else Moved(pos, Over, Some(Ended(pos, w, false)))
  }

  function Recorded(e: Option<Event>): seq<Event> {
    if e.Some? then [e.value] else []
  }

  function DeleteStep(o: Oracle, n: nat, s: DeleteState, w: nat): (r: DeleteState)
    requires |s.pos| == |s.phase|
    ensures |r.pos| == |r.phase| == |s.pos|
  {
    if w >= |s.pos| then s
    else
      var m := Move(o, n, w, s.pos[w], s.phase[w]);
      DeleteState(s.pos[w := m.pos], s.phase[w := m.phase], s.log + Recorded(m.event),
                  if s.first.None? && m.phase == Over && s.phase[w] != Over then Some(w) else s.first)
  }

  function Delete(o: Oracle, n: nat, h: nat, schedule: seq<nat>): (r: DeleteState)
    ensures |r.pos| == |r.phase| == h
  {
    if schedule == [] then DeleteState(seq(h, _ => 0), Fresh(h), [], None)
    else DeleteStep(o, n, Delete(o, n, h, schedule[..|schedule| - 1]), schedule[|schedule| - 1])
  }

  ghost predicate OneFacts(o: Oracle, n: nat, w: nat, pos: nat, phase: Phase) {
    && pos <= n
    && (phase != Ready ==> pos < n && o(pos, w) != Skip)
    && (phase == Over ==> o(pos, w) == Fail)
    && (forall a :: 0 <= a < pos ==> o(a, w) != Fail)
  }

  /** What is true of one worker, whatever the others do. */
  ghost predicate OneDelete(o: Oracle, n: nat, s: DeleteState, w: nat)
    requires |s.pos| == |s.phase| && w < |s.pos|
  {
    && OneFacts(o, n, w, s.pos[w], s.phase[w])
    && Of(s.log, w) == History(o, w, s.pos[w], s.phase[w])
  }

  /** A step adds the mover's event to the mover's history only. */
  lemma StepHistory(o: Oracle, n: nat, s: DeleteState, w: nat, v: nat)
    requires |s.pos| == |s.phase| && v < |s.pos|
    ensures var e := Move(o, n, v, s.pos[v], s.phase[v]).event;
      Of(DeleteStep(o, n, s, v).log, w) == Of(s.log, w) + if w == v then Recorded(e) else []
  {
    var e := Move(o, n, v, s.pos[v], s.phase[v]).event;
    if e.Some? {
      OfSnoc(s.log, e.value, w);
    } else {
      assert s.log + [] == s.log && Of(s.log, w) + [] == Of(s.log, w);
    }
  }

  lemma MoveHistory(o: Oracle, n: nat, w: nat, pos: nat, phase: Phase)
    requires OneFacts(o, n, w, pos, phase)
    ensures var m := Move(o, n, w, pos, phase);
      OneFacts(o, n, w, m.pos, m.phase)
      && History(o, w, m.pos, m.phase) == History(o, w, pos, phase) + Recorded(m.event)
  {
    var m := Move(o, n, w, pos, phase);
    if m.event.Some? {
      HistoryNext(o, w, pos, phase);
      assert m.event == Some(NextEvent(o, pos, w, phase));
      if m.pos != pos {
        assert History(o, w, pos + 1, Ready) == History(o, w, pos, Over);
      }
    } else {
      assert History(o, w, pos, phase) + [] == History(o, w, pos, phase);
    }
  }

  lemma DeleteOtherStep(o: Oracle, n: nat, s: DeleteState, w: nat, v: nat)
    requires |s.pos| == |s.phase| && w < |s.pos| && v != w
    ensures var s2 := DeleteStep(o, n, s, v);
      s2.pos[w] == s.pos[w] && s2.phase[w] == s.phase[w] && Of(s2.log, w) == Of(s.log, w)
  {
    if v < |s.pos| {
      StepHistory(o, n, s, w, v);
    }
  }

  lemma {:induction false} DeleteKeepsOne(o: Oracle, n: nat, h: nat, schedule: seq<nat>, w: nat)
    requires w < h
    ensures OneDelete(o, n, Delete(o, n, h, schedule), w)
    decreases |schedule|
  {
    if schedule != [] {
      var before, v := schedule[..|schedule| - 1], schedule[|schedule| - 1];
      var s := Delete(o, n, h, before);
      DeleteKeepsOne(o, n, h, before, w);
      if v == w {
        StepHistory(o, n, s, w, w);
        MoveHistory(o, n, w, s.pos[w], s.phase[w]);
      } else {
        DeleteOtherStep(o, n, s, w, v);
      }
    }
  }

  /** The moves of one worker in a schedule. */
  function Own(schedule: seq<nat>, w: nat): seq<nat> {
    if schedule == [] then []
    else Own(schedule[..|schedule| - 1], w) + if schedule[|schedule| - 1] == w then [w] else []
  }

  /** No host's undo affects another's: a worker stands exactly where its own
      moves alone would have brought it, failures elsewhere included. */
  lemma {:induction false} DeleteIndependent(o: Oracle, n: nat, h: nat, schedule: seq<nat>, w: nat)
    requires w < h
    ensures var s, alone := Delete(o, n, h, schedule), Delete(o, n, h, Own(schedule, w));
      s.pos[w] == alone.pos[w] && s.phase[w] == alone.phase[w] && Of(s.log, w) == Of(alone.log, w)
    decreases |schedule|
  {
    if schedule != [] {
      var before, v := schedule[..|schedule| - 1], schedule[|schedule| - 1];
      DeleteIndependent(o, n, h, before, w);
      var own := Own(before, w);
      if v == w {
        assert Own(schedule, w) == own + [w] && (own + [w])[..|own|] == own;
        SameOwnStep(o, n, Delete(o, n, h, before), Delete(o, n, h, own), w);
      } else {
        assert own + [] == own;
        DeleteOtherStep(o, n, Delete(o, n, h, before), w, v);
      }
    }
  }

  lemma SameOwnStep(o: Oracle, n: nat, s: DeleteState, t: DeleteState, w: nat)
    requires |s.pos| == |s.phase| && |t.pos| == |t.phase| && w < |s.pos| && w < |t.pos|
    requires s.pos[w] == t.pos[w] && s.phase[w] == t.phase[w] && Of(s.log, w) == Of(t.log, w)
    ensures var s2, t2 := DeleteStep(o, n, s, w), DeleteStep(o, n, t, w);
      s2.pos[w] == t2.pos[w] && s2.phase[w] == t2.phase[w] && Of(s2.log, w) == Of(t2.log, w)
  {
    StepHistory(o, n, s, w, w);
    StepHistory(o, n, t, w, w);
  }

  predicate HostFails(o: Oracle, n: nat, w: nat) {
    exists a :: 0 <= a < n && o(a, w) == Fail
  }

  /** How far a host gets: through its first failure, or through all. */
  function Reach(o: Oracle, w: nat, n: nat): (r: nat)
    ensures r <= n && (forall a :: 0 <= a < r - 1 ==> o(a, w) != Fail)
    ensures r < n ==> r > 0 && o(r - 1, w) == Fail
  {
    if n == 0 then 0
    else
      var r := Reach(o, w, n - 1);
      if r < n - 1 || (r > 0 && o(r - 1, w) == Fail) then r else n
  }

  lemma ReachAt(o: Oracle, w: nat, n: nat, p: nat)
    requires p < n && o(p, w) == Fail && forall a :: 0 <= a < p ==> o(a, w) != Fail
    ensures Reach(o, w, n) == p + 1
  {
    var r := Reach(o, w, n);
    assert r < p + 1 ==> r < n;
  }

  lemma ReachAll(o: Oracle, w: nat, n: nat)
    requires forall a :: 0 <= a < n ==> o(a, w) != Fail
    ensures Reach(o, w, n) == n
  {
  }

  predicate Halted(s: DeleteState, w: nat)
    requires w < |s.phase|
  {
    s.phase[w] == Over
  }

  ghost predicate ErrorKept(s: DeleteState) {
    && (s.first.Some? <==> exists w :: 0 <= w < |s.phase| && Halted(s, w))
    && (s.first.Some? ==> s.first.value < |s.phase| && Halted(s, s.first.value))
  }

  lemma ErrorStep(o: Oracle, n: nat, s: DeleteState, v: nat)
    requires |s.pos| == |s.phase| && ErrorKept(s)
    ensures ErrorKept(DeleteStep(o, n, s, v))
  {
    var s2 := DeleteStep(o, n, s, v);
    if v < |s.pos| {
      assert forall w :: 0 <= w < |s.pos| && w != v ==> (Halted(s2, w) <==> Halted(s, w));
      assert Halted(s, v) ==> Halted(s2, v);
      if s2.first.Some? {
        assert Halted(s2, s2.first.value);
      }
    }
  }

  lemma {:induction false} DeleteError(o: Oracle, n: nat, h: nat, schedule: seq<nat>)
    ensures ErrorKept(Delete(o, n, h, schedule))
    decreases |schedule|
  {
    if schedule != [] {
      var before, v := schedule[..|schedule| - 1], schedule[|schedule| - 1];
      DeleteError(o, n, h, before);
      ErrorStep(o, n, Delete(o, n, h, before), v);
    }
  }

  /** Every worker has gone through its list or stopped. */
  ghost predicate AllStill(n: nat, s: DeleteState)
    requires |s.pos| == |s.phase|
  {
    forall w :: 0 <= w < |s.pos| ==> s.phase[w] == Over || (s.phase[w] == Ready && s.pos[w] == n)
  }

  /** Once every worker is done, each host's history is its attempts from the
      first applier of the delete order through its own first failure, whatever
      the schedule; an error is returned exactly if some host failed. */
  lemma DeleteOutcome(o: Oracle, n: nat, h: nat, schedule: seq<nat>)
    requires AllStill(n, Delete(o, n, h, schedule))
    ensures var s := Delete(o, n, h, schedule);
      && (forall w :: 0 <= w < h ==> Of(s.log, w) == Attempts(o, w, Reach(o, w, n)))
      && (s.first.Some? <==> exists w :: 0 <= w < h && HostFails(o, n, w))
  {
    var s := Delete(o, n, h, schedule);
    DeleteError(o, n, h, schedule);
    forall w | 0 <= w < h
      ensures Of(s.log, w) == Attempts(o, w, Reach(o, w, n))
      ensures Halted(s, w) <==> HostFails(o, n, w)
    {
      DeleteKeepsOne(o, n, h, schedule, w);
      StillReach(o, n, s, w);
    }
  }

  lemma StillReach(o: Oracle, n: nat, s: DeleteState, w: nat)
    requires |s.pos| == |s.phase| && w < |s.pos| && OneDelete(o, n, s, w)
    requires s.phase[w] == Over || (s.phase[w] == Ready && s.pos[w] == n)
    ensures Of(s.log, w) == Attempts(o, w, Reach(o, w, n))
    ensures Halted(s, w) <==> HostFails(o, n, w)
  {
    var p := s.pos[w];
    if Halted(s, w) {
      ReachAt(o, w, n, p);
      assert HostFails(o, n, w);
      assert Attempts(o, w, p + 1) == History(o, w, p, Over);
    } else {
      ReachAll(o, w, n);
    }
  }

  /** In every host's undoing, an applier begins only after every earlier one of
      the order was undone without failure, or did not apply, on that host. */
  lemma {:induction false} DeleteOrdered(o: Oracle, n: nat, h: nat, schedule: seq<nat>, k: nat, a: nat)
    requires k < |Delete(o, n, h, schedule).log| && a < Delete(o, n, h, schedule).log[k].applier
    ensures var log := Delete(o, n, h, schedule).log;
      exists j :: 0 <= j < k && (log[j] == Skipped(a, log[k].worker) || log[j] == Ended(a, log[k].worker, true))
    decreases |schedule|
  {
    if schedule != [] {
      var before, v := schedule[..|schedule| - 1], schedule[|schedule| - 1];
      var s := Delete(o, n, h, before);
      var log := Delete(o, n, h, schedule).log;
      assert s.log <= log;
      if k < |s.log| {
        DeleteOrdered(o, n, h, before, k, a);
        var j :| 0 <= j < k && (s.log[j] == Skipped(a, s.log[k].worker) || s.log[j] == Ended(a, s.log[k].worker, true));
        assert log[j] == s.log[j];
      } else {
        DeleteKeepsOne(o, n, h, before, v);
        assert log[k].worker == v && log[k].applier == s.pos[v];
        var e := PastEvent(o, a, v);
        PastAttempt(o, v, s.pos[v], s.phase[v], a);
        assert e in Of(s.log, v);
        OfExact(s.log, v);
        var j :| 0 <= j < |s.log| && s.log[j] == e;
        assert log[j] == e;
      }
    }
  }

  lemma PastAttempt(o: Oracle, w: nat, pos: nat, phase: Phase, a: nat)
    requires a < pos
    ensures forall e :: e in Attempt(o, a, w) ==> e in History(o, w, pos, phase)
  {
    AttemptsHold(o, w, pos, a);
    assert forall e :: e in History(o, w, pos, Ready) ==> e in History(o, w, pos, phase);
  }

  // ------------------------------------------------------- the runner's phases

  // An oracle tells for every position of the order how the applier there fares
  // on a host, so an applier registered twice may fare differently.

  function ApplyRun<A>(bs: Phases<A>, o: Oracle, h: nat, schedule: seq<Choice>): ApplyState {
    Apply(o, |bs.ApplyOrder()|, h, schedule)
  }

  function DeleteRun<A>(bs: Phases<A>, o: Oracle, h: nat, schedule: seq<nat>): DeleteState {
    Delete(o, |bs.DeleteOrder()|, h, schedule)
  }

  /** In `Apply` no initializer begins anywhere before every preflight is over,
      without failure, on every host; no postflight before every initializer is.
      (`a` is a position of an earlier phase than the `k`-th event's.) */
  lemma PhaseBarrier<A>(bs: Phases<A>, o: Oracle, h: nat, schedule: seq<Choice>, k: nat, a: nat, w: nat)
    requires var log := ApplyRun(bs, o, h, schedule).log;
      k < |log| && w < h && bs.ApplyPhase(a) < bs.ApplyPhase(log[k].applier)
    ensures var log := ApplyRun(bs, o, h, schedule).log;
      exists j :: 0 <= j < k && (log[j] == Skipped(a, w) || log[j] == Ended(a, w, true))
  {
    ApplyBarrier(o, |bs.ApplyOrder()|, h, schedule, k, a, w);
  }

  /** In `Delete` a host's initializers are undone only after all its postflights
      were undone or did not apply, its preflights only after both. */
  lemma PhaseUndone<A>(bs: Phases<A>, o: Oracle, h: nat, schedule: seq<nat>, k: nat, a: nat)
    requires var log := DeleteRun(bs, o, h, schedule).log;
      k < |log| && bs.DeletePhase(a) < bs.DeletePhase(log[k].applier)
    ensures var log := DeleteRun(bs, o, h, schedule).log;
      exists j :: 0 <= j < k && (log[j] == Skipped(a, log[k].worker) || log[j] == Ended(a, log[k].worker, true))
  {
    DeleteOrdered(o, |bs.DeleteOrder()|, h, schedule, k, a);
  }

  /** The appliers a worker has begun, in order. */
  function Begun<A>(order: seq<A>, events: seq<Event>): seq<A> {
    if events == [] then []
    else
      var e := events[|events| - 1];
      Begun(order, events[..|events| - 1])
      + if e.Began? && e.applier < |order| then [order[e.applier]] else []
  }

  /** Those of the first `n` appliers of an order that apply to a worker. */
  function Applicable<A>(order: seq<A>, o: Oracle, w: nat, n: nat): seq<A>
    requires n <= |order|
  {
    if n == 0 then []
    else Applicable(order, o, w, n - 1) + if o(n - 1, w) != Skip then [order[n - 1]] else []
  }

  lemma BegunConcat<A>(order: seq<A>, events: seq<Event>, e: Event)
    ensures Begun(order, events + [e])
         == Begun(order, events) + if e.Began? && e.applier < |order| then [order[e.applier]] else []
  {
    assert (events + [e])[..|events|] == events;
  }

  lemma BegunAttempt<A>(order: seq<A>, o: Oracle, events: seq<Event>, a: nat, w: nat)
    requires a < |order|
    ensures Begun(order, events + Attempt(o, a, w))
         == Begun(order, events) + if o(a, w) != Skip then [order[a]] else []
  {
    if o(a, w) == Skip {
      BegunConcat(order, events, Skipped(a, w));
    } else {
      var end := Ended(a, w, o(a, w) == Succeed);
      BegunConcat(order, events, Began(a, w));
      BegunConcat(order, events + [Began(a, w)], end);
      assert events + Attempt(o, a, w) == events + [Began(a, w)] + [end];
    }
  }

  lemma AttemptsNext(o: Oracle, w: nat, n: nat)
    ensures Attempts(o, w, n + 1) == Attempts(o, w, n) + Attempt(o, n, w)
  {
    HistoryDone(o, w, n);
  }

  lemma BegunNext<A>(order: seq<A>, o: Oracle, w: nat, n: nat)
    requires n < |order|
    ensures Begun(order, Attempts(o, w, n + 1))
         == Begun(order, Attempts(o, w, n)) + if o(n, w) != Skip then [order[n]] else []
  {
    AttemptsNext(o, w, n);
    BegunAttempt(order, o, Attempts(o, w, n), n, w);
  }

  lemma {:induction false} BegunHistory<A>(order: seq<A>, o: Oracle, w: nat, n: nat)
    requires n <= |order|
    ensures Begun(order, Attempts(o, w, n)) == Applicable(order, o, w, n)
  {
    if n > 0 {
      BegunHistory(order, o, w, n - 1);
      BegunNext(order, o, w, n - 1);
    }
  }

  /** At every moment of `Delete`, what a host has begun to undo is a prefix of
      its applicable postflights, initializers, preflights, in that order. */
  lemma DeletePrefix<A>(bs: Phases<A>, o: Oracle, h: nat, schedule: seq<nat>, w: nat)
    requires w < h
    ensures Begun(bs.DeleteOrder(), Of(DeleteRun(bs, o, h, schedule).log, w))
         <= Applicable(bs.DeleteOrder(), o, w, |bs.DeleteOrder()|)
  {
    var order := bs.DeleteOrder();
    var s := DeleteRun(bs, o, h, schedule);
    DeleteKeepsOne(o, |order|, h, schedule, w);
    var pos := s.pos[w];
    BegunHistory(order, o, w, pos);
    if s.phase[w] == Ready {
      ApplicablePrefix(order, o, w, pos, |order|);
    } else {
      BegunAttempt(order, o, Attempts(o, w, pos), pos, w);
      BegunConcat(order, Attempts(o, w, pos), Began(pos, w));
      ApplicablePrefix(order, o, w, pos + 1, |order|);
    }
  }

  lemma {:induction false} ApplicablePrefix<A>(order: seq<A>, o: Oracle, w: nat, n: nat, m: nat)
    requires n <= m <= |order|
    ensures Applicable(order, o, w, n) <= Applicable(order, o, w, m)
    decreases m
  {
    if n < m {
      ApplicablePrefix(order, o, w, n, m - 1);
    }
  }

  /** The positions of the two orders: each phase's appliers, as registered. */
  lemma OrdersExact<A>(bs: Phases<A>, i: nat)
    ensures var p, q, r := |bs.preflights|, |bs.initializers|, |bs.postflights|;
      && |bs.ApplyOrder()| == |bs.DeleteOrder()| == p + q + r
      && (i < p ==> bs.ApplyOrder()[i] == bs.preflights[i] && bs.ApplyPhase(i) == 0
                    && bs.DeleteOrder()[r + q + i] == bs.preflights[i] && bs.DeletePhase(r + q + i) == 2)
      && (i < q ==> bs.ApplyOrder()[p + i] == bs.initializers[i] && bs.ApplyPhase(p + i) == 1
                    && bs.DeleteOrder()[r + i] == bs.initializers[i] && bs.DeletePhase(r + i) == 1)
      && (i < r ==> bs.ApplyOrder()[p + q + i] == bs.postflights[i] && bs.ApplyPhase(p + q + i) == 2
                    && bs.DeleteOrder()[i] == bs.postflights[i] && bs.DeletePhase(i) == 0)
  {
  }
}
