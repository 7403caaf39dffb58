/** `exponentialBackOffRetry` of `pkg/ssh/connect.go`, on 64-bit durations. */
module Retry {
  import opened GoStrings

  /** What an attempt returns: nil, an error worth another try, or another. */
  datatype Outcome = Success | Retriable | Fatal

  const WIDTH: int := 0x1_0000_0000_0000_0000
  const MAX: int := 0x7FFF_FFFF_FFFF_FFFF

  /** `time.Duration` arithmetic wraps around. */
  function Wrap(n: int): (r: int)
    ensures -MAX - 1 <= r <= MAX && (-MAX - 1 <= n <= MAX ==> r == n)
  {
    (n + MAX + 1) % WIDTH - MAX - 1
  }

  predicate Int64(n: int) {
    -MAX - 1 <= n <= MAX
  }

  /** The function called: what attempt `i` returns. */
  type Script = int -> Outcome

  /** Runs of the loop: how many calls were made, the outcome of the last, and
      the durations slept. */
  method Retry(steps: int, interval: int, factor: int, fn: Script)
    returns (error: Option<Outcome>, calls: nat, slept: seq<int>)
    requires Int64(interval) && Int64(factor)
    ensures calls == Calls(steps, fn)
    ensures error == (if calls > 0 && fn(calls - 1) != Success then Some(fn(calls - 1)) else None)
    ensures slept == Sleeps(interval, factor, if calls == 0 then 0 else calls - 1)
  {
    error, calls, slept := None, 0, [];
    var pause := interval;
    var i := 0;
    while i < steps
      invariant 0 <= i && (i <= steps || i == 0) && calls == i
      invariant forall k :: 0 <= k < i ==> fn(k) == Retriable
      invariant error == if i > 0 then Some(Retriable) else None
      invariant pause == Pause(interval, factor, if i == 0 then 0 else i - 1)
      invariant slept == Sleeps(interval, factor, if i == 0 then 0 else i - 1)
      decreases steps - i
    {
      if i > 0 {
        slept := slept + [pause];
        pause := Wrap(pause * factor);
      }
      calls := i + 1;
      CallsAt(steps, fn, i);
      match fn(i) {
        case Retriable =>
          error := Some(Retriable);
        case Fatal =>
          return Some(Fatal), calls, slept;
        case Success =>
          return None, calls, slept;
      }
      i := i + 1;
    }
    CallsAll(steps, fn);
  }

  /** The pause before retry `k + 1`. */
  function Pause(interval: int, factor: int, k: nat): int {
    if k == 0 then interval else Wrap(Pause(interval, factor, k - 1) * factor)
  }

  function Sleeps(interval: int, factor: int, k: nat): (r: seq<int>)
    ensures |r| == k
  {
    if k == 0 then [] else Sleeps(interval, factor, k - 1) + [Pause(interval, factor, k - 1)]
  }

  /** The number of calls: up to the first outcome that is not worth a retry,
      and never more than the steps allowed. */
  function Calls(steps: int, fn: Script): (n: nat)
    ensures steps <= 0 ==> n == 0
    ensures steps > 0 ==> 1 <= n <= steps
    ensures forall k :: 0 <= k < n - 1 ==> fn(k) == Retriable
    ensures 0 < n < steps ==> fn(n - 1) != Retriable
    decreases if steps < 0 then 0 else steps
  {
    if steps <= 0 then 0
    else if steps == 1 then 1
    else
      var n := Calls(steps - 1, fn);
      if n == steps - 1 && fn(n - 1) == Retriable then steps else n
  }

  lemma CallsAt(steps: int, fn: Script, i: nat)
    requires i < steps && forall k :: 0 <= k < i ==> fn(k) == Retriable
    ensures fn(i) != Retriable ==> Calls(steps, fn) == i + 1
  {
    var n := Calls(steps, fn);
    assert n - 1 < i ==> fn(n - 1) == Retriable;
    assert i < n - 1 ==> fn(i) == Retriable;
  }

  lemma CallsAll(steps: int, fn: Script)
    requires forall k :: 0 <= k < steps ==> fn(k) == Retriable
    ensures Calls(steps, fn) == if steps <= 0 then 0 else steps
  {
    var n := Calls(steps, fn);
    assert 0 < n < steps ==> fn(n - 1) == Retriable;
  }

  /** With at least one step, nil is returned exactly if some attempt within the
      steps succeeds after nothing but retriable errors. Without a step the loop
      never runs and nil is returned without a call. */
  lemma NilExact(steps: int, fn: Script)
    ensures var n := Calls(steps, fn);
      (n == 0 || fn(n - 1) == Success) <==>
        steps <= 0 || exists i :: 0 <= i < steps && fn(i) == Success && forall k :: 0 <= k < i ==> fn(k) == Retriable
  {
    var n := Calls(steps, fn);
    if i :| 0 <= i < steps && fn(i) == Success && forall k :: 0 <= k < i ==> fn(k) == Retriable {
      CallsAt(steps, fn, i);
    }
  }

  // -------------------------------------------------------------------- timing

  function Power(factor: int, k: nat): int {
    if k == 0 then 1 else Power(factor, k - 1) * factor
  }

  function PowerSum(factor: int, k: nat): int {
    if k == 0 then 0 else PowerSum(factor, k - 1) + Power(factor, k - 1)
  }

  function Sum(s: seq<int>): int {
    if s == [] then 0 else Sum(s[..|s| - 1]) + s[|s| - 1]
  }

  lemma {:induction false} PowerGrows(interval: int, factor: int, j: nat, k: nat)
    requires 0 <= interval && 1 <= factor && j <= k
    ensures 0 <= interval * Power(factor, j) <= interval * Power(factor, k) && 1 <= Power(factor, k)
    decreases k
  {
    if k > 0 {
      if j < k {
        PowerGrows(interval, factor, j, k - 1);
        Times(interval * Power(factor, k - 1), factor);
      } else {
        PowerGrows(interval, factor, 0, k - 1);
        Times(interval * Power(factor, k - 1), factor);
      }
      Times(Power(factor, k - 1), factor);
      Regroup(interval, Power(factor, k - 1), factor);
    }
  }

  lemma Times(a: int, b: int)
    requires 0 <= a && 1 <= b
    ensures a <= a * b
  {
    assert a * (b - 1) >= 0;
    assert a * b == a * (b - 1) + a;
  }

  lemma Regroup(a: int, b: int, c: int)
    ensures a * (b * c) == (a * b) * c
  {
  }

  /** No pause overflows when the longest one fits: the pauses are exactly
      `interval`, `interval * factor`, and so on. */
  lemma {:induction false} PauseExact(interval: int, factor: int, k: nat, last: nat)
    requires 0 <= interval && 1 <= factor && k <= last && interval * Power(factor, last) <= MAX
    ensures Pause(interval, factor, k) == interval * Power(factor, k)
  {
    PowerGrows(interval, factor, k, last);
    if k > 0 {
      PauseExact(interval, factor, k - 1, last);
      Regroup(interval, Power(factor, k - 1), factor);
    }
  }

  /** After `k + 1` calls the loop has slept `interval * (1 + factor + ... +
      factor^(k-1))` in all; the interval computed after the last sleep of a run
      of `steps` is `interval * factor^(steps-1)`, so that is what must fit. */
  lemma {:induction false} SleptExact(interval: int, factor: int, k: nat, steps: nat)
    requires 0 <= interval && 1 <= factor && k < steps && interval * Power(factor, steps - 1) <= MAX
    ensures Sum(Sleeps(interval, factor, k)) == interval * PowerSum(factor, k)
    ensures Pause(interval, factor, k) == interval * Power(factor, k)
  {
    PauseExact(interval, factor, k, steps - 1);
    if k > 0 {
      PauseExact(interval, factor, k - 1, steps - 1);
      SleptExact(interval, factor, k - 1, steps);
      var s := Sleeps(interval, factor, k);
      assert s[..|s| - 1] == Sleeps(interval, factor, k - 1);
      Distribute(interval, PowerSum(factor, k - 1), Power(factor, k - 1));
    }
  }

  lemma Distribute(a: int, b: int, c: int)
    ensures a * (b + c) == a * b + a * c
  {
  }
}
