/**
 The cache's circuit breaker against its call history: what the counter counts, when the breaker is
 open, and what it takes to trip again.
 */
module Breaker {
  import opened Prelude

  /** One past the largest 32-bit counter value; the counter wraps there. */
  const U32_WRAP: nat := 0x1_0000_0000

  /** Clock readings are taken inside the calls that need them. */
  datatype Call = IsOpen(now: int) | RecordSuccess | RecordFailure(now: int)

  datatype State = State(failures: nat, openUntil: Option<int>)

  datatype Limits = Limits(threshold: nat, openFor: nat)

  const FRESH: State := State(0, None)

  function Step(b: Limits, s: State, c: Call): State {
    match c
    case IsOpen(now) => if s.openUntil.Some? && now >= s.openUntil.value then State(0, None) else s
    case RecordSuccess => s.(failures := 0)
    case RecordFailure(now) =>
      var n := (s.failures + 1) % U32_WRAP;
      State(n, if n >= b.threshold then Some(now + b.openFor) else s.openUntil)
  }

  /** The state after a history of calls. */
  function After(b: Limits, h: seq<Call>): State {
    if h == [] then FRESH else Step(b, After(b, h[..|h| - 1]), h[|h| - 1])
  }

  // ---------- the history ----------

  /** The call at `i` opened the breaker or kept it open longer. */
  predicate TripsAt(b: Limits, h: seq<Call>, i: nat)
    requires i < |h|
  {
    h[i].RecordFailure? && After(b, h[..i + 1]).failures >= b.threshold
  }

  /** The call at `i` restarted the count: a success, or the first look at an expired window. */
  predicate ResetsAt(b: Limits, h: seq<Call>, i: nat)
    requires i < |h|
  {
    match h[i]
    case RecordSuccess => true
    case RecordFailure(_) => false
    case IsOpen(now) => var s := After(b, h[..i]); s.openUntil.Some? && now >= s.openUntil.value
  }

  function Failures(h: seq<Call>): nat {
    if h == [] then 0 else Failures(h[..|h| - 1]) + if h[|h| - 1].RecordFailure? then 1 else 0
  }

  ghost predicate NoResetSince(b: Limits, h: seq<Call>, r: nat) {
    r <= |h| && forall i :: r <= i < |h| ==> !ResetsAt(b, h, i)
  }

  /** `r` is just after the last reset, or the beginning. */
  ghost predicate CountsFrom(b: Limits, h: seq<Call>, r: nat) {
    NoResetSince(b, h, r) && (r == 0 || ResetsAt(b, h, r - 1))
  }

  function TimeOf(c: Call): Option<int> {
    match c
    case IsOpen(now) => Some(now)
    case RecordFailure(now) => Some(now)
    case RecordSuccess => None
  }

  /** No clock reading in `h` is later than `t`. */
  ghost predicate Until(h: seq<Call>, t: int) {
    forall i :: 0 <= i < |h| && TimeOf(h[i]).Some? ==> TimeOf(h[i]).value <= t
  }

  /** Clock readings never go back. */
  ghost predicate Monotone(h: seq<Call>) {
    forall j :: 0 <= j < |h| && TimeOf(h[j]).Some? ==> Until(h[..j], TimeOf(h[j]).value)
  }

  lemma {:induction false} HistoryPrefix(b: Limits, h: seq<Call>, n: nat, i: nat)
    requires i < n <= |h|
    ensures TripsAt(b, h[..n], i) == TripsAt(b, h, i) && ResetsAt(b, h[..n], i) == ResetsAt(b, h, i)
  {
    assert h[..n][..i + 1] == h[..i + 1] && h[..n][..i] == h[..i];
  }

  lemma {:induction false} ResetClears(b: Limits, h: seq<Call>, i: nat)
    requires i < |h| && ResetsAt(b, h, i)
    ensures After(b, h[..i + 1]).failures == 0
  {
    assert h[..i + 1][..i] == h[..i];
  }

  /** The counter is the number of failures since the last reset, up to 32-bit wrap-around. */
  lemma {:induction false} CounterIsStreak(b: Limits, h: seq<Call>, r: nat)
    requires CountsFrom(b, h, r)
    ensures After(b, h).failures == Failures(h[r..]) % 0x1_0000_0000
    decreases |h|
  {
    if r == |h| {
      if r > 0 {
        ResetClears(b, h, r - 1);
        assert h[..r] == h;
      }
    } else {
      var n := |h| - 1;
      forall i | 0 <= i < n ensures ResetsAt(b, h[..n], i) == ResetsAt(b, h, i) {
        HistoryPrefix(b, h, n, i);
      }
      CounterIsStreak(b, h[..n], r);
      assert h[r..][..n - r] == h[..n][r..];
      assert !ResetsAt(b, h, n);
      ModSucc(Failures(h[..n][r..]));
    }
  }

  lemma {:induction false} ModSucc(n: nat)
    ensures (n % U32_WRAP + 1) % U32_WRAP == (n + 1) % U32_WRAP
  {
  }

  /** There always is a point to count from. */
  lemma {:induction false} CountsFromSomewhere(b: Limits, h: seq<Call>) returns (r: nat)
    ensures CountsFrom(b, h, r)
  {
    r := |h|;
    while r > 0 && !ResetsAt(b, h, r - 1)
      invariant r <= |h| && NoResetSince(b, h, r)
    {
      r := r - 1;
    }
  }

  /** A call trips exactly when it is a failure that completes a full threshold since the last reset. */
  lemma {:induction false} TripNeedsFullThreshold(b: Limits, h: seq<Call>, r: nat, i: nat)
    requires i < |h| && CountsFrom(b, h[..i + 1], r)
    ensures TripsAt(b, h, i) <==> h[i].RecordFailure? && Failures(h[r..i + 1]) % U32_WRAP >= b.threshold
  {
    CounterIsStreak(b, h[..i + 1], r);
    assert h[..i + 1][r..] == h[r..i + 1];
  }

  /** After a look at an expired window, fewer than a full threshold of failures never trip. */
  lemma {:induction false} ExpiryForgives(b: Limits, h: seq<Call>, e: nat, i: nat)
    requires e < i < |h| && ResetsAt(b, h, e) && Failures(h[e + 1..i + 1]) < b.threshold
    ensures !TripsAt(b, h, i)
  {
    var r := LastReset(b, h, e, i);
    if TripsAt(b, h, i) {
      CountsInPrefix(b, h, r, i + 1);
      TripNeedsFullThreshold(b, h, r, i);
      FewerFailures(h[e + 1..i + 1], r - (e + 1));
      assert h[e + 1..i + 1][r - (e + 1)..] == h[r..i + 1];
      ModAtMost(Failures(h[r..i + 1]));
    }
  }

  lemma {:induction false} ModAtMost(n: nat)
    ensures n % U32_WRAP <= n
  {
  }

  /** The last reset at or after `e` and before `i`. */
  lemma {:induction false} LastReset(b: Limits, h: seq<Call>, e: nat, i: nat) returns (r: nat)
    requires e < i < |h| && ResetsAt(b, h, e)
    ensures e < r <= i + 1 && ResetsAt(b, h, r - 1) && forall k :: r <= k <= i ==> !ResetsAt(b, h, k)
  {
    r := i + 1;
    while !ResetsAt(b, h, r - 1)
      invariant e < r <= i + 1 && forall k :: r <= k <= i ==> !ResetsAt(b, h, k)
      decreases r
    {
      r := r - 1;
    }
  }

  lemma {:induction false} CountsInPrefix(b: Limits, h: seq<Call>, r: nat, n: nat)
    requires 0 < r <= n <= |h| && ResetsAt(b, h, r - 1) && forall k :: r <= k < n ==> !ResetsAt(b, h, k)
    ensures CountsFrom(b, h[..n], r)
  {
    forall k | 0 <= k < n ensures ResetsAt(b, h[..n], k) == ResetsAt(b, h, k) {
      HistoryPrefix(b, h, n, k);
    }
  }

  lemma {:induction false} FewerFailures(h: seq<Call>, k: nat)
    requires k <= |h|
    ensures Failures(h[k..]) <= Failures(h)
    decreases |h|
  {
    if k < |h| {
      FewerFailures(h[..|h| - 1], k);
      assert h[k..][..|h| - k - 1] == h[..|h| - 1][k..];
    }
  }

  // ---------- the window ----------

  /** Some trip is less than `openFor` old at `now`. */
  ghost predicate InWindow(b: Limits, h: seq<Call>, now: int) {
    exists i :: 0 <= i < |h| && TripsAt(b, h, i) && now < h[i].now + b.openFor
  }

  lemma {:induction false} InWindowSnoc(b: Limits, h: seq<Call>, now: int)
    requires h != []
    ensures var n := |h| - 1;
            InWindow(b, h, now) <==> InWindow(b, h[..n], now) || (TripsAt(b, h, n) && now < h[n].now + b.openFor)
  {
    var n := |h| - 1;
    forall i | 0 <= i < n ensures TripsAt(b, h[..n], i) == TripsAt(b, h, i) {
      HistoryPrefix(b, h, n, i);
    }
    if InWindow(b, h[..n], now) {
      var i :| 0 <= i < n && TripsAt(b, h[..n], i) && now < h[..n][i].now + b.openFor;
      assert TripsAt(b, h, i);
    }
    if InWindow(b, h, now) {
      var i :| 0 <= i < |h| && TripsAt(b, h, i) && now < h[i].now + b.openFor;
      if i < n {
        assert TripsAt(b, h[..n], i) && h[..n][i] == h[i];
      }
    }
  }

  lemma {:induction false} MonotonePrefix(h: seq<Call>)
    requires Monotone(h) && h != []
    ensures Monotone(h[..|h| - 1])
    ensures TimeOf(h[|h| - 1]).Some? ==> Until(h[..|h| - 1], TimeOf(h[|h| - 1]).value)
  {
    var n := |h| - 1;
    forall j | 0 <= j < n && TimeOf(h[..n][j]).Some? ensures Until(h[..n][..j], TimeOf(h[..n][j]).value) {
      assert h[..n][..j] == h[..j];
    }
  }

  /**
   With a clock that never goes back, the breaker is open at `now` exactly while some trip is less than
   `openFor` old, whatever calls came in between.
   */
  lemma {:induction false} OpenIffInWindow(b: Limits, h: seq<Call>, now: int)
    requires Monotone(h) && Until(h, now)
    ensures var s := After(b, h); (s.openUntil.Some? && now < s.openUntil.value) <==> InWindow(b, h, now)
    decreases |h|
  {
    if h != [] {
      var n := |h| - 1;
      var init, c := h[..n], h[n];
      MonotonePrefix(h);
      assert Until(init, now) by {
        assert forall i :: 0 <= i < n ==> init[i] == h[i];
      }
      OpenIffInWindow(b, init, now);
      InWindowSnoc(b, h, now);
      assert h[..n + 1] == h;
      if TripsAt(b, h, n) {
        EarlierTripsEndSooner(b, init, now, c.now);
      }
      if c.IsOpen? {
        assert c.now <= now;
      }
    }
  }

  /** A window that covers `now` and began by `t` is covered by a window that begins at `t`. */
  lemma {:induction false} EarlierTripsEndSooner(b: Limits, h: seq<Call>, now: int, t: int)
    requires Until(h, t)
    ensures InWindow(b, h, now) ==> now < t + b.openFor
  {
    if InWindow(b, h, now) {
      var i :| 0 <= i < |h| && TripsAt(b, h, i) && now < h[i].now + b.openFor;
      assert TimeOf(h[i]).value <= t;
    }
  }

  // ---------- the breaker ----------

  /** `history` records every call so far; the two fields are a function of it. */
  class CircuitBreaker {
    const limits: Limits
    var failures: nat
    var openUntil: Option<int>
    ghost var history: seq<Call>

    function Now(): State
      reads this
    {
      State(failures, openUntil)
    }

    ghost predicate Valid()
      reads this
    {
      Now() == After(limits, history)
    }

    constructor (threshold: nat, openFor: nat)
      ensures Valid() && limits == Limits(threshold, openFor) && history == []
    {
      limits := Limits(threshold, openFor);
      failures := 0;
      openUntil := None;
      history := [];
    }

    /** Also ends an expired window and starts counting afresh. */
    method IsOpen(now: int) returns (open: bool)
      requires Valid()
      modifies this
      ensures Valid() && history == old(history) + [Call.IsOpen(now)]
      // With a clock that never goes back: open exactly while some trip is less than `openFor` old.
      ensures Monotone(old(history)) && Until(old(history), now) ==> (open <==> InWindow(limits, old(history), now))
    {
      if Monotone(history) && Until(history, now) {
        OpenIffInWindow(limits, history, now);
      }
      AfterSnoc(limits, history, Call.IsOpen(now));
      history := history + [Call.IsOpen(now)];
      if openUntil.Some? {
        if now < openUntil.value {
          return true;
        }
        openUntil := None;
        failures := 0;
      }
      return false;
    }

    method RecordSuccess()
      requires Valid()
      modifies this
      ensures Valid() && history == old(history) + [Call.RecordSuccess]
      ensures CountsFrom(limits, history, |history|) && openUntil == old(openUntil)
    {
      AfterSnoc(limits, history, Call.RecordSuccess);
      SuccessResets(limits, history);
      history := history + [Call.RecordSuccess];
      failures := 0;
    }

    method RecordFailure(now: int)
      requires Valid()
      modifies this
      ensures Valid() && history == old(history) + [Call.RecordFailure(now)]
      // A full threshold of failures since the last reset starts the window afresh; fewer leave it as it was.
      ensures forall r: nat :: CountsFrom(limits, history, r) ==>
                            openUntil == if Failures(history[r..]) % U32_WRAP >= limits.threshold
                                         then Some(now + limits.openFor) else old(openUntil)
    {
      AfterSnoc(limits, history, Call.RecordFailure(now));
      history := history + [Call.RecordFailure(now)];
      failures := (failures + 1) % U32_WRAP;
      if failures >= limits.threshold {
        openUntil := Some(now + limits.openFor);
      }
      StreakFromAnywhere(limits, history);
    }
  }

  lemma {:induction false} StreakFromAnywhere(b: Limits, h: seq<Call>)
    ensures forall r: nat :: CountsFrom(b, h, r) ==> After(b, h).failures == Failures(h[r..]) % U32_WRAP
  {
    forall r: nat | CountsFrom(b, h, r) ensures After(b, h).failures == Failures(h[r..]) % U32_WRAP {
      CounterIsStreak(b, h, r);
    }
  }

  lemma {:induction false} SuccessResets(b: Limits, h: seq<Call>)
    ensures CountsFrom(b, h + [Call.RecordSuccess], |h| + 1)
  {
    assert ResetsAt(b, h + [Call.RecordSuccess], |h|);
  }

  lemma {:induction false} AfterSnoc(b: Limits, h: seq<Call>, c: Call)
    ensures After(b, h + [c]) == Step(b, After(b, h), c)
  {
    assert (h + [c])[..|h|] == h;
  }
}
