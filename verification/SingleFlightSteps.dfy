/**
 The gate under arbitrary interleaving: the compare-and-swap, the mutex sections and the final store
 are separate steps, and any number of threads offer tips.
 */
module SingleFlightSteps {
  import opened Prelude
  import opened SingleFlight

  /**
   Won: swapped the flag, mutex section still to come. Lost: found it set, mutex section still to come.
   Holding: runs with a target. Releasing: saw no pending tip and still owns the mutex.
   */
  datatype Thread = Won(tip: int) | Lost(tip: int) | Holding(target: int) | Releasing

  /** `offered` and `taken` record the highest tip ever offered and ever handed to a holder. */
  datatype State = State(
    inflight: bool, pending: Option<int>, mutex: Option<nat>, threads: map<nat, Thread>,
    offered: Option<int>, taken: Option<int>)

  const INITIAL: State := State(false, None, None, map[], None, None)

  datatype Event =
    | Cas(id: nat, tip: int)
    | DrainStash(id: nat)
    | StashTip(id: nat)
    | TakeNext(id: nat)
    | SeeNone(id: nat)
    | StoreFalse(id: nat)
    | Die(id: nat)

  function Apply(s: State, e: Event): State {
    match e
    case Cas(id, tip) =>
      if id in s.threads then s
      else
        s.(offered := Some(Highest(s.offered, tip)), inflight := true,
           threads := s.threads[id := if s.inflight then Lost(tip) else Won(tip)])
    case DrainStash(id) =>
      if id !in s.threads || !s.threads[id].Won? || s.mutex.Some? then s
      else
        var target := Highest(s.pending, s.threads[id].tip);
        s.(pending := None, threads := s.threads[id := Holding(target)], taken := Some(Highest(s.taken, target)))
    case StashTip(id) =>
      if id !in s.threads || !s.threads[id].Lost? || s.mutex.Some? then s
      else s.(pending := Some(Highest(s.pending, s.threads[id].tip)), threads := s.threads - {id})
    case TakeNext(id) =>
      if id !in s.threads || !s.threads[id].Holding? || s.mutex.Some? || s.pending.None? then s
      else
        s.(pending := None, threads := s.threads[id := Holding(s.pending.value)],
           taken := Some(Highest(s.taken, s.pending.value)))
    case SeeNone(id) =>
      if id !in s.threads || !s.threads[id].Holding? || s.mutex.Some? || s.pending.Some? then s
      else s.(mutex := Some(id), threads := s.threads[id := Releasing])
    case StoreFalse(id) =>
      if id !in s.threads || !s.threads[id].Releasing? then s
      else s.(inflight := false, mutex := None, threads := s.threads - {id})
    case Die(id) =>
      // An error while walking returns early and skips the release.
      if id !in s.threads || !s.threads[id].Holding? then s else s.(threads := s.threads - {id})
  }

  function Run(s: State, es: seq<Event>): State {
    if es == [] then s else Apply(Run(s, es[..|es| - 1]), es[|es| - 1])
  }

  lemma {:induction false} RunConcat(s: State, a: seq<Event>, b: seq<Event>)
    ensures Run(s, a + b) == Run(Run(s, a), b)
  {
    if b == [] {
      assert a + b == a;
    } else {
      RunConcat(s, a, b[..|b| - 1]);
      assert (a + b)[..|a + b| - 1] == a + b[..|b| - 1];
    }
  }

  // ---------- invariant ----------

  ghost predicate Live(s: State, id: nat) {
    id in s.threads && !s.threads[id].Lost?
  }

  /** A tip that has been offered but has not reached the mutex section yet. */
  ghost predicate InTransit(s: State, id: nat, tip: int) {
    id in s.threads && (s.threads[id] == Won(tip) || s.threads[id] == Lost(tip))
  }

  ghost predicate OneHolder(s: State) {
    && (forall a, b :: Live(s, a) && Live(s, b) ==> a == b)
    && (forall a :: Live(s, a) ==> s.inflight)
  }

  ghost predicate MutexOk(s: State) {
    && (s.mutex.Some? ==> s.mutex.value in s.threads && s.threads[s.mutex.value].Releasing? && s.pending.None?)
    && (forall id :: id in s.threads && s.threads[id].Releasing? ==> s.mutex == Some(id))
  }

  ghost predicate UpperBound(s: State, best: Option<int>) {
    && (s.taken.Some? ==> best.Some? && s.taken.value <= best.value)
    && (s.pending.Some? ==> best.Some? && s.pending.value <= best.value)
    && (forall id, tip :: InTransit(s, id, tip) ==> best.Some? && tip <= best.value)
  }

  ghost predicate Attained(s: State, best: Option<int>) {
    best.Some? ==> s.taken == best || s.pending == best || exists id :: InTransit(s, id, best.value)
  }

  /** `best` is the maximum over handed-out targets, the stash, and tips in transit. */
  ghost predicate IsMaximum(s: State, best: Option<int>) {
    UpperBound(s, best) && Attained(s, best)
  }

  ghost predicate Inv(s: State) {
    OneHolder(s) && MutexOk(s) && IsMaximum(s, s.offered)
  }

  lemma {:induction false} BoundKept(s: State, e: Event)
    requires Inv(s)
    ensures UpperBound(Apply(s, e), Apply(s, e).offered)
  {
    var t := Apply(s, e);
    forall id, tip | InTransit(t, id, tip) ensures t.offered.Some? && tip <= t.offered.value {
      if id in s.threads && s.threads[id] == t.threads[id] {
        assert InTransit(s, id, tip);
      }
    }
    if e.id in s.threads && (s.threads[e.id].Won? || s.threads[e.id].Lost?) {
      assert InTransit(s, e.id, s.threads[e.id].tip);
    }
  }

  /** The new maximum is attained: a tip only moves from transit to the stash or to a holder. */
  lemma {:induction false} MaximumKept(s: State, e: Event)
    requires Inv(s)
    ensures Attained(Apply(s, e), Apply(s, e).offered)
  {
    var t := Apply(s, e);
    BoundKept(s, e);
    if t.offered.None? {
    } else if e.Cas? && e.id !in s.threads && t.offered == Some(e.tip) {
      assert InTransit(t, e.id, e.tip);
    } else {
      assert t.offered == s.offered;
      var best := s.offered.value;
      if s.taken == s.offered {
        assert t.taken == t.offered;
      } else if s.pending == s.offered {
        assert t.taken == t.offered || t.pending == t.offered;
      } else {
        var id :| InTransit(s, id, best);
        if id in t.threads && t.threads[id] == s.threads[id] {
          assert InTransit(t, id, best);
        } else {
          assert id == e.id;
          assert e.DrainStash? ==> t.taken == t.offered;
          assert e.StashTip? ==> t.pending == t.offered;
        }
      }
    }
  }

  lemma {:induction false} EventKeeps(s: State, e: Event)
    requires Inv(s)
    ensures Inv(Apply(s, e))
  {
    BoundKept(s, e);
    MaximumKept(s, e);
    var t := Apply(s, e);
    forall a | Live(t, a) ensures Live(s, a) || (e.Cas? && a == e.id && !s.inflight) {
    }
    forall a | Live(t, a) ensures t.inflight {
      assert e.StoreFalse? && t != s ==> Live(s, e.id);
    }
  }

  /**
   In every interleaving: at most one live holder, none while the flag is clear, and the highest tip
   ever offered is the highest of the targets handed out, the stash and the tips still in transit.
   */
  lemma {:induction false} AtMostOneHolder(es: seq<Event>)
    ensures Inv(Run(INITIAL, es))
  {
    if es == [] {
      assert forall id :: id !in INITIAL.threads;
    } else {
      AtMostOneHolder(es[..|es| - 1]);
      EventKeeps(Run(INITIAL, es[..|es| - 1]), es[|es| - 1]);
    }
  }

  // ---------- no offered tip is forgotten ----------

  ghost predicate AtLeast(m: Option<int>, tip: int) {
    m.Some? && m.value >= tip
  }

  /** The tip, or a higher one, is stashed or was handed out. */
  ghost predicate Kept(s: State, tip: int) {
    AtLeast(s.pending, tip) || AtLeast(s.taken, tip)
  }

  /** Event `i` completes an offer: its tip leaves the mutex section stashed or taken. */
  ghost predicate Completes(es: seq<Event>, i: nat)
    requires i < |es|
  {
    var s, e := Run(INITIAL, es[..i]), es[i];
    && e.id in s.threads && s.mutex.None?
    && ((e.StashTip? && s.threads[e.id].Lost?) || (e.DrainStash? && s.threads[e.id].Won?))
  }

  function TipOf(t: Thread): int
    requires t.Won? || t.Lost?
  {
    t.tip
  }

  lemma {:induction false} KeptStays(s: State, es: seq<Event>, tip: int)
    requires Kept(s, tip)
    ensures Kept(Run(s, es), tip)
  {
    if es != [] {
      KeptStays(s, es[..|es| - 1], tip);
    }
  }

  /** Once an offer completed, its tip or a higher one is stashed or was handed out, at every later moment. */
  lemma {:induction false} NoTipIsForgotten(es: seq<Event>, i: nat)
    requires i < |es| && Completes(es, i)
    ensures Kept(Run(INITIAL, es), TipOf(Run(INITIAL, es[..i]).threads[es[i].id]))
  {
    var s := Run(INITIAL, es[..i]);
    assert es[..i + 1][..i] == es[..i] && Run(INITIAL, es[..i + 1]) == Apply(s, es[i]);
    KeptStays(Apply(s, es[i]), es[i + 1..], TipOf(s.threads[es[i].id]));
    RunConcat(INITIAL, es[..i + 1], es[i + 1..]);
    assert es[..i + 1] + es[i + 1..] == es;
  }

  /** A winner empties the stash, so every offer completed before has then been handed out or exceeded. */
  lemma {:induction false} WinnerSeesTheStash(es: seq<Event>, i: nat, id: nat)
    requires i < |es| && Completes(es, i)
    requires var s := Run(INITIAL, es); id in s.threads && s.threads[id].Won? && s.mutex.None?
    ensures var t := Apply(Run(INITIAL, es), DrainStash(id));
            && t.threads[id].Holding? && t.pending.None?
            && AtLeast(t.taken, TipOf(Run(INITIAL, es[..i]).threads[es[i].id]))
  {
    NoTipIsForgotten(es, i);
  }

  /** With no offer in transit and nothing stashed, the highest tip ever offered has been handed out. */
  lemma {:induction false} QuietMeansWalked(es: seq<Event>)
    requires var s := Run(INITIAL, es); s.pending.None? && forall id, tip :: !InTransit(s, id, tip)
    ensures Run(INITIAL, es).taken == Run(INITIAL, es).offered
  {
    AtMostOneHolder(es);
    var s := Run(INITIAL, es);
    assert IsMaximum(s, s.offered);
  }

  // ---------- a tip can wait on a free gate ----------

  /** A tip waits on a free gate. */
  ghost predicate Stranded(s: State) {
    !s.inflight && s.pending.Some?
  }

  /** Event `i` is a loser's stash that comes after the holder let go. */
  ghost predicate StashesLate(es: seq<Event>, i: int) {
    && 0 <= i < |es| && es[i].StashTip?
    && var s := Run(INITIAL, es[..i]);
       es[i].id in s.threads && s.threads[es[i].id].Lost? && s.mutex.None? && !s.inflight
  }

  /** Event `j` takes the free gate. */
  ghost predicate Wins(es: seq<Event>, j: int) {
    && 0 <= j < |es| && es[j].Cas?
    && var s := Run(INITIAL, es[..j]); es[j].id !in s.threads && !s.inflight
  }

  /** A stash after the release that no later winner has picked up. */
  ghost predicate LateAndLeft(es: seq<Event>, i: int) {
    StashesLate(es, i) && forall j :: i < j ==> !Wins(es, j)
  }

  lemma {:induction false} SameStep(es: seq<Event>, n: nat, k: int)
    requires k < n <= |es|
    ensures StashesLate(es[..n], k) == StashesLate(es, k) && Wins(es[..n], k) == Wins(es, k)
  {
    if 0 <= k {
      assert es[..n][..k] == es[..k];
    }
  }

  /** One more event: what strands a tip, and what keeps it stranded. */
  lemma {:induction false} StrandingStep(s: State, e: Event)
    requires Inv(s)
    ensures var late := e.StashTip? && e.id in s.threads && s.threads[e.id].Lost? && s.mutex.None? && !s.inflight;
            var wins := e.Cas? && e.id !in s.threads && !s.inflight;
            Stranded(Apply(s, e)) <==> late || (Stranded(s) && !wins)
  {
    if e.id in s.threads && !s.threads[e.id].Lost? {
      assert Live(s, e.id);
    }
  }

  lemma {:induction false} LateSplit(es: seq<Event>, n: nat)
    requires |es| == n + 1
    ensures (exists i :: LateAndLeft(es, i)) <==>
            StashesLate(es, n) || ((exists i :: LateAndLeft(es[..n], i)) && !Wins(es, n))
  {
    forall k | k < n ensures StashesLate(es[..n], k) == StashesLate(es, k) && Wins(es[..n], k) == Wins(es, k) {
      SameStep(es, n, k);
    }
    if StashesLate(es, n) {
      assert LateAndLeft(es, n);
    }
    if i :| LateAndLeft(es, i) && i < n {
      assert LateAndLeft(es[..n], i);
    }
    if i :| LateAndLeft(es[..n], i) && !Wins(es, n) {
      assert LateAndLeft(es, i);
    }
  }

  /**
   In every run a tip waits on a free gate if and only if some loser stashed after the holder had let go and
   no offer has won the gate since.
   */
  lemma {:induction false} StrandedIff(es: seq<Event>)
    ensures Stranded(Run(INITIAL, es)) <==> exists i :: LateAndLeft(es, i)
  {
    if es != [] {
      var n := |es| - 1;
      StrandedIff(es[..n]);
      AtMostOneHolder(es[..n]);
      StrandingStep(Run(INITIAL, es[..n]), es[n]);
      LateSplit(es, n);
    }
  }

  // ---------- calls that do not overlap ----------

  /** One whole call of the gate, or a holder's error return. */
  datatype Call = Offer(id: nat, tip: int) | Release(id: nat) | Fail(id: nat)

  /** The steps of a call that runs without interruption. */
  function StepsOf(s: State, c: Call): seq<Event> {
    match c
    case Offer(id, tip) => if s.inflight then [Cas(id, tip), StashTip(id)] else [Cas(id, tip), DrainStash(id)]
    case Release(id) => if s.pending.Some? then [TakeNext(id)] else [SeeNone(id), StoreFalse(id)]
    case Fail(id) => [Die(id)]
  }

  function Perform(s: State, calls: seq<Call>): State {
    if calls == [] then s
    else
      var mid := Perform(s, calls[..|calls| - 1]);
      Run(mid, StepsOf(mid, calls[|calls| - 1]))
  }

  /** Between whole calls every thread is a holder at work, there is at most one, and a free gate has no stash. */
  ghost predicate Settled(s: State) {
    && s.mutex.None? && (forall id :: id in s.threads ==> s.threads[id].Holding?)
    && (forall a, b :: a in s.threads && b in s.threads ==> a == b)
    && (!s.inflight ==> s.threads == map[] && s.pending.None?)
  }

  lemma {:induction false} RunTwo(s: State, e: Event, f: Event)
    ensures Run(s, [e, f]) == Apply(Apply(s, e), f) && Run(s, [e]) == Apply(s, e)
  {
    assert [e, f][..1] == [e] && [e][..0] == [];
    assert Run(s, [e]) == Apply(Run(s, []), e);
  }

  lemma {:induction false} CallKeepsSettled(s: State, c: Call)
    requires Settled(s)
    ensures Settled(Run(s, StepsOf(s, c)))
  {
    match c {
      case Offer(id, tip) => RunTwo(s, Cas(id, tip), if s.inflight then StashTip(id) else DrainStash(id));
      case Release(id) =>
        RunTwo(s, SeeNone(id), StoreFalse(id));
        RunTwo(s, TakeNext(id), TakeNext(id));
      case Fail(id) => RunTwo(s, Die(id), Die(id));
    }
  }

  /** As long as calls do not overlap, no tip ever waits on a free gate, whatever holders fail. */
  lemma {:induction false} WholeCallsNeverStrand(calls: seq<Call>)
    ensures Settled(Perform(INITIAL, calls)) && !Stranded(Perform(INITIAL, calls))
  {
    if calls != [] {
      WholeCallsNeverStrand(calls[..|calls| - 1]);
      CallKeepsSettled(Perform(INITIAL, calls[..|calls| - 1]), calls[|calls| - 1]);
    }
  }

  /** One holder at work, one loser of the swap not yet at the mutex. */
  const HALFWAY: State := State(true, None, None, map[0 := Holding(10), 1 := Lost(11)], Some(11), Some(10))

  lemma {:induction false} ReachHalfway()
    ensures Run(INITIAL, [Cas(0, 10), DrainStash(0), Cas(1, 11)]) == HALFWAY
  {
    RunThree(INITIAL, Cas(0, 10), DrainStash(0), Cas(1, 11));
    var s1 := Apply(INITIAL, Cas(0, 10));
    assert s1 == State(true, None, None, map[0 := Won(10)], Some(10), None);
    assert Apply(s1, DrainStash(0)) == State(true, None, None, map[0 := Holding(10)], Some(10), Some(10));
  }

  /** The loser stashes after the holder has let go: the tip waits on a free gate with nobody to walk it. */
  lemma {:induction false} StrandedTip()
    ensures exists es :: var s := Run(INITIAL, es);
                         !s.inflight && s.pending == Some(11) && s.threads == map[]
  {
    ReachHalfway();
    RunThree(HALFWAY, SeeNone(0), StoreFalse(0), StashTip(1));
    var s4 := Apply(HALFWAY, SeeNone(0));
    assert s4 == State(true, None, Some(0), map[0 := Releasing, 1 := Lost(11)], Some(11), Some(10));
    var s5 := Apply(s4, StoreFalse(0));
    assert s4.threads - {0} == map[1 := Lost(11)];
    assert s5 == State(false, None, None, map[1 := Lost(11)], Some(11), Some(10));
    assert s5.threads - {1} == map[];
    var a, b := [Cas(0, 10), DrainStash(0), Cas(1, 11)], [SeeNone(0), StoreFalse(0), StashTip(1)];
    RunConcat(INITIAL, a, b);
    assert Run(INITIAL, a + b) == State(false, Some(11), None, map[], Some(11), Some(10));
  }

  lemma {:induction false} RunThree(s: State, e: Event, f: Event, g: Event)
    ensures Run(s, [e, f, g]) == Apply(Apply(Apply(s, e), f), g)
  {
    var es := [e, f, g];
    assert es[..2] == [e, f] && [e, f][..1] == [e] && [e][..0] == [];
    assert Run(s, [e]) == Apply(s, e);
    assert Run(s, [e, f]) == Apply(Run(s, [e]), f);
  }

  // ---------- an error leaks the gate, for good ----------

  /** The flag is set and nobody is left to clear it. */
  ghost predicate Leaked(s: State) {
    s.inflight && forall id :: !Live(s, id)
  }

  /** Once leaked, always leaked: no later offer acquires the gate and no target is handed out again. */
  lemma {:induction false} LeakIsPermanent(s: State, es: seq<Event>)
    requires Leaked(s)
    ensures Leaked(Run(s, es)) && Run(s, es).taken == s.taken
  {
    if es != [] {
      LeakIsPermanent(s, es[..|es| - 1]);
      var mid, e := Run(s, es[..|es| - 1]), es[|es| - 1];
      assert !Live(mid, e.id);
      forall id ensures !Live(Apply(mid, e), id) {
        assert !Live(mid, id);
      }
    }
  }

  /** Event `i` killed the thread that held the gate. */
  ghost predicate HolderDied(es: seq<Event>, i: int)
    requires 0 <= i < |es|
  {
    es[i].Die? && es[i].id in Run(INITIAL, es[..i]).threads && Run(INITIAL, es[..i]).threads[es[i].id].Holding?
  }

  /** The gate is leaked exactly when some holder returned with an error. */
  lemma {:induction false} LeakedIffHolderDied(es: seq<Event>)
    ensures Leaked(Run(INITIAL, es)) <==> exists i :: 0 <= i < |es| && HolderDied(es, i)
  {
    if exists i :: 0 <= i < |es| && HolderDied(es, i) {
      var i :| 0 <= i < |es| && HolderDied(es, i);
      AtMostOneHolder(es[..i]);
      var s := Run(INITIAL, es[..i]);
      assert Live(s, es[i].id);
      var t := Apply(s, es[i]);
      forall id ensures !Live(t, id) {
        assert Live(t, id) ==> Live(s, id);
      }
      assert es[..i + 1][..i] == es[..i] && Run(INITIAL, es[..i + 1]) == t;
      RunConcat(INITIAL, es[..i + 1], es[i + 1..]);
      assert es[..i + 1] + es[i + 1..] == es;
      LeakIsPermanent(t, es[i + 1..]);
    } else {
      NoDeathNoLeak(es);
    }
  }

  lemma {:induction false} NoDeathNoLeak(es: seq<Event>)
    requires forall i :: 0 <= i < |es| ==> !HolderDied(es, i)
    ensures Run(INITIAL, es).inflight ==> exists id :: Live(Run(INITIAL, es), id)
  {
    if es != [] {
      var n := |es| - 1;
      var init := es[..n];
      forall i | 0 <= i < |init| ensures !HolderDied(init, i) {
        assert init[..i] == es[..i] && !HolderDied(es, i);
      }
      NoDeathNoLeak(init);
      assert !HolderDied(es, n);
      var s, t := Run(INITIAL, init), Run(INITIAL, es);
      if t.inflight {
        if s.inflight {
          var id :| Live(s, id);
          AtMostOneHolder(init);
          assert Live(t, id);
        } else {
          assert Live(t, es[n].id);
        }
      }
    }
  }
}
