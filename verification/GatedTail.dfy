/**
 The gate and the walks together. Any number of tasks offer tips and win or lose the gate one atomic access at
 a time; whoever holds it walks the store as a worker of the protocol, among any number of backfills.
 */
module GatedTail {
  import opened Prelude
  import opened Rows
  import opened Store
  import opened Fetch
  import opened SingleFlight
  import opened SyncProtocol
  import Gate = SingleFlightSteps

  datatype Joint = Joint(gate: Gate.State, sys: Sys)

  datatype Step =
    | Offer(id: nat, tip: int)
    | TakeStash(id: nat)
    | LeaveTip(id: nat)
    | WalkOn(id: nat)
    | LetGo(id: nat)
    | ClearFlag(id: nat)
    | Work(e: Event)
    | Restart

  predicate Holds(j: Joint, id: nat) {
    id in j.gate.threads && j.gate.threads[id].Holding?
  }

  /** The holder has walked to the safe height of its target, and the mutex is free. */
  predicate Walked(j: Joint, id: nat) {
    Holds(j, id) && j.gate.mutex.None? && id in j.sys.workers && TailDone(j.sys.workers[id])
  }

  /** The steps of the protocol that the gate does not bring about; a backfill is nobody's offer. */
  predicate IsWork(j: Joint, e: Event) {
    && !e.Finalized? && !e.Drain? && !e.Release? && !e.Crash?
    && (e.StartBackfill? ==> e.id !in j.gate.threads)
  }

  /** A holder whose worker has gone returned with an error. */
  function Bury(gate: Gate.State, sys: Sys, e: Event): Gate.State
    requires !e.Crash?
  {
    if !e.Sight? && e.id !in sys.workers then Gate.Apply(gate, Gate.Die(e.id)) else gate
  }

  function Next(cfg: Config, j: Joint, st: Step): Joint {
    match st
    case Offer(id, tip) =>
      if id in j.gate.threads || id in j.sys.workers then j
      else Joint(Gate.Apply(j.gate, Gate.Cas(id, tip)), Apply(cfg, j.sys, Sight(tip)))
    case TakeStash(id) =>
      var g := Gate.Apply(j.gate, Gate.DrainStash(id));
      if id in j.gate.threads && j.gate.threads[id].Won? && id in g.threads && g.threads[id].Holding?
      then Joint(g, Apply(cfg, j.sys, Finalized(id, g.threads[id].target))) else j
    case LeaveTip(id) => j.(gate := Gate.Apply(j.gate, Gate.StashTip(id)))
    case WalkOn(id) =>
      if Walked(j, id) && j.gate.pending.Some?
      then Joint(Gate.Apply(j.gate, Gate.TakeNext(id)), Apply(cfg, j.sys, Drain(id, j.gate.pending.value))) else j
    case LetGo(id) =>
      if Walked(j, id) && j.gate.pending.None?
      then Joint(Gate.Apply(j.gate, Gate.SeeNone(id)), Apply(cfg, j.sys, Release(id))) else j
    case ClearFlag(id) => j.(gate := Gate.Apply(j.gate, Gate.StoreFalse(id)))
    case Work(e) =>
      if !IsWork(j, e) then j
      else
        var sys := Apply(cfg, j.sys, e);
        Joint(Bury(j.gate, sys, e), sys)
    case Restart => Joint(Gate.INITIAL, Apply(cfg, j.sys, Crash))
  }

  function Run(cfg: Config, j: Joint, sts: seq<Step>): Joint {
    if sts == [] then j else Next(cfg, Run(cfg, j, sts[..|sts| - 1]), sts[|sts| - 1])
  }

  // ---------- what ties the gate to the walks ----------

  predicate WalksFor(cfg: Config, w: Worker, target: int) {
    w == TailTarget(target) || (w.TailWalk? && w.cap == target - cfg.sync.safeLag)
  }

  /** A holder is at work on its target; any other thread has no worker. */
  ghost predicate ThreadOk(cfg: Config, j: Joint, id: nat)
    requires id in j.gate.threads
  {
    if j.gate.threads[id].Holding?
    then id in j.sys.workers && WalksFor(cfg, j.sys.workers[id], j.gate.threads[id].target)
    else id !in j.sys.workers
  }

  ghost predicate Linked(cfg: Config, j: Joint) {
    && (forall id :: id in j.gate.threads ==> ThreadOk(cfg, j, id))
    && (j.gate.offered.Some? ==> j.gate.offered.value <= j.sys.tip)
  }

  /** The safe height of a target is covered. */
  ghost predicate Done(cfg: Config, sys: Sys, target: int) {
    Covered(sys.db, sys.gaps, target - cfg.sync.safeLag)
  }

  ghost predicate HeldFor(gate: Gate.State, target: int) {
    exists id :: id in gate.threads && gate.threads[id] == Gate.Holding(target)
  }

  /** The highest target handed out has been walked, is being walked, or was lost with its holder. */
  ghost predicate Accounted(cfg: Config, j: Joint) {
    j.gate.taken.Some? ==>
      Done(cfg, j.sys, j.gate.taken.value) || HeldFor(j.gate, j.gate.taken.value) || Gate.Leaked(j.gate)
  }

  ghost predicate JointInv(cfg: Config, c0: int, j: Joint) {
    Gate.Inv(j.gate) && Inv(cfg, c0, j.sys) && Linked(cfg, j) && Accounted(cfg, j)
  }

  lemma {:induction false} WalkedIsDone(cfg: Config, c0: int, j: Joint, id: nat)
    requires JointInv(cfg, c0, j) && Walked(j, id)
    ensures Done(cfg, j.sys, j.gate.threads[id].target)
    ensures j.gate.taken.Some? ==> Done(cfg, j.sys, j.gate.taken.value)
  {
    assert ThreadOk(cfg, j, id) && WorkerOk(cfg, j.sys, j.sys.workers[id]) && Gate.Live(j.gate, id);
    if j.gate.taken.Some? && HeldFor(j.gate, j.gate.taken.value) {
      var k :| k in j.gate.threads && j.gate.threads[k] == Gate.Holding(j.gate.taken.value);
      assert Gate.Live(j.gate, k);
    }
  }

  lemma {:induction false} DoneStays(cfg: Config, s: Sys, t: Sys, target: int)
    requires Done(cfg, s, target) && Grows(s, t)
    ensures Done(cfg, t, target)
  {
  }

  // ---------- every step keeps it ----------

  lemma {:induction false} OfferKeeps(cfg: Config, c0: int, j: Joint, id: nat, tip: int)
    requires ValidConfig(cfg) && JointInv(cfg, c0, j)
    ensures JointInv(cfg, c0, Next(cfg, j, Offer(id, tip)))
  {
    var k := Next(cfg, j, Offer(id, tip));
    if k != j {
      Gate.EventKeeps(j.gate, Gate.Cas(id, tip));
      EventKeeps(cfg, c0, j.sys, Sight(tip));
      forall i | i in k.gate.threads ensures ThreadOk(cfg, k, i) {
        assert i == id || ThreadOk(cfg, j, i);
      }
      LeakStays(j.gate, Gate.Cas(id, tip));
      if j.gate.taken.Some? && HeldFor(j.gate, j.gate.taken.value) {
        var h :| h in j.gate.threads && j.gate.threads[h] == Gate.Holding(j.gate.taken.value);
        assert k.gate.threads[h] == j.gate.threads[h];
      }
    }
  }

  lemma {:induction false} LeakStays(g: Gate.State, e: Gate.Event)
    ensures Gate.Leaked(g) ==> Gate.Leaked(Gate.Apply(g, e)) && Gate.Apply(g, e).taken == g.taken
  {
    if Gate.Leaked(g) {
      assert !Gate.Live(g, e.id);
      forall id ensures !Gate.Live(Gate.Apply(g, e), id) {
        assert !Gate.Live(g, id);
      }
    }
  }

  /** A winner has no rival, so what was handed out before it has been walked. */
  lemma {:induction false} WinnerFindsAllDone(cfg: Config, c0: int, j: Joint, id: nat)
    requires JointInv(cfg, c0, j) && id in j.gate.threads && j.gate.threads[id].Won?
    ensures j.gate.taken.Some? ==> Done(cfg, j.sys, j.gate.taken.value)
  {
    assert Gate.Live(j.gate, id);
    if j.gate.taken.Some? && HeldFor(j.gate, j.gate.taken.value) {
      var k :| k in j.gate.threads && j.gate.threads[k] == Gate.Holding(j.gate.taken.value);
      assert Gate.Live(j.gate, k);
    }
  }

  lemma {:induction false} TakeStashKeeps(cfg: Config, c0: int, j: Joint, id: nat)
    requires ValidConfig(cfg) && JointInv(cfg, c0, j)
    ensures JointInv(cfg, c0, Next(cfg, j, TakeStash(id)))
  {
    var k := Next(cfg, j, TakeStash(id));
    if k != j {
      var target := k.gate.threads[id].target;
      Gate.EventKeeps(j.gate, Gate.DrainStash(id));
      EventKeeps(cfg, c0, j.sys, Finalized(id, target));
      WinnerFindsAllDone(cfg, c0, j, id);
      assert ThreadOk(cfg, j, id);
      forall i | i in k.gate.threads ensures ThreadOk(cfg, k, i) {
        assert i == id || ThreadOk(cfg, j, i);
      }
      assert k.gate.threads[id] == Gate.Holding(target);
      assert k.gate.taken == j.gate.taken || HeldFor(k.gate, k.gate.taken.value);
    }
  }

  lemma {:induction false} WalkOnKeeps(cfg: Config, c0: int, j: Joint, id: nat)
    requires ValidConfig(cfg) && JointInv(cfg, c0, j)
    ensures JointInv(cfg, c0, Next(cfg, j, WalkOn(id)))
  {
    var k := Next(cfg, j, WalkOn(id));
    if Walked(j, id) && j.gate.pending.Some? {
      var target := j.gate.pending.value;
      Gate.EventKeeps(j.gate, Gate.TakeNext(id));
      EventKeeps(cfg, c0, j.sys, Drain(id, target));
      WalkedIsDone(cfg, c0, j, id);
      forall i | i in k.gate.threads ensures ThreadOk(cfg, k, i) {
        assert ThreadOk(cfg, j, i);
      }
      assert k.gate.threads[id] == Gate.Holding(target);
      assert k.gate.taken == j.gate.taken || HeldFor(k.gate, k.gate.taken.value);
    }
  }

  lemma {:induction false} LetGoKeeps(cfg: Config, c0: int, j: Joint, id: nat)
    requires ValidConfig(cfg) && JointInv(cfg, c0, j)
    ensures JointInv(cfg, c0, Next(cfg, j, LetGo(id)))
  {
    var k := Next(cfg, j, LetGo(id));
    if Walked(j, id) && j.gate.pending.None? {
      Gate.EventKeeps(j.gate, Gate.SeeNone(id));
      EventKeeps(cfg, c0, j.sys, Release(id));
      WalkedIsDone(cfg, c0, j, id);
      forall i | i in k.gate.threads ensures ThreadOk(cfg, k, i) {
        assert ThreadOk(cfg, j, i);
      }
    }
  }

  /** A loser's stash or the cleared flag touches no holder. */
  lemma {:induction false} GateStepKeeps(cfg: Config, c0: int, j: Joint, e: Gate.Event)
    requires ValidConfig(cfg) && JointInv(cfg, c0, j) && (e.StashTip? || e.StoreFalse?)
    ensures JointInv(cfg, c0, j.(gate := Gate.Apply(j.gate, e)))
  {
    var k := j.(gate := Gate.Apply(j.gate, e));
    Gate.EventKeeps(j.gate, e);
    LeakStays(j.gate, e);
    forall i | i in k.gate.threads ensures ThreadOk(cfg, k, i) {
      assert ThreadOk(cfg, j, i);
    }
    if j.gate.taken.Some? && HeldFor(j.gate, j.gate.taken.value) {
      var h :| h in j.gate.threads && j.gate.threads[h] == Gate.Holding(j.gate.taken.value);
      assert h in k.gate.threads && k.gate.threads[h] == j.gate.threads[h];
    }
  }

  // ---------- a step of a walk or of a backfill ----------

  lemma {:induction false} CommitWalksOn(cfg: Config, s: Sys, id: nat, target: int, outcome: Result<Db>)
    requires id in s.workers && WalksFor(cfg, s.workers[id], target)
    ensures var t := ApplyCommit(s, id, s.workers[id], outcome);
            id in t.workers ==> WalksFor(cfg, t.workers[id], target)
  {
  }

  /** A walk stays the walk for its target, and nobody starts one out of turn. */
  lemma {:induction false} WorkWalksOn(cfg: Config, s: Sys, e: Event, id: nat, target: int)
    requires !e.Finalized? && !e.Drain? && !e.Release? && !e.Crash?
    requires id in s.workers && WalksFor(cfg, s.workers[id], target)
    ensures var t := Apply(cfg, s, e);
            && (id in t.workers ==> WalksFor(cfg, t.workers[id], target))
            && (id !in t.workers ==> !e.Sight? && e.id == id)
  {
    if e.Commit? && e.id == id {
      CommitWalksOn(cfg, s, id, target, Outcome(s.db, s.workers[id]));
    } else if e.Commit? && e.id in s.workers {
      CommitLeavesOthers(s, e.id, id, Outcome(s.db, s.workers[e.id]));
    }
  }

  lemma {:induction false} CommitLeavesOthers(s: Sys, id: nat, other: nat, outcome: Result<Db>)
    requires id in s.workers && id != other
    ensures var t := ApplyCommit(s, id, s.workers[id], outcome);
            && (other in t.workers <==> other in s.workers)
            && (other in s.workers ==> t.workers[other] == s.workers[other])
  {
  }

  lemma {:induction false} NoNewWorker(cfg: Config, s: Sys, e: Event, id: nat)
    requires !e.Finalized? && !e.Drain? && !e.Release? && !e.Crash? && (e.StartBackfill? ==> e.id != id)
    requires id !in s.workers
    ensures id !in Apply(cfg, s, e).workers
  {
    if e.Commit? && e.id in s.workers {
      CommitLeavesOthers(s, e.id, id, Outcome(s.db, s.workers[e.id]));
    }
  }

  lemma {:induction false} DeathLeaks(g: Gate.State, id: nat)
    requires Gate.Inv(g) && id in g.threads && g.threads[id].Holding?
    ensures Gate.Leaked(Gate.Apply(g, Gate.Die(id)))
  {
    assert Gate.Live(g, id);
    forall k ensures !Gate.Live(Gate.Apply(g, Gate.Die(id)), k) {
      assert Gate.Live(g, k) ==> k == id;
    }
  }

  lemma {:induction false} WorkLinks(cfg: Config, j: Joint, e: Event, sys: Sys)
    requires Linked(cfg, j) && IsWork(j, e) && sys == Apply(cfg, j.sys, e) && j.sys.tip <= sys.tip
    ensures Linked(cfg, Joint(Bury(j.gate, sys, e), sys))
  {
    var k := Joint(Bury(j.gate, sys, e), sys);
    forall i | i in k.gate.threads ensures ThreadOk(cfg, k, i) {
      assert ThreadOk(cfg, j, i);
      if j.gate.threads[i].Holding? {
        WorkWalksOn(cfg, j.sys, e, i, j.gate.threads[i].target);
      } else {
        NoNewWorker(cfg, j.sys, e, i);
      }
    }
  }

  lemma {:induction false} WorkAccounts(cfg: Config, j: Joint, e: Event, sys: Sys)
    requires Gate.Inv(j.gate) && Accounted(cfg, j) && !e.Crash? && Grows(j.sys, sys)
    ensures Accounted(cfg, Joint(Bury(j.gate, sys, e), sys))
  {
    var g := Bury(j.gate, sys, e);
    if g != j.gate {
      DeathLeaks(j.gate, e.id);
    } else if j.gate.taken.Some? && Done(cfg, j.sys, j.gate.taken.value) {
      DoneStays(cfg, j.sys, sys, j.gate.taken.value);
    }
  }

  lemma {:induction false} WorkKeeps(cfg: Config, c0: int, j: Joint, e: Event)
    requires ValidConfig(cfg) && JointInv(cfg, c0, j)
    ensures JointInv(cfg, c0, Next(cfg, j, Work(e)))
  {
    if IsWork(j, e) {
      var sys := Apply(cfg, j.sys, e);
      EventKeeps(cfg, c0, j.sys, e);
      WorkLinks(cfg, j, e, sys);
      WorkAccounts(cfg, j, e, sys);
      if !e.Sight? {
        Gate.EventKeeps(j.gate, Gate.Die(e.id));
      }
    }
  }

  lemma {:induction false} StepKeeps(cfg: Config, c0: int, j: Joint, st: Step)
    requires ValidConfig(cfg) && JointInv(cfg, c0, j)
    ensures JointInv(cfg, c0, Next(cfg, j, st))
  {
    match st {
      case Offer(id, tip) => OfferKeeps(cfg, c0, j, id, tip);
      case TakeStash(id) => TakeStashKeeps(cfg, c0, j, id);
      case LeaveTip(id) => GateStepKeeps(cfg, c0, j, Gate.StashTip(id));
      case WalkOn(id) => WalkOnKeeps(cfg, c0, j, id);
      case LetGo(id) => LetGoKeeps(cfg, c0, j, id);
      case ClearFlag(id) => GateStepKeeps(cfg, c0, j, Gate.StoreFalse(id));
      case Work(e) => WorkKeeps(cfg, c0, j, e);
      case Restart =>
        Gate.AtMostOneHolder([]);
        EventKeeps(cfg, c0, j.sys, Crash);
    }
  }

  function Start(db: Db, gaps: set<int>): Joint {
    Joint(Gate.INITIAL, Boot(db, gaps))
  }

  lemma {:induction false} RunKeepsJoint(cfg: Config, db: Db, gaps: set<int>, sts: seq<Step>)
    requires ValidConfig(cfg) && Integrity(db) && Covered(db, gaps, CursorOf(db)) && CursorOf(db) >= -1
    ensures JointInv(cfg, CursorOf(db), Run(cfg, Start(db, gaps), sts))
  {
    if sts == [] {
      Gate.AtMostOneHolder([]);
    } else {
      RunKeepsJoint(cfg, db, gaps, sts[..|sts| - 1]);
      StepKeeps(cfg, CursorOf(db), Run(cfg, Start(db, gaps), sts[..|sts| - 1]), sts[|sts| - 1]);
    }
  }

  // ---------- main results ----------

  /**
   Whenever the flag is clear, in every interleaving of offers, gate accesses, walks, backfills and restarts, the
   store is covered up to the safe height of the highest target handed out since the last start.
   */
  lemma {:induction false} FreeGateHasWalked(cfg: Config, db: Db, gaps: set<int>, sts: seq<Step>)
    requires ValidConfig(cfg) && Integrity(db) && Covered(db, gaps, CursorOf(db)) && CursorOf(db) >= -1
    ensures var j := Run(cfg, Start(db, gaps), sts);
            !j.gate.inflight && j.gate.taken.Some? ==> Done(cfg, j.sys, j.gate.taken.value)
  {
    RunKeepsJoint(cfg, db, gaps, sts);
    var j := Run(cfg, Start(db, gaps), sts);
    if !j.gate.inflight && j.gate.taken.Some? && HeldFor(j.gate, j.gate.taken.value) {
      var id :| id in j.gate.threads && j.gate.threads[id] == Gate.Holding(j.gate.taken.value);
      assert Gate.Live(j.gate, id);
    }
  }

  /**
   So once every offer is over and the flag is clear, the store is covered up to the safe height of the highest
   tip offered since the last start, unless that very tip waits stashed on the free gate.
   */
  lemma {:induction false} QuietIsCovered(cfg: Config, db: Db, gaps: set<int>, sts: seq<Step>)
    requires ValidConfig(cfg) && Integrity(db) && Covered(db, gaps, CursorOf(db)) && CursorOf(db) >= -1
    requires var g := Run(cfg, Start(db, gaps), sts).gate;
             !g.inflight && g.offered.Some? && forall id, tip :: !Gate.InTransit(g, id, tip)
    ensures var j := Run(cfg, Start(db, gaps), sts);
            Done(cfg, j.sys, j.gate.offered.value) || (Gate.Stranded(j.gate) && j.gate.pending == j.gate.offered)
  {
    FreeGateHasWalked(cfg, db, gaps, sts);
    RunKeepsJoint(cfg, db, gaps, sts);
    var g := Run(cfg, Start(db, gaps), sts).gate;
    assert Gate.IsMaximum(g, g.offered);
  }
}
