/** One finalized event of the tail loop: take the gate, walk to the safe height, drain what arrived meanwhile. */
module Tail {
  import opened Prelude
  import opened Rows
  import opened Store
  import opened BlockWriter
  import opened Fetch
  import opened Ingest
  import opened SingleFlight
  import opened SyncProtocol
  import opened SyncTrace

  /** Fetch and write one height, or step over a 404. */
  method IngestOneBlock(pool: Pool, h: int, answers: int -> Answer, online: bool,
                        ghost tr: Trace, ghost s: Sys, ghost cap: int)
    returns (r: Result<()>, ghost t: Sys)
    requires Closed(tr) && Follows(tr.cfg, answers) && h <= cap && Walks(tr, s, pool.db, cap, h)
    modifies pool
    ensures r.Ok? ==> IngestOne(old(pool.db), h, answers(h)) == Ok(pool.db)
    ensures r.Err? ==> pool.db == old(pool.db)
    ensures online && IngestOne(old(pool.db), h, answers(h)).Ok? ==> r.Ok?
    ensures if r.Ok? then Walks(tr, t, pool.db, cap, h + 1) else Gone(tr, t, pool.db)
  {
    match answers(h) {
      case Failed(e) => r := Err(e);
      case NotFound => r := pool.AdvanceCursor(h, 0, online);
      case Found(b) => r := pool.WriteBlock(b, online);
    }
    t := HeightStep(tr, s, old(pool.db), cap, h, answers, online, pool.db, r.Ok?);
  }

  /** Write `from` to `cap` block by block; stops at the first failure, `upTo` being the last height done. */
  method WalkTo(pool: Pool, from: int, cap: int, answers: int -> Answer, up: int -> bool,
                ghost model: int -> Result<Db>, ghost db0: Db, ghost lo: int, ghost tr: Trace, ghost s: Sys)
    returns (r: Result<()>, ghost upTo: int, ghost t: Sys)
    requires IsIngestion(model, db0, answers, lo) && lo <= from && model(from - 1) == Ok(pool.db)
    requires Closed(tr) && Follows(tr.cfg, answers) && Walks(tr, s, pool.db, cap, from)
    modifies pool
    ensures from - 1 <= upTo && (from <= cap ==> upTo <= cap) && model(upTo) == Ok(pool.db)
    ensures r.Ok? ==> upTo == Max(from - 1, cap)
    ensures (forall h :: up(h)) && model(cap).Ok? ==> r.Ok?
    ensures if r.Ok? then Walks(tr, t, pool.db, cap, upTo + 1) else Gone(tr, t, pool.db)
  {
    upTo, t := from - 1, s;
    var h := from;
    while h <= cap
      invariant from <= h && h <= Max(from, cap + 1) && upTo == h - 1 && model(upTo) == Ok(pool.db)
      invariant Walks(tr, t, pool.db, cap, h)
    {
      ModelStep(model, db0, answers, lo, h, pool.db);
      if model(cap).Ok? {
        ModelPrefix(model, db0, answers, lo, h, cap);
      }
      var w;
      w, t := IngestOneBlock(pool, h, answers, up(h), tr, t, cap);
      if w.Err? {
        return Err(w.error), upTo, t;
      }
      upTo, h := h, h + 1;
    }
    return Ok(()), upTo, t;
  }

  lemma {:induction false} ModelCursor(model: int -> Result<Db>, db0: Db, answers: int -> Answer, k: int)
    requires Honest(answers) && IsIngestion(model, db0, answers, CursorOf(db0) + 1)
    requires k >= CursorOf(db0) && model(k).Ok?
    ensures CursorOf(model(k).value) == k
  {
    assert IsIngestionAt(model, db0, answers, CursorOf(db0) + 1, k);
    IngestCovers(db0, answers, CursorOf(db0) + 1, k);
  }

  /** Highest of a stash and a list of tips. */
  function BestTip(stash: Option<int>, tips: seq<int>): Option<int> {
    if tips == [] then stash else Some(Highest(BestTip(stash, tips[..|tips| - 1]), tips[|tips| - 1]))
  }

  /** Highest target over a first target and the tips of several rounds. */
  function BestOf(first: int, rounds: seq<seq<int>>): int {
    if rounds == [] then first
    else
      var best, last := BestOf(first, rounds[..|rounds| - 1]), BestTip(None, rounds[|rounds| - 1]);
      if last.None? then best else Max(best, last.value)
  }

  lemma {:induction false} BestTipBounds(stash: Option<int>, tips: seq<int>)
    ensures stash.Some? ==> BestTip(stash, tips).Some? && stash.value <= BestTip(stash, tips).value
    ensures forall t :: t in tips ==> BestTip(stash, tips).Some? && t <= BestTip(stash, tips).value
  {
    if tips != [] {
      var init := tips[..|tips| - 1];
      BestTipBounds(stash, init);
      forall t | t in tips ensures t <= BestTip(stash, tips).value {
        assert t in init || t == tips[|tips| - 1];
      }
    }
  }

  /** Every tip of every consumed round is at most the best target. */
  lemma {:induction false} BestOfBounds(first: int, rounds: seq<seq<int>>)
    ensures first <= BestOf(first, rounds)
    ensures forall k, t :: 0 <= k < |rounds| && t in rounds[k] ==> t <= BestOf(first, rounds)
  {
    if rounds != [] {
      var init := rounds[..|rounds| - 1];
      BestOfBounds(first, init);
      BestTipBounds(None, rounds[|rounds| - 1]);
      forall k, t | 0 <= k < |rounds| && t in rounds[k] ensures t <= BestOf(first, rounds) {
        if k < |init| {
          assert t in init[k];
        }
      }
    }
  }

  /** Other tasks offer tips while the holder works. */
  method OfferAll(gate: Gate, tips: seq<int>)
    requires gate.inflight
    modifies gate
    ensures gate.inflight && gate.pending == BestTip(old(gate.pending), tips)
  {
    for i := 0 to |tips|
      invariant gate.inflight && gate.pending == BestTip(old(gate.pending), tips[..i])
    {
      assert tips[..i + 1][..i] == tips[..i];
      var o := gate.Propose(tips[i]);
    }
    assert tips[..|tips|] == tips;
  }

  /** Read the cursor and walk from it to the safe height of `target`. */
  method WalkToTarget(pool: Pool, safeLag: nat, target: int, answers: int -> Answer, readUp: bool, up: int -> bool,
                      ghost model: int -> Result<Db>, ghost db0: Db, ghost done: int, ghost tr: Trace, ghost s: Sys)
    returns (r: Result<()>, ghost upTo: int, ghost t: Sys)
    requires Honest(answers) && IsIngestion(model, db0, answers, CursorOf(db0) + 1)
    requires done >= CursorOf(db0) && model(done) == Ok(pool.db)
    requires Closed(tr) && Follows(tr.cfg, answers) && tr.cfg.sync.safeLag == safeLag
    requires Stands(tr, s, pool.db, TailTarget(target))
    modifies pool
    ensures upTo >= done && model(upTo) == Ok(pool.db)
    ensures r.Ok? ==> upTo == Max(done, target - safeLag) && Walks(tr, t, pool.db, target - safeLag, upTo + 1)
    ensures r.Err? ==> Gone(tr, t, pool.db)
    ensures readUp && (forall h :: up(h)) && model(target - safeLag).Ok? ==> r.Ok?
  {
    if !readUp {
      t := FailStep(tr, s, pool.db, TailTarget(target));
      return Err(DatabaseDown), done, t;
    }
    ModelCursor(model, db0, answers, done);
    var cursor := CursorOf(pool.db);
    var cap := target - safeLag;
    t := ReadStep(tr, s, pool.db, target, safeLag);
    if cap <= cursor {
      return Ok(()), cursor, t;
    }
    r, upTo, t := WalkTo(pool, cursor + 1, cap, answers, up, model, db0, CursorOf(db0) + 1, tr, t);
  }

  /** One round of the holder: walk, let others offer `tips`, then take over what they stashed or let go. */
  method Round(pool: Pool, gate: Gate, safeLag: nat, target: int, answers: int -> Answer, tips: seq<int>,
               readUp: bool, up: int -> bool,
               ghost model: int -> Result<Db>, ghost db0: Db, ghost done: int, ghost tr: Trace, ghost s: Sys)
    returns (r: Result<Option<int>>, ghost upTo: int, ghost t: Sys)
    requires Honest(answers) && IsIngestion(model, db0, answers, CursorOf(db0) + 1)
    requires done >= CursorOf(db0) && model(done) == Ok(pool.db) && gate.inflight && gate.pending == None
    requires Closed(tr) && Follows(tr.cfg, answers) && tr.cfg.sync.safeLag == safeLag
    requires Stands(tr, s, pool.db, TailTarget(target))
    modifies pool, gate
    ensures upTo >= done && model(upTo) == Ok(pool.db) && gate.pending == None
    ensures r.Ok? ==> upTo == Max(done, target - safeLag) && r.value == BestTip(None, tips)
    ensures gate.inflight == (r.Err? || r.value.Some?)
    ensures if r.Ok? && r.value.Some? then Stands(tr, t, pool.db, TailTarget(r.value.value)) else Gone(tr, t, pool.db)
    ensures readUp && (forall h :: up(h)) && model(target - safeLag).Ok? ==> r.Ok?
  {
    var w;
    w, upTo, t := WalkToTarget(pool, safeLag, target, answers, readUp, up, model, db0, done, tr, s);
    if w.Err? {
      return Err(w.error), upTo, t;
    }
    OfferAll(gate, tips);
    var next := gate.TakePendingAndRelease();
    if next.None? {
      t := ReleaseStep(tr, t, pool.db, target - safeLag, upTo + 1);
    } else {
      t := DrainStep(tr, t, pool.db, target - safeLag, upTo + 1, next.value);
    }
    return Ok(next), upTo, t;
  }

  /** From `cursor` the rounds before the first in which nobody offered were walked, up to their best safe height. */
  ghost predicate WalkedOut(
      cursor: int, safeLag: nat, first: int, arrivals: seq<seq<int>>, rounds: nat, upTo: int)
  {
    && rounds <= |arrivals| && (rounds < |arrivals| ==> arrivals[rounds] == [])
    && upTo == Max(cursor, BestOf(first, arrivals[..rounds]) - safeLag)
  }

  /** After `rounds` rounds the next walk, to `current`, will have covered the best of all tips so far. */
  ghost predicate OnTheWay(
      cursor: int, safeLag: nat, first: int, arrivals: seq<seq<int>>, rounds: nat, current: int, upTo: int)
  {
    && rounds <= |arrivals| && current <= BestOf(first, arrivals[..rounds])
    && Max(upTo, current - safeLag) == Max(cursor, BestOf(first, arrivals[..rounds]) - safeLag)
  }

  lemma {:induction false} OneMoreRound(
      cursor: int, safeLag: nat, first: int, arrivals: seq<seq<int>>, rounds: nat, current: int, upTo: int, next: int)
    requires OnTheWay(cursor, safeLag, first, arrivals, rounds, current, upTo)
    requires rounds < |arrivals| && BestTip(None, arrivals[rounds]) == Some(next)
    ensures OnTheWay(cursor, safeLag, first, arrivals, rounds + 1, next, Max(upTo, current - safeLag))
  {
    assert arrivals[..rounds + 1][..rounds] == arrivals[..rounds];
  }

  lemma {:induction false} LastRound(
      cursor: int, safeLag: nat, first: int, arrivals: seq<seq<int>>, rounds: nat, current: int, upTo: int,
      tips: seq<int>)
    requires OnTheWay(cursor, safeLag, first, arrivals, rounds, current, upTo)
    requires tips == (if rounds < |arrivals| then arrivals[rounds] else []) && BestTip(None, tips).None?
    ensures WalkedOut(cursor, safeLag, first, arrivals, rounds, Max(upTo, current - safeLag))
  {
    NoTipNoRound(tips);
  }

  /** The chain's answers up to `hi` can be ingested. */
  ghost predicate CanSync(db: Db, answers: int -> Answer, hi: int) {
    SyncedTo(db, answers, hi).Ok?
  }

  /** Nothing fails on the way: every read and write goes through. */
  ghost predicate AllUp(readUp: nat -> bool, up: int -> bool) {
    (forall k :: readUp(k)) && (forall h :: up(h))
  }

  lemma {:induction false} BestGrows(first: int, rounds: seq<seq<int>>, k: nat)
    requires k <= |rounds|
    ensures BestOf(first, rounds[..k]) <= BestOf(first, rounds)
  {
    if k < |rounds| {
      var init := rounds[..|rounds| - 1];
      BestGrows(first, init, k);
      assert init[..k] == rounds[..k];
    } else {
      assert rounds[..k] == rounds;
    }
  }

  /** If the range up to the best tip of all can be ingested, so can every earlier target's. */
  lemma {:induction false} TargetIsIngestible(
      model: int -> Result<Db>, db0: Db, answers: int -> Answer, lo: int, first: int, rounds: seq<seq<int>>, k: nat,
      target: int, safeLag: nat)
    requires IsIngestion(model, db0, answers, lo) && k <= |rounds| && target <= BestOf(first, rounds[..k])
    ensures model(BestOf(first, rounds) - safeLag).Ok? ==> model(target - safeLag).Ok?
  {
    BestGrows(first, rounds, k);
    if model(BestOf(first, rounds) - safeLag).Ok? {
      ModelPrefix(model, db0, answers, lo, target - safeLag, BestOf(first, rounds) - safeLag);
    }
  }

  /** Walk, let others offer, drain, and repeat until nothing is stashed. */
  method HoldGate(pool: Pool, gate: Gate, safeLag: nat, target: int, answers: int -> Answer,
                  arrivals: seq<seq<int>>, readUp: nat -> bool, up: int -> bool,
                  ghost model: int -> Result<Db>, ghost db0: Db, ghost tr: Trace, ghost s: Sys)
    returns (r: Result<()>, rounds: nat, ghost upTo: int, ghost t: Sys)
    requires Honest(answers) && IsIngestion(model, db0, answers, CursorOf(db0) + 1)
    requires model(CursorOf(db0)) == Ok(pool.db) && gate.inflight && gate.pending == None
    requires Closed(tr) && Follows(tr.cfg, answers) && tr.cfg.sync.safeLag == safeLag
    requires Stands(tr, s, pool.db, TailTarget(target))
    modifies pool, gate
    ensures upTo >= CursorOf(db0) && model(upTo) == Ok(pool.db)
    ensures r.Ok? ==>
              !gate.inflight && gate.pending == None
              && WalkedOut(CursorOf(db0), safeLag, target, arrivals, rounds, upTo)
    ensures r.Err? ==> gate.inflight && gate.pending == None
    ensures AllUp(readUp, up) && model(BestOf(target, arrivals) - safeLag).Ok? ==> r.Ok?
    ensures Gone(tr, t, pool.db)
  {
    var current := target;
    ghost var c := CursorOf(db0);
    rounds, upTo, t := 0, c, s;
    while true
      invariant gate.inflight && gate.pending == None
      invariant OnTheWay(c, safeLag, target, arrivals, rounds, current, upTo)
      invariant upTo >= c && model(upTo) == Ok(pool.db)
      invariant Stands(tr, t, pool.db, TailTarget(current))
      decreases |arrivals| - rounds
    {
      TargetIsIngestible(model, db0, answers, c + 1, target, arrivals, rounds, current, safeLag);
      ghost var before := upTo;
      var tips, next := if rounds < |arrivals| then arrivals[rounds] else [], Err(DatabaseDown);
      next, upTo, t := Round(pool, gate, safeLag, current, answers, tips, readUp(rounds), up, model, db0, upTo, tr, t);
      if next.Err? {
        return Err(next.error), rounds, upTo, t;
      }
      if next.value.None? {
        LastRound(c, safeLag, target, arrivals, rounds, current, before, tips);
        return Ok(()), rounds, upTo, t;
      }
      OneMoreRound(c, safeLag, target, arrivals, rounds, current, before, next.value.value);
      current, rounds := next.value.value, rounds + 1;
    }
  }

  lemma {:induction false} NoTipNoRound(tips: seq<int>)
    requires BestTip(None, tips).None?
    ensures tips == []
  {
  }

  /** A holder's work, measured from the store it found. */
  method Hold(pool: Pool, gate: Gate, safeLag: nat, target: int, answers: int -> Answer,
              arrivals: seq<seq<int>>, readUp: nat -> bool, up: int -> bool, ghost tr: Trace, ghost s: Sys)
    returns (r: Result<()>, rounds: nat, ghost upTo: int, ghost t: Sys)
    requires Honest(answers) && gate.inflight && gate.pending == None
    requires Closed(tr) && ServesTail(tr.cfg, safeLag, answers) && Gone(tr, s, pool.db)
    modifies pool, gate
    ensures upTo >= CursorOf(old(pool.db)) && SyncedTo(old(pool.db), answers, upTo) == Ok(pool.db)
    ensures r.Ok? ==>
              !gate.inflight && gate.pending == None
              && WalkedOut(CursorOf(old(pool.db)), safeLag, target, arrivals, rounds, upTo)
    ensures r.Err? ==> gate.inflight && gate.pending == None
    ensures AllUp(readUp, up) && CanSync(old(pool.db), answers, BestOf(target, arrivals) - safeLag) ==> r.Ok?
    ensures Gone(tr, t, pool.db)
  {
    ghost var db0 := pool.db;
    ghost var model := RangeModel(db0, answers, CursorOf(db0) + 1);
    RangeModelIsIngestion(db0, answers, CursorOf(db0) + 1);
    t := AcquireStep(tr, s, pool.db, target);
    r, rounds, upTo, t := HoldGate(pool, gate, safeLag, target, answers, arrivals, readUp, up, model, db0, tr, t);
  }

  /**
   `arrivals[k]` are the tips other tasks offer during the k-th walk and `readUp(k)` says whether its
   cursor read succeeds. A clean return has walked to the safe height of the best tip and freed the
   gate; a failure keeps the gate.
   */
  method HandleFinalized(pool: Pool, gate: Gate, safeLag: nat, tip: int, answers: int -> Answer,
                         arrivals: seq<seq<int>>, readUp: nat -> bool, up: int -> bool,
                         ghost protocol: Config, ghost id: nat, ghost s: Sys)
    returns (r: Result<()>, rounds: nat, ghost upTo: int)
    requires Honest(answers)
    requires ServesTail(protocol, safeLag, answers) && s.db == pool.db && id !in s.workers
    modifies pool, gate
    ensures old(gate.inflight) ==>
              && r == Ok(()) && pool.db == old(pool.db)
              && gate.inflight && gate.pending == Some(Highest(old(gate.pending), tip))
    ensures !old(gate.inflight) ==>
              && upTo >= CursorOf(old(pool.db)) && SyncedTo(old(pool.db), answers, upTo) == Ok(pool.db)
    ensures !old(gate.inflight) && r.Ok? ==>
              !gate.inflight && gate.pending == None
              && WalkedOut(CursorOf(old(pool.db)), safeLag, Highest(old(gate.pending), tip), arrivals, rounds, upTo)
    ensures r.Err? ==> gate.inflight && gate.pending == None
    // Without faults a holder that can ingest up to the best tip of all gets through.
    ensures AllUp(readUp, up)
            && CanSync(old(pool.db), answers, BestOf(Highest(old(gate.pending), tip), arrivals) - safeLag)
            ==> r.Ok?
    // And the whole call is a run of worker `id` of the protocol, which leaves this store and no worker.
    ensures IsRunOf(protocol, s, id, pool.db)
  {
    rounds, upTo := 0, CursorOf(pool.db);
    ghost var tr, t := TraceFrom(protocol, id, s), s;
    TraceIsClosed(protocol, id, s);
    var offer := gate.Propose(tip);
    if offer.Acquired? {
      r, rounds, upTo, t := Hold(pool, gate, safeLag, offer.target, answers, arrivals, readUp, up, tr, t);
    } else {
      r := Ok(());
    }
    ReachedIsRun(protocol, id, s, t, pool.db);
  }
}
