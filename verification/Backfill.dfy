/** The pipelined backfill walk over the store, with its buffer, gaps, cancellation and faults. */
module Backfill {
  import opened Prelude
  import opened Rows
  import opened Store
  import opened BlockWriter
  import opened BatchRefinement
  import opened Fetch
  import opened Ingest
  import opened SyncSettings
  import opened SyncProtocol
  import opened SyncTrace

  /** Commit the buffered bundles as one batch; the new position is their highest height. */
  method Flush(pool: Pool, buf: seq<Bundle>, online: bool,
               ghost model: int -> Result<Db>, ghost db0: Db, ghost answers: int -> Answer,
               ghost lo: int, ghost hi: int, ghost tr: Trace, ghost s: Sys, ghost w: Worker)
    returns (r: Result<int>, ghost t: Sys)
    requires Closed(tr) && Stands(tr, s, pool.db, w) && Flushing(w) && w.buf == buf
    requires buf != [] && Honest(answers) && Buffered(buf, answers, hi) && lo <= hi - |buf| + 1
    requires IsIngestion(model, db0, answers, lo) && SameUpToLag(Ok(pool.db), model(hi - |buf|))
    modifies pool
    ensures r.Ok? ==> r.value == hi && SameUpToLag(Ok(pool.db), model(hi))
    ensures r.Err? ==> pool.db == old(pool.db)
    ensures online && model(hi).Ok? ==> r.Ok?
    ensures Flushed(tr, t, pool.db, w, r.Ok?)
  {
    BufferedAscending(buf, answers, hi);
    AscendingCursor(buf);
    assert IsIngestionAt(model, db0, answers, lo, hi) && IsIngestionAt(model, db0, answers, lo, hi - |buf|);
    BatchTracksIngest(pool.db, db0, answers, lo, hi, buf);
    var highest := MaxHeight(buf);
    var step := pool.BatchWriteBlocks(buf, online);
    t := FlushStep(tr, s, old(pool.db), w, online, pool.db, step.Ok?);
    if step.Err? {
      return Err(step.error), t;
    }
    return Ok(highest), t;
  }

  /** Step over a 404: the cursor moves in a statement of its own. */
  method SkipHeight(pool: Pool, h: int, online: bool,
                    ghost model: int -> Result<Db>, ghost db0: Db, ghost answers: int -> Answer, ghost lo: int,
                    ghost tr: Trace, ghost s: Sys, ghost cap: int)
    returns (r: Result<()>, ghost t: Sys)
    requires Closed(tr) && Stands(tr, s, pool.db, BackfillWalk(cap, h, [], Skip))
    requires answers(h).NotFound? && lo <= h
    requires IsIngestion(model, db0, answers, lo) && SameUpToLag(Ok(pool.db), model(h - 1))
    modifies pool
    ensures r.Ok? <==> online
    ensures r.Ok? ==> SameUpToLag(Ok(pool.db), model(h))
    ensures r.Err? ==> pool.db == old(pool.db)
    ensures if r.Ok? then Stands(tr, t, pool.db, BackfillWalk(cap, h + 1, [], Consume)) else Gone(tr, t, pool.db)
  {
    assert IsIngestionAt(model, db0, answers, lo, h) && IsIngestionAt(model, db0, answers, lo, h - 1);
    r := pool.AdvanceCursor(h, 0, online);
    t := SkipStep(tr, s, old(pool.db), cap, h, online);
  }

  /** A 404 for height `h`: flush what is buffered, then step over it. */
  method TakeGap(
      pool: Pool, buf: seq<Bundle>, h: int, ghost answers: int -> Answer, upFlush: bool, upSkip: bool,
      ghost model: int -> Result<Db>, ghost db0: Db, ghost lo: int, ghost tr: Trace, ghost s: Sys, ghost cap: int)
    returns (r: Result<seq<Bundle>>, ghost upTo: int, ghost t: Sys)
    requires Closed(tr)
    requires Stands(tr, s, pool.db, BackfillWalk(cap, h, buf, if buf == [] then Skip else FlushThenSkip))
    requires Honest(answers) && Buffered(buf, answers, h - 1) && lo <= h - |buf| && answers(h).NotFound?
    requires IsIngestion(model, db0, answers, lo) && SameUpToLag(Ok(pool.db), model(h - 1 - |buf|))
    modifies pool
    ensures r.Ok? ==> r.value == [] && upTo == h
    ensures r.Err? ==> upTo == h - 1 - |buf| || upTo == h - 1
    ensures SameUpToLag(Ok(pool.db), model(upTo))
    ensures upFlush && upSkip && model(h - 1).Ok? ==> r.Ok?
    ensures if r.Ok? then Stands(tr, t, pool.db, BackfillWalk(cap, h + 1, [], Consume)) else Gone(tr, t, pool.db)
  {
    upTo, t := h - 1 - |buf|, s;
    if buf != [] {
      var w;
      w, t := Flush(pool, buf, upFlush, model, db0, answers, lo, h - 1,
                    tr, t, BackfillWalk(cap, h, buf, FlushThenSkip));
      if w.Err? {
        return Err(w.error), upTo, t;
      }
      upTo := h - 1;
    }
    var skip;
    skip, t := SkipHeight(pool, h, upSkip, model, db0, answers, lo, tr, t, cap);
    if skip.Err? {
      return Err(skip.error), upTo, t;
    }
    return Ok([]), h, t;
  }

  /**
   Consume the answer for height `h`: buffer a bundle and flush at the batch size, or flush what is
   buffered and then step over a 404.
   */
  method TakeAnswer(
      pool: Pool, buf: seq<Bundle>, h: int, answers: int -> Answer, batchSize: nat, upFlush: bool, upSkip: bool,
      ghost model: int -> Result<Db>, ghost db0: Db, ghost lo: int, ghost tr: Trace, ghost s: Sys, ghost cap: int)
    returns (r: Result<seq<Bundle>>, ghost upTo: int, ghost t: Sys)
    requires Closed(tr) && Follows(tr.cfg, answers) && tr.cfg.batchSize == batchSize && h <= cap
    requires Stands(tr, s, pool.db, BackfillWalk(cap, h, buf, Consume))
    requires Honest(answers) && Buffered(buf, answers, h - 1) && |buf| < batchSize && lo <= h - |buf|
    requires IsIngestion(model, db0, answers, lo) && SameUpToLag(Ok(pool.db), model(h - 1 - |buf|))
    modifies pool
    ensures r.Ok? ==> Buffered(r.value, answers, h) && |r.value| < batchSize && upTo == h - |r.value|
    ensures r.Err? ==> upTo == h - 1 - |buf| || upTo == h - 1
    ensures h - 1 - |buf| <= upTo <= h && SameUpToLag(Ok(pool.db), model(upTo))
    ensures r.Ok? && answers(h).NotFound? ==> r.value == []
    ensures upFlush && upSkip && model(h).Ok? ==> r.Ok?
    ensures r.Ok? ==> Stands(tr, t, pool.db, BackfillWalk(cap, h + 1, r.value, Consume))
    ensures r.Err? ==> Gone(tr, t, pool.db)
  {
    upTo := h - 1 - |buf|;
    if model(h).Ok? {
      ModelPrefix(model, db0, answers, lo, h - 1, h);
    }
    t := FetchStep(tr, s, pool.db, cap, h, buf, answers);
    match answers(h) {
      case Failed(e) =>
        return Err(e), upTo, t;
      case Found(b) =>
        var more := buf + [b];
        if |more| < batchSize {
          return Ok(more), upTo, t;
        }
        var w;
        w, t := Flush(pool, more, upFlush, model, db0, answers, lo, h,
                      tr, t, BackfillWalk(cap, h + 1, more, FlushThenConsume));
        if w.Err? {
          return Err(w.error), upTo, t;
        }
        return Ok([]), h, t;
      case NotFound =>
        r, upTo, t := TakeGap(pool, buf, h, answers, upFlush, upSkip, model, db0, lo, tr, t, cap);
    }
  }

  /** Leave the loop at height `h`: flush what is buffered, if anything. */
  method Finish(pool: Pool, h: int, buf: seq<Bundle>, online: bool,
                ghost model: int -> Result<Db>, ghost db0: Db, ghost answers: int -> Answer, ghost lo: int,
                ghost tr: Trace, ghost s: Sys, ghost cap: int)
    returns (r: Result<int>, ghost upTo: int, ghost t: Sys)
    requires Closed(tr) && Stands(tr, s, pool.db, BackfillWalk(cap, h, buf, Consume))
    requires Honest(answers) && Buffered(buf, answers, h - 1) && lo <= h - |buf|
    requires IsIngestion(model, db0, answers, lo) && SameUpToLag(Ok(pool.db), model(h - 1 - |buf|))
    modifies pool
    ensures upTo == (if r.Ok? then h - 1 else h - 1 - |buf|) && SameUpToLag(Ok(pool.db), model(upTo))
    ensures r.Ok? ==> r.value == upTo
    ensures online && model(h - 1).Ok? ==> r.Ok?
    ensures Gone(tr, t, pool.db)
  {
    t := LeaveStep(tr, s, pool.db, cap, h, buf);
    if buf == [] {
      return Ok(h - 1), h - 1, t;
    }
    r, t := Flush(pool, buf, online, model, db0, answers, lo, h - 1, tr, t, BackfillWalk(cap, h, buf, FlushThenStop));
    upTo := if r.Ok? then h - 1 else h - 1 - |buf|;
  }

  /**
   The pipeline loop over `from` to `cap`. `cancelAt` is the turn at which cancellation is observed;
   `up(k)` says whether the k-th database call reaches the server.
   */
  method Walk(
      pool: Pool, from: int, cap: int, answers: int -> Answer, batchSize: nat, cancelAt: Option<nat>, up: nat -> bool,
      ghost model: int -> Result<Db>, ghost db0: Db, ghost tr: Trace, ghost s: Sys)
    returns (r: Result<int>, ghost upTo: int, ghost t: Sys)
    requires Closed(tr) && Follows(tr.cfg, answers) && tr.cfg.batchSize == batchSize
    requires Stands(tr, s, pool.db, BackfillWalk(cap, from, [], Consume))
    requires Honest(answers) && batchSize > 0 && from <= cap
    requires IsIngestion(model, db0, answers, from) && SameUpToLag(Ok(pool.db), model(from - 1))
    modifies pool
    ensures from - 1 <= upTo <= cap && SameUpToLag(Ok(pool.db), model(upTo))
    ensures r.Ok? ==> r.value == upTo
    ensures r.Ok? ==> upTo == WalkEnd(from - 1, cap, cancelAt)
    ensures (forall k :: up(k)) && model(cap).Ok? ==> r.Ok?
    ensures Gone(tr, t, pool.db)
  {
    upTo, t := from - 1, s;
    var h, buf, done, calls := from, [], 0, 0;
    while h <= cap
      invariant from <= h <= cap + 1 && done == h - from
      invariant cancelAt.Some? ==> done <= cancelAt.value
      invariant Buffered(buf, answers, h - 1) && |buf| < batchSize
      invariant upTo == h - 1 - |buf| >= from - 1 && SameUpToLag(Ok(pool.db), model(upTo))
      invariant Stands(tr, t, pool.db, BackfillWalk(cap, h, buf, Consume))
    {
      // Cancellation is polled before the next item; both exits flush what is buffered.
      if cancelAt == Some(done) {
        break;
      }
      if model(cap).Ok? {
        ModelPrefix(model, db0, answers, from, h, cap);
      }
      var step;
      step, upTo, t := TakeAnswer(pool, buf, h, answers, batchSize, up(calls), up(calls + 1),
                                  model, db0, from, tr, t, cap);
      if step.Err? {
        return Err(step.error), upTo, t;
      }
      buf, h, done, calls := step.value, h + 1, done + 1, calls + 2;
    }
    if model(cap).Ok? {
      ModelPrefix(model, db0, answers, from, h - 1, cap);
    }
    r, upTo, t := Finish(pool, h, buf, up(calls), model, db0, answers, from, tr, t, cap);
  }

  /** Ask for the tip and walk from the stored cursor up to the cap. */
  method WalkToTip(pool: Pool, cfg: SyncConfig, tip: Result<int>, answers: int -> Answer,
                   batchSize: nat, cancelAt: Option<nat>, up: nat -> bool, ghost tr: Trace, ghost s: Sys)
    returns (r: Result<int>, ghost upTo: int, ghost t: Sys)
    requires Honest(answers) && batchSize > 0
    requires Closed(tr) && ServesBackfill(tr.cfg, cfg, batchSize, answers)
    requires Stands(tr, s, pool.db, BackfillTip(CursorOf(pool.db)))
    modifies pool
    ensures CursorOf(old(pool.db)) <= upTo <= BackfillEnd(cfg, CursorOf(old(pool.db)), tip)
    ensures SameUpToLag(Ok(pool.db), SyncedTo(old(pool.db), answers, upTo))
    ensures r.Ok? ==> tip.Ok? && r.value == upTo
    ensures r.Ok? ==> upTo == WalkEnd(CursorOf(old(pool.db)), BackfillEnd(cfg, CursorOf(old(pool.db)), tip), cancelAt)
    ensures tip.Ok? && (forall k :: up(k))
            && SyncedTo(old(pool.db), answers, BackfillEnd(cfg, CursorOf(old(pool.db)), tip)).Ok?
            ==> r.Ok?
    ensures Gone(tr, t, pool.db)
  {
    var cursor := CursorOf(pool.db);
    ghost var db0 := pool.db;
    ghost var model := RangeModel(db0, answers, cursor + 1);
    RangeModelIsIngestion(db0, answers, cursor + 1);
    if tip.Err? {
      t := FailStep(tr, s, pool.db, BackfillTip(cursor));
      return Err(tip.error), cursor, t;
    }
    var cap := BackfillCap(cfg, tip.value);
    t := TipStep(tr, s, pool.db, cursor, tip.value);
    if cap <= cursor {
      return Ok(cursor), cursor, t;
    }
    r, upTo, t := Walk(pool, cursor + 1, cap, answers, batchSize, cancelAt, up, model, db0, tr, t);
  }

  /** The heights in reach can be ingested. */
  ghost predicate CanReachEnd(db: Db, cfg: SyncConfig, tip: int, answers: int -> Answer) {
    forall end :: EndsAt(cfg, CursorOf(db), tip, None, end) ==> SyncedTo(db, answers, end).Ok?
  }

  lemma {:induction false} EndOfReach(
      db: Db, cfg: SyncConfig, tip: int, cancelAt: Option<nat>, answers: int -> Answer, upTo: int)
    ensures var end := BackfillEnd(cfg, CursorOf(db), Ok(tip));
            && EndsAt(cfg, CursorOf(db), tip, cancelAt, WalkEnd(CursorOf(db), end, cancelAt))
            && (CanReachEnd(db, cfg, tip, answers) ==> SyncedTo(db, answers, end).Ok?)
            && (CursorOf(db) < upTo <= end ==> InReach(cfg, tip, upTo))
  {
    var end := BackfillEnd(cfg, CursorOf(db), Ok(tip));
    WalkEndIs(cfg, CursorOf(db), tip, None, end);
    WalkEndIs(cfg, CursorOf(db), tip, cancelAt, WalkEnd(CursorOf(db), end, cancelAt));
  }

  /** One backfill: read the cursor, then the rest. */
  method RunBackfill(pool: Pool, cfg: SyncConfig, tip: Result<int>, answers: int -> Answer,
                     batchSize: nat, cancelAt: Option<nat>, readUp: bool, up: nat -> bool,
                     ghost protocol: Config, ghost id: nat, ghost s: Sys)
    returns (r: Result<int>, ghost upTo: int)
    requires Honest(answers) && batchSize > 0
    requires ServesBackfill(protocol, cfg, batchSize, answers) && s.db == pool.db && id !in s.workers
    modifies pool
    // The store is the plain ingestion of the heights up to `upTo`, all of them in reach, whatever happens.
    ensures CursorOf(old(pool.db)) <= upTo
    ensures CursorOf(old(pool.db)) < upTo ==> tip.Ok? && InReach(cfg, tip.value, upTo)
    ensures SameUpToLag(Ok(pool.db), SyncedTo(old(pool.db), answers, upTo))
    ensures r.Ok? ==> readUp && tip.Ok? && r.value == upTo
    // A normal return has ingested every height in reach, up to a cancellation.
    ensures r.Ok? ==> EndsAt(cfg, CursorOf(old(pool.db)), tip.value, cancelAt, upTo)
    // Without faults it does return, if the heights in reach can be ingested.
    ensures readUp && tip.Ok? && (forall k :: up(k)) && CanReachEnd(old(pool.db), cfg, tip.value, answers) ==> r.Ok?
    // And the whole call is a run of worker `id` of the protocol, which leaves this store and no worker.
    ensures IsRunOf(protocol, s, id, pool.db)
  {
    ghost var tr := TraceFrom(protocol, id, s);
    TraceIsClosed(protocol, id, s);
    if !readUp {
      ReachedIsRun(protocol, id, s, s, pool.db);
      return Err(DatabaseDown), CursorOf(pool.db);
    }
    ghost var t := StartStep(tr, s, pool.db);
    ghost var db0 := pool.db;
    r, upTo, t := WalkToTip(pool, cfg, tip, answers, batchSize, cancelAt, up, tr, t);
    if tip.Ok? {
      EndOfReach(db0, cfg, tip.value, cancelAt, answers, upTo);
    }
    ReachedIsRun(protocol, id, s, t, pool.db);
  }
}
