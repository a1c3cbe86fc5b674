/**
 Any number of backfill and tail workers over one store, interleaved at every commit, cursor read
 and chain answer, with 404 gaps, errors, cancellation and crashes.
 */
module SyncProtocol {
  import opened Prelude
  import opened Folds
  import opened Rows
  import opened Store
  import opened BlockWriter
  import opened BatchRefinement
  import opened IntegrityKept
  import opened Fetch
  import opened SyncSettings

  /** `offers(h, b)`: some node may answer a request for height `h` with bundle `b`. */
  datatype Config = Config(sync: SyncConfig, batchSize: nat, offers: (int, Bundle) -> bool)

  ghost predicate ValidConfig(cfg: Config) {
    cfg.batchSize > 0 && forall h, b :: OfferFits(cfg, h, b)
  }

  ghost predicate OfferFits(cfg: Config, h: int, b: Bundle) {
    cfg.offers(h, b) ==> b.block.height == h && WellFormed(b)
  }

  /** Offers that come out of the fetchers meet the protocol's assumption. */
  lemma {:induction false} FetchedOffersFit(cfg: Config)
    requires cfg.batchSize > 0 && forall h, b :: cfg.offers(h, b) ==> FetchedAt(h, b)
    ensures ValidConfig(cfg)
  {
    forall h, b ensures OfferFits(cfg, h, b) {
      if cfg.offers(h, b) {
        FetchedAnswers(h, b);
      }
    }
  }

  /** What a backfill worker does next. */
  datatype Todo = Consume | FlushThenConsume | FlushThenSkip | Skip | FlushThenStop

  datatype TailTodo = Fetch | Write(bundle: Bundle) | StepOver

  datatype Worker =
    | BackfillTip(cursor: int)
    | BackfillWalk(cap: int, next: int, buf: seq<Bundle>, todo: Todo)
    | TailTarget(target: int)
    | TailWalk(cap: int, next: int, tailTodo: TailTodo)

  /** `gaps` records every height ever answered 404 and `tip` the highest tip seen by any worker. */
  datatype Sys = Sys(db: Db, workers: map<nat, Worker>, gaps: set<int>, tip: int)

  datatype Event =
    | StartBackfill(id: nat)
    | LearnTip(id: nat, tip: int)
    | Fetched(id: nat, answer: Answer)
    | Commit(id: nat)
    | SkipGap(id: nat)
    | Cancel(id: nat)
    | StreamEnd(id: nat)
    | Sight(tip: int)
    | Finalized(id: nat, tip: int)
    | ReadCursor(id: nat)
    | Drain(id: nat, target: int)
    | Release(id: nat)
    | Fail(id: nat)
    | Crash

  function Put(s: Sys, id: nat, w: Worker): Sys {
    s.(workers := s.workers[id := w])
  }

  function Drop(s: Sys, id: nat): Sys {
    s.(workers := s.workers - {id})
  }

  /** Leave the loop: flush what is buffered, or just stop. */
  function Leave(s: Sys, id: nat, w: Worker): Sys
    requires w.BackfillWalk?
  {
    if w.buf == [] then Drop(s, id) else Put(s, id, w.(todo := FlushThenStop))
  }

  function ApplyFetched(cfg: Config, s: Sys, id: nat, w: Worker, a: Answer): Sys {
    match w
    case BackfillWalk(cap, next, buf, Consume) =>
      if next > cap then s
      else
        (match a
         case Failed(_) => Drop(s, id)
         case NotFound =>
           Put(s.(gaps := s.gaps + {next}), id, w.(todo := if buf == [] then Skip else FlushThenSkip))
         case Found(b) =>
           if !cfg.offers(next, b) then s
           else Put(s, id, BackfillWalk(cap, next + 1, buf + [b],
                                        if |buf| + 1 >= cfg.batchSize then FlushThenConsume else Consume)))
    case TailWalk(cap, next, Fetch) =>
      if next > cap then s
      else
        (match a
         case Failed(_) => Drop(s, id)
         case NotFound => Put(s.(gaps := s.gaps + {next}), id, TailWalk(cap, next, StepOver))
         case Found(b) => if !cfg.offers(next, b) then s else Put(s, id, TailWalk(cap, next, Write(b))))
    case _ => s
  }

  /** What the worker's pending transaction would leave behind. */
  function Outcome(db: Db, w: Worker): Result<Db> {
    match w
    case BackfillWalk(_, _, buf, _) => BatchTxn(db, buf)
    case TailWalk(_, _, Write(b)) => WriteBlockTxn(db, b)
    case _ => Ok(db)
  }

  /** A transaction commits as one step; an error rolls back and ends the worker's run. */
  function ApplyCommit(s: Sys, id: nat, w: Worker, outcome: Result<Db>): Sys {
    match w
    case BackfillWalk(cap, next, buf, todo) =>
      if todo.Consume? || todo.Skip? then s
      else if outcome.Err? then Drop(s, id)
      else
        var s' := s.(db := outcome.value);
        if todo.FlushThenStop? then Drop(s', id)
        else Put(s', id, BackfillWalk(cap, next, [], if todo.FlushThenSkip? then Skip else Consume))
    case TailWalk(cap, next, Write(b)) =>
      if outcome.Err? then Drop(s, id)
      else Put(s.(db := outcome.value), id, TailWalk(cap, next + 1, Fetch))
    case _ => s
  }

  function ApplySkip(s: Sys, id: nat, w: Worker): Sys {
    match w
    case BackfillWalk(cap, next, buf, Skip) =>
      Put(s.(db := WriteCursor(s.db, next, 0)), id, BackfillWalk(cap, next + 1, buf, Consume))
    case TailWalk(cap, next, StepOver) =>
      Put(s.(db := WriteCursor(s.db, next, 0)), id, TailWalk(cap, next + 1, Fetch))
    case _ => s
  }

  /** One event; an event that is not enabled changes nothing. */
  function Apply(cfg: Config, s: Sys, e: Event): Sys {
    match e
    case StartBackfill(id) =>
      if id in s.workers then s else Put(s, id, BackfillTip(CursorOf(s.db)))
    case LearnTip(id, tip) =>
      if id !in s.workers || !s.workers[id].BackfillTip? then s
      else
        var c, cap := s.workers[id].cursor, BackfillCap(cfg.sync, tip);
        var s' := s.(tip := Max(s.tip, tip));
        if cap <= c then Drop(s', id) else Put(s', id, BackfillWalk(cap, c + 1, [], Consume))
    case Fetched(id, a) => if id !in s.workers then s else ApplyFetched(cfg, s, id, s.workers[id], a)
    case Commit(id) =>
      if id !in s.workers then s else ApplyCommit(s, id, s.workers[id], Outcome(s.db, s.workers[id]))
    case SkipGap(id) => if id !in s.workers then s else ApplySkip(s, id, s.workers[id])
    case Cancel(id) =>
      if id in s.workers && s.workers[id].BackfillWalk? && s.workers[id].todo.Consume?
      then Leave(s, id, s.workers[id]) else s
    case StreamEnd(id) =>
      if id in s.workers && s.workers[id].BackfillWalk? && s.workers[id].todo.Consume?
         && s.workers[id].next > s.workers[id].cap
      then Leave(s, id, s.workers[id]) else s
    // A finalized event that finds the gate taken: its tip is left to the holder.
    case Sight(tip) => s.(tip := Max(s.tip, tip))
    case Finalized(id, tip) =>
      if id in s.workers then s else Put(s.(tip := Max(s.tip, tip)), id, TailTarget(tip))
    case ReadCursor(id) =>
      if id in s.workers && s.workers[id].TailTarget?
      then Put(s, id, TailWalk(s.workers[id].target - cfg.sync.safeLag, CursorOf(s.db) + 1, Fetch)) else s
    case Drain(id, target) =>
      if id in s.workers && TailDone(s.workers[id]) && target <= s.tip then Put(s, id, TailTarget(target)) else s
    case Release(id) => if id in s.workers && TailDone(s.workers[id]) then Drop(s, id) else s
    case Fail(id) => Drop(s, id)
    case Crash => s.(workers := map[])
  }

  predicate TailDone(w: Worker) {
    w.TailWalk? && w.tailTodo.Fetch? && w.next > w.cap
  }

  function Run(cfg: Config, s: Sys, es: seq<Event>): Sys {
    if es == [] then s else Apply(cfg, Run(cfg, s, es[..|es| - 1]), es[|es| - 1])
  }

  /** A process starts on a store with no workers; the highest tip counts from the stored cursor. */
  function Boot(db: Db, gaps: set<int>): Sys {
    Sys(db, map[], gaps, CursorOf(db))
  }

  // ---------- the invariant ----------

  ghost predicate Covered(db: Db, gaps: set<int>, upTo: int) {
    forall h :: 0 <= h <= upTo ==> h in db.blocks || h in gaps
  }

  ghost predicate BufferOffered(cfg: Config, buf: seq<Bundle>, next: int) {
    forall i :: 0 <= i < |buf| ==> cfg.offers(next - |buf| + i, buf[i])
  }

  /**
   Everything below a worker's committed position is covered; its buffer is the contiguous run just
   above it; it never aims past the safe distance from an observed tip.
   */
  ghost predicate WorkerOk(cfg: Config, s: Sys, w: Worker) {
    match w
    case BackfillTip(c) => c >= -1 && Covered(s.db, s.gaps, c)
    case BackfillWalk(cap, next, buf, todo) =>
      && next >= |buf| && Covered(s.db, s.gaps, next - 1 - |buf|)
      && next <= cap + 1 && cap <= s.tip - cfg.sync.safeLag
      && BufferOffered(cfg, buf, next)
      && |buf| <= cfg.batchSize && (todo.Consume? ==> |buf| < cfg.batchSize)
      && (todo.Skip? ==> buf == [])
      && (!todo.Consume? && !todo.Skip? ==> buf != [])
      && (todo.Skip? || todo.FlushThenSkip? ==> next in s.gaps && next <= cap)
    case TailTarget(target) => target <= s.tip
    case TailWalk(cap, next, todo) =>
      && next >= 0 && Covered(s.db, s.gaps, next - 1)
      && cap <= s.tip - cfg.sync.safeLag
      && (todo.Write? ==> cfg.offers(next, todo.bundle) && next <= cap)
      && (todo.StepOver? ==> next in s.gaps && next <= cap)
  }

  ghost predicate Safe(cfg: Config, c0: int, s: Sys) {
    && Integrity(s.db)
    && Covered(s.db, s.gaps, CursorOf(s.db))
    && -1 <= CursorOf(s.db) <= Max(c0, s.tip - cfg.sync.safeLag)
  }

  ghost predicate Inv(cfg: Config, c0: int, s: Sys) {
    Safe(cfg, c0, s) && forall id :: id in s.workers ==> WorkerOk(cfg, s, s.workers[id])
  }

  ghost predicate Keeps<K, V>(m: map<K, V>, n: map<K, V>) {
    forall k :: k in m ==> k in n && n[k] == m[k]
  }

  /** No row of the four tables is lost or rewritten. */
  ghost predicate RowsKept(a: Db, b: Db) {
    Keeps(a.blocks, b.blocks) && Keeps(a.txs, b.txs) && Keeps(a.logs, b.logs) && Keeps(a.transfers, b.transfers)
  }

  /** The store only grows, and the cursor never moves down. */
  ghost predicate Grows(s: Sys, t: Sys) {
    && RowsKept(s.db, t.db)
    && s.gaps <= t.gaps && s.tip <= t.tip
    && CursorOf(s.db) <= CursorOf(t.db)
  }

  lemma {:induction false} GrowthKeepsWorker(cfg: Config, s: Sys, t: Sys, w: Worker)
    requires Grows(s, t) && WorkerOk(cfg, s, w)
    ensures WorkerOk(cfg, t, w)
  {
  }

  // ---------- effects of the two commits ----------

  lemma {:induction false} OfferedAscending(cfg: Config, buf: seq<Bundle>, next: int)
    requires ValidConfig(cfg) && BufferOffered(cfg, buf, next)
    ensures Ascending(buf)
    ensures forall i :: 0 <= i < |buf| ==> buf[i].block.height == next - |buf| + i
  {
    forall i | 0 <= i < |buf| ensures buf[i].block.height == next - |buf| + i && WellFormed(buf[i]) {
      assert cfg.offers(next - |buf| + i, buf[i]);
      assert OfferFits(cfg, next - |buf| + i, buf[i]);
    }
  }

  lemma {:induction false} BatchCommits(cfg: Config, db: Db, buf: seq<Bundle>, next: int)
    requires ValidConfig(cfg) && BufferOffered(cfg, buf, next) && buf != []
    requires BatchTxn(db, buf).Ok?
    ensures var d := BatchTxn(db, buf).value;
            && RowsKept(db, d)
            && (forall h :: next - |buf| <= h < next ==> h in d.blocks)
            && d.cursor == Some(if db.cursor.None? then next - 1 else Max(db.cursor.value, next - 1))
  {
    OfferedAscending(cfg, buf, next);
    BatchEffect(db, buf);
    var rows := Flatten(buf, BlockRow);
    InsertBlocksEffect(db, rows);
    FirstWinsContents(db.txs, Flatten(buf, TxRows), TxKey);
    FirstWinsContents(db.logs, Flatten(buf, LogRows), LogKey);
    FirstWinsContents(db.transfers, Flatten(buf, TransferRows), TransferKey);
    forall h | next - |buf| <= h < next ensures h in BatchTxn(db, buf).value.blocks {
      var b := buf[h - next + |buf|];
      assert b.block.height == h;
      FlattenMembers(buf, BlockRow, b.block);
      assert b.block in BlockRow(b);
    }
  }

  lemma {:induction false} BlockCommits(cfg: Config, db: Db, b: Bundle, h: int)
    requires ValidConfig(cfg) && cfg.offers(h, b) && WriteBlockTxn(db, b).Ok?
    ensures var d := WriteBlockTxn(db, b).value;
            && RowsKept(db, d)
            && h in d.blocks
            && d.cursor == Some(if db.cursor.None? then h else Max(db.cursor.value, h))
  {
    assert OfferFits(cfg, h, b);
    WriteBlockEffect(db, b);
    FirstWinsContents(db.txs, b.txs, TxKey);
    FirstWinsContents(db.logs, b.logs, LogKey);
    FirstWinsContents(db.transfers, b.transfers, TransferKey);
  }

  // ---------- every event keeps the invariant ----------

  /** If the store only grew and one worker was replaced by a good one, the invariant survives. */
  lemma {:induction false} StepWorker(cfg: Config, c0: int, s: Sys, t: Sys, id: nat)
    requires Inv(cfg, c0, s) && Safe(cfg, c0, t) && Grows(s, t)
    requires forall k :: k in t.workers && k != id ==> k in s.workers && t.workers[k] == s.workers[k]
    requires id in t.workers ==> WorkerOk(cfg, t, t.workers[id])
    ensures Inv(cfg, c0, t)
  {
    forall k | k in t.workers ensures WorkerOk(cfg, t, t.workers[k]) {
      if k != id {
        GrowthKeepsWorker(cfg, s, t, s.workers[k]);
      }
    }
  }

  /** An answer moves one worker to a good state and at most records a gap. */
  lemma {:induction false} FetchedMoves(cfg: Config, s: Sys, id: nat, w: Worker, a: Answer)
    requires cfg.batchSize > 0 && WorkerOk(cfg, s, w)
    ensures var t := ApplyFetched(cfg, s, id, w, a);
            && t.db == s.db && t.tip == s.tip && s.gaps <= t.gaps
            && (forall k :: k in t.workers && k != id ==> k in s.workers && t.workers[k] == s.workers[k])
            && (t.workers == s.workers || (id in t.workers ==> WorkerOk(cfg, t, t.workers[id])))
  {
  }

  lemma {:induction false} FetchedKeeps(cfg: Config, c0: int, s: Sys, id: nat, a: Answer)
    requires ValidConfig(cfg) && Inv(cfg, c0, s) && id in s.workers
    ensures var t := ApplyFetched(cfg, s, id, s.workers[id], a); Inv(cfg, c0, t) && Grows(s, t)
  {
    var t := ApplyFetched(cfg, s, id, s.workers[id], a);
    assert WorkerOk(cfg, s, s.workers[id]);
    FetchedMoves(cfg, s, id, s.workers[id], a);
    if t.workers == s.workers {
      GrowthKeepsWorker(cfg, s, t, s.workers[id]);
    }
    StepWorker(cfg, c0, s, t, id);
  }

  /** The common shape of the three commits: rows are added and the cursor is offered a covered height `h`. */
  lemma {:induction false} CommitIsSafe(cfg: Config, c0: int, s: Sys, t: Sys, h: int)
    requires Safe(cfg, c0, s) && t.gaps == s.gaps && t.tip == s.tip && Integrity(t.db)
    requires RowsKept(s.db, t.db)
    requires t.db.cursor == Some(if s.db.cursor.None? then h else Max(s.db.cursor.value, h))
    requires Covered(t.db, t.gaps, h) && 0 <= h <= s.tip - cfg.sync.safeLag
    ensures Safe(cfg, c0, t) && Grows(s, t)
  {
    forall k | 0 <= k <= CursorOf(t.db) ensures k in t.db.blocks || k in t.gaps {
      if k > h {
        assert k in s.db.blocks || k in s.gaps;
      }
    }
  }

  predicate Committing(w: Worker) {
    (w.BackfillWalk? && !w.todo.Consume? && !w.todo.Skip?) || (w.TailWalk? && w.tailTodo.Write?)
  }

  /** Last height a worker's pending transaction writes. */
  function CommitHeight(w: Worker): int
    requires Committing(w)
  {
    if w.BackfillWalk? then w.next - 1 else w.next
  }

  /** What the protocol relies on from a transaction outcome. */
  ghost predicate GoodOutcome(s: Sys, w: Worker, d: Db)
    requires Committing(w)
  {
    && Integrity(d)
    && RowsKept(s.db, d)
    && d.cursor == Some(if s.db.cursor.None? then CommitHeight(w) else Max(s.db.cursor.value, CommitHeight(w)))
    && Covered(d, s.gaps, CommitHeight(w))
  }

  lemma {:induction false} OutcomeIsGood(cfg: Config, s: Sys, w: Worker)
    requires ValidConfig(cfg) && Integrity(s.db) && WorkerOk(cfg, s, w) && Committing(w) && Outcome(s.db, w).Ok?
    ensures GoodOutcome(s, w, Outcome(s.db, w).value)
  {
    if w.BackfillWalk? {
      BatchLeavesBehind(cfg, s.db, w.buf, w.next);
      BatchCovers(cfg, s, w, Outcome(s.db, w).value);
    } else {
      BlockCommits(cfg, s.db, w.tailTodo.bundle, w.next);
      WriteBlockKeepsIntegrity(s.db, w.tailTodo.bundle);
    }
  }

  /** What a committed batch leaves behind, without naming the transaction. */
  ghost predicate BatchLeaves(db: Db, buf: seq<Bundle>, next: int, d: Db) {
    && Integrity(d)
    && RowsKept(db, d)
    && (forall h :: next - |buf| <= h < next ==> h in d.blocks)
    && d.cursor == Some(if db.cursor.None? then next - 1 else Max(db.cursor.value, next - 1))
  }

  lemma {:induction false} BatchLeavesBehind(cfg: Config, db: Db, buf: seq<Bundle>, next: int)
    requires ValidConfig(cfg) && Integrity(db) && BufferOffered(cfg, buf, next) && buf != []
    requires BatchTxn(db, buf).Ok?
    ensures BatchLeaves(db, buf, next, BatchTxn(db, buf).value)
  {
    BatchKeepsIntegrity(db, buf);
    BatchCommits(cfg, db, buf, next);
  }

  lemma {:induction false} BatchCovers(cfg: Config, s: Sys, w: Worker, d: Db)
    requires WorkerOk(cfg, s, w) && Committing(w) && w.BackfillWalk?
    requires BatchLeaves(s.db, w.buf, w.next, d)
    ensures GoodOutcome(s, w, d)
  {
    forall h | 0 <= h <= w.next - 1 ensures h in d.blocks || h in s.gaps {
      if h < w.next - |w.buf| {
        assert h in s.db.blocks || h in s.gaps;
      }
    }
  }

  lemma {:induction false} CommitKeeps(cfg: Config, c0: int, s: Sys, id: nat, outcome: Result<Db>)
    requires ValidConfig(cfg) && Inv(cfg, c0, s) && id in s.workers
    requires Committing(s.workers[id]) && outcome.Ok? ==> GoodOutcome(s, s.workers[id], outcome.value)
    ensures var t := ApplyCommit(s, id, s.workers[id], outcome); Inv(cfg, c0, t) && Grows(s, t)
  {
    var w := s.workers[id];
    var t := ApplyCommit(s, id, w, outcome);
    assert WorkerOk(cfg, s, w);
    if Committing(w) && outcome.Ok? {
      CommitIsSafe(cfg, c0, s, t, CommitHeight(w));
    }
    StepWorker(cfg, c0, s, t, id);
  }

  lemma {:induction false} SkipKeeps(cfg: Config, c0: int, s: Sys, id: nat)
    requires ValidConfig(cfg) && Inv(cfg, c0, s) && id in s.workers
    ensures Inv(cfg, c0, ApplySkip(s, id, s.workers[id])) && Grows(s, ApplySkip(s, id, s.workers[id]))
  {
    var w := s.workers[id];
    var t := ApplySkip(s, id, w);
    assert WorkerOk(cfg, s, w);
    if (w.BackfillWalk? && w.todo.Skip?) || (w.TailWalk? && w.tailTodo.StepOver?) {
      CommitIsSafe(cfg, c0, s, t, w.next);
    }
    StepWorker(cfg, c0, s, t, id);
  }

  lemma {:induction false} CommitEventKeeps(cfg: Config, c0: int, s: Sys, id: nat)
    requires ValidConfig(cfg) && Inv(cfg, c0, s) && id in s.workers
    ensures var t := ApplyCommit(s, id, s.workers[id], Outcome(s.db, s.workers[id]));
            Inv(cfg, c0, t) && Grows(s, t)
  {
    var w := s.workers[id];
    assert WorkerOk(cfg, s, w);
    if Committing(w) && Outcome(s.db, w).Ok? {
      OutcomeIsGood(cfg, s, w);
    }
    CommitKeeps(cfg, c0, s, id, Outcome(s.db, w));
  }

  lemma {:induction false} SightKeeps(cfg: Config, c0: int, s: Sys, t: Sys)
    requires Inv(cfg, c0, s) && t == s.(tip := Max(s.tip, t.tip))
    ensures Inv(cfg, c0, t) && Grows(s, t)
  {
    forall k | k in t.workers ensures WorkerOk(cfg, t, t.workers[k]) {
      GrowthKeepsWorker(cfg, s, t, s.workers[k]);
    }
  }

  /** An event that replaces or removes one worker and at most raises the tip. */
  ghost predicate Replaces(s: Sys, t: Sys, id: nat) {
    && t.db == s.db && t.gaps == s.gaps && s.tip <= t.tip
    && forall k :: k in t.workers && k != id ==> k in s.workers && t.workers[k] == s.workers[k]
  }

  lemma {:induction false} ReplacementKeeps(cfg: Config, c0: int, s: Sys, t: Sys, id: nat)
    requires Inv(cfg, c0, s) && Replaces(s, t, id) && (id in t.workers ==> WorkerOk(cfg, t, t.workers[id]))
    ensures Inv(cfg, c0, t) && Grows(s, t)
  {
    StepWorker(cfg, c0, s, t, id);
  }

  /** A worker starts at what it has read, or at what it has seen. */
  lemma {:induction false} StartReplaces(cfg: Config, c0: int, s: Sys, e: Event)
    requires Inv(cfg, c0, s) && (e.StartBackfill? || e.Finalized?)
    ensures var t := Apply(cfg, s, e);
            Replaces(s, t, e.id)
            && (e.id in t.workers ==> WorkerOk(cfg, t, t.workers[e.id]) || t.workers == s.workers)
  {
  }

  lemma {:induction false} TipReplaces(cfg: Config, s: Sys, e: Event)
    requires e.LearnTip? && e.id in s.workers && WorkerOk(cfg, s, s.workers[e.id]) && cfg.batchSize > 0
    ensures var t := Apply(cfg, s, e);
            Replaces(s, t, e.id) && (e.id in t.workers ==> WorkerOk(cfg, t, t.workers[e.id]))
  {
    GrowthKeepsWorker(cfg, s, s.(tip := Max(s.tip, e.tip)), s.workers[e.id]);
  }

  lemma {:induction false} LeaveReplaces(cfg: Config, s: Sys, e: Event)
    requires (e.Cancel? || e.StreamEnd? || e.Release? || e.Fail?)
    requires e.id in s.workers && WorkerOk(cfg, s, s.workers[e.id])
    ensures var t := Apply(cfg, s, e);
            Replaces(s, t, e.id) && (e.id in t.workers ==> WorkerOk(cfg, t, t.workers[e.id]))
  {
  }

  lemma {:induction false} RedirectReplaces(cfg: Config, c0: int, s: Sys, e: Event)
    requires Safe(cfg, c0, s) && (e.ReadCursor? || e.Drain?)
    requires e.id in s.workers && WorkerOk(cfg, s, s.workers[e.id])
    ensures var t := Apply(cfg, s, e);
            Replaces(s, t, e.id) && (e.id in t.workers ==> WorkerOk(cfg, t, t.workers[e.id]))
  {
  }

  /** The events that only start, stop or redirect a worker. */
  lemma {:induction false} LocalEventKeeps(cfg: Config, c0: int, s: Sys, e: Event)
    requires ValidConfig(cfg) && Inv(cfg, c0, s)
    requires !e.Fetched? && !e.Commit? && !e.SkipGap? && !e.Crash? && !e.Sight?
    ensures Inv(cfg, c0, Apply(cfg, s, e)) && Grows(s, Apply(cfg, s, e))
  {
    var t := Apply(cfg, s, e);
    if e.id in s.workers {
      assert WorkerOk(cfg, s, s.workers[e.id]);
    }
    if e.StartBackfill? || e.Finalized? {
      StartReplaces(cfg, c0, s, e);
    } else if e.id !in s.workers {
      assert t.workers == s.workers;
    } else if e.LearnTip? {
      TipReplaces(cfg, s, e);
    } else if e.ReadCursor? || e.Drain? {
      RedirectReplaces(cfg, c0, s, e);
    } else {
      LeaveReplaces(cfg, s, e);
    }
    ReplacementKeeps(cfg, c0, s, t, e.id);
  }

  lemma {:induction false} EventKeeps(cfg: Config, c0: int, s: Sys, e: Event)
    requires ValidConfig(cfg) && Inv(cfg, c0, s)
    ensures Inv(cfg, c0, Apply(cfg, s, e)) && Grows(s, Apply(cfg, s, e))
  {
    match e {
      case Fetched(id, a) =>
        if id in s.workers {
          FetchedKeeps(cfg, c0, s, id, a);
        }
      case Commit(id) =>
        if id in s.workers {
          CommitEventKeeps(cfg, c0, s, id);
        }
      case SkipGap(id) =>
        if id in s.workers {
          SkipKeeps(cfg, c0, s, id);
        }
      case Sight(_) => SightKeeps(cfg, c0, s, Apply(cfg, s, e));
      case Crash =>
      case _ =>
        LocalEventKeeps(cfg, c0, s, e);
    }
  }

  lemma {:induction false} RunKeeps(cfg: Config, c0: int, s: Sys, es: seq<Event>)
    requires ValidConfig(cfg) && Inv(cfg, c0, s)
    ensures Inv(cfg, c0, Run(cfg, s, es)) && Grows(s, Run(cfg, s, es))
  {
    if es != [] {
      RunKeeps(cfg, c0, s, es[..|es| - 1]);
      EventKeeps(cfg, c0, Run(cfg, s, es[..|es| - 1]), es[|es| - 1]);
    }
  }

  // ---------- main results ----------

  /**
   In every run from a covered, consistent store: every height up to the persisted cursor is stored or
   was answered 404, the store stays consistent, and the cursor keeps the safe distance from the
   highest tip seen unless it already started beyond it.
   */
  lemma {:induction false} CoveredPrefix(cfg: Config, db: Db, gaps: set<int>, es: seq<Event>)
    requires ValidConfig(cfg) && Integrity(db) && Covered(db, gaps, CursorOf(db)) && CursorOf(db) >= -1
    ensures var s := Run(cfg, Boot(db, gaps), es);
            && Covered(s.db, s.gaps, CursorOf(s.db))
            && Integrity(s.db)
            && CursorOf(s.db) <= Max(CursorOf(db), s.tip - cfg.sync.safeLag)
  {
    RunKeeps(cfg, CursorOf(db), Boot(db, gaps), es);
  }

  /** Between any two moments of a run nothing stored is lost or rewritten and the cursor does not fall. */
  lemma {:induction false} NothingIsLost(cfg: Config, db: Db, gaps: set<int>, es: seq<Event>, k: nat)
    requires ValidConfig(cfg) && Integrity(db) && Covered(db, gaps, CursorOf(db)) && CursorOf(db) >= -1 && k <= |es|
    ensures Grows(Run(cfg, Boot(db, gaps), es[..k]), Run(cfg, Boot(db, gaps), es))
  {
    RunKeeps(cfg, CursorOf(db), Boot(db, gaps), es[..k]);
    RunConcat(cfg, Boot(db, gaps), es[..k], es[k..]);
    assert es[..k] + es[k..] == es;
    RunKeeps(cfg, CursorOf(db), Run(cfg, Boot(db, gaps), es[..k]), es[k..]);
  }

  lemma {:induction false} RunConcat(cfg: Config, s: Sys, a: seq<Event>, b: seq<Event>)
    ensures Run(cfg, s, a + b) == Run(cfg, Run(cfg, s, a), b)
  {
    if b == [] {
      assert a + b == a;
    } else {
      RunConcat(cfg, s, a, b[..|b| - 1]);
      assert (a + b)[..|a + b| - 1] == a + b[..|b| - 1];
    }
  }

  /** Only a 404 records a gap, at the height its worker stands on. */
  lemma {:induction false} GapStep(cfg: Config, s: Sys, e: Event, h: int)
    requires h in Apply(cfg, s, e).gaps && h !in s.gaps
    ensures e.Fetched? && e.answer.NotFound? && e.id in s.workers && NextHeight(s.workers[e.id]) == Some(h)
  {
  }

  /** A recorded gap is a height that some worker in this run really saw answered 404. */
  lemma {:induction false} GapsWereAnswered(cfg: Config, s: Sys, es: seq<Event>, h: int)
    requires h in Run(cfg, s, es).gaps && h !in s.gaps
    ensures exists i, id :: 0 <= i < |es| && es[i] == Fetched(id, NotFound)
                            && h !in Run(cfg, s, es[..i]).gaps && id in Run(cfg, s, es[..i]).workers
                            && NextHeight(Run(cfg, s, es[..i]).workers[id]) == Some(h)
  {
    var n := |es| - 1;
    var init := es[..n];
    if h in Run(cfg, s, init).gaps {
      GapsWereAnswered(cfg, s, init, h);
      var i, id :| 0 <= i < |init| && init[i] == Fetched(id, NotFound)
                   && h !in Run(cfg, s, init[..i]).gaps && id in Run(cfg, s, init[..i]).workers
                   && NextHeight(Run(cfg, s, init[..i]).workers[id]) == Some(h);
      assert init[..i] == es[..i] && es[i] == init[i];
    } else {
      GapStep(cfg, Run(cfg, s, init), es[n], h);
    }
  }

  function NextHeight(w: Worker): Option<int> {
    match w
    case BackfillWalk(_, next, _, _) => Some(next)
    case TailWalk(_, next, _) => Some(next)
    case _ => None
  }
}
