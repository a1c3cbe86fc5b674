/**
 How one call of a loop is a run of one worker of the protocol: the states it passes through belong to the set
 that this worker's own events reach from where it began, and every other worker stays as it was.
 */
module SyncTrace {
  import opened Prelude
  import opened Rows
  import opened Store
  import opened BlockWriter
  import opened Fetch
  import opened SyncSettings
  import opened SyncProtocol

  /** An event of worker `id`, or a tip that another task saw while this one holds the gate. */
  predicate IsOwn(id: nat, e: Event) {
    !e.Crash? && (e.Sight? || e.id == id)
  }

  /** Worker `id`, the other workers, and the states that its own events reach from where the call began. */
  datatype Trace = Trace(cfg: Config, id: nat, others: map<nat, Worker>, reach: iset<Sys>)

  ghost predicate Closed(tr: Trace) {
    tr.id !in tr.others && forall s, e :: s in tr.reach && IsOwn(tr.id, e) ==> Apply(tr.cfg, s, e) in tr.reach
  }

  /** What the chain answers is on offer. */
  ghost predicate Follows(cfg: Config, answers: int -> Answer) {
    forall h :: answers(h).Found? ==> cfg.offers(h, answers(h).bundle)
  }

  ghost predicate ServesBackfill(cfg: Config, sync: SyncConfig, batchSize: nat, answers: int -> Answer) {
    cfg.sync == sync && cfg.batchSize == batchSize && Follows(cfg, answers)
  }

  ghost predicate ServesTail(cfg: Config, safeLag: nat, answers: int -> Answer) {
    cfg.sync.safeLag == safeLag && Follows(cfg, answers)
  }

  /** A reachable state with this store in which the worker is `w`. */
  ghost predicate Stands(tr: Trace, s: Sys, db: Db, w: Worker) {
    s in tr.reach && s.db == db && s.workers == tr.others[tr.id := w]
  }

  /** A reachable state with this store in which the worker is gone. */
  ghost predicate Gone(tr: Trace, s: Sys, db: Db) {
    s in tr.reach && s.db == db && s.workers == tr.others
  }

  predicate Flushing(w: Worker) {
    w.BackfillWalk? && !w.todo.Consume? && !w.todo.Skip?
  }

  /** What a flush leaves of the worker. */
  ghost predicate Flushed(tr: Trace, t: Sys, db: Db, w: Worker, ok: bool)
    requires Flushing(w)
  {
    if !ok || w.todo.FlushThenStop? then Gone(tr, t, db)
    else Stands(tr, t, db, BackfillWalk(w.cap, w.next, [], if w.todo.FlushThenSkip? then Skip else Consume))
  }

  ghost predicate OwnRun(id: nat, es: seq<Event>) {
    forall i :: 0 <= i < |es| ==> IsOwn(id, es[i])
  }

  /** Events of worker `id` alone lead from `s` to `t`. */
  ghost predicate ReachedBy(cfg: Config, id: nat, s: Sys, t: Sys) {
    exists es :: OwnRun(id, es) && Run(cfg, s, es) == t
  }

  ghost function TraceFrom(cfg: Config, id: nat, s: Sys): Trace {
    Trace(cfg, id, s.workers, iset t | ReachedBy(cfg, id, s, t))
  }

  /**
   The store is what events of worker `id` alone leave, with that worker started and gone again and every other
   worker exactly where it was.
   */
  ghost predicate IsRunOf(cfg: Config, s: Sys, id: nat, db: Db) {
    exists t :: ReachedBy(cfg, id, s, t) && t.db == db && t.workers == s.workers
  }

  lemma {:induction false} OneMoreEvent(cfg: Config, id: nat, s: Sys, t: Sys, e: Event)
    requires ReachedBy(cfg, id, s, t) && IsOwn(id, e)
    ensures ReachedBy(cfg, id, s, Apply(cfg, t, e))
  {
    var es :| OwnRun(id, es) && Run(cfg, s, es) == t;
    assert (es + [e])[..|es|] == es;
    assert OwnRun(id, es + [e]);
  }

  lemma {:induction false} TraceIsClosed(cfg: Config, id: nat, s: Sys)
    requires id !in s.workers
    ensures Closed(TraceFrom(cfg, id, s)) && Gone(TraceFrom(cfg, id, s), s, s.db)
  {
    var tr := TraceFrom(cfg, id, s);
    assert OwnRun(id, []) && Run(cfg, s, []) == s;
    forall t, e | t in tr.reach && IsOwn(id, e) ensures Apply(cfg, t, e) in tr.reach {
      OneMoreEvent(cfg, id, s, t, e);
    }
  }

  lemma {:induction false} ReachedIsRun(cfg: Config, id: nat, s: Sys, t: Sys, db: Db)
    requires Gone(TraceFrom(cfg, id, s), t, db)
    ensures IsRunOf(cfg, s, id, db)
  {
    assert ReachedBy(cfg, id, s, t);
  }

  /**
   A whole call made among other workers leaves a good state with the very same other workers, and loses
   nothing.
   */
  lemma {:induction false} CallIsSafe(cfg: Config, c0: int, s: Sys, id: nat, db: Db) returns (t: Sys)
    requires ValidConfig(cfg) && Inv(cfg, c0, s) && IsRunOf(cfg, s, id, db)
    ensures t.db == db && t.workers == s.workers && Inv(cfg, c0, t) && Grows(s, t)
  {
    t :| ReachedBy(cfg, id, s, t) && t.db == db && t.workers == s.workers;
    var es :| OwnRun(id, es) && Run(cfg, s, es) == t;
    RunKeeps(cfg, c0, s, es);
  }

  // ---------- the steps of a backfill ----------

  lemma {:induction false} StartStep(tr: Trace, s: Sys, db: Db) returns (t: Sys)
    requires Closed(tr) && Gone(tr, s, db)
    ensures Stands(tr, t, db, BackfillTip(CursorOf(db)))
  {
    t := Apply(tr.cfg, s, StartBackfill(tr.id));
  }

  lemma {:induction false} FailStep(tr: Trace, s: Sys, db: Db, w: Worker) returns (t: Sys)
    requires Closed(tr) && Stands(tr, s, db, w)
    ensures Gone(tr, t, db)
  {
    t := Apply(tr.cfg, s, Fail(tr.id));
  }

  lemma {:induction false} TipStep(tr: Trace, s: Sys, db: Db, cursor: int, tip: int) returns (t: Sys)
    requires Closed(tr) && Stands(tr, s, db, BackfillTip(cursor))
    ensures var cap := BackfillCap(tr.cfg.sync, tip);
            if cap <= cursor then Gone(tr, t, db) else Stands(tr, t, db, BackfillWalk(cap, cursor + 1, [], Consume))
  {
    t := Apply(tr.cfg, s, LearnTip(tr.id, tip));
  }

  lemma {:induction false} FetchStep(
      tr: Trace, s: Sys, db: Db, cap: int, h: int, buf: seq<Bundle>, answers: int -> Answer) returns (t: Sys)
    requires Closed(tr) && Follows(tr.cfg, answers) && h <= cap && Stands(tr, s, db, BackfillWalk(cap, h, buf, Consume))
    ensures match answers(h)
            case Failed(_) => Gone(tr, t, db)
            case NotFound => Stands(tr, t, db, BackfillWalk(cap, h, buf, if buf == [] then Skip else FlushThenSkip))
            case Found(b) =>
              Stands(tr, t, db, BackfillWalk(cap, h + 1, buf + [b],
                                             if |buf| + 1 >= tr.cfg.batchSize then FlushThenConsume else Consume))
  {
    t := Apply(tr.cfg, s, Fetched(tr.id, answers(h)));
  }

  /** What a call that makes a transaction leaves, by the transaction's own outcome. */
  ghost predicate Lands(db: Db, outcome: Result<Db>, online: bool, after: Db, ok: bool) {
    ok == (online && outcome.Ok?) && after == (if ok then outcome.value else db)
  }

  /** A commit changes the store and the one worker by its outcome alone. */
  lemma {:induction false} CommitStep(
      tr: Trace, s: Sys, db: Db, w: Worker, online: bool, outcome: Result<Db>, after: Db, ok: bool) returns (t: Sys)
    requires Closed(tr) && Stands(tr, s, db, w) && Committing(w) && Outcome(db, w) == outcome
    requires Lands(db, outcome, online, after, ok)
    ensures t == if online then ApplyCommit(s, tr.id, w, outcome) else Drop(s, tr.id)
    ensures t in tr.reach && tr.others[tr.id := w] - {tr.id} == tr.others
  {
    t := Apply(tr.cfg, s, if online then Commit(tr.id) else Fail(tr.id));
  }

  /** A batch commit, or the failure of the call that would have made it. */
  lemma {:induction false} FlushStep(tr: Trace, s: Sys, db: Db, w: Worker, online: bool, after: Db, ok: bool)
    returns (t: Sys)
    requires Closed(tr) && Stands(tr, s, db, w) && Flushing(w)
    requires Lands(db, BatchTxn(db, w.buf), online, after, ok)
    ensures Flushed(tr, t, after, w, ok)
  {
    t := CommitStep(tr, s, db, w, online, BatchTxn(db, w.buf), after, ok);
  }

  lemma {:induction false} SkipStep(tr: Trace, s: Sys, db: Db, cap: int, h: int, online: bool) returns (t: Sys)
    requires Closed(tr) && Stands(tr, s, db, BackfillWalk(cap, h, [], Skip))
    ensures online ==> Stands(tr, t, WriteCursor(db, h, 0), BackfillWalk(cap, h + 1, [], Consume))
    ensures !online ==> Gone(tr, t, db)
  {
    t := Apply(tr.cfg, s, if online then SkipGap(tr.id) else Fail(tr.id));
  }

  /** Cancellation, or the end of the stream: flush what is buffered or just stop. */
  lemma {:induction false} LeaveStep(tr: Trace, s: Sys, db: Db, cap: int, next: int, buf: seq<Bundle>)
    returns (t: Sys)
    requires Closed(tr) && Stands(tr, s, db, BackfillWalk(cap, next, buf, Consume))
    ensures if buf == [] then Gone(tr, t, db) else Stands(tr, t, db, BackfillWalk(cap, next, buf, FlushThenStop))
  {
    t := Apply(tr.cfg, s, Cancel(tr.id));
  }

  // ---------- the steps of a tail event ----------

  /** The worker walks on from height `next`. */
  ghost predicate Walks(tr: Trace, s: Sys, db: Db, cap: int, next: int) {
    Stands(tr, s, db, TailWalk(cap, next, Fetch))
  }

  lemma {:induction false} AcquireStep(tr: Trace, s: Sys, db: Db, target: int) returns (t: Sys)
    requires Closed(tr) && Gone(tr, s, db)
    ensures Stands(tr, t, db, TailTarget(target))
  {
    t := Apply(tr.cfg, s, Finalized(tr.id, target));
  }

  lemma {:induction false} ReadStep(tr: Trace, s: Sys, db: Db, target: int, safeLag: nat) returns (t: Sys)
    requires Closed(tr) && Stands(tr, s, db, TailTarget(target)) && tr.cfg.sync.safeLag == safeLag
    ensures Walks(tr, t, db, target - safeLag, CursorOf(db) + 1)
  {
    t := Apply(tr.cfg, s, ReadCursor(tr.id));
  }

  lemma {:induction false} StepOverStep(tr: Trace, s: Sys, db: Db, cap: int, h: int, online: bool) returns (t: Sys)
    requires Closed(tr) && Stands(tr, s, db, TailWalk(cap, h, StepOver))
    ensures if online then Walks(tr, t, WriteCursor(db, h, 0), cap, h + 1) else Gone(tr, t, db)
  {
    t := Apply(tr.cfg, s, if online then SkipGap(tr.id) else Fail(tr.id));
  }

  lemma {:induction false} WriteStep(
      tr: Trace, s: Sys, db: Db, cap: int, h: int, b: Bundle, online: bool, after: Db, ok: bool) returns (t: Sys)
    requires Closed(tr) && Stands(tr, s, db, TailWalk(cap, h, Write(b)))
    requires Lands(db, WriteBlockTxn(db, b), online, after, ok)
    ensures if ok then Walks(tr, t, after, cap, h + 1) else Gone(tr, t, after)
  {
    t := CommitStep(tr, s, db, TailWalk(cap, h, Write(b)), online, WriteBlockTxn(db, b), after, ok);
  }

  /** One height of the walk; `online` says whether the database call goes through. */
  lemma {:induction false} HeightStep(
      tr: Trace, s: Sys, db: Db, cap: int, h: int, answers: int -> Answer, online: bool, after: Db, ok: bool)
    returns (t: Sys)
    requires Closed(tr) && Follows(tr.cfg, answers) && h <= cap && Walks(tr, s, db, cap, h)
    requires match answers(h)
             case Failed(_) => !ok && after == db
             case NotFound => ok == online && after == (if online then WriteCursor(db, h, 0) else db)
             case Found(b) =>
               Lands(db, WriteBlockTxn(db, b), online, after, ok)
    ensures if ok then Walks(tr, t, after, cap, h + 1) else Gone(tr, t, after)
  {
    var u := Apply(tr.cfg, s, Fetched(tr.id, answers(h)));
    match answers(h) {
      case Failed(_) => t := u;
      case NotFound => t := StepOverStep(tr, u, db, cap, h, online);
      case Found(b) => t := WriteStep(tr, u, db, cap, h, b, online, after, ok);
    }
  }

  /** Another task saw the tip `target` and stashed it; the holder takes it over. */
  lemma {:induction false} DrainStep(tr: Trace, s: Sys, db: Db, cap: int, next: int, target: int) returns (t: Sys)
    requires Closed(tr) && Walks(tr, s, db, cap, next) && next > cap
    ensures Stands(tr, t, db, TailTarget(target))
  {
    var seen := Apply(tr.cfg, s, Sight(target));
    t := Apply(tr.cfg, seen, Drain(tr.id, target));
  }

  lemma {:induction false} ReleaseStep(tr: Trace, s: Sys, db: Db, cap: int, next: int) returns (t: Sys)
    requires Closed(tr) && Walks(tr, s, db, cap, next) && next > cap
    ensures Gone(tr, t, db)
  {
    t := Apply(tr.cfg, s, Release(tr.id));
  }
}
