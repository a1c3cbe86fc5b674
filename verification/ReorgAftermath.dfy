/**
 What the rewind as written leads to: the deleted heights stay missing in every later run, and where the
 walk back stops at a gap the fork's blocks below it stay.
 */
module ReorgAftermath {
  import opened Prelude
  import opened Folds
  import opened Rows
  import opened Store
  import opened BlockWriter
  import opened BatchRefinement
  import opened Confluence
  import opened Fetch
  import opened SyncProtocol
  import opened SyncSettings
  import opened Reorg
  import Trace = SyncTrace

  // ---------- what the rewind keeps ----------

  /** The highest stored block below `d`. */
  ghost predicate IsTop(db: Db, d: int, top: int) {
    top in db.blocks && top < d && forall h :: h in db.blocks && h < d ==> h <= top
  }

  /**
   However the walk ended, the blocks a rewind to `d` keeps are all canonical if and only if the highest of
   them is; below a gap or a missing answer nothing has checked that one.
   */
  lemma {:induction false} KeptIsCanonicalIff(db: Db, fork: int -> Bundle, canon: int -> Bundle, d: int)
    requires Linked(fork) && Linked(canon) && HashesCommit(fork, canon) && Confluence.Canonical(db, fork)
    requires forall h :: h in db.blocks ==> h >= 0
    ensures (forall h :: h in db.blocks && h < d ==> db.blocks[h] == canon(h).block) <==>
            (forall top :: IsTop(db, d, top) ==> db.blocks[top].hash == canon(top).block.hash)
  {
    if forall top :: IsTop(db, d, top) ==> db.blocks[top].hash == canon(top).block.hash {
      forall h | h in db.blocks && h < d ensures db.blocks[h] == canon(h).block {
        var top := TopAbove(db, d, h);
        BelowTop(db, fork, canon, top, h);
      }
    }
  }

  lemma {:induction false} TopAbove(db: Db, d: int, h: int) returns (top: int)
    requires h in db.blocks && h < d
    ensures IsTop(db, d, top) && h <= top
  {
    var kept := set k | k in db.blocks && k < d;
    assert h in kept;
    HasMax(kept);
    top :| IsMax(kept, top);
    forall k | k in db.blocks && k < d ensures k <= top {
      assert k in kept;
    }
  }

  lemma {:induction false} BelowTop(db: Db, fork: int -> Bundle, canon: int -> Bundle, top: int, h: int)
    requires Linked(fork) && Linked(canon) && HashesCommit(fork, canon)
    requires TableImage(db.blocks, db.blocks.Keys, BlocksAt(fork), BlockKey, BlockKey)
    requires h in db.blocks && top in db.blocks && 0 <= h <= top && db.blocks[top].hash == canon(top).block.hash
    ensures db.blocks[h] == canon(h).block
  {
    StoredBlock(db, fork, top);
    StoredBlock(db, fork, h);
    AgreementRunsDown(fork, canon, top, h);
  }

  /** The fork stored up to `g + 2`, with a 404 gap at `g + 1`. */
  ghost predicate StoredAround(db: Db, fork: int -> Bundle, g: nat) {
    && (forall h :: h in db.blocks <==> 0 <= h <= g + 2 && h != g + 1)
    && (forall h :: h in db.blocks ==> db.blocks[h] == fork(h).block)
    && CursorOf(db) == g + 2
  }

  /** The input: on such a store the walk stops at the gap and the rewind keeps the fork's blocks below it. */
  lemma {:induction false} GapHidesFork(db: Db, fork: int -> Bundle, canon: int -> Bundle, g: nat)
    returns (remote: int -> Remote)
    requires Linked(fork) && Linked(canon) && HashesCommit(fork, canon)
    requires StoredAround(db, fork, g) && fork(g).block.hash != canon(g).block.hash
    ensures Serves(remote, canon) && Covered(db, {g + 1}, CursorOf(db))
    ensures Mismatch(db, remote, g + 2) && IsDivergence(db, remote, g + 2, g + 2)
    ensures g in Rewind(db, g + 2).blocks && Rewind(db, g + 2).blocks[g].hash != canon(g).block.hash
  {
    remote := (h: int) => Has(canon(h).block.hash);
    assert fork(g + 2).block.hash != canon(g + 2).block.hash by {
      if fork(g + 2).block.hash == canon(g + 2).block.hash {
        AgreementRunsDown(fork, canon, g + 2, g);
      }
    }
  }

  /** The fork is stored up to `n` but for height `g + 1`. */
  ghost predicate TablesTo(fork: int -> Bundle, g: nat, db: Db, n: int) {
    Image(db, fork) && (forall h :: h in db.blocks <==> 0 <= h <= n && h != g + 1) && CursorOf(db) == n
  }

  /** A tail worker stands after height `n` of the fork, having met the gap if that lies below. */
  ghost predicate WalkedTo(cfg: Config, fork: int -> Bundle, g: nat, s: Sys, n: int) {
    && Trace.ReachedBy(cfg, 0, Boot(EMPTY, {}), s) && s.workers == map[0 := TailWalk(g + 2, n + 1, TailTodo.Fetch)]
    && TablesTo(fork, g, s.db, n) && s.gaps == if n > g then {g + 1} else {}
  }

  lemma {:induction false} WalkGap(cfg: Config, fork: int -> Bundle, g: nat, s: Sys) returns (t: Sys)
    requires WalkedTo(cfg, fork, g, s, g)
    ensures WalkedTo(cfg, fork, g, t, g + 1)
  {
    var u := Apply(cfg, s, Fetched(0, NotFound));
    Trace.OneMoreEvent(cfg, 0, Boot(EMPTY, {}), s, Fetched(0, NotFound));
    t := Apply(cfg, u, SkipGap(0));
    Trace.OneMoreEvent(cfg, 0, Boot(EMPTY, {}), u, SkipGap(0));
    assert t.db.blocks == s.db.blocks;
  }

  lemma {:induction false} ForkBlockLands(db: Db, fork: int -> Bundle, h: int) returns (d: Db)
    requires ChainSane(fork) && Image(db, fork)
    ensures WriteBlockTxn(db, fork(h)) == Ok(d) && Image(d, fork) && d.blocks.Keys == db.blocks.Keys + {h}
  {
    WriteKeepsImage(db, fork, h);
    d := WriteBlockTxn(db, fork(h)).value;
  }

  lemma {:induction false} BlockRaisesCursor(cfg: Config, db: Db, b: Bundle, h: int, d: Db)
    requires ValidConfig(cfg) && cfg.offers(h, b) && WriteBlockTxn(db, b) == Ok(d)
    ensures d.cursor == Some(if db.cursor.None? then h else Max(db.cursor.value, h))
  {
    BlockCommits(cfg, db, b, h);
  }

  lemma {:induction false} TablesGrow(fork: int -> Bundle, g: nat, db: Db, d: Db, h: int)
    requires TablesTo(fork, g, db, h - 1) && 0 <= h != g + 1
    requires Image(d, fork) && d.blocks.Keys == db.blocks.Keys + {h}
    requires d.cursor == Some(if db.cursor.None? then h else Max(db.cursor.value, h))
    ensures TablesTo(fork, g, d, h)
  {
  }

  ghost predicate Writes(db: Db, b: Bundle, d: Db) {
    WriteBlockTxn(db, b) == Ok(d)
  }

  lemma {:induction false} NextBlock(cfg: Config, g: nat, db: Db, fork: int -> Bundle, h: int) returns (d: Db)
    requires StableChain(cfg, fork) && ValidConfig(cfg) && cfg.offers(h, fork(h))
    requires TablesTo(fork, g, db, h - 1) && 0 <= h != g + 1
    ensures Writes(db, fork(h), d) && TablesTo(fork, g, d, h)
  {
    d := ForkBlockLands(db, fork, h);
    BlockRaisesCursor(cfg, db, fork(h), h, d);
    TablesGrow(fork, g, db, d, h);
  }

  /** Fetching and writing a block, by the transaction's outcome alone. */
  lemma {:induction false} WriteLands(cfg: Config, s: Sys, cap: int, h: int, b: Bundle, d: Db) returns (t: Sys)
    requires s.workers == map[0 := TailWalk(cap, h, TailTodo.Fetch)] && h <= cap && cfg.offers(h, b)
    requires Writes(s.db, b, d) && Trace.ReachedBy(cfg, 0, Boot(EMPTY, {}), s)
    ensures t == s.(db := d, workers := map[0 := TailWalk(cap, h + 1, TailTodo.Fetch)])
    ensures Trace.ReachedBy(cfg, 0, Boot(EMPTY, {}), t)
  {
    var u := Apply(cfg, s, Fetched(0, Found(b)));
    Trace.OneMoreEvent(cfg, 0, Boot(EMPTY, {}), s, Fetched(0, Found(b)));
    assert u == s.(workers := map[0 := TailWalk(cap, h, Write(b))]);
    t := Apply(cfg, u, Commit(0));
    Trace.OneMoreEvent(cfg, 0, Boot(EMPTY, {}), u, Commit(0));
    assert t == ApplyCommit(u, 0, u.workers[0], Ok(d));
  }

  lemma {:induction false} WalkBlock(cfg: Config, fork: int -> Bundle, g: nat, s: Sys, h: int) returns (t: Sys)
    requires StableChain(cfg, fork) && ValidConfig(cfg) && cfg.offers(h, fork(h))
    requires WalkedTo(cfg, fork, g, s, h - 1) && 0 <= h <= g + 2 && h != g + 1
    ensures WalkedTo(cfg, fork, g, t, h)
  {
    var d := NextBlock(cfg, g, s.db, fork, h);
    var b := fork(h);
    t := WriteLands(cfg, s, g + 2, h, b, d);
  }

  lemma {:induction false} WalkFrom(cfg: Config, fork: int -> Bundle, g: nat, s: Sys, n: int) returns (t: Sys)
    requires StableChain(cfg, fork) && ValidConfig(cfg) && forall h :: cfg.offers(h, fork(h))
    requires WalkedTo(cfg, fork, g, s, n) && -1 <= n <= g + 2
    ensures WalkedTo(cfg, fork, g, t, g + 2)
    decreases g + 2 - n
  {
    if n == g + 2 {
      t := s;
    } else {
      var u;
      if n == g {
        u := WalkGap(cfg, fork, g, s);
      } else {
        u := WalkBlock(cfg, fork, g, s, n + 1);
      }
      t := WalkFrom(cfg, fork, g, u, n + 1);
    }
  }

  lemma {:induction false} WalkStart(cfg: Config, fork: int -> Bundle, g: nat) returns (s: Sys)
    requires cfg.sync.safeLag == 0
    ensures WalkedTo(cfg, fork, g, s, -1)
  {
    var boot := Boot(EMPTY, {});
    assert Run(cfg, boot, []) == boot && Trace.OwnRun(0, []);
    EmptyIsImage(fork);
    var u := Apply(cfg, boot, Finalized(0, g + 2));
    Trace.OneMoreEvent(cfg, 0, boot, boot, Finalized(0, g + 2));
    s := Apply(cfg, u, ReadCursor(0));
    Trace.OneMoreEvent(cfg, 0, boot, u, ReadCursor(0));
  }

  /** And such a store is what a run of the protocol on the fork leaves, around a height that was answered 404. */
  lemma {:induction false} GapStoreIsReached(fork: int -> Bundle, g: nat) returns (cfg: Config, es: seq<Event>)
    requires ChainSane(fork)
    ensures var s := Run(cfg, Boot(EMPTY, {}), es);
            ValidConfig(cfg) && StableChain(cfg, fork) && StoredAround(s.db, fork, g) && s.gaps == {g + 1}
  {
    cfg := Config(SyncConfig(0, None), 1, (h: int, b: Bundle) => b == fork(h));
    assert forall h, b :: OfferIsChain(cfg, fork, h, b);
    StableIsValid(cfg, fork);
    var s := WalkStart(cfg, fork, g);
    var t := WalkFrom(cfg, fork, g, s, -1);
    forall h | h in t.db.blocks ensures t.db.blocks[h] == fork(h).block {
      StoredBlock(t.db, fork, h);
    }
    es :| Trace.OwnRun(0, es) && Run(cfg, Boot(EMPTY, {}), es) == t;
  }

  // ---------- runs after the rewind as written ----------

  /** The worker only handles heights above `c`. */
  ghost predicate WorkerAbove(cfg: Config, w: Worker, c: int) {
    match w
    case BackfillTip(cursor) => cursor >= c
    case BackfillWalk(_, next, buf, todo) =>
      next - |buf| > c && BufferOffered(cfg, buf, next) && (todo.Skip? ==> buf == [])
    case TailTarget(_) => true
    case TailWalk(_, next, todo) => next > c && (todo.Write? ==> cfg.offers(next, todo.bundle))
  }

  ghost predicate Above(cfg: Config, s: Sys, c: int) {
    CursorOf(s.db) >= c && forall id :: id in s.workers ==> WorkerAbove(cfg, s.workers[id], c)
  }

  /** Nothing at or below `c` is filled in: no block, no gap; no row is lost. */
  ghost predicate FillsAbove(s: Sys, t: Sys, c: int) {
    && (forall h :: h <= c && h in t.db.blocks ==> h in s.db.blocks)
    && (forall h :: h <= c && h in t.gaps ==> h in s.gaps)
    && RowsKept(s.db, t.db) && CursorOf(s.db) <= CursorOf(t.db)
  }

  lemma {:induction false} BatchFillsAbove(cfg: Config, db: Db, buf: seq<Bundle>, next: int, d: Db)
    requires ValidConfig(cfg) && BufferOffered(cfg, buf, next) && buf != [] && BatchTxn(db, buf) == Ok(d)
    ensures forall h :: h in d.blocks && h !in db.blocks ==> h >= next - |buf|
  {
    OfferedAscending(cfg, buf, next);
    BatchEffect(db, buf);
    var rows := Flatten(buf, BlockRow);
    InsertBlocksEffect(db, rows);
    forall h | h in d.blocks && h !in db.blocks ensures h >= next - |buf| {
      var b :| b in rows && b.height == h;
      OfferedHeight(buf, next, b);
    }
  }

  lemma {:induction false} OfferedHeight(buf: seq<Bundle>, next: int, b: Block)
    requires forall i :: 0 <= i < |buf| ==> buf[i].block.height == next - |buf| + i
    requires b in Flatten(buf, BlockRow)
    ensures b.height >= next - |buf|
  {
    FlattenMembers(buf, BlockRow, b);
    var i :| 0 <= i < |buf| && b in BlockRow(buf[i]);
    assert buf[i].block.height == next - |buf| + i;
  }

  /** What a commit leaves behind, without naming the transaction. */
  ghost predicate CommitsAbove(db: Db, d: Db, c: int) {
    && (forall h :: h <= c && h in d.blocks ==> h in db.blocks)
    && RowsKept(db, d) && CursorOf(d) >= CursorOf(db)
  }

  lemma {:induction false} BatchCommitsAbove(cfg: Config, db: Db, buf: seq<Bundle>, next: int, c: int, d: Db)
    requires ValidConfig(cfg) && BufferOffered(cfg, buf, next) && next - |buf| > c
    requires BatchTxn(db, buf) == Ok(d) && CursorOf(db) >= -1 && c >= -1
    ensures CommitsAbove(db, d, c)
  {
    if buf != [] {
      BatchGrows(cfg, db, buf, next, d);
      BatchFillsAbove(cfg, db, buf, next, d);
    }
  }

  lemma {:induction false} BatchGrows(cfg: Config, db: Db, buf: seq<Bundle>, next: int, d: Db)
    requires ValidConfig(cfg) && BufferOffered(cfg, buf, next) && buf != [] && BatchTxn(db, buf) == Ok(d)
    requires CursorOf(db) >= -1 && next >= 0
    ensures RowsKept(db, d) && CursorOf(d) >= CursorOf(db)
  {
    BatchCommits(cfg, db, buf, next);
  }

  lemma {:induction false} BlockCommitsAbove(cfg: Config, db: Db, b: Bundle, next: int, c: int, d: Db)
    requires ValidConfig(cfg) && cfg.offers(next, b) && next > c
    requires WriteBlockTxn(db, b) == Ok(d) && CursorOf(db) >= -1 && c >= -1
    ensures CommitsAbove(db, d, c)
  {
    assert OfferFits(cfg, next, b);
    BlockCommits(cfg, db, b, next);
    WriteBlockEffect(db, b);
  }

  lemma {:induction false} OutcomeIsAbove(cfg: Config, s: Sys, w: Worker, c: int, d: Db)
    requires ValidConfig(cfg) && WorkerAbove(cfg, w, c) && Outcome(s.db, w) == Ok(d)
    requires CursorOf(s.db) >= c >= -1
    ensures CommitsAbove(s.db, d, c)
  {
    match w {
      case BackfillWalk(_, next, buf, _) => BatchCommitsAbove(cfg, s.db, buf, next, c, d);
      case TailWalk(_, next, Write(b)) => BlockCommitsAbove(cfg, s.db, b, next, c, d);
      case _ =>
    }
  }

  lemma {:induction false} CommitStaysAbove(cfg: Config, s: Sys, id: nat, c: int, outcome: Result<Db>)
    requires Above(cfg, s, c) && id in s.workers && (outcome.Ok? ==> CommitsAbove(s.db, outcome.value, c))
    ensures var t := ApplyCommit(s, id, s.workers[id], outcome); Above(cfg, t, c) && FillsAbove(s, t, c)
  {
    assert WorkerAbove(cfg, s.workers[id], c);
  }

  lemma {:induction false} FetchStaysAbove(cfg: Config, s: Sys, id: nat, a: Answer, c: int)
    requires Above(cfg, s, c) && id in s.workers
    ensures var t := ApplyFetched(cfg, s, id, s.workers[id], a); Above(cfg, t, c) && FillsAbove(s, t, c)
  {
    assert WorkerAbove(cfg, s.workers[id], c);
  }

  lemma {:induction false} SkipStaysAbove(cfg: Config, s: Sys, id: nat, c: int)
    requires c >= -1 && Above(cfg, s, c) && id in s.workers
    ensures var t := ApplySkip(s, id, s.workers[id]); Above(cfg, t, c) && FillsAbove(s, t, c)
  {
    assert WorkerAbove(cfg, s.workers[id], c);
  }

  lemma {:induction false} EventStaysAbove(cfg: Config, s: Sys, e: Event, c: int)
    requires ValidConfig(cfg) && Above(cfg, s, c) && c >= -1
    ensures Above(cfg, Apply(cfg, s, e), c) && FillsAbove(s, Apply(cfg, s, e), c)
  {
    match e {
      case Fetched(id, a) =>
        if id in s.workers {
          FetchStaysAbove(cfg, s, id, a, c);
        }
      case Commit(id) =>
        if id in s.workers {
          var outcome := Outcome(s.db, s.workers[id]);
          if outcome.Ok? {
            OutcomeIsAbove(cfg, s, s.workers[id], c, outcome.value);
          }
          CommitStaysAbove(cfg, s, id, c, outcome);
        }
      case SkipGap(id) =>
        if id in s.workers {
          SkipStaysAbove(cfg, s, id, c);
        }
      case Sight(_) =>
        assert forall id :: id in s.workers ==> WorkerAbove(cfg, s.workers[id], c);
      case Crash =>
      case _ =>
        LocalStaysAbove(cfg, s, e, c);
    }
  }

  lemma {:induction false} LocalStaysAbove(cfg: Config, s: Sys, e: Event, c: int)
    requires Above(cfg, s, c) && !e.Fetched? && !e.Commit? && !e.SkipGap? && !e.Crash? && !e.Sight?
    ensures Above(cfg, Apply(cfg, s, e), c) && FillsAbove(s, Apply(cfg, s, e), c)
  {
    if e.id in s.workers {
      assert WorkerAbove(cfg, s.workers[e.id], c);
    }
  }

  lemma {:induction false} RunStaysAbove(cfg: Config, s: Sys, es: seq<Event>, c: int)
    requires ValidConfig(cfg) && Above(cfg, s, c) && c >= -1
    ensures Above(cfg, Run(cfg, s, es), c) && FillsAbove(s, Run(cfg, s, es), c)
  {
    if es != [] {
      RunStaysAbove(cfg, s, es[..|es| - 1], c);
      EventStaysAbove(cfg, Run(cfg, s, es[..|es| - 1]), es[|es| - 1], c);
    }
  }

  /**
   After the rewind as written, among whatever workers are running: a deleted height that all of them have
   passed is never stored again and never becomes a gap, in any run.
   */
  lemma {:induction false} DeletedStaysMissing(cfg: Config, s: Sys, d: int, h: int, es: seq<Event>)
    requires ValidConfig(cfg) && 0 <= d <= h <= CursorOf(s.db)
    requires forall id :: id in s.workers ==> WorkerAbove(cfg, s.workers[id], h)
    ensures var u := Run(cfg, s.(db := Rewind(s.db, d)), es);
            && h !in u.db.blocks && (h in u.gaps ==> h in s.gaps)
            && Keeps(s.db.transfers, u.db.transfers)
            && CursorOf(u.db) >= CursorOf(s.db)
  {
    var t := s.(db := Rewind(s.db, d));
    RunStaysAbove(cfg, t, es, h);
  }

  /** A worker that does stand at the deleted height stores it again. */
  lemma {:induction false} SlowWorkerRestores(cfg: Config, s: Sys, d: int, h: int, id: nat, cap: int, b: Bundle)
    requires ValidConfig(cfg) && h <= cap && id in s.workers && s.workers[id] == TailWalk(cap, h, TailTodo.Fetch)
    requires cfg.offers(h, b) && WriteBlockTxn(Rewind(s.db, d), b).Ok?
    ensures h in Run(cfg, s.(db := Rewind(s.db, d)), [Fetched(id, Found(b)), Commit(id)]).db.blocks
  {
    var t := s.(db := Rewind(s.db, d));
    var es := [Fetched(id, Found(b)), Commit(id)];
    assert es[..1] == [es[0]] && [es[0]][..0] == [];
    assert Run(cfg, t, [es[0]]) == Apply(cfg, Run(cfg, t, []), es[0]);
    BlockCommits(cfg, t.db, b, h);
  }

  /** The worker's first uncommitted height is the one after `c`. */
  ghost predicate StandsAfter(w: Worker, c: int) {
    match w
    case BackfillTip(cursor) => cursor == c
    case BackfillWalk(_, next, buf, _) => next - |buf| == c + 1
    case TailTarget(_) => true
    case TailWalk(_, next, _) => next == c + 1
  }

  lemma {:induction false} AtCursorIsAbove(cfg: Config, s: Sys, w: Worker, c: int)
    requires WorkerOk(cfg, s, w) && StandsAfter(w, c)
    ensures WorkerAbove(cfg, w, c)
  {
  }

  lemma {:induction false} AtCursorIsOk(cfg: Config, s: Sys, t: Sys, w: Worker, c: int)
    requires WorkerOk(cfg, s, w) && StandsAfter(w, c) && t == s.(db := t.db) && Covered(t.db, s.gaps, c)
    ensures WorkerOk(cfg, t, w)
  {
  }

  lemma {:induction false} GapsKeepCoverage(cfg: Config, c0: int, s: Sys, d: int, es: seq<Event>)
    requires ValidConfig(cfg) && Inv(cfg, c0, s) && 0 <= d <= CursorOf(s.db) + 1
    requires forall id :: id in s.workers ==> StandsAfter(s.workers[id], CursorOf(s.db))
    requires forall h :: d <= h <= CursorOf(s.db) ==> h in s.gaps
    ensures var u := Run(cfg, s.(db := Rewind(s.db, d)), es); Covered(u.db, u.gaps, CursorOf(u.db))
  {
    var t := s.(db := Rewind(s.db, d));
    RewindCoverageIff(s.db, s.gaps, d);
    CascadeIsExact(s.db, d);
    forall id | id in s.workers ensures WorkerOk(cfg, t, s.workers[id]) {
      AtCursorIsOk(cfg, s, t, s.workers[id], CursorOf(s.db));
    }
    RunKeeps(cfg, c0, t, es);
  }

  /**
   With every running worker at the cursor, every later run is covered up to its cursor if and only if every
   height from the divergence to the old cursor had been recorded as a 404; if one had not, no run repairs it.
   */
  lemma {:induction false} CoverageAfterRewindIff(cfg: Config, c0: int, s: Sys, d: int, es: seq<Event>)
    requires ValidConfig(cfg) && Inv(cfg, c0, s) && 0 <= d <= CursorOf(s.db) + 1
    requires forall id :: id in s.workers ==> StandsAfter(s.workers[id], CursorOf(s.db))
    ensures var u := Run(cfg, s.(db := Rewind(s.db, d)), es);
            Covered(u.db, u.gaps, CursorOf(u.db)) <==> forall h :: d <= h <= CursorOf(s.db) ==> h in s.gaps
  {
    if forall h :: d <= h <= CursorOf(s.db) ==> h in s.gaps {
      GapsKeepCoverage(cfg, c0, s, d, es);
    } else {
      forall id, h | id in s.workers && h <= CursorOf(s.db) ensures WorkerAbove(cfg, s.workers[id], h) {
        AtCursorIsAbove(cfg, s, s.workers[id], CursorOf(s.db));
      }
      var h :| d <= h <= CursorOf(s.db) && h !in s.gaps;
      DeletedStaysMissing(cfg, s, d, h, es);
    }
  }

  // ---------- runs after the reset the comments describe ----------

  /** Nothing at or above `d` has been committed by the worker. */
  ghost predicate StandsBelow(w: Worker, d: int) {
    match w
    case BackfillTip(cursor) => cursor < d
    case BackfillWalk(_, next, buf, _) => next - |buf| <= d
    case TailTarget(_) => true
    case TailWalk(_, next, _) => next <= d
  }

  lemma {:induction false} RewoundIsSafe(cfg: Config, c0: int, s: Sys, d: int)
    requires Inv(cfg, c0, s) && 0 <= d <= CursorOf(s.db) + 1
    requires forall id :: id in s.workers ==> StandsBelow(s.workers[id], d)
    ensures Inv(cfg, CursorOf(IntendedRewind(s.db, d)), s.(db := IntendedRewind(s.db, d)))
  {
    var t := s.(db := IntendedRewind(s.db, d));
    CascadeIsExact(s.db, d);
    IntendedRewindCovers(s.db, s.gaps, d);
    forall id | id in t.workers ensures WorkerOk(cfg, t, t.workers[id]) {
      BelowIsOk(cfg, s, t, s.workers[id], d);
    }
  }

  lemma {:induction false} BelowIsOk(cfg: Config, s: Sys, t: Sys, w: Worker, d: int)
    requires WorkerOk(cfg, s, w) && StandsBelow(w, d) && t == s.(db := t.db) && Covered(t.db, s.gaps, d - 1)
    ensures WorkerOk(cfg, t, w)
  {
  }

  /**
   With the intended reset, and no running worker past the divergence, any later run of the workers on the
   canonical chain keeps the covered prefix and stores only canonical blocks, txs and logs.
   */
  lemma {:induction false} RecoveryAfterIntendedRewind(
      cfg: Config, c0: int, s: Sys, fork: int -> Bundle, canon: int -> Bundle, d: int, es: seq<Event>)
    requires ChainSane(fork) && StableChain(cfg, canon) && cfg.batchSize > 0
    requires Inv(cfg, c0, s) && Confluence.Canonical(s.db, fork) && 0 <= d <= CursorOf(s.db) + 1
    requires forall h :: h in s.db.blocks && h < d ==> fork(h) == canon(h)
    requires forall id :: id in s.workers ==> StandsBelow(s.workers[id], d)
    ensures var u := Run(cfg, s.(db := IntendedRewind(s.db, d)), es);
            Covered(u.db, u.gaps, CursorOf(u.db)) && Confluence.Canonical(u.db, canon) && Integrity(u.db)
  {
    var t := s.(db := IntendedRewind(s.db, d));
    RewoundIsSafe(cfg, c0, s, d);
    PrunedIsCanonical(s.db, fork, canon, d);
    StableIsValid(cfg, canon);
    RunKeeps(cfg, CursorOf(t.db), t, es);
    RunKeepsImage(cfg, canon, CursorOf(t.db), t, es);
  }

  /**
   A worker that is past the divergence jumps the hole: its next commit raises the cursor over the deleted
   heights, and the prefix is covered if and only if they had all been 404s.
   */
  lemma {:induction false} LiveWorkerJumps(cfg: Config, s: Sys, d: int, id: nat, cap: int, h: int, b: Bundle)
    requires ValidConfig(cfg) && Covered(s.db, s.gaps, CursorOf(s.db)) && 0 <= d <= CursorOf(s.db) + 1 && d < h
    requires id in s.workers && s.workers[id] == TailWalk(cap, h, Write(b))
    requires cfg.offers(h, b) && WriteBlockTxn(IntendedRewind(s.db, d), b).Ok?
    ensures var u := Apply(cfg, s.(db := IntendedRewind(s.db, d)), Commit(id));
            && CursorOf(u.db) == h
            && (Covered(u.db, u.gaps, h) <==> forall k :: d <= k < h ==> k in s.gaps)
  {
    var t := s.(db := IntendedRewind(s.db, d));
    IntendedRewindCovers(s.db, s.gaps, d);
    BlockCommits(cfg, t.db, b, h);
    BlockCommitsAbove(cfg, t.db, b, h, h - 1, WriteBlockTxn(t.db, b).value);
    JumpedCoverage(t.db, WriteBlockTxn(t.db, b).value, s.gaps, d, h);
  }

  lemma {:induction false} JumpedCoverage(before: Db, after: Db, gaps: set<int>, d: int, h: int)
    requires Covered(before, gaps, d - 1) && 0 <= d < h && RowsKept(before, after) && h in after.blocks
    requires forall k :: k <= h - 1 && k in after.blocks ==> k in before.blocks
    requires forall k :: k in before.blocks ==> k < d
    ensures Covered(after, gaps, h) <==> forall k :: d <= k < h ==> k in gaps
  {
    forall k | 0 <= k < d ensures k in after.blocks || k in gaps {
      assert k in before.blocks || k in gaps;
    }
  }

  /** After either reset a stale transfer outlives every later resync, since the first row for its key wins. */
  lemma {:induction false} StaleTransfersStay(cfg: Config, c0: int, s: Sys, d: int, es: seq<Event>)
    requires ValidConfig(cfg) && Inv(cfg, c0, s) && d >= 0
    ensures Keeps(s.db.transfers, Run(cfg, s.(db := Rewind(s.db, d)), es).db.transfers)
    ensures Keeps(s.db.transfers, Run(cfg, s.(db := IntendedRewind(s.db, d)), es).db.transfers)
  {
    forall id | id in s.workers ensures WorkerAbove(cfg, s.workers[id], -1) {
      assert WorkerOk(cfg, s, s.workers[id]);
    }
    RunStaysAbove(cfg, s.(db := Rewind(s.db, d)), es, -1);
    RunStaysAbove(cfg, s.(db := IntendedRewind(s.db, d)), es, -1);
  }
}
