/**
 One range run again and again: however often attempts at a fixed range are cut off, the tables are a
 prefix of the range's commits, and after a complete attempt all of them.
 */
module CoinBlastReruns {
  import opened Prelude
  import opened Folds
  import opened Rows
  import opened CoinBlastStore
  import opened CoinBlastLogs
  import opened CoinBlastRuns
  import opened CoinBlastOrder

  // ---------- a chunk as a list of idempotent commits ----------

  datatype Pass = First | Second

  /** The commits a log gives rise to: a listing in the first pass; in the second an adoption, then a trade. */
  function LogOps(cfg: Config, pass: Pass, l: CbLog): seq<Op> {
    match pass
    case First =>
      if l.body.CurveCreated? && LaunchOf(l).Ok? then [AddToken(LaunchOf(l).value.0, LaunchOf(l).value.1)] else []
    case Second =>
      if !IsWanted(cfg, l) then []
      else
        var adopt := AddToken(l.emitter, AdoptionOf(l, cfg.probe(l.emitter).value));
        if TradeOf(l).Ok? then [adopt, AddTrade(TradeOf(l).value)] else [adopt]
  }

  function OpsOf(cfg: Config, pass: Pass): CbLog -> seq<Op> {
    l => LogOps(cfg, pass, l)
  }

  function PassOps(cfg: Config, pass: Pass, ls: seq<CbLog>): seq<Op> {
    Flatten(ls, OpsOf(cfg, pass))
  }

  /** One uninterrupted run over `[from, to]`. */
  function ChunkOps(cfg: Config, from: int, to: int): seq<Op> {
    PassOps(cfg, First, FactoryLogs(cfg, from, to)) + PassOps(cfg, Second, Logs(cfg, from, to))
  }

  /** How many of the chunk's commits lie behind the worker's position. */
  function OpsBehind(cfg: Config, phase: Phase): nat {
    match phase
    case Idle => 0
    case Announcing(from, to, at) =>
      var ls := FactoryLogs(cfg, from, to); |PassOps(cfg, First, ls[..Min(at, |ls|)])|
    case Scanning(from, to, at) =>
      var ls := Logs(cfg, from, to);
      |PassOps(cfg, First, FactoryLogs(cfg, from, to))| + |PassOps(cfg, Second, ls[..Min(at, |ls|)])|
  }

  lemma {:induction false} PassOpsAt(cfg: Config, pass: Pass, ls: seq<CbLog>, k: nat)
    requires k < |ls|
    ensures PassOps(cfg, pass, ls[..k + 1]) == PassOps(cfg, pass, ls[..k]) + LogOps(cfg, pass, ls[k])
    ensures PassOps(cfg, pass, ls[..k + 1]) <= PassOps(cfg, pass, ls)
  {
    assert ls[..k + 1][..k] == ls[..k];
    assert ls == ls[..k + 1] + ls[k + 1..];
    FlattenConcat(ls[..k + 1], ls[k + 1..], OpsOf(cfg, pass));
  }

  /** The store is the chunk's starting point plus its first `n` commits, at least those behind the worker. */
  ghost predicate Progress(cfg: Config, d: CbDb, from: int, to: int, s: Sys, n: nat) {
    && n <= |ChunkOps(cfg, from, to)| && OpsBehind(cfg, s.phase) <= n
    && s.db == ApplyOps(d, ChunkOps(cfg, from, to)[..n])
    && (s.phase.Announcing? || s.phase.Scanning? ==> s.phase.from == from && s.phase.to == to)
  }

  /** Chunks are retried over the same range and the cursor stays where it is. */
  predicate SameChunk(cfg: Config, from: int, to: int, e: Event) {
    && !e.WriteCursor?
    && (e.StartChunk? && e.tip - cfg.safeLag >= from ==> ChunkEnd(cfg, from - 1, e.tip) == to)
  }

  lemma {:induction false} OpsKeepCursor(d: CbDb, ops: seq<Op>)
    ensures ApplyOps(d, ops).cursor == d.cursor
  {
    if ops != [] {
      OpsKeepCursor(d, ops[..|ops| - 1]);
    }
  }

  /** Applying the worker's next commit to the store is progress or absorbed. */
  lemma {:induction false} NextOp(d: CbDb, ops: seq<Op>, n: nat, k: nat, before: CbDb, after: CbDb)
    requires k <= n <= |ops| && k < |ops| && before == ApplyOps(d, ops[..n]) && after == ApplyOp(before, ops[k])
    ensures after == ApplyOps(d, ops[..Max(n, k + 1)])
  {
    Absorbed(d, ops, n, k);
  }

  /** Where a log of the first pass stands among the chunk's commits. */
  lemma {:induction false} FirstOps(cfg: Config, from: int, to: int, at: nat)
    requires at < |FactoryLogs(cfg, from, to)|
    ensures var ls, ops := FactoryLogs(cfg, from, to), ChunkOps(cfg, from, to);
            var k, mine := |PassOps(cfg, First, ls[..at])|, LogOps(cfg, First, ls[at]);
            && |PassOps(cfg, First, ls[..at + 1])| == k + |mine| <= |ops|
            && (mine != [] ==> ops[k] == mine[0])
  {
    var ls := FactoryLogs(cfg, from, to);
    PassOpsAt(cfg, First, ls, at);
    assert PassOps(cfg, First, ls) <= ChunkOps(cfg, from, to);
  }

  /** The listing a log of the first pass commits. */
  lemma {:induction false} ListingProgress(
      cfg: Config, d: CbDb, from: int, to: int, at: nat, s: Sys, n: nat) returns (m: nat)
    requires ChainOk(cfg) && Inv(cfg, s) && Progress(cfg, d, from, to, s, n) && s.phase == Announcing(from, to, at)
    requires at < |FactoryLogs(cfg, from, to)|
    requires FactoryLogs(cfg, from, to)[at].body.CurveCreated? && LaunchOf(FactoryLogs(cfg, from, to)[at]).Ok?
    ensures Progress(cfg, d, from, to, ApplyAnnounce(cfg, s, from, to, at), m)
  {
    var ls, ops := FactoryLogs(cfg, from, to), ChunkOps(cfg, from, to);
    var k := |PassOps(cfg, First, ls[..at])|;
    var (curve, launch) := LaunchOf(ls[at]).value;
    FirstOps(cfg, from, to, at);
    LaunchFits(cfg, from, to, at);
    InsertFits(cfg, s.db, curve, launch);
    NextOp(d, ops, n, k, s.db, ApplyOp(s.db, AddToken(curve, launch)));
    m := Max(n, k + 1);
  }

  lemma {:induction false} AnnounceProgress(
      cfg: Config, d: CbDb, from: int, to: int, at: nat, s: Sys, n: nat) returns (m: nat)
    requires ChainOk(cfg) && Inv(cfg, s) && Progress(cfg, d, from, to, s, n) && s.phase == Announcing(from, to, at)
    ensures Progress(cfg, d, from, to, ApplyAnnounce(cfg, s, from, to, at), m)
  {
    var ls := FactoryLogs(cfg, from, to);
    m := n;
    if at >= |ls| {
      assert ls[..|ls|] == ls;
      assert Logs(cfg, from, to)[..0] == [];
    } else if ls[at].body.CurveCreated? && LaunchOf(ls[at]).Ok? {
      m := ListingProgress(cfg, d, from, to, at, s, n);
    } else {
      FirstOps(cfg, from, to, at);
    }
  }

  lemma {:induction false} Inside<T>(a: seq<T>, b: seq<T>, x: seq<T>, c: seq<T>, full: seq<T>, j: nat)
    requires c == b + x && c <= full && j < |x|
    ensures |a| + |b| + j < |a + full| && (a + full)[|a| + |b| + j] == x[j]
  {
    assert full[|b| + j] == c[|b| + j] == x[j];
  }

  /** Where a wanted log's commits stand in the chunk. */
  lemma {:induction false} OpsAt(cfg: Config, from: int, to: int, at: nat)
    requires at < |Logs(cfg, from, to)| && IsWanted(cfg, Logs(cfg, from, to)[at])
    ensures var k, ops, mine := OpsBehind(cfg, Scanning(from, to, at)), ChunkOps(cfg, from, to),
                                LogOps(cfg, Second, Logs(cfg, from, to)[at]);
            && OpsBehind(cfg, Scanning(from, to, at + 1)) == k + |mine|
            && k < |ops| && ops[k] == mine[0]
            && (|mine| > 1 ==> k + 1 < |ops| && ops[k + 1] == mine[1])
  {
    var ls := Logs(cfg, from, to);
    PassOpsAt(cfg, Second, ls, at);
    var a, b := PassOps(cfg, First, FactoryLogs(cfg, from, to)), PassOps(cfg, Second, ls[..at]);
    var mine := LogOps(cfg, Second, ls[at]);
    Inside(a, b, mine, PassOps(cfg, Second, ls[..at + 1]), PassOps(cfg, Second, ls), 0);
    if |mine| > 1 {
      Inside(a, b, mine, PassOps(cfg, Second, ls[..at + 1]), PassOps(cfg, Second, ls), 1);
    }
  }

  /** A log without commits of its own. */
  lemma {:induction false} NoOpsAt(cfg: Config, from: int, to: int, at: nat)
    requires at < |Logs(cfg, from, to)| && !IsWanted(cfg, Logs(cfg, from, to)[at])
    ensures OpsBehind(cfg, Scanning(from, to, at + 1)) == OpsBehind(cfg, Scanning(from, to, at))
  {
    PassOpsAt(cfg, Second, Logs(cfg, from, to), at);
  }

  /** A known emitter's adoption is already absorbed, so its trade is the next commit. */
  lemma {:induction false} TradeProgress(d: CbDb, ops: seq<Op>, n: nat, k: nat, db: CbDb) returns (m: nat)
    requires k <= n <= |ops| && k + 1 < |ops| && db == ApplyOps(d, ops[..n])
    requires ops[k].AddToken? && ops[k].curve in db.tokens && ops[k + 1].AddTrade?
    ensures k + 2 <= m <= |ops| && TradeTxn(db, ops[k + 1].trade) == ApplyOps(d, ops[..m])
  {
    NextOp(d, ops, n, k, db, db);
    NextOp(d, ops, Max(n, k + 1), k + 1, db, ApplyOp(db, ops[k + 1]));
    m := Max(n, k + 2);
  }

  /** What one step of the scan does to the tables and the position. */
  ghost predicate VisitLeaves(cfg: Config, s: Sys, from: int, to: int, at: nat, l: CbLog, t: Sys) {
    if !IsWanted(cfg, l) then
      t.db == s.db && (t.phase == s.phase || t.phase == Scanning(from, to, at + 1) || t.phase.Idle?)
    else if l.emitter !in s.known then
      t.phase == s.phase && t.db == ApplyOp(s.db, AddToken(l.emitter, AdoptionOf(l, cfg.probe(l.emitter).value)))
    else if TradeOf(l).Ok? then
      && l.emitter in s.db.tokens
      && t.phase == Scanning(from, to, at + 1) && t.db == TradeTxn(s.db, TradeOf(l).value)
    else t.db == s.db && t.phase.Idle?
  }

  lemma {:induction false} VisitEffect(
      cfg: Config, s: Sys, from: int, to: int, at: nat, reached: bool, victim: Address)
    requires ChainOk(cfg) && Inv(cfg, s) && s.phase == Scanning(from, to, at) && at < |Logs(cfg, from, to)|
    requires NoCurveCached(cfg, s.non) && NoCurveFails(cfg, s, Visit(reached, victim))
    ensures VisitLeaves(cfg, s, from, to, at, Logs(cfg, from, to)[at],
                        ApplyVisit(cfg, s, from, to, at, reached, victim))
  {
    var l := Logs(cfg, from, to)[at];
    assert IsWanted(cfg, l) && l.emitter !in s.known ==> !ProbeFails(cfg, s, Visit(reached, victim), l.emitter);
    AdoptsIff(cfg, s.db, l, reached);
    if IsTrade(l) && l.emitter in s.known {
      KnownTraderIsWanted(cfg, s, from, to, at);
    }
  }

  lemma {:induction false} VisitProgress(
      cfg: Config, d: CbDb, from: int, to: int, at: nat, s: Sys, t: Sys, n: nat) returns (m: nat)
    requires Progress(cfg, d, from, to, s, n) && s.phase == Scanning(from, to, at) && at < |Logs(cfg, from, to)|
    requires VisitLeaves(cfg, s, from, to, at, Logs(cfg, from, to)[at], t)
    ensures Progress(cfg, d, from, to, t, m)
  {
    m := n;
    var l := Logs(cfg, from, to)[at];
    var k, ops := OpsBehind(cfg, s.phase), ChunkOps(cfg, from, to);
    if !IsWanted(cfg, l) {
      NoOpsAt(cfg, from, to, at);
    } else {
      OpsAt(cfg, from, to, at);
      if l.emitter !in s.known {
        NextOp(d, ops, n, k, s.db, t.db);
        m := Max(n, k + 1);
      } else if TradeOf(l).Ok? {
        m := TradeProgress(d, ops, n, k, s.db);
      }
    }
  }

  lemma {:induction false} EventProgress(
      cfg: Config, d: CbDb, from: int, to: int, s: Sys, e: Event, n: nat) returns (m: nat)
    requires ChainOk(cfg) && Inv(cfg, s) && NoCurveCached(cfg, s.non) && NoCurveFails(cfg, s, e)
    requires SameChunk(cfg, from, to, e)
    requires Progress(cfg, d, from, to, s, n) && from == CursorOf(cfg, d) + 1
    ensures Progress(cfg, d, from, to, Apply(cfg, s, e), m)
  {
    m := n;
    match e {
      case Announce =>
        if s.phase.Announcing? {
          m := AnnounceProgress(cfg, d, from, to, s.phase.at, s, n);
        }
      case Visit(reached, victim) =>
        if s.phase.Scanning? && s.phase.at < |Logs(cfg, from, to)| {
          VisitEffect(cfg, s, from, to, s.phase.at, reached, victim);
          m := VisitProgress(cfg, d, from, to, s.phase.at, s, Apply(cfg, s, e), n);
        }
      case StartChunk(_) =>
        OpsKeepCursor(d, ChunkOps(cfg, from, to)[..n]);
        assert FactoryLogs(cfg, from, to)[..0] == [];
      case _ =>
    }
  }

  /** Attempts at one fixed range in which no probe of a curve fails. */
  ghost predicate Retries(cfg: Config, s: Sys, from: int, to: int, es: seq<Event>) {
    CurvesAnswer(cfg, s, es) && forall i :: 0 <= i < |es| ==> SameChunk(cfg, from, to, es[i])
  }

  lemma {:induction false} RetriesPrefix(cfg: Config, s: Sys, from: int, to: int, es: seq<Event>)
    requires Retries(cfg, s, from, to, es) && es != []
    ensures Retries(cfg, s, from, to, es[..|es| - 1])
    ensures SameChunk(cfg, from, to, es[|es| - 1])
    ensures NoCurveFails(cfg, Run(cfg, s, es[..|es| - 1]), es[|es| - 1])
  {
    CurvesAnswerPrefix(cfg, s, es);
  }

  /** Whatever interrupts a chunk, the store holds a prefix of its commits. */
  lemma {:induction false} CutOffAnywhere(
      cfg: Config, d: CbDb, from: int, to: int, s: Sys, n: nat, es: seq<Event>) returns (m: nat)
    requires ChainOk(cfg) && Inv(cfg, s) && InOrder(cfg, s) && from == CursorOf(cfg, d) + 1
    requires Progress(cfg, d, from, to, s, n) && Retries(cfg, s, from, to, es)
    ensures Progress(cfg, d, from, to, Run(cfg, s, es), m)
  {
    m := n;
    if es != [] {
      var init := es[..|es| - 1];
      RetriesPrefix(cfg, s, from, to, es);
      m := CutOffAnywhere(cfg, d, from, to, s, n, init);
      RunInOrder(cfg, s, init);
      m := EventProgress(cfg, d, from, to, Run(cfg, s, init), es[|es| - 1], m);
    }
  }

  /** At the end of the scan the prefix is the whole chunk. */
  lemma {:induction false} ScannedIsWhole(cfg: Config, d: CbDb, from: int, to: int, s: Sys, n: nat)
    requires Progress(cfg, d, from, to, s, n) && s.phase == Scanning(from, to, |Logs(cfg, from, to)|)
    ensures s.db == ApplyOps(d, ChunkOps(cfg, from, to))
  {
    var ls, ops := Logs(cfg, from, to), ChunkOps(cfg, from, to);
    assert ls[..|ls|] == ls;
    assert ops[..n] == ops;
  }

  /**
   Any number of attempts at one fixed range, cut off by failures and restarts at any log, end, once one
   attempt gets through, in the tables of a single uninterrupted run, listing data included.
   */
  lemma {:induction false} FixedRangeRerun(cfg: Config, s: Sys, from: int, to: int, es: seq<Event>)
    requires ChainOk(cfg) && Inv(cfg, s) && InOrder(cfg, s) && s.phase.Idle? && from == CursorOf(cfg, s.db) + 1
    requires Retries(cfg, s, from, to, es)
    requires Run(cfg, s, es).phase == Scanning(from, to, |Logs(cfg, from, to)|)
    ensures Run(cfg, s, es).db == ApplyOps(s.db, ChunkOps(cfg, from, to))
  {
    var n := CutOffAnywhere(cfg, s.db, from, to, s, 0, es);
    ScannedIsWhole(cfg, s.db, from, to, Run(cfg, s, es), n);
  }
}
