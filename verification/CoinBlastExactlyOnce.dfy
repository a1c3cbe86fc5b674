/**
 Exactly once, curve by curve: a trade log is recorded once if no probe of its own curve failed, and in
 any run it is missing exactly when every pass over it skipped it.
 */
module CoinBlastExactlyOnce {
  import opened Prelude
  import opened Rows
  import opened CoinBlastStore
  import opened CoinBlastLogs
  import opened CoinBlastRuns
  import opened CoinBlastOrder

  // ---------- one log and the worker's position ----------

  function LogAt(cfg: Config, h: int, i: nat): CbLog
    requires i < |cfg.logs(h)|
  {
    cfg.logs(h)[i]
  }

  /** A trade log of an accepted curve that the worker has to meet. */
  ghost predicate Target(cfg: Config, h: int, i: nat) {
    cfg.deployBlock <= h && i < |cfg.logs(h)| && IsWanted(cfg, cfg.logs(h)[i])
  }

  /** The scan stands on log `i` of block `h`. */
  ghost predicate StandsOn(cfg: Config, s: Sys, h: int, i: nat) {
    && s.phase.Scanning? && s.phase.from <= h <= s.phase.to
    && s.phase.at == |Logs(cfg, s.phase.from, h - 1)| + i
  }

  /** The cursor or the scan has left the log behind. */
  ghost predicate LeftBehind(cfg: Config, s: Sys, h: int, i: nat) {
    || h <= CursorOf(cfg, s.db)
    || (s.phase.Scanning? && s.phase.from <= h <= s.phase.to && |Logs(cfg, s.phase.from, h - 1)| + i < s.phase.at)
  }

  ghost predicate Recorded(l: CbLog, trades: seq<Trade>) {
    exists k :: 0 <= k < |trades| && RowMatches(l, trades[k])
  }

  /** The event, leading from `s` to `t`, moves the scan past the log. */
  ghost predicate Passes(cfg: Config, s: Sys, e: Event, t: Sys, h: int, i: nat) {
    StandsOn(cfg, s, h, i) && e.Visit? && t.phase == Scanning(s.phase.from, s.phase.to, s.phase.at + 1)
  }

  /** It moves past with the emitter unknown: remembered as rejected, or rejected by a failed probe. */
  ghost predicate Skips(cfg: Config, s: Sys, e: Event, t: Sys, h: int, i: nat)
    requires i < |cfg.logs(h)|
  {
    var c := cfg.logs(h)[i].emitter;
    Passes(cfg, s, e, t, h, i) && c !in s.known && (c in s.non || !e.reached)
  }

  lemma {:induction false} InChunk(cfg: Config, from: int, to: int, h: int, i: nat)
    requires from <= h <= to && i < |cfg.logs(h)|
    ensures var at := |Logs(cfg, from, h - 1)| + i;
            at < |Logs(cfg, from, to)| && Logs(cfg, from, to)[at] == cfg.logs(h)[i]
  {
    LogsConcat(cfg, from, h, to);
  }

  /** A position of the scan belongs to one log only. */
  lemma {:induction false} OneLogThere(cfg: Config, s: Sys, g: int, j: nat, h: int, i: nat)
    requires StandsOn(cfg, s, g, j) && StandsOn(cfg, s, h, i) && j < |cfg.logs(g)| && i < |cfg.logs(h)|
    ensures g == h && j == i
  {
    if g < h {
      LogsConcat(cfg, s.phase.from, g, h - 1);
    } else if h < g {
      LogsConcat(cfg, s.phase.from, h, g - 1);
    }
  }

  /** Two rows of one key are rows of one log. */
  lemma {:induction false} KeyNamesLog(cfg: Config, reach: int, t: Trade, h: int, i: nat, u: Trade)
    requires KeysAreUnique(cfg) && HasOrigin(cfg, reach, t) && i < |cfg.logs(h)|
    requires RowMatches(cfg.logs(h)[i], u) && TradeKey(t) == TradeKey(u)
    ensures RowMatches(cfg.logs(h)[i], t)
  {
    var g: int, j: nat :| OriginAt(cfg, reach, g, j, t);
    TradeBelongs(cfg.logs(g)[j], t);
    TradeBelongs(cfg.logs(h)[i], u);
    assert SameKey(cfg.logs(g)[j], cfg.logs(h)[i]);
  }

  lemma {:induction false} RecordedStays(l: CbLog, a: seq<Trade>, b: seq<Trade>)
    requires a <= b && Recorded(l, a)
    ensures Recorded(l, b)
  {
    var k :| 0 <= k < |a| && RowMatches(l, a[k]);
    assert b[k] == a[k];
  }

  /** A known curve's log ends up recorded. */
  lemma {:induction false} TradeRecords(cfg: Config, s: Sys, h: int, i: nat, t: Trade, d: CbDb)
    requires KeysAreUnique(cfg) && Origins(cfg, s.db.trades, s.reach) && i < |cfg.logs(h)|
    requires RowMatches(cfg.logs(h)[i], t) && TradeLeaves(s.db, t, d)
    ensures Recorded(cfg.logs(h)[i], d.trades)
  {
    if HasTrade(s.db.trades, TradeKey(t)) {
      var k :| 0 <= k < |s.db.trades| && TradeKey(s.db.trades[k]) == TradeKey(t);
      assert HasOrigin(cfg, s.reach, s.db.trades[k]);
      KeyNamesLog(cfg, s.reach, s.db.trades[k], h, i, t);
      assert d.trades[k] == s.db.trades[k];
    } else {
      assert d.trades[|s.db.trades|] == t;
    }
  }

  /** What a visit of a trade log does to the trades and the position. */
  ghost predicate VisitShape(cfg: Config, s: Sys, from: int, to: int, at: nat, l: CbLog, reached: bool, t: Sys) {
    var next := Scanning(from, to, at + 1);
    if !IsTrade(l) then t.db.trades == s.db.trades
    else if l.emitter in s.known then
      match TradeOf(l)
      case Err(_) => t.db.trades == s.db.trades && t.phase.Idle?
      case Ok(row) => TradeLeaves(s.db, row, t.db) && t.phase == next
    else if l.emitter in s.non then t.db.trades == s.db.trades && t.phase == next
    else if reached && cfg.probe(l.emitter).Some? then t.db.trades == s.db.trades && t.phase == s.phase
    else t.db.trades == s.db.trades && (t.phase == s.phase || t.phase == next)
  }

  lemma {:induction false} VisitHasShape(
      cfg: Config, s: Sys, from: int, to: int, at: nat, reached: bool, victim: Address)
    requires FactoryIsSilent(cfg) && CurvesAreSane(cfg) && Inv(cfg, s) && s.phase == Scanning(from, to, at)
    requires at < |Logs(cfg, from, to)|
    ensures VisitShape(cfg, s, from, to, at, Logs(cfg, from, to)[at], reached,
                       ApplyVisit(cfg, s, from, to, at, reached, victim))
  {
    var l := Logs(cfg, from, to)[at];
    if IsTrade(l) && l.emitter in s.known && TradeOf(l).Ok? {
      ScannedTradeLeaves(cfg, s, from, to, at, TradeOf(l).value);
    } else {
      AdoptsIff(cfg, s.db, l, reached);
    }
  }

  /** A visit of the target: a known emitter records it, an unknown one is adopted or skipped. */
  lemma {:induction false} VisitOfTarget(cfg: Config, s: Sys, e: Event, t: Sys, h: int, i: nat)
    requires KeysAreUnique(cfg) && Origins(cfg, s.db.trades, s.reach) && Target(cfg, h, i)
    requires StandsOn(cfg, s, h, i) && e.Visit?
    requires VisitShape(cfg, s, s.phase.from, s.phase.to, s.phase.at, cfg.logs(h)[i], e.reached, t)
    ensures Passes(cfg, s, e, t, h, i) && !Skips(cfg, s, e, t, h, i) ==> Recorded(cfg.logs(h)[i], t.db.trades)
    ensures !Passes(cfg, s, e, t, h, i) || Skips(cfg, s, e, t, h, i) ==> t.db.trades == s.db.trades
  {
    var l := cfg.logs(h)[i];
    if l.emitter in s.known && TradeOf(l).Ok? {
      TradeRecords(cfg, s, h, i, TradeOf(l).value, t.db);
    }
  }

  /** A visit of another log never makes a row of the target. */
  lemma {:induction false} VisitOfOther(cfg: Config, s: Sys, reached: bool, t: Sys, g: int, j: nat, h: int, i: nat)
    requires KeysAreUnique(cfg) && j < |cfg.logs(g)| && i < |cfg.logs(h)| && (g != h || j != i) && s.phase.Scanning?
    requires VisitShape(cfg, s, s.phase.from, s.phase.to, s.phase.at, cfg.logs(g)[j], reached, t)
    ensures Recorded(cfg.logs(h)[i], t.db.trades) ==> Recorded(cfg.logs(h)[i], s.db.trades)
  {
    var l := cfg.logs(g)[j];
    if IsTrade(l) && l.emitter in s.known && TradeOf(l).Ok? {
      OtherRow(cfg, s.db, TradeOf(l).value, t.db, g, j, h, i);
    }
  }

  lemma {:induction false} OtherRow(cfg: Config, db: CbDb, t: Trade, d: CbDb, g: int, j: nat, h: int, i: nat)
    requires KeysAreUnique(cfg) && j < |cfg.logs(g)| && i < |cfg.logs(h)| && (g != h || j != i)
    requires RowMatches(cfg.logs(g)[j], t) && TradeLeaves(db, t, d)
    ensures Recorded(cfg.logs(h)[i], d.trades) ==> Recorded(cfg.logs(h)[i], db.trades)
  {
    assert !SameKey(cfg.logs(g)[j], cfg.logs(h)[i]);
    TradeBelongs(cfg.logs(g)[j], t);
    assert !RowMatches(cfg.logs(h)[i], t) by {
      if RowMatches(cfg.logs(h)[i], t) {
        TradeBelongs(cfg.logs(h)[i], t);
      }
    }
    if Recorded(cfg.logs(h)[i], d.trades) {
      var k :| 0 <= k < |d.trades| && RowMatches(cfg.logs(h)[i], d.trades[k]);
      assert k < |db.trades| && d.trades[k] == db.trades[k];
    }
  }

  // ---------- what one event does ----------

  /** Moving past a log is the only way to leave it behind. */
  lemma {:induction false} LeavingIsPassing(cfg: Config, s: Sys, e: Event, h: int, i: nat)
    requires Placed(cfg, s) && Target(cfg, h, i)
    requires LeftBehind(cfg, Apply(cfg, s, e), h, i) && !LeftBehind(cfg, s, h, i)
    ensures Passes(cfg, s, e, Apply(cfg, s, e), h, i)
  {
    TablesGrow(cfg, s, e);
    match e {
      case Visit(reached, victim) =>
        if s.phase.Scanning? {
          VisitMoves(cfg, s, s.phase.from, s.phase.to, s.phase.at, reached, victim);
        }
      case Announce =>
        if s.phase.Announcing? {
          AnnounceMoves(cfg, s, s.phase.from, s.phase.to, s.phase.at);
        }
      case WriteCursor =>
        if s.phase.Scanning? && s.phase.from <= h <= s.phase.to {
          InChunk(cfg, s.phase.from, s.phase.to, h, i);
        }
      case _ =>
    }
  }

  lemma {:induction false} OnlyVisitsTrade(cfg: Config, s: Sys, e: Event)
    requires !e.Visit? || !s.phase.Scanning? || s.phase.at >= |Logs(cfg, s.phase.from, s.phase.to)|
    ensures Apply(cfg, s, e).db.trades == s.db.trades
  {
  }

  /** A visit makes a row of the target exactly when it is a pass over it and no skip. */
  lemma {:induction false} VisitRecording(cfg: Config, s: Sys, e: Event, t: Sys, h: int, i: nat)
    requires KeysAreUnique(cfg) && Origins(cfg, s.db.trades, s.reach) && Target(cfg, h, i) && e.Visit?
    requires s.phase.Scanning? && s.phase.at < |Logs(cfg, s.phase.from, s.phase.to)|
    requires var l := Logs(cfg, s.phase.from, s.phase.to)[s.phase.at];
             VisitShape(cfg, s, s.phase.from, s.phase.to, s.phase.at, l, e.reached, t)
    ensures Recorded(cfg.logs(h)[i], t.db.trades) && !Recorded(cfg.logs(h)[i], s.db.trades) ==>
              Passes(cfg, s, e, t, h, i) && !Skips(cfg, s, e, t, h, i)
    ensures Passes(cfg, s, e, t, h, i) && !Skips(cfg, s, e, t, h, i) ==> Recorded(cfg.logs(h)[i], t.db.trades)
  {
    if StandsOn(cfg, s, h, i) {
      InChunk(cfg, s.phase.from, s.phase.to, h, i);
      VisitOfTarget(cfg, s, e, t, h, i);
    } else {
      var g, j := LogsMember(cfg, s.phase.from, s.phase.to, s.phase.at);
      VisitOfOther(cfg, s, e.reached, t, g, j, h, i);
    }
  }

  /** A row of the target appears exactly when a pass over it is no skip. */
  lemma {:induction false} RecordingIsPassing(cfg: Config, s: Sys, e: Event, h: int, i: nat)
    requires ChainOk(cfg) && Inv(cfg, s) && Target(cfg, h, i)
    ensures var t := Apply(cfg, s, e);
            Recorded(cfg.logs(h)[i], t.db.trades) <==>
            Recorded(cfg.logs(h)[i], s.db.trades) || (Passes(cfg, s, e, t, h, i) && !Skips(cfg, s, e, t, h, i))
  {
    TablesGrow(cfg, s, e);
    var l, t := cfg.logs(h)[i], Apply(cfg, s, e);
    if Recorded(l, s.db.trades) {
      RecordedStays(l, s.db.trades, t.db.trades);
    }
    if e.Visit? && s.phase.Scanning? && s.phase.at < |Logs(cfg, s.phase.from, s.phase.to)| {
      VisitHasShape(cfg, s, s.phase.from, s.phase.to, s.phase.at, e.reached, e.victim);
      VisitRecording(cfg, s, e, t, h, i);
    } else {
      OnlyVisitsTrade(cfg, s, e);
      if StandsOn(cfg, s, h, i) {
        InChunk(cfg, s.phase.from, s.phase.to, h, i);
      }
    }
  }

  // ---------- one curve, whatever happens to the others ----------

  ghost predicate CurveOk(cfg: Config, s: Sys, h: int, i: nat)
    requires i < |cfg.logs(h)|
  {
    cfg.logs(h)[i].emitter !in s.non && (LeftBehind(cfg, s, h, i) ==> Recorded(cfg.logs(h)[i], s.db.trades))
  }

  /** Only a failed probe of its own makes the worker remember a curve as rejected. */
  lemma {:induction false} RejectionIsFailure(cfg: Config, s: Sys, e: Event, c: Address)
    requires CurvesAreSane(cfg) && TokensFit(cfg, s.db.tokens) && cfg.probe(c).Some?
    requires c !in s.non && c in Apply(cfg, s, e).non
    ensures ProbeFails(cfg, s, e, c)
  {
    if s.phase.Scanning? && s.phase.at < |Logs(cfg, s.phase.from, s.phase.to)| && e.Visit? {
      AdoptsIff(cfg, s.db, Logs(cfg, s.phase.from, s.phase.to)[s.phase.at], e.reached);
    }
  }

  /** A pass over the target that is no failed probe, with the curve not cached, is no skip. */
  lemma {:induction false} HonestPass(cfg: Config, s: Sys, e: Event, t: Sys, h: int, i: nat)
    requires Target(cfg, h, i) && Passes(cfg, s, e, t, h, i)
    requires cfg.logs(h)[i].emitter !in s.non && !ProbeFails(cfg, s, e, cfg.logs(h)[i].emitter)
    ensures !Skips(cfg, s, e, t, h, i)
  {
    InChunk(cfg, s.phase.from, s.phase.to, h, i);
  }

  lemma {:induction false} CurveKept(cfg: Config, s: Sys, e: Event, h: int, i: nat)
    requires ChainOk(cfg) && Inv(cfg, s) && Target(cfg, h, i) && CurveOk(cfg, s, h, i)
    requires !ProbeFails(cfg, s, e, cfg.logs(h)[i].emitter)
    ensures CurveOk(cfg, Apply(cfg, s, e), h, i)
  {
    var c, t := cfg.logs(h)[i].emitter, Apply(cfg, s, e);
    assert c !in t.non by {
      if c in t.non {
        RejectionIsFailure(cfg, s, e, c);
      }
    }
    RecordingIsPassing(cfg, s, e, h, i);
    if LeftBehind(cfg, t, h, i) && !LeftBehind(cfg, s, h, i) {
      LeavingIsPassing(cfg, s, e, h, i);
      HonestPass(cfg, s, e, t, h, i);
    }
  }

  lemma {:induction false} CurveRun(cfg: Config, es: seq<Event>, h: int, i: nat)
    requires ChainOk(cfg) && Target(cfg, h, i) && Answered(cfg, Boot(cfg), es, cfg.logs(h)[i].emitter)
    ensures CurveOk(cfg, Run(cfg, Boot(cfg), es), h, i)
  {
    if es != [] {
      var init := es[..|es| - 1];
      AnsweredPrefix(cfg, Boot(cfg), es, cfg.logs(h)[i].emitter);
      CurveRun(cfg, init, h, i);
      Reachable(cfg, init);
      CurveKept(cfg, Run(cfg, Boot(cfg), init), es[|es| - 1], h, i);
    }
  }

  /** Exactly one row carries the log's key, and it is the log's row. */
  ghost predicate RecordedOnce(l: CbLog, trades: seq<Trade>) {
    exists k :: 0 <= k < |trades| && RowMatches(l, trades[k])
                && forall j :: 0 <= j < |trades| && j != k ==> TradeKey(trades[j]) != TradeKey(trades[k])
  }

  /**
   Exactly once: in every reachable state a trade log of an accepted curve between the deploy block and the
   cursor has exactly one row, unless a probe of that very curve failed. Probes of other emitters may fail.
   */
  lemma {:induction false} ExactlyOnce(cfg: Config, es: seq<Event>, h: int, i: nat)
    requires ChainOk(cfg) && Target(cfg, h, i) && Answered(cfg, Boot(cfg), es, cfg.logs(h)[i].emitter)
    requires h <= CursorOf(cfg, Run(cfg, Boot(cfg), es).db)
    ensures RecordedOnce(cfg.logs(h)[i], Run(cfg, Boot(cfg), es).db.trades)
  {
    var s := Run(cfg, Boot(cfg), es);
    Reachable(cfg, es);
    CurveRun(cfg, es, h, i);
    var k :| 0 <= k < |s.db.trades| && RowMatches(cfg.logs(h)[i], s.db.trades[k]);
  }

  // ---------- exactly when a row is missing ----------

  /** Event `k` of the run moved past the log. */
  ghost predicate PassesAt(cfg: Config, es: seq<Event>, k: int, h: int, i: nat) {
    && 0 <= k < |es|
    && Passes(cfg, Run(cfg, Boot(cfg), es[..k]), es[k], Run(cfg, Boot(cfg), es[..k + 1]), h, i)
  }

  ghost predicate SkipsAt(cfg: Config, es: seq<Event>, k: int, h: int, i: nat)
    requires i < |cfg.logs(h)|
  {
    && 0 <= k < |es|
    && Skips(cfg, Run(cfg, Boot(cfg), es[..k]), es[k], Run(cfg, Boot(cfg), es[..k + 1]), h, i)
  }

  ghost predicate RecordsAt(cfg: Config, es: seq<Event>, k: int, h: int, i: nat)
    requires i < |cfg.logs(h)|
  {
    PassesAt(cfg, es, k, h, i) && !SkipsAt(cfg, es, k, h, i)
  }

  lemma {:induction false} PassesPrefix(cfg: Config, es: seq<Event>, n: nat, k: int, h: int, i: nat)
    requires k < n <= |es| && i < |cfg.logs(h)|
    ensures PassesAt(cfg, es[..n], k, h, i) == PassesAt(cfg, es, k, h, i)
    ensures RecordsAt(cfg, es[..n], k, h, i) == RecordsAt(cfg, es, k, h, i)
  {
    if 0 <= k {
      assert es[..n][..k] == es[..k] && es[..n][..k + 1] == es[..k + 1];
    }
  }

  lemma {:induction false} LastPass(cfg: Config, es: seq<Event>, h: int, i: nat)
    requires es != [] && i < |cfg.logs(h)|
    ensures var n := |es| - 1;
            var s, t := Run(cfg, Boot(cfg), es[..n]), Run(cfg, Boot(cfg), es);
            && t == Apply(cfg, s, es[n])
            && PassesAt(cfg, es, n, h, i) == Passes(cfg, s, es[n], t, h, i)
            && RecordsAt(cfg, es, n, h, i) == (Passes(cfg, s, es[n], t, h, i) && !Skips(cfg, s, es[n], t, h, i))
  {
    assert es[..|es|] == es;
  }

  /** A log left behind was passed. */
  lemma {:induction false} LeftIsPassed(cfg: Config, es: seq<Event>, h: int, i: nat)
    requires Target(cfg, h, i) && LeftBehind(cfg, Run(cfg, Boot(cfg), es), h, i)
    ensures exists k :: PassesAt(cfg, es, k, h, i)
  {
    if es != [] {
      var n := |es| - 1;
      LastPass(cfg, es, h, i);
      if LeftBehind(cfg, Run(cfg, Boot(cfg), es[..n]), h, i) {
        LeftIsPassed(cfg, es[..n], h, i);
        var k :| PassesAt(cfg, es[..n], k, h, i);
        PassesPrefix(cfg, es, n, k, h, i);
      } else {
        PlaceReachable(cfg, es[..n]);
        LeavingIsPassing(cfg, Run(cfg, Boot(cfg), es[..n]), es[n], h, i);
        assert PassesAt(cfg, es, n, h, i);
      }
    }
  }

  lemma {:induction false} RecordsSplit(cfg: Config, es: seq<Event>, n: nat, h: int, i: nat)
    requires |es| == n + 1 && i < |cfg.logs(h)|
    ensures (exists k :: RecordsAt(cfg, es, k, h, i)) <==>
            (exists k :: RecordsAt(cfg, es[..n], k, h, i)) || RecordsAt(cfg, es, n, h, i)
  {
    forall k | k < n ensures RecordsAt(cfg, es[..n], k, h, i) == RecordsAt(cfg, es, k, h, i) {
      PassesPrefix(cfg, es, n, k, h, i);
    }
    if k :| RecordsAt(cfg, es[..n], k, h, i) {
      assert RecordsAt(cfg, es, k, h, i);
    }
    if k :| RecordsAt(cfg, es, k, h, i) {
      assert k == n || RecordsAt(cfg, es[..n], k, h, i);
    }
  }

  /** A row exists exactly when some pass recorded it. */
  lemma {:induction false} RecordedIff(cfg: Config, es: seq<Event>, h: int, i: nat)
    requires ChainOk(cfg) && Target(cfg, h, i)
    ensures Recorded(cfg.logs(h)[i], Run(cfg, Boot(cfg), es).db.trades) <==> exists k :: RecordsAt(cfg, es, k, h, i)
  {
    if es != [] {
      var n := |es| - 1;
      RecordedIff(cfg, es[..n], h, i);
      RecordsSplit(cfg, es, n, h, i);
      LastRecording(cfg, es, n, h, i);
    }
  }

  lemma {:induction false} LastRecording(cfg: Config, es: seq<Event>, n: nat, h: int, i: nat)
    requires ChainOk(cfg) && Target(cfg, h, i) && |es| == n + 1
    ensures Recorded(cfg.logs(h)[i], Run(cfg, Boot(cfg), es).db.trades) <==>
            Recorded(cfg.logs(h)[i], Run(cfg, Boot(cfg), es[..n]).db.trades) || RecordsAt(cfg, es, n, h, i)
  {
    Reachable(cfg, es[..n]);
    LastPass(cfg, es, h, i);
    RecordingIsPassing(cfg, Run(cfg, Boot(cfg), es[..n]), es[n], h, i);
  }

  /**
   In every run, a trade log of an accepted curve at or below the cursor was passed at least once, and it has
   no row if and only if every pass over it happened while its curve was unknown, remembered as rejected or
   just rejected by a failed probe.
   */
  lemma {:induction false} MissingIff(cfg: Config, es: seq<Event>, h: int, i: nat)
    requires ChainOk(cfg) && Target(cfg, h, i) && h <= CursorOf(cfg, Run(cfg, Boot(cfg), es).db)
    ensures exists k :: PassesAt(cfg, es, k, h, i)
    ensures !Recorded(cfg.logs(h)[i], Run(cfg, Boot(cfg), es).db.trades) <==>
            forall k :: PassesAt(cfg, es, k, h, i) ==> SkipsAt(cfg, es, k, h, i)
  {
    LeftIsPassed(cfg, es, h, i);
    RecordedIff(cfg, es, h, i);
    var trades := Run(cfg, Boot(cfg), es).db.trades;
    if !Recorded(cfg.logs(h)[i], trades) {
      forall k | PassesAt(cfg, es, k, h, i) ensures SkipsAt(cfg, es, k, h, i) {
        assert !RecordsAt(cfg, es, k, h, i);
      }
    }
  }

  /** A missing row goes back to a failed probe of its own curve. */
  lemma {:induction false} MissingNeedsFailedProbe(cfg: Config, es: seq<Event>, h: int, i: nat) returns (k: nat)
    requires ChainOk(cfg) && Target(cfg, h, i) && h <= CursorOf(cfg, Run(cfg, Boot(cfg), es).db)
    requires !Recorded(cfg.logs(h)[i], Run(cfg, Boot(cfg), es).db.trades)
    ensures k < |es| && ProbeFails(cfg, Run(cfg, Boot(cfg), es[..k]), es[k], cfg.logs(h)[i].emitter)
  {
    assert !Answered(cfg, Boot(cfg), es, cfg.logs(h)[i].emitter) by {
      if Answered(cfg, Boot(cfg), es, cfg.logs(h)[i].emitter) {
        ExactlyOnce(cfg, es, h, i);
      }
    }
    k :| 0 <= k < |es| && ProbeFails(cfg, Run(cfg, Boot(cfg), es[..k]), es[k], cfg.logs(h)[i].emitter);
  }

  // ---------- a missing row stays missing ----------

  /** The worker has left height `h` behind for good. */
  ghost predicate Past(cfg: Config, s: Sys, h: int) {
    CursorOf(cfg, s.db) >= h
  }

  /** A trade log at or below the cursor without a row never gets one, whatever happens later. */
  lemma {:induction false} LossIsPermanent(cfg: Config, s: Sys, es: seq<Event>, h: int, i: nat)
    requires ChainOk(cfg) && Inv(cfg, s) && Target(cfg, h, i) && Past(cfg, s, h)
    requires !Recorded(cfg.logs(h)[i], s.db.trades)
    ensures Past(cfg, Run(cfg, s, es), h) && !Recorded(cfg.logs(h)[i], Run(cfg, s, es).db.trades)
  {
    if es != [] {
      var mid, e := Run(cfg, s, es[..|es| - 1]), es[|es| - 1];
      LossIsPermanent(cfg, s, es[..|es| - 1], h, i);
      RunKeeps(cfg, s, es[..|es| - 1]);
      PlaceKept(cfg, mid, e);
      RecordingIsPassing(cfg, mid, e, h, i);
    }
  }
}
