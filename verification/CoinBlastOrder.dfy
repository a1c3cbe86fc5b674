/** Runs in which no probe of a curve fails: rows are written in chain order. */
module CoinBlastOrder {
  import opened Prelude
  import opened Rows
  import opened CoinBlastStore
  import opened CoinBlastLogs
  import opened CoinBlastRuns
  import opened CoinBlastListings

  // ---------- rows in chain order ----------

  /** The trade rows are, in order, the rows of the first canonical logs. */
  ghost predicate RowsMatch(canon: seq<CbLog>, trades: seq<Trade>) {
    |trades| <= |canon| && forall i :: 0 <= i < |trades| ==> RowMatches(canon[i], trades[i])
  }

  /** How many canonical logs precede position `at` of the chunk. */
  function Passed(cfg: Config, from: int, to: int, at: nat): nat
    requires at <= |Logs(cfg, from, to)|
  {
    |Canon(cfg, from - 1)| + |Wanted(cfg, Logs(cfg, from, to)[..at])|
  }

  /** How many canonical logs the worker has left behind. */
  function Behind(cfg: Config, phase: Phase, cursor: int): nat {
    match phase
    case Scanning(from, to, at) => Passed(cfg, from, to, Min(at, |Logs(cfg, from, to)|))
    case _ => |Canon(cfg, cursor)|
  }

  ghost predicate RowsReach(cfg: Config, trades: seq<Trade>, reach: int, behind: nat) {
    RowsMatch(Canon(cfg, reach), trades) && behind <= |trades|
  }

  ghost predicate NoCurveCached(cfg: Config, non: set<Address>) {
    forall a :: a in non ==> cfg.probe(a).None?
  }

  ghost predicate InOrder(cfg: Config, s: Sys) {
    && RowsReach(cfg, s.db.trades, s.reach, Behind(cfg, s.phase, CursorOf(cfg, s.db)))
    && |Canon(cfg, CursorOf(cfg, s.db))| <= |s.db.trades|
    && NoCurveCached(cfg, s.non)
  }

  /** A trade log met by the scan, seen from the canonical list. */
  lemma {:induction false} Standing(cfg: Config, from: int, to: int, at: nat, reach: int)
    requires cfg.deployBlock <= from <= to + 1 && to <= reach
    requires at < |Logs(cfg, from, to)| && IsWanted(cfg, Logs(cfg, from, to)[at])
    ensures var p := Passed(cfg, from, to, at);
            && Passed(cfg, from, to, at + 1) == p + 1
            && p < |Canon(cfg, reach)| && Canon(cfg, reach)[p] == Logs(cfg, from, to)[at]
  {
    var ls := Logs(cfg, from, to);
    CanonGrows(cfg, from - 1, to);
    CanonGrows(cfg, to, reach);
    WantedAt(cfg, ls, at);
    var w := Wanted(cfg, ls[..at]);
    assert Wanted(cfg, ls[..at + 1])[|w|] == ls[at];
    assert Wanted(cfg, ls)[|w|] == ls[at];
  }

  /** Behind the frontier the row is already there; at the frontier it is new. */
  lemma {:induction false} RowPresence(canon: seq<CbLog>, trades: seq<Trade>, p: nat, t: Trade)
    requires DistinctKeys(canon) && RowsMatch(canon, trades) && p <= |trades| && p < |canon|
    requires RowMatches(canon[p], t)
    ensures HasTrade(trades, TradeKey(t)) <==> p < |trades|
  {
    if p < |trades| {
      assert RowMatches(canon[p], trades[p]);
    }
    forall i | 0 <= i < |trades| && i != p ensures TradeKey(trades[i]) != TradeKey(t) {
      assert RowMatches(canon[i], trades[i]);
      assert !SameKey(canon[i], canon[p]) && !SameKey(canon[p], canon[i]);
    }
  }

  /** The trade transaction at position `p` of the canonical list moves the frontier to `max(n, p + 1)`. */
  lemma {:induction false} NextRow(canon: seq<CbLog>, db: CbDb, p: nat, t: Trade, d: CbDb)
    requires DistinctKeys(canon) && RowsMatch(canon, db.trades) && p <= |db.trades| && p < |canon|
    requires RowMatches(canon[p], t) && TradeLeaves(db, t, d)
    ensures RowsMatch(canon, d.trades) && |d.trades| == Max(|db.trades|, p + 1)
  {
    RowPresence(canon, db.trades, p, t);
  }

  lemma {:induction false} TradeKeepsOrder(cfg: Config, s: Sys, from: int, to: int, at: nat, t: Trade, d: CbDb)
    requires KeysAreUnique(cfg) && Placed(cfg, s) && InOrder(cfg, s) && s.phase == Scanning(from, to, at)
    requires at < |Logs(cfg, from, to)| && IsWanted(cfg, Logs(cfg, from, to)[at])
    requires RowMatches(Logs(cfg, from, to)[at], t) && TradeLeaves(s.db, t, d)
    ensures InOrder(cfg, s.(db := d, phase := Scanning(from, to, at + 1)))
  {
    Standing(cfg, from, to, at, s.reach);
    CanonIsDistinct(cfg, s.reach);
    NextRow(Canon(cfg, s.reach), s.db, Passed(cfg, from, to, at), t, d);
  }

  /** Passing a log that is not wanted leaves the recorded count where it was. */
  lemma {:induction false} PassKeepsOrder(cfg: Config, s: Sys, from: int, to: int, at: nat, non: set<Address>)
    requires InOrder(cfg, s) && s.phase == Scanning(from, to, at) && at < |Logs(cfg, from, to)|
    requires !IsWanted(cfg, Logs(cfg, from, to)[at]) && NoCurveCached(cfg, non)
    ensures InOrder(cfg, s.(non := non, phase := Scanning(from, to, at + 1)))
  {
    WantedAt(cfg, Logs(cfg, from, to), at);
  }

  lemma {:induction false} InsertFits(cfg: Config, db: CbDb, curve: Address, launch: Launch)
    requires CurvesAreSane(cfg) && TokensFit(cfg, db.tokens) && cfg.probe(curve) == Some(launch.token)
    ensures InsertToken(db, curve, launch) == Ok(ApplyOp(db, AddToken(curve, launch)))
  {
    forall c | c in db.tokens ensures curve !in db.tokens ==> db.tokens[c].launch.token != launch.token {
      if db.tokens[c].launch.token == launch.token {
        assert cfg.probe(c) == cfg.probe(curve);
      }
    }
  }

  /** A probe that goes through adopts exactly the emitters that answer the oracle. */
  lemma {:induction false} AdoptsIff(cfg: Config, db: CbDb, l: CbLog, reached: bool)
    requires CurvesAreSane(cfg) && TokensFit(cfg, db.tokens)
    ensures TryAdopt(cfg, db, l, reached).Some? <==> reached && cfg.probe(l.emitter).Some?
    ensures reached && cfg.probe(l.emitter).Some? ==>
              TryAdopt(cfg, db, l, reached) ==
              Some(ApplyOp(db, AddToken(l.emitter, AdoptionOf(l, cfg.probe(l.emitter).value))))
  {
    if cfg.probe(l.emitter).Some? {
      InsertFits(cfg, db, l.emitter, AdoptionOf(l, cfg.probe(l.emitter).value));
    }
  }

  /** A log whose emitter is unknown: no trade, rejected before, adopted now, or rejected now. */
  lemma {:induction false} UnknownVisitKeepsOrder(
      cfg: Config, s: Sys, from: int, to: int, at: nat, reached: bool, victim: Address)
    requires CurvesAreSane(cfg) && Inv(cfg, s) && InOrder(cfg, s) && s.phase == Scanning(from, to, at)
    requires at < |Logs(cfg, from, to)| && Logs(cfg, from, to)[at].emitter !in s.known
    requires NoCurveFails(cfg, s, Visit(reached, victim))
    ensures InOrder(cfg, ApplyVisit(cfg, s, from, to, at, reached, victim))
  {
    var l, u := Logs(cfg, from, to)[at], ApplyVisit(cfg, s, from, to, at, reached, victim);
    assert !IsTrade(l) || cfg.probe(l.emitter).None? || l.emitter in s.non
           || !ProbeFails(cfg, s, Visit(reached, victim), l.emitter);
    AdoptsIff(cfg, s.db, l, reached);
    if !IsTrade(l) || l.emitter in s.non {
      PassKeepsOrder(cfg, s, from, to, at, s.non);
      assert u == s.(non := s.non, phase := Scanning(from, to, at + 1));
    } else if cfg.probe(l.emitter).Some? {
      assert u.db.trades == s.db.trades && u.db.cursor == s.db.cursor && u.phase == s.phase;
    } else if |s.non| < KNOWN_NON_CURVES_MAX || victim in s.non {
      var non := CacheNonCurve(s.non, victim, l.emitter);
      PassKeepsOrder(cfg, s, from, to, at, non);
      assert u == s.(non := non, phase := Scanning(from, to, at + 1));
    }
  }

  /** A known emitter of a trade is an accepted curve. */
  lemma {:induction false} KnownTraderIsWanted(cfg: Config, s: Sys, from: int, to: int, at: nat)
    requires FactoryIsSilent(cfg) && Inv(cfg, s) && at < |Logs(cfg, from, to)|
    requires IsTrade(Logs(cfg, from, to)[at]) && Logs(cfg, from, to)[at].emitter in s.known
    ensures Logs(cfg, from, to)[at].emitter in s.db.tokens && IsWanted(cfg, Logs(cfg, from, to)[at])
  {
    KnownTraderIsListed(cfg, s, from, to, at);
  }

  lemma {:induction false} KnownTradeKeepsOrder(cfg: Config, s: Sys, from: int, to: int, at: nat, t: Trade)
    requires ChainOk(cfg) && Inv(cfg, s) && InOrder(cfg, s) && s.phase == Scanning(from, to, at)
    requires at < |Logs(cfg, from, to)| && Logs(cfg, from, to)[at].emitter in s.known
    requires RowMatches(Logs(cfg, from, to)[at], t)
    ensures InOrder(cfg, s.(db := TradeTxn(s.db, t), phase := Scanning(from, to, at + 1)))
  {
    KnownTraderIsWanted(cfg, s, from, to, at);
    ScannedTradeLeaves(cfg, s, from, to, at, t);
    TradeKeepsOrder(cfg, s, from, to, at, t, TradeTxn(s.db, t));
  }

  /** A log whose emitter is known: no trade, a trade, or a trade that does not decode. */
  lemma {:induction false} KnownVisitKeepsOrder(
      cfg: Config, s: Sys, from: int, to: int, at: nat, reached: bool, victim: Address)
    requires ChainOk(cfg) && Inv(cfg, s) && InOrder(cfg, s) && s.phase == Scanning(from, to, at)
    requires at < |Logs(cfg, from, to)| && Logs(cfg, from, to)[at].emitter in s.known
    ensures InOrder(cfg, ApplyVisit(cfg, s, from, to, at, reached, victim))
  {
    var l, u := Logs(cfg, from, to)[at], ApplyVisit(cfg, s, from, to, at, reached, victim);
    if !IsTrade(l) {
      PassKeepsOrder(cfg, s, from, to, at, s.non);
      assert u == s.(non := s.non, phase := Scanning(from, to, at + 1));
    } else if TradeOf(l).Ok? {
      TradeOfExact(l, TradeOf(l).value);
      KnownTradeKeepsOrder(cfg, s, from, to, at, TradeOf(l).value);
      assert u == s.(db := TradeTxn(s.db, TradeOf(l).value), phase := Scanning(from, to, at + 1));
    } else {
      assert u == s.(phase := Idle);
    }
  }

  lemma {:induction false} VisitKeepsOrder(
      cfg: Config, s: Sys, from: int, to: int, at: nat, reached: bool, victim: Address)
    requires ChainOk(cfg) && Inv(cfg, s) && InOrder(cfg, s) && s.phase == Scanning(from, to, at)
    requires NoCurveFails(cfg, s, Visit(reached, victim))
    ensures InOrder(cfg, ApplyVisit(cfg, s, from, to, at, reached, victim))
  {
    if at < |Logs(cfg, from, to)| {
      if Logs(cfg, from, to)[at].emitter !in s.known {
        UnknownVisitKeepsOrder(cfg, s, from, to, at, reached, victim);
      } else {
        KnownVisitKeepsOrder(cfg, s, from, to, at, reached, victim);
      }
    }
  }

  /** A readable announcement always finds room. */
  lemma {:induction false} AnnouncementFits(cfg: Config, s: Sys, from: int, to: int, at: nat)
    requires ChainOk(cfg) && Inv(cfg, s) && at < |FactoryLogs(cfg, from, to)|
    requires FactoryLogs(cfg, from, to)[at].body.CurveCreated? && LaunchOf(FactoryLogs(cfg, from, to)[at]).Ok?
    ensures var (curve, launch) := LaunchOf(FactoryLogs(cfg, from, to)[at]).value; InsertToken(s.db, curve, launch).Ok?
  {
    LaunchFits(cfg, from, to, at);
    var (curve, launch) := LaunchOf(FactoryLogs(cfg, from, to)[at]).value;
    InsertFits(cfg, s.db, curve, launch);
  }

  lemma {:induction false} KnownTradeReads(cfg: Config, s: Sys, from: int, to: int, at: nat)
    requires ChainOk(cfg) && Inv(cfg, s) && at < |Logs(cfg, from, to)| && TradeReads(cfg, Logs(cfg, from, to)[at])
    requires IsTrade(Logs(cfg, from, to)[at]) && Logs(cfg, from, to)[at].emitter in s.known
    ensures TradeOf(Logs(cfg, from, to)[at]).Ok?
  {
    KnownTraderIsWanted(cfg, s, from, to, at);
  }

  lemma {:induction false} RowsStillMatch(cfg: Config, reach: int, higher: int, trades: seq<Trade>)
    requires cfg.deployBlock - 1 <= reach <= higher && RowsMatch(Canon(cfg, reach), trades)
    ensures RowsMatch(Canon(cfg, higher), trades)
  {
    CanonGrows(cfg, reach, higher);
    forall i | 0 <= i < |trades| ensures RowMatches(Canon(cfg, higher)[i], trades[i]) {
      assert RowMatches(Canon(cfg, reach)[i], trades[i]);
    }
  }

  lemma {:induction false} StartKeepsOrder(cfg: Config, s: Sys, tip: int)
    requires Placed(cfg, s) && InOrder(cfg, s)
    ensures InOrder(cfg, Apply(cfg, s, StartChunk(tip)))
  {
    RowsStillMatch(cfg, s.reach, Max(s.reach, ChunkEnd(cfg, CursorOf(cfg, s.db), tip)), s.db.trades);
  }

  lemma {:induction false} AnnounceKeepsOrder(cfg: Config, s: Sys, from: int, to: int, at: nat)
    requires Placed(cfg, s) && InOrder(cfg, s) && s.phase == Announcing(from, to, at)
    ensures InOrder(cfg, ApplyAnnounce(cfg, s, from, to, at))
  {
    var u := ApplyAnnounce(cfg, s, from, to, at);
    assert Logs(cfg, from, to)[..0] == [];
    assert u.db.trades == s.db.trades && u.db.cursor == s.db.cursor && u.reach == s.reach && u.non == s.non;
    assert Behind(cfg, u.phase, CursorOf(cfg, u.db)) == |Canon(cfg, CursorOf(cfg, s.db))|;
  }

  lemma {:induction false} CursorKeepsOrder(cfg: Config, s: Sys, from: int, to: int)
    requires Placed(cfg, s) && InOrder(cfg, s) && s.phase == Scanning(from, to, |Logs(cfg, from, to)|)
    ensures InOrder(cfg, s.(db := s.db.(cursor := Some(to)), phase := Idle, chunks := s.chunks + [(from, to)]))
  {
    CanonGrows(cfg, from - 1, to);
    assert Logs(cfg, from, to)[..|Logs(cfg, from, to)|] == Logs(cfg, from, to);
  }

  lemma {:induction false} OrderKept(cfg: Config, s: Sys, e: Event)
    requires ChainOk(cfg) && Inv(cfg, s) && InOrder(cfg, s) && NoCurveFails(cfg, s, e)
    ensures InOrder(cfg, Apply(cfg, s, e))
  {
    match e {
      case StartChunk(tip) => StartKeepsOrder(cfg, s, tip);
      case Announce =>
        if s.phase.Announcing? {
          AnnounceKeepsOrder(cfg, s, s.phase.from, s.phase.to, s.phase.at);
        }
      case Visit(reached, victim) =>
        if s.phase.Scanning? {
          VisitKeepsOrder(cfg, s, s.phase.from, s.phase.to, s.phase.at, reached, victim);
        }
      case WriteCursor =>
        if s.phase.Scanning? && s.phase.at >= |Logs(cfg, s.phase.from, s.phase.to)| {
          CursorKeepsOrder(cfg, s, s.phase.from, s.phase.to);
        }
      case _ =>
    }
  }

  lemma {:induction false} RunInOrder(cfg: Config, s: Sys, es: seq<Event>)
    requires ChainOk(cfg) && Inv(cfg, s) && InOrder(cfg, s) && CurvesAnswer(cfg, s, es)
    ensures Inv(cfg, Run(cfg, s, es)) && InOrder(cfg, Run(cfg, s, es))
  {
    if es != [] {
      var init := es[..|es| - 1];
      CurvesAnswerPrefix(cfg, s, es);
      RunInOrder(cfg, s, init);
      OrderKept(cfg, Run(cfg, s, init), es[|es| - 1]);
      EventKeeps(cfg, Run(cfg, s, init), es[|es| - 1]);
    }
  }

  lemma {:induction false} ReachableInOrder(cfg: Config, es: seq<Event>)
    requires ChainOk(cfg) && CurvesAnswer(cfg, Boot(cfg), es)
    ensures Inv(cfg, Run(cfg, Boot(cfg), es)) && InOrder(cfg, Run(cfg, Boot(cfg), es))
  {
    assert Logs(cfg, cfg.deployBlock, cfg.deployBlock - 1) == [];
    RunInOrder(cfg, Boot(cfg), es);
  }

  /** As long as no probe of a curve fails, row `k` is the row of the `k`-th canonical trade log of the chain. */
  lemma {:induction false} RowsInChainOrder(cfg: Config, es: seq<Event>, k: nat)
    requires ChainOk(cfg) && CurvesAnswer(cfg, Boot(cfg), es) && k < |Run(cfg, Boot(cfg), es).db.trades|
    ensures var s := Run(cfg, Boot(cfg), es);
            k < |Canon(cfg, s.reach)| && RowMatches(Canon(cfg, s.reach)[k], s.db.trades[k])
    ensures var s := Run(cfg, Boot(cfg), es); |Canon(cfg, CursorOf(cfg, s.db))| <= |s.db.trades|
  {
    ReachableInOrder(cfg, es);
  }
}
