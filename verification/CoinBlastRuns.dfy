/**
 The CoinBlast worker as a step machine: hydrate, announce, scan, adopt, trade and cursor steps, with
 failures, failed probes and restarts between any two of them, and what every run of it keeps.
 */
module CoinBlastRuns {
  import opened Prelude
  import opened Rows
  import opened CoinBlastStore
  import opened CoinBlastLogs

  const KNOWN_NON_CURVES_MAX: nat := 10_000

  datatype Phase =
    | Idle
    | Announcing(from: int, to: int, at: nat)
    | Scanning(from: int, to: int, at: nat)

  /**
   The tables, the process's two address sets and its position. `tip` is the highest tip seen, `reach`
   the highest block any chunk aimed at, `chunks` the completed chunks in order.
   */
  datatype Sys = Sys(
    db: CbDb, known: set<Address>, non: set<Address>, phase: Phase, tip: int, reach: int, chunks: seq<(int, int)>)

  datatype Event =
    | Restart
    | StartChunk(tip: int)
    | Announce
    | Visit(reached: bool, victim: Address)
    | Fail
    | WriteCursor

  /** `read_cursor`: never below the block before the deployment. */
  function CursorOf(cfg: Config, db: CbDb): int {
    var floor := cfg.deployBlock - 1;
    if db.cursor.None? then floor else Max(db.cursor.value, floor)
  }

  function ChunkEnd(cfg: Config, cursor: int, tip: int): int {
    Min(cursor + cfg.chunkSize, tip - cfg.safeLag)
  }

  /** Remember a rejected emitter; at the cap an arbitrary `victim` makes room. */
  function CacheNonCurve(non: set<Address>, victim: Address, a: Address): set<Address> {
    (if |non| >= KNOWN_NON_CURVES_MAX then non - {victim} else non) + {a}
  }

  /** The orphan probe: `reached` is false when a call or the insert fails for reasons of its own. */
  function TryAdopt(cfg: Config, db: CbDb, l: CbLog, reached: bool): Option<CbDb> {
    if !reached then None
    else
      match cfg.probe(l.emitter)
      case None => None
      case Some(token) =>
        match InsertToken(db, l.emitter, AdoptionOf(l, token))
        case Ok(d) => Some(d)
        case Err(_) => None
  }

  /** One log of the first pass; the set remembers the emitter, which is the factory. */
  function ApplyAnnounce(cfg: Config, s: Sys, from: int, to: int, at: nat): Sys {
    var ls := FactoryLogs(cfg, from, to);
    if at >= |ls| then s.(phase := Scanning(from, to, 0))
    else if !ls[at].body.CurveCreated? then s.(phase := Announcing(from, to, at + 1))
    else
      match LaunchOf(ls[at])
      case Err(_) => s.(phase := Idle)
      case Ok((curve, launch)) =>
        match InsertToken(s.db, curve, launch)
        case Err(_) => s.(phase := Idle)
        case Ok(d) => s.(db := d, known := s.known + {ls[at].emitter}, phase := Announcing(from, to, at + 1))
  }

  /** One log of the second pass. An adoption commits on its own; the trade follows as another step. */
  function ApplyVisit(cfg: Config, s: Sys, from: int, to: int, at: nat, reached: bool, victim: Address): Sys {
    var ls := Logs(cfg, from, to);
    if at >= |ls| then s
    else
      var l, next := ls[at], s.(phase := Scanning(from, to, at + 1));
      if !IsTrade(l) then next
      else if l.emitter in s.known then
        (match TradeOf(l)
         case Err(_) => s.(phase := Idle)
         case Ok(t) => next.(db := TradeTxn(s.db, t)))
      else if l.emitter in s.non then next
      else
        match TryAdopt(cfg, s.db, l, reached)
        case Some(d) => s.(db := d, known := s.known + {l.emitter})
        case None =>
          if |s.non| >= KNOWN_NON_CURVES_MAX && victim !in s.non then s
          else next.(non := CacheNonCurve(s.non, victim, l.emitter))
  }

  function Apply(cfg: Config, s: Sys, e: Event): Sys {
    match e
    case Restart => s.(known := s.db.tokens.Keys, non := {}, phase := Idle)
    case Fail => s.(phase := Idle)
    case StartChunk(tip) =>
      var c := CursorOf(cfg, s.db);
      if !s.phase.Idle? then s
      else if c >= tip - cfg.safeLag then s.(tip := Max(s.tip, tip))
      else
        var to := ChunkEnd(cfg, c, tip);
        s.(tip := Max(s.tip, tip), reach := Max(s.reach, to), phase := Announcing(c + 1, to, 0))
    case Announce =>
      if s.phase.Announcing? then ApplyAnnounce(cfg, s, s.phase.from, s.phase.to, s.phase.at) else s
    case Visit(reached, victim) =>
      if s.phase.Scanning? then ApplyVisit(cfg, s, s.phase.from, s.phase.to, s.phase.at, reached, victim) else s
    case WriteCursor =>
      if s.phase.Scanning? && s.phase.at >= |Logs(cfg, s.phase.from, s.phase.to)|
      then s.(db := s.db.(cursor := Some(s.phase.to)), phase := Idle, chunks := s.chunks + [(s.phase.from, s.phase.to)])
      else s
  }

  function Run(cfg: Config, s: Sys, es: seq<Event>): Sys {
    if es == [] then s else Apply(cfg, Run(cfg, s, es[..|es| - 1]), es[|es| - 1])
  }

  lemma {:induction false} RunConcat(cfg: Config, s: Sys, a: seq<Event>, b: seq<Event>)
    ensures Run(cfg, s, a + b) == Run(cfg, Run(cfg, s, a), b)
  {
    if b == [] {
      assert a + b == a;
    } else {
      RunConcat(cfg, s, a, b[..|b| - 1]);
      assert (a + b)[..|a + b| - 1] == a + b[..|b| - 1];
    }
  }

  lemma {:induction false} RunSnoc(cfg: Config, s: Sys, es: seq<Event>, e: Event)
    ensures Run(cfg, s, es + [e]) == Apply(cfg, Run(cfg, s, es), e)
  {
    assert (es + [e])[..|es|] == es;
  }

  /** A first start on empty tables. */
  function Boot(cfg: Config): Sys {
    Sys(CoinBlastStore.EMPTY, {}, {}, Idle, cfg.deployBlock - 1, cfg.deployBlock - 1, [])
  }

  // ---------- failed probes ----------

  /** The event is a probe of the emitter `c` that fails for reasons of its own. */
  ghost predicate ProbeFails(cfg: Config, s: Sys, e: Event, c: Address) {
    && e.Visit? && !e.reached && s.phase.Scanning? && s.phase.at < |Logs(cfg, s.phase.from, s.phase.to)|
    && var l := Logs(cfg, s.phase.from, s.phase.to)[s.phase.at];
       IsTrade(l) && l.emitter == c && c !in s.known && c !in s.non
  }

  /** No probe of `c` fails in the run. */
  ghost predicate Answered(cfg: Config, s: Sys, es: seq<Event>, c: Address) {
    forall k :: 0 <= k < |es| ==> !ProbeFails(cfg, Run(cfg, s, es[..k]), es[k], c)
  }

  /** No probe of a curve fails in the run; what happens to other emitters does not matter. */
  ghost predicate CurvesAnswer(cfg: Config, s: Sys, es: seq<Event>) {
    forall c :: cfg.probe(c).Some? ==> Answered(cfg, s, es, c)
  }

  /** No probe at all failed. */
  ghost predicate Honest(es: seq<Event>) {
    forall i :: 0 <= i < |es| ==> Reliable(es[i])
  }

  predicate Reliable(e: Event) {
    e.Visit? ==> e.reached
  }

  lemma {:induction false} HonestAnswers(cfg: Config, s: Sys, es: seq<Event>)
    requires Honest(es)
    ensures CurvesAnswer(cfg, s, es)
  {
    forall c, k | cfg.probe(c).Some? && 0 <= k < |es| ensures !ProbeFails(cfg, Run(cfg, s, es[..k]), es[k], c) {
      assert Reliable(es[k]);
    }
  }

  ghost predicate NoCurveFails(cfg: Config, s: Sys, e: Event) {
    forall c :: cfg.probe(c).Some? ==> !ProbeFails(cfg, s, e, c)
  }

  lemma {:induction false} AnsweredPrefix(cfg: Config, s: Sys, es: seq<Event>, c: Address)
    requires Answered(cfg, s, es, c) && es != []
    ensures Answered(cfg, s, es[..|es| - 1], c)
    ensures !ProbeFails(cfg, Run(cfg, s, es[..|es| - 1]), es[|es| - 1], c)
  {
    var init := es[..|es| - 1];
    forall k | 0 <= k < |init| ensures !ProbeFails(cfg, Run(cfg, s, init[..k]), init[k], c) {
      assert init[..k] == es[..k];
    }
  }

  lemma {:induction false} CurvesAnswerPrefix(cfg: Config, s: Sys, es: seq<Event>)
    requires CurvesAnswer(cfg, s, es) && es != []
    ensures CurvesAnswer(cfg, s, es[..|es| - 1])
    ensures NoCurveFails(cfg, Run(cfg, s, es[..|es| - 1]), es[|es| - 1])
  {
    forall c | cfg.probe(c).Some?
      ensures Answered(cfg, s, es[..|es| - 1], c) && !ProbeFails(cfg, Run(cfg, s, es[..|es| - 1]), es[|es| - 1], c)
    {
      AnsweredPrefix(cfg, s, es, c);
    }
  }

  // ---------- the invariant of every run ----------

  /** Each listed curve answers the probe with the token it is listed under. */
  ghost predicate TokensFit(cfg: Config, tokens: map<Address, Token>) {
    forall c :: c in tokens ==> cfg.probe(c) == Some(tokens[c].launch.token)
  }

  /** The row is that of a trade log of an accepted curve, between the deploy block and `reach`. */
  ghost predicate OriginAt(cfg: Config, reach: int, h: int, i: nat, t: Trade) {
    && cfg.deployBlock <= h <= reach && i < |cfg.logs(h)|
    && IsWanted(cfg, cfg.logs(h)[i]) && RowMatches(cfg.logs(h)[i], t)
  }

  ghost predicate HasOrigin(cfg: Config, reach: int, t: Trade) {
    exists h, i :: OriginAt(cfg, reach, h, i, t)
  }

  ghost predicate Origins(cfg: Config, trades: seq<Trade>, reach: int) {
    forall k :: 0 <= k < |trades| ==> HasOrigin(cfg, reach, trades[k])
  }

  /** Remembered curves are listed. */
  ghost predicate Remembers(cfg: Config, known: set<Address>, listed: set<Address>) {
    known <= listed + {cfg.factory}
  }

  /** The chunk in progress starts after the cursor. */
  ghost predicate PhaseOk(cfg: Config, phase: Phase, cursor: int, reach: int, limit: int) {
    match phase
    case Idle => true
    case Announcing(from, to, at) =>
      ChunkOk(cfg, from, to, cursor, reach, limit) && at <= |FactoryLogs(cfg, from, to)|
    case Scanning(from, to, at) => ChunkOk(cfg, from, to, cursor, reach, limit) && at <= |Logs(cfg, from, to)|
  }

  ghost predicate ChunkOk(cfg: Config, from: int, to: int, cursor: int, reach: int, limit: int) {
    from == cursor + 1 && from - 1 <= to <= from - 1 + cfg.chunkSize && to <= reach && to <= limit
  }

  /** Completed chunks tile the blocks from the deployment to the cursor, each short and safely old. */
  ghost predicate Tiled(cfg: Config, chunks: seq<(int, int)>, cursor: int, limit: int) {
    var n := |chunks|;
    && (n == 0 ==> cursor == cfg.deployBlock - 1)
    && (n > 0 ==> chunks[0].0 == cfg.deployBlock && chunks[n - 1].1 == cursor)
    && (forall i :: 0 < i < n ==> chunks[i].0 == chunks[i - 1].1 + 1)
    && (forall i :: 0 <= i < n ==> chunks[i].0 - 1 <= chunks[i].1 <= chunks[i].0 - 1 + cfg.chunkSize)
    && (forall i :: 0 <= i < n ==> chunks[i].1 <= limit)
  }

  /** The position: on any chain, whatever fails. */
  ghost predicate Placed(cfg: Config, s: Sys) {
    && cfg.deployBlock - 1 <= CursorOf(cfg, s.db) <= s.reach
    && PhaseOk(cfg, s.phase, CursorOf(cfg, s.db), s.reach, s.tip - cfg.safeLag)
    && Tiled(cfg, s.chunks, CursorOf(cfg, s.db), s.tip - cfg.safeLag)
    && |s.non| <= KNOWN_NON_CURVES_MAX
  }

  /** The tables and what is remembered of them, if the factory does not trade. */
  ghost predicate Sound(cfg: Config, s: Sys) {
    Consistent(s.db) && Remembers(cfg, s.known, s.db.tokens.Keys)
  }

  /** Where the rows come from, if announcements hold too. */
  ghost predicate Sourced(cfg: Config, s: Sys) {
    TokensFit(cfg, s.db.tokens) && Origins(cfg, s.db.trades, s.reach)
  }

  ghost predicate Inv(cfg: Config, s: Sys) {
    Placed(cfg, s) && Sound(cfg, s) && Sourced(cfg, s)
  }

  // ---------- position ----------

  /** Rows are never dropped, and the cursor only moves by `WriteCursor`. */
  lemma {:induction false} TablesGrow(cfg: Config, s: Sys, e: Event)
    ensures var t := Apply(cfg, s, e);
            && s.db.tokens.Keys <= t.db.tokens.Keys && s.db.trades <= t.db.trades
            && (!e.WriteCursor? ==> t.db.cursor == s.db.cursor)
  {
  }

  lemma {:induction false} CacheIsBounded(non: set<Address>, victim: Address, a: Address)
    requires |non| <= 10_000 && (|non| == 10_000 ==> victim in non)
    ensures |CacheNonCurve(non, victim, a)| <= 10_000 && a in CacheNonCurve(non, victim, a)
    ensures |non| < 10_000 ==> CacheNonCurve(non, victim, a) == non + {a}
    ensures CacheNonCurve(non, victim, a) >= non - {victim}
  {
    if |non| >= KNOWN_NON_CURVES_MAX {
      assert |non - {victim}| == |non| - 1;
    }
  }

  /** A step inside a chunk: at most one log further, or back to idle. */
  ghost predicate Moves(s: Sys, t: Sys) {
    && t.tip == s.tip && t.reach == s.reach && t.chunks == s.chunks && t.db.cursor == s.db.cursor
    && (|s.non| <= KNOWN_NON_CURVES_MAX ==> |t.non| <= KNOWN_NON_CURVES_MAX)
  }

  lemma {:induction false} AnnounceMoves(cfg: Config, s: Sys, from: int, to: int, at: nat)
    requires s.phase == Announcing(from, to, at)
    ensures var t := ApplyAnnounce(cfg, s, from, to, at);
            && Moves(s, t)
            && (t.phase.Idle? || (at < |FactoryLogs(cfg, from, to)| && t.phase == Announcing(from, to, at + 1))
                || t.phase == Scanning(from, to, 0))
  {
  }

  lemma {:induction false} VisitMoves(
      cfg: Config, s: Sys, from: int, to: int, at: nat, reached: bool, victim: Address)
    requires s.phase == Scanning(from, to, at)
    ensures var t := ApplyVisit(cfg, s, from, to, at, reached, victim);
            && Moves(s, t)
            && (t.phase.Idle? || t.phase == s.phase
                || (at < |Logs(cfg, from, to)| && t.phase == Scanning(from, to, at + 1)))
  {
    if at < |Logs(cfg, from, to)| && |s.non| <= KNOWN_NON_CURVES_MAX {
      if |s.non| < KNOWN_NON_CURVES_MAX || victim in s.non {
        CacheIsBounded(s.non, victim, Logs(cfg, from, to)[at].emitter);
      }
    }
  }

  lemma {:induction false} MoveKeepsPlace(cfg: Config, s: Sys, t: Sys)
    requires Placed(cfg, s) && Moves(s, t)
    requires PhaseOk(cfg, t.phase, CursorOf(cfg, s.db), s.reach, s.tip - cfg.safeLag)
    ensures Placed(cfg, t)
  {
  }

  lemma {:induction false} StartKeepsPlace(cfg: Config, s: Sys, tip: int)
    requires Placed(cfg, s)
    ensures Placed(cfg, Apply(cfg, s, StartChunk(tip))) && s.reach <= Apply(cfg, s, StartChunk(tip)).reach
  {
  }

  lemma {:induction false} CursorKeepsPlace(cfg: Config, s: Sys)
    requires Placed(cfg, s)
    ensures Placed(cfg, Apply(cfg, s, WriteCursor))
    ensures CursorOf(cfg, s.db) <= CursorOf(cfg, Apply(cfg, s, WriteCursor).db)
  {
  }

  lemma {:induction false} PlaceKept(cfg: Config, s: Sys, e: Event)
    requires Placed(cfg, s)
    ensures Placed(cfg, Apply(cfg, s, e))
    ensures CursorOf(cfg, s.db) <= CursorOf(cfg, Apply(cfg, s, e).db) && s.reach <= Apply(cfg, s, e).reach
  {
    match e {
      case StartChunk(tip) => StartKeepsPlace(cfg, s, tip);
      case WriteCursor => CursorKeepsPlace(cfg, s);
      case Announce =>
        if s.phase.Announcing? {
          AnnounceMoves(cfg, s, s.phase.from, s.phase.to, s.phase.at);
          MoveKeepsPlace(cfg, s, Apply(cfg, s, e));
        }
      case Visit(reached, victim) =>
        if s.phase.Scanning? {
          VisitMoves(cfg, s, s.phase.from, s.phase.to, s.phase.at, reached, victim);
          MoveKeepsPlace(cfg, s, Apply(cfg, s, e));
        }
      case _ =>
    }
  }

  // ---------- tables ----------

  /** The emitter of a scanned trade is listed, because the factory does not trade. */
  lemma {:induction false} KnownTraderIsListed(cfg: Config, s: Sys, from: int, to: int, at: nat)
    requires FactoryIsSilent(cfg) && Remembers(cfg, s.known, s.db.tokens.Keys) && at < |Logs(cfg, from, to)|
    requires IsTrade(Logs(cfg, from, to)[at]) && Logs(cfg, from, to)[at].emitter in s.known
    ensures Logs(cfg, from, to)[at].emitter in s.db.tokens
  {
    var h, i := LogsMember(cfg, from, to, at);
    assert FactoryIsQuiet(cfg, cfg.logs(h)[i]);
  }

  lemma {:induction false} TradeBelongs(l: CbLog, t: Trade)
    requires RowMatches(l, t)
    ensures t.curve == l.emitter && l.txHash == Some(t.txHash) && l.logIndex == Some(t.logIndex)
  {
  }

  lemma {:induction false} AnnounceKeepsTables(cfg: Config, s: Sys, from: int, to: int, at: nat)
    requires Sound(cfg, s)
    ensures Sound(cfg, ApplyAnnounce(cfg, s, from, to, at))
  {
    var ls := FactoryLogs(cfg, from, to);
    if at < |ls| && ls[at].body.CurveCreated? && LaunchOf(ls[at]).Ok? {
      var i := FactoryMember(cfg, Logs(cfg, from, to), at);
      var (curve, launch) := LaunchOf(ls[at]).value;
      if InsertToken(s.db, curve, launch).Ok? {
        InsertTokenConserves(s.db, curve, launch);
      }
    }
  }

  /** A scanned trade of a known emitter keeps the tables. */
  lemma {:induction false} KnownTradeKeepsTables(cfg: Config, s: Sys, from: int, to: int, at: nat, t: Trade)
    requires FactoryIsSilent(cfg) && Sound(cfg, s) && at < |Logs(cfg, from, to)|
    requires Logs(cfg, from, to)[at].emitter in s.known && RowMatches(Logs(cfg, from, to)[at], t)
    ensures Consistent(TradeTxn(s.db, t)) && TradeTxn(s.db, t).tokens.Keys == s.db.tokens.Keys
  {
    KnownTraderIsListed(cfg, s, from, to, at);
    TradeConserves(s.db, t);
  }

  lemma {:induction false} AdoptionKeepsTables(cfg: Config, db: CbDb, l: CbLog, reached: bool)
    requires Consistent(db) && TryAdopt(cfg, db, l, reached).Some?
    ensures var d := TryAdopt(cfg, db, l, reached).value;
            Consistent(d) && d.tokens.Keys == db.tokens.Keys + {l.emitter}
  {
    InsertTokenConserves(db, l.emitter, AdoptionOf(l, cfg.probe(l.emitter).value));
  }

  lemma {:induction false} VisitKeepsTables(
      cfg: Config, s: Sys, from: int, to: int, at: nat, reached: bool, victim: Address)
    requires FactoryIsSilent(cfg) && Sound(cfg, s) && at < |Logs(cfg, from, to)|
    ensures Sound(cfg, ApplyVisit(cfg, s, from, to, at, reached, victim))
  {
    var l, u := Logs(cfg, from, to)[at], ApplyVisit(cfg, s, from, to, at, reached, victim);
    if IsTrade(l) && l.emitter in s.known && TradeOf(l).Ok? {
      KnownTradeKeepsTables(cfg, s, from, to, at, TradeOf(l).value);
      assert u.db == TradeTxn(s.db, TradeOf(l).value) && u.known == s.known;
    } else if IsTrade(l) && l.emitter !in s.known && l.emitter !in s.non && TryAdopt(cfg, s.db, l, reached).Some? {
      AdoptionKeepsTables(cfg, s.db, l, reached);
      assert u.db == TryAdopt(cfg, s.db, l, reached).value && u.known == s.known + {l.emitter};
    } else {
      assert u.db == s.db && u.known == s.known;
    }
  }

  lemma {:induction false} TablesKept(cfg: Config, s: Sys, e: Event)
    requires FactoryIsSilent(cfg) && Sound(cfg, s)
    ensures Sound(cfg, Apply(cfg, s, e))
  {
    if e.Announce? && s.phase.Announcing? {
      AnnounceKeepsTables(cfg, s, s.phase.from, s.phase.to, s.phase.at);
    } else if e.Visit? && s.phase.Scanning? && s.phase.at < |Logs(cfg, s.phase.from, s.phase.to)| {
      VisitKeepsTables(cfg, s, s.phase.from, s.phase.to, s.phase.at, e.reached, e.victim);
    }
  }

  // ---------- origins ----------

  lemma {:induction false} LaunchFits(cfg: Config, from: int, to: int, at: nat)
    requires AnnouncementsHold(cfg) && at < |FactoryLogs(cfg, from, to)|
    ensures var l := FactoryLogs(cfg, from, to)[at];
            && l.emitter == cfg.factory
            && (l.body.CurveCreated? && LaunchOf(l).Ok? ==>
                  cfg.probe(LaunchOf(l).value.0) == Some(LaunchOf(l).value.1.token))
  {
    var i := FactoryMember(cfg, Logs(cfg, from, to), at);
    var h, j := LogsMember(cfg, from, to, i);
    assert AnnouncesTruly(cfg, cfg.logs(h)[j]);
  }

  lemma {:induction false} OriginsGrow(cfg: Config, trades: seq<Trade>, reach: int, higher: int)
    requires Origins(cfg, trades, reach) && reach <= higher
    ensures Origins(cfg, trades, higher)
  {
    forall k | 0 <= k < |trades| ensures HasOrigin(cfg, higher, trades[k]) {
      assert HasOrigin(cfg, reach, trades[k]);
      var h, i :| OriginAt(cfg, reach, h, i, trades[k]);
      assert OriginAt(cfg, higher, h, i, trades[k]);
    }
  }

  /** A trade of a listed curve changes no listing data and adds at most its own row. */
  ghost predicate TradeLeaves(db: CbDb, t: Trade, d: CbDb) {
    && d.tokens.Keys == db.tokens.Keys && d.cursor == db.cursor
    && (forall c :: c in d.tokens ==> d.tokens[c].launch == db.tokens[c].launch)
    && d.trades == (if HasTrade(db.trades, TradeKey(t)) then db.trades else db.trades + [t])
  }

  lemma {:induction false} TradeAdds(db: CbDb, t: Trade)
    requires t.curve in db.tokens
    ensures TradeLeaves(db, t, TradeTxn(db, t))
  {
    if !HasTrade(db.trades, TradeKey(t)) {
      NewTradeEffect(db, t);
    }
  }

  lemma {:induction false} ScannedTradeLeaves(cfg: Config, s: Sys, from: int, to: int, at: nat, t: Trade)
    requires FactoryIsSilent(cfg) && Sound(cfg, s) && at < |Logs(cfg, from, to)|
    requires Logs(cfg, from, to)[at].emitter in s.known && RowMatches(Logs(cfg, from, to)[at], t)
    ensures TradeLeaves(s.db, t, TradeTxn(s.db, t)) && t.curve in s.db.tokens
  {
    KnownTraderIsListed(cfg, s, from, to, at);
    TradeBelongs(Logs(cfg, from, to)[at], t);
    TradeAdds(s.db, t);
  }

  lemma {:induction false} TradeKeepsSources(cfg: Config, s: Sys, from: int, to: int, at: nat, t: Trade, d: CbDb)
    requires Placed(cfg, s) && Sourced(cfg, s) && s.phase == Scanning(from, to, at) && at < |Logs(cfg, from, to)|
    requires RowMatches(Logs(cfg, from, to)[at], t) && t.curve in s.db.tokens && TradeLeaves(s.db, t, d)
    ensures TokensFit(cfg, d.tokens) && Origins(cfg, d.trades, s.reach)
  {
    var l := Logs(cfg, from, to)[at];
    TradeBelongs(l, t);
    var h, i := LogsMember(cfg, from, to, at);
    assert OriginAt(cfg, s.reach, h, i, t);
    forall k | 0 <= k < |d.trades| ensures HasOrigin(cfg, s.reach, d.trades[k]) {
      if k < |s.db.trades| {
        assert d.trades[k] == s.db.trades[k] && HasOrigin(cfg, s.reach, s.db.trades[k]);
      }
    }
  }

  /** A visit that writes no trade lists at most its emitter, under the token the probe answered. */
  lemma {:induction false} VisitAddsNoRow(
      cfg: Config, s: Sys, from: int, to: int, at: nat, reached: bool, victim: Address)
    requires TokensFit(cfg, s.db.tokens) && at < |Logs(cfg, from, to)|
    requires var l := Logs(cfg, from, to)[at]; !IsTrade(l) || l.emitter !in s.known || TradeOf(l).Err?
    ensures var u := ApplyVisit(cfg, s, from, to, at, reached, victim);
            u.reach == s.reach && u.db.trades == s.db.trades && TokensFit(cfg, u.db.tokens)
  {
  }

  lemma {:induction false} VisitKeepsSources(
      cfg: Config, s: Sys, from: int, to: int, at: nat, reached: bool, victim: Address)
    requires FactoryIsSilent(cfg) && Inv(cfg, s) && s.phase == Scanning(from, to, at) && at < |Logs(cfg, from, to)|
    ensures Sourced(cfg, ApplyVisit(cfg, s, from, to, at, reached, victim))
  {
    var l, u := Logs(cfg, from, to)[at], ApplyVisit(cfg, s, from, to, at, reached, victim);
    if IsTrade(l) && l.emitter in s.known && TradeOf(l).Ok? {
      ScannedTradeLeaves(cfg, s, from, to, at, TradeOf(l).value);
      TradeKeepsSources(cfg, s, from, to, at, TradeOf(l).value, u.db);
      assert u == s.(db := u.db, phase := Scanning(from, to, at + 1));
    } else {
      VisitAddsNoRow(cfg, s, from, to, at, reached, victim);
    }
  }

  lemma {:induction false} SourcesKept(cfg: Config, s: Sys, e: Event)
    requires FactoryIsSilent(cfg) && AnnouncementsHold(cfg) && Inv(cfg, s)
    ensures Sourced(cfg, Apply(cfg, s, e))
  {
    match e {
      case Announce =>
        if s.phase.Announcing? && s.phase.at < |FactoryLogs(cfg, s.phase.from, s.phase.to)| {
          LaunchFits(cfg, s.phase.from, s.phase.to, s.phase.at);
        }
      case Visit(reached, victim) =>
        if s.phase.Scanning? && s.phase.at < |Logs(cfg, s.phase.from, s.phase.to)| {
          VisitKeepsSources(cfg, s, s.phase.from, s.phase.to, s.phase.at, reached, victim);
        }
      case StartChunk(_) =>
        OriginsGrow(cfg, s.db.trades, s.reach, Apply(cfg, s, e).reach);
      case _ =>
    }
  }

  /** Every statement, failed probe, failure and restart keeps position, tables and sources. */
  lemma {:induction false} EventKeeps(cfg: Config, s: Sys, e: Event)
    requires FactoryIsSilent(cfg) && AnnouncementsHold(cfg) && Inv(cfg, s)
    ensures Inv(cfg, Apply(cfg, s, e))
  {
    PlaceKept(cfg, s, e);
    TablesKept(cfg, s, e);
    SourcesKept(cfg, s, e);
  }

  lemma {:induction false} RunKeeps(cfg: Config, s: Sys, es: seq<Event>)
    requires FactoryIsSilent(cfg) && AnnouncementsHold(cfg) && Inv(cfg, s)
    ensures Inv(cfg, Run(cfg, s, es))
  {
    if es != [] {
      RunKeeps(cfg, s, es[..|es| - 1]);
      EventKeeps(cfg, Run(cfg, s, es[..|es| - 1]), es[|es| - 1]);
    }
  }

  lemma {:induction false} Reachable(cfg: Config, es: seq<Event>)
    requires FactoryIsSilent(cfg) && AnnouncementsHold(cfg)
    ensures Inv(cfg, Run(cfg, Boot(cfg), es))
  {
    RunKeeps(cfg, Boot(cfg), es);
  }

  // ---------- main results ----------

  /**
   Conservation: in every reachable state, whatever probes fail, each curve's trade count, volume, last
   price and graduation flag are those of its trade rows, and every trade row belongs to a listed curve.
   */
  lemma {:induction false} AggregatesConserved(cfg: Config, es: seq<Event>)
    requires FactoryIsSilent(cfg)
    ensures Sound(cfg, Run(cfg, Boot(cfg), es))
  {
    if es != [] {
      AggregatesConserved(cfg, es[..|es| - 1]);
      TablesKept(cfg, Run(cfg, Boot(cfg), es[..|es| - 1]), es[|es| - 1]);
    }
  }

  lemma {:induction false} PlaceReachable(cfg: Config, es: seq<Event>)
    ensures Placed(cfg, Run(cfg, Boot(cfg), es))
  {
    if es != [] {
      PlaceReachable(cfg, es[..|es| - 1]);
      PlaceKept(cfg, Run(cfg, Boot(cfg), es[..|es| - 1]), es[|es| - 1]);
    }
  }

  /**
   On any chain, whatever fails: the completed chunks tile the range, and the cursor keeps its distance
   from the highest tip seen.
   */
  lemma {:induction false} ChunksTile(cfg: Config, es: seq<Event>)
    ensures var s := Run(cfg, Boot(cfg), es);
            && Tiled(cfg, s.chunks, CursorOf(cfg, s.db), s.tip - cfg.safeLag)
            && CursorOf(cfg, s.db) <= Max(cfg.deployBlock - 1, s.tip - cfg.safeLag)
  {
    PlaceReachable(cfg, es);
    var s := Run(cfg, Boot(cfg), es);
    TiledCursor(cfg, s.chunks, CursorOf(cfg, s.db), s.tip - cfg.safeLag);
  }

  lemma {:induction false} TiledCursor(cfg: Config, chunks: seq<(int, int)>, cursor: int, limit: int)
    requires Tiled(cfg, chunks, cursor, limit)
    ensures cursor <= Max(cfg.deployBlock - 1, limit)
  {
  }

  /**
   No other kind of row exists, whatever probes fail: every row is the row of a trade log of an accepted
   curve at or below the highest block aimed at, and no log has two rows.
   */
  lemma {:induction false} NothingElse(cfg: Config, es: seq<Event>, k: nat) returns (h: int, i: nat)
    requires FactoryIsSilent(cfg) && AnnouncementsHold(cfg) && k < |Run(cfg, Boot(cfg), es).db.trades|
    ensures var s := Run(cfg, Boot(cfg), es);
            && OriginAt(cfg, s.reach, h, i, s.db.trades[k])
            && forall j :: 0 <= j < |s.db.trades| && RowMatches(cfg.logs(h)[i], s.db.trades[j]) ==> j == k
  {
    var s := Run(cfg, Boot(cfg), es);
    Reachable(cfg, es);
    assert HasOrigin(cfg, s.reach, s.db.trades[k]);
    h, i :| OriginAt(cfg, s.reach, h, i, s.db.trades[k]);
  }
}
