/**
 Where the listing of a curve comes from. A curve is listed by its first announcement or by its first
 trade; which of the two is open only while both can fall into one chunk and into two.
 */
module CoinBlastSources {
  import opened Prelude
  import opened Rows
  import opened CoinBlastStore
  import opened CoinBlastLogs
  import opened CoinBlastRuns
  import opened CoinBlastListings
  import opened CoinBlastOrder
  import opened CoinBlastExactlyOnce

  // ---------- announcements and trades by block ----------

  predicate Announces(l: CbLog, x: Address) {
    l.body.CurveCreated? && LaunchOf(l).Ok? && LaunchOf(l).value.0 == x
  }

  ghost predicate AnnouncesAt(cfg: Config, h: int, j: int, x: Address) {
    && cfg.deployBlock <= h && 0 <= j < |cfg.logs(h)|
    && cfg.logs(h)[j].emitter == cfg.factory && Announces(cfg.logs(h)[j], x)
  }

  ghost predicate TradesAt(cfg: Config, h: int, i: int, x: Address) {
    0 <= i && Target(cfg, h, i) && cfg.logs(h)[i].emitter == x
  }

  predicate Earlier(g: int, m: int, h: int, i: int) {
    g < h || (g == h && m < i)
  }

  ghost predicate FirstAnnounced(cfg: Config, x: Address, a: int, j: int) {
    AnnouncesAt(cfg, a, j, x) && forall g, m :: AnnouncesAt(cfg, g, m, x) ==> !Earlier(g, m, a, j)
  }

  ghost predicate FirstTraded(cfg: Config, x: Address, t: int, i: int) {
    TradesAt(cfg, t, i, x) && forall g, m :: TradesAt(cfg, g, m, x) ==> !Earlier(g, m, t, i)
  }

  function LaunchAt(cfg: Config, a: int, j: int): Launch
    requires 0 <= j < |cfg.logs(a)| && cfg.logs(a)[j].body.CurveCreated? && LaunchOf(cfg.logs(a)[j]).Ok?
  {
    LaunchOf(cfg.logs(a)[j]).value.1
  }

  function AdoptionAt(cfg: Config, t: int, i: int): Launch
    requires 0 <= i < |cfg.logs(t)| && cfg.probe(cfg.logs(t)[i].emitter).Some?
  {
    AdoptionOf(cfg.logs(t)[i], cfg.probe(cfg.logs(t)[i].emitter).value)
  }

  /** Listed by its first announcement, which no trade precedes by a whole chunk. */
  ghost predicate ByAnnouncement(cfg: Config, x: Address, reach: int, launch: Launch, a: int, j: int) {
    && FirstAnnounced(cfg, x, a, j) && a <= reach && launch == LaunchAt(cfg, a, j)
    && forall t, i :: TradesAt(cfg, t, i, x) ==> a < t + cfg.chunkSize
  }

  /** Adopted at its first trade, which comes in a block before any announcement. */
  ghost predicate ByTrade(cfg: Config, x: Address, reach: int, launch: Launch, t: int, i: int) {
    && FirstTraded(cfg, x, t, i) && t <= reach && launch == AdoptionAt(cfg, t, i)
    && forall a, j :: AnnouncesAt(cfg, a, j, x) ==> t < a
  }

  ghost predicate Source(cfg: Config, x: Address, reach: int, launch: Launch) {
    || (exists a, j :: ByAnnouncement(cfg, x, reach, launch, a, j))
    || (exists t, i :: ByTrade(cfg, x, reach, launch, t, i))
  }

  lemma {:induction false} SourceGrows(cfg: Config, x: Address, reach: int, higher: int, launch: Launch)
    requires Source(cfg, x, reach, launch) && reach <= higher
    ensures Source(cfg, x, higher, launch)
  {
    if a, j :| ByAnnouncement(cfg, x, reach, launch, a, j) {
      assert ByAnnouncement(cfg, x, higher, launch, a, j);
    } else {
      var t, i :| ByTrade(cfg, x, reach, launch, t, i);
      assert ByTrade(cfg, x, higher, launch, t, i);
    }
  }

  // ---------- positions in the factory's list ----------

  lemma {:induction false} FactoryPlace(cfg: Config, ls: seq<CbLog>, k: nat)
    requires k < |ls| && ls[k].emitter == cfg.factory
    ensures var r := |ByFactory(cfg, ls[..k])|; r < |ByFactory(cfg, ls)| && ByFactory(cfg, ls)[r] == ls[k]
  {
    assert ls[..k + 1][..k] == ls[..k];
    ByFactoryConcat(cfg, ls[..k + 1], ls[k + 1..]);
    assert ls[..k + 1] + ls[k + 1..] == ls;
  }

  lemma {:induction false} FactoryOrder(cfg: Config, ls: seq<CbLog>, k: nat, m: nat)
    requires k < m <= |ls| && ls[k].emitter == cfg.factory
    ensures |ByFactory(cfg, ls[..k])| < |ByFactory(cfg, ls[..m])|
  {
    assert ls[..m][..k] == ls[..k];
    FactoryPlace(cfg, ls[..m], k);
  }

  /** A log of an earlier place stands earlier in the range. */
  lemma {:induction false} RangeOrder(cfg: Config, lo: int, g: int, m: nat, h: int, i: nat)
    requires lo <= g && m < |cfg.logs(g)| && Earlier(g, m, h, i)
    ensures |Logs(cfg, lo, g - 1)| + m < |Logs(cfg, lo, h - 1)| + i
  {
    if g < h {
      LogsConcat(cfg, lo, g, h - 1);
    }
  }

  /** If a range's announcements are listed, so is whatever is announced in it. */
  lemma {:induction false} AnnouncedInRange(
      cfg: Config, keys: set<Address>, lo: int, hi: int, x: Address, h: int, j: int)
    requires Listed(FactoryLogs(cfg, lo, hi), keys) && lo <= h <= hi && AnnouncesAt(cfg, h, j, x)
    ensures x in keys
  {
    InChunk(cfg, lo, hi, h, j);
    var k := |Logs(cfg, lo, h - 1)| + j;
    FactoryPlace(cfg, Logs(cfg, lo, hi), k);
    assert ListedLog(FactoryLogs(cfg, lo, hi)[|ByFactory(cfg, Logs(cfg, lo, hi)[..k])|], keys);
  }

  /** Announced up to the cursor, or up to the end of the chunk being scanned. */
  lemma {:induction false} AnnouncedIsListed(cfg: Config, s: Sys, x: Address, h: int, j: int)
    requires Listing(cfg, s) && AnnouncesAt(cfg, h, j, x)
    requires h <= CursorOf(cfg, s.db) || (s.phase.Scanning? && h <= s.phase.to)
    ensures x in s.db.tokens
  {
    if h <= CursorOf(cfg, s.db) {
      AnnouncedInRange(cfg, s.db.tokens.Keys, cfg.deployBlock, CursorOf(cfg, s.db), x, h, j);
    } else {
      AnnouncedInRange(cfg, s.db.tokens.Keys, s.phase.from, s.phase.to, x, h, j);
    }
  }

  /** Announced in the chunk before the log that the first pass stands on. */
  lemma {:induction false} AnnouncedBefore(
      cfg: Config, keys: set<Address>, from: int, to: int, at: nat, k: nat, x: Address, g: int, m: int, a: int, j: nat)
    requires at <= |FactoryLogs(cfg, from, to)| && Listed(FactoryLogs(cfg, from, to)[..at], keys)
    requires k <= |Logs(cfg, from, to)| && |ByFactory(cfg, Logs(cfg, from, to)[..k])| == at
    requires k == |Logs(cfg, from, a - 1)| + j && a <= to && j < |cfg.logs(a)|
    requires from <= g && AnnouncesAt(cfg, g, m, x) && Earlier(g, m, a, j)
    ensures x in keys
  {
    var ls, n := Logs(cfg, from, to), |Logs(cfg, from, g - 1)| + m;
    InChunk(cfg, from, to, g, m);
    RangeOrder(cfg, from, g, m, a, j);
    FactoryPlace(cfg, ls, n);
    FactoryOrder(cfg, ls, n, k);
    assert ListedLog(FactoryLogs(cfg, from, to)[..at][|ByFactory(cfg, ls[..n])|], keys);
  }

  /** An announcement that meets an unlisted curve is its first. */
  lemma {:induction false} FirstToList(cfg: Config, s: Sys, from: int, to: int, at: nat, x: Address)
    returns (a: int, j: nat)
    requires Listing(cfg, s) && s.phase == Announcing(from, to, at) && x !in s.db.tokens
    requires at < |FactoryLogs(cfg, from, to)| && Announces(FactoryLogs(cfg, from, to)[at], x)
    ensures from <= a <= to && FirstAnnounced(cfg, x, a, j)
    ensures cfg.logs(a)[j] == FactoryLogs(cfg, from, to)[at]
  {
    var ls := Logs(cfg, from, to);
    var k := FactoryMember(cfg, ls, at);
    a, j := LogsMember(cfg, from, to, k);
    forall g, m | AnnouncesAt(cfg, g, m, x) ensures !Earlier(g, m, a, j) {
      if g <= CursorOf(cfg, s.db) {
        AnnouncedIsListed(cfg, s, x, g, m);
      } else if Earlier(g, m, a, j) {
        AnnouncedBefore(cfg, s.db.tokens.Keys, from, to, at, k, x, g, m, a, j);
      }
    }
  }

  // ---------- the two ways into the table ----------

  /** Every trade of the curve that was left behind has its curve listed. */
  ghost predicate Met(cfg: Config, s: Sys, x: Address) {
    forall h, i :: TradesAt(cfg, h, i, x) && LeftBehind(cfg, s, h, i) ==> x in s.db.tokens
  }

  lemma {:induction false} AnnouncementSource(cfg: Config, s: Sys, from: int, to: int, at: nat, x: Address)
    requires Placed(cfg, s) && Listing(cfg, s) && Met(cfg, s, x)
    requires s.phase == Announcing(from, to, at) && x !in s.db.tokens
    requires at < |FactoryLogs(cfg, from, to)| && Announces(FactoryLogs(cfg, from, to)[at], x)
    ensures Source(cfg, x, s.reach, LaunchOf(FactoryLogs(cfg, from, to)[at]).value.1)
  {
    var a, j := FirstToList(cfg, s, from, to, at, x);
    forall t, i | TradesAt(cfg, t, i, x) ensures a < t + cfg.chunkSize {
      assert !LeftBehind(cfg, s, t, i);
    }
    assert ByAnnouncement(cfg, x, s.reach, LaunchAt(cfg, a, j), a, j);
  }

  lemma {:induction false} TradeSource(cfg: Config, s: Sys, from: int, to: int, at: nat)
    requires at < |Logs(cfg, from, to)| && IsWanted(cfg, Logs(cfg, from, to)[at])
    requires var x := Logs(cfg, from, to)[at].emitter; Met(cfg, s, x) && x !in s.db.tokens
    requires Placed(cfg, s) && Listing(cfg, s) && s.phase == Scanning(from, to, at)
    ensures var l := Logs(cfg, from, to)[at];
            Source(cfg, l.emitter, s.reach, AdoptionOf(l, cfg.probe(l.emitter).value))
  {
    var x := Logs(cfg, from, to)[at].emitter;
    var t, i := LogsMember(cfg, from, to, at);
    forall g, m | TradesAt(cfg, g, m, x) ensures !Earlier(g, m, t, i) {
      assert !LeftBehind(cfg, s, g, m);
      if from <= g && Earlier(g, m, t, i) {
        RangeOrder(cfg, from, g, m, t, i);
      }
    }
    forall a, j | AnnouncesAt(cfg, a, j, x) ensures t < a {
      if a <= t {
        AnnouncedIsListed(cfg, s, x, a, j);
      }
    }
    assert TradesAt(cfg, t, i, x);
    assert ByTrade(cfg, x, s.reach, AdoptionAt(cfg, t, i), t, i);
  }

  // ---------- every run ----------

  /** The curve, if listed, is listed under a source at or below the highest block aimed at. */
  ghost predicate Dated(cfg: Config, tokens: map<Address, Token>, reach: int, x: Address) {
    x in tokens ==> Source(cfg, x, reach, tokens[x].launch)
  }

  /** Rows stay and keep the data they were listed with. */
  ghost predicate LaunchesStay(tokens: map<Address, Token>, after: map<Address, Token>) {
    forall x :: x in tokens ==> x in after && after[x].launch == tokens[x].launch
  }

  /** At most `c` is added, under `launch`. */
  ghost predicate ListsOne(tokens: map<Address, Token>, c: Address, launch: Launch, after: map<Address, Token>) {
    && LaunchesStay(tokens, after)
    && forall x :: x in after && x !in tokens ==> x == c && after[x].launch == launch
  }

  /** What one step may do to the listings. */
  ghost predicate ListingStep(cfg: Config, s: Sys, after: map<Address, Token>) {
    || (LaunchesStay(s.db.tokens, after) && after.Keys == s.db.tokens.Keys)
    || (s.phase.Announcing? && s.phase.at < |FactoryLogs(cfg, s.phase.from, s.phase.to)|
        && var l := FactoryLogs(cfg, s.phase.from, s.phase.to)[s.phase.at];
           l.body.CurveCreated? && LaunchOf(l).Ok?
           && ListsOne(s.db.tokens, LaunchOf(l).value.0, LaunchOf(l).value.1, after))
    || (s.phase.Scanning? && s.phase.at < |Logs(cfg, s.phase.from, s.phase.to)|
        && VisitLists(cfg, s.db.tokens, Logs(cfg, s.phase.from, s.phase.to)[s.phase.at], after))
  }

  /** What a visit may do to them. */
  ghost predicate VisitLists(cfg: Config, tokens: map<Address, Token>, l: CbLog, after: map<Address, Token>) {
    || (LaunchesStay(tokens, after) && after.Keys == tokens.Keys)
    || (IsWanted(cfg, l) && ListsOne(tokens, l.emitter, AdoptionOf(l, cfg.probe(l.emitter).value), after))
  }

  lemma {:induction false} AdoptionLists(cfg: Config, db: CbDb, l: CbLog, reached: bool)
    requires CurvesAreSane(cfg) && TokensFit(cfg, db.tokens) && IsTrade(l) && TryAdopt(cfg, db, l, reached).Some?
    ensures VisitLists(cfg, db.tokens, l, TryAdopt(cfg, db, l, reached).value.tokens)
  {
    AdoptsIff(cfg, db, l, reached);
  }

  lemma {:induction false} VisitListsOne(
      cfg: Config, s: Sys, from: int, to: int, at: nat, reached: bool, victim: Address)
    requires ChainOk(cfg) && Inv(cfg, s) && at < |Logs(cfg, from, to)|
    ensures VisitLists(cfg, s.db.tokens, Logs(cfg, from, to)[at],
                       ApplyVisit(cfg, s, from, to, at, reached, victim).db.tokens)
  {
    var l, u := Logs(cfg, from, to)[at], ApplyVisit(cfg, s, from, to, at, reached, victim);
    if IsTrade(l) && l.emitter in s.known && TradeOf(l).Ok? {
      ScannedTradeLeaves(cfg, s, from, to, at, TradeOf(l).value);
      assert u.db == TradeTxn(s.db, TradeOf(l).value);
    } else if IsTrade(l) && l.emitter !in s.known && l.emitter !in s.non && TryAdopt(cfg, s.db, l, reached).Some? {
      AdoptionLists(cfg, s.db, l, reached);
      assert u.db == TryAdopt(cfg, s.db, l, reached).value;
    } else {
      assert u.db == s.db;
    }
  }

  lemma {:induction false} AnnounceListsOne(cfg: Config, s: Sys, from: int, to: int, at: nat)
    requires s.phase == Announcing(from, to, at)
    ensures ListingStep(cfg, s, ApplyAnnounce(cfg, s, from, to, at).db.tokens)
  {
  }

  lemma {:induction false} EventLists(cfg: Config, s: Sys, e: Event)
    requires ChainOk(cfg) && Inv(cfg, s)
    ensures ListingStep(cfg, s, Apply(cfg, s, e).db.tokens)
  {
    if e.Visit? && s.phase.Scanning? && s.phase.at < |Logs(cfg, s.phase.from, s.phase.to)| {
      VisitListsOne(cfg, s, s.phase.from, s.phase.to, s.phase.at, e.reached, e.victim);
    } else if e.Announce? && s.phase.Announcing? {
      AnnounceListsOne(cfg, s, s.phase.from, s.phase.to, s.phase.at);
    } else {
      assert Apply(cfg, s, e).db.tokens == s.db.tokens;
    }
  }

  lemma {:induction false} StepIsDated(cfg: Config, s: Sys, after: map<Address, Token>, reach: int, x: Address)
    requires Placed(cfg, s) && Listing(cfg, s) && Met(cfg, s, x) && Dated(cfg, s.db.tokens, s.reach, x)
    requires ListingStep(cfg, s, after) && s.reach <= reach
    ensures Dated(cfg, after, reach, x)
  {
    if x in after {
      if x !in s.db.tokens {
        if s.phase.Announcing? {
          AnnouncementSource(cfg, s, s.phase.from, s.phase.to, s.phase.at, x);
        } else {
          TradeSource(cfg, s, s.phase.from, s.phase.to, s.phase.at);
        }
      }
      SourceGrows(cfg, x, s.reach, reach, after[x].launch);
    }
  }

  /** A curve whose probes go through has every trade left behind recorded, so it is listed. */
  lemma {:induction false} TradersAreListed(cfg: Config, es: seq<Event>, x: Address)
    requires ChainOk(cfg) && Answered(cfg, Boot(cfg), es, x)
    ensures Met(cfg, Run(cfg, Boot(cfg), es), x)
  {
    var s := Run(cfg, Boot(cfg), es);
    Reachable(cfg, es);
    forall h, i | TradesAt(cfg, h, i, x) && LeftBehind(cfg, s, h, i) ensures x in s.db.tokens {
      CurveRun(cfg, es, h, i);
      var k :| 0 <= k < |s.db.trades| && RowMatches(cfg.logs(h)[i], s.db.trades[k]);
      TradeBelongs(cfg.logs(h)[i], s.db.trades[k]);
    }
  }

  /**
   In every run in which no probe of the curve fails its listing has a source: the first announcement, unless a
   trade precedes that by a whole chunk, or the first trade, unless an announcement is no later.
   */
  lemma {:induction false} ListingHasSource(cfg: Config, es: seq<Event>, x: Address)
    requires ChainOk(cfg) && Answered(cfg, Boot(cfg), es, x)
    ensures var s := Run(cfg, Boot(cfg), es); Dated(cfg, s.db.tokens, s.reach, x)
  {
    if es != [] {
      var init := es[..|es| - 1];
      AnsweredPrefix(cfg, Boot(cfg), es, x);
      ListingHasSource(cfg, init, x);
      TradersAreListed(cfg, init, x);
      Reachable(cfg, init);
      ListingRun(cfg, init);
      var s := Run(cfg, Boot(cfg), init);
      EventLists(cfg, s, es[|es| - 1]);
      PlaceKept(cfg, s, es[|es| - 1]);
      StepIsDated(cfg, s, Run(cfg, Boot(cfg), es).db.tokens, Run(cfg, Boot(cfg), es).reach, x);
    }
  }

  // ---------- when the source is determined ----------

  /**
   Announced no later than in the block of the first trade, or a whole chunk or more after it, or with the
   very data an adoption would give.
   */
  ghost predicate SameEitherWay(cfg: Config, t: int, i: int, a: int, j: int)
    requires 0 <= i < |cfg.logs(t)| && cfg.probe(cfg.logs(t)[i].emitter).Some?
    requires 0 <= j < |cfg.logs(a)| && cfg.logs(a)[j].body.CurveCreated? && LaunchOf(cfg.logs(a)[j]).Ok?
  {
    a <= t || t + cfg.chunkSize <= a || LaunchAt(cfg, a, j) == AdoptionAt(cfg, t, i)
  }

  /** So for every curve both traded and announced up to `c`. */
  ghost predicate ListingsDetermined(cfg: Config, c: int) {
    forall x, t, i, a, j :: FirstTraded(cfg, x, t, i) && FirstAnnounced(cfg, x, a, j) && a <= c ==>
                              SameEitherWay(cfg, t, i, a, j)
  }

  lemma {:induction false} SourcesAgree(cfg: Config, c: int, x: Address, p: Launch, q: Launch)
    requires ListingsDetermined(cfg, c) && Source(cfg, x, c, p) && Source(cfg, x, c, q)
    ensures p == q
  {
    if a, j :| ByAnnouncement(cfg, x, c, p, a, j) {
      if b, k :| ByAnnouncement(cfg, x, c, q, b, k) {
        assert !Earlier(a, j, b, k) && !Earlier(b, k, a, j);
      } else {
        var t, i :| ByTrade(cfg, x, c, q, t, i);
        assert SameEitherWay(cfg, t, i, a, j);
      }
    } else {
      var t, i :| ByTrade(cfg, x, c, p, t, i);
      if b, k :| ByAnnouncement(cfg, x, c, q, b, k) {
        assert SameEitherWay(cfg, t, i, b, k);
      } else {
        var u, m :| ByTrade(cfg, x, c, q, u, m);
        assert !Earlier(t, i, u, m) && !Earlier(u, m, t, i);
      }
    }
  }

  /** Where logs carry the number of their block, the gap between trade and announcement alone decides. */
  lemma {:induction false} GapDecides(cfg: Config, x: Address, t: int, i: int, a: int, j: int)
    requires TradesAt(cfg, t, i, x) && AnnouncesAt(cfg, a, j, x)
    requires cfg.logs(t)[i].block == Some(t) && cfg.logs(a)[j].block == Some(a)
    ensures SameEitherWay(cfg, t, i, a, j) <==> a <= t || t + cfg.chunkSize <= a
  {
  }
}
