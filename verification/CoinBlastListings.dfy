/** Which curves are listed, and under which data: announcements come first, adoptions fill the rest. */
module CoinBlastListings {
  import opened Prelude
  import opened Rows
  import opened CoinBlastStore
  import opened CoinBlastLogs
  import opened CoinBlastRuns

  // ---------- every announced curve is listed ----------

  ghost predicate Listed(ls: seq<CbLog>, keys: set<Address>) {
    forall i :: 0 <= i < |ls| ==> ListedLog(ls[i], keys)
  }

  ghost predicate ListedLog(l: CbLog, keys: set<Address>) {
    l.body.CurveCreated? ==> LaunchOf(l).Ok? && LaunchOf(l).value.0 in keys
  }

  /** The announcements up to the cursor, and those behind the worker in the current chunk. */
  ghost predicate Listing(cfg: Config, s: Sys) {
    && cfg.deployBlock - 1 <= CursorOf(cfg, s.db)
    && Listed(FactoryLogs(cfg, cfg.deployBlock, CursorOf(cfg, s.db)), s.db.tokens.Keys)
    && match s.phase
       case Idle => true
       case Announcing(from, to, at) =>
         && from == CursorOf(cfg, s.db) + 1 && from - 1 <= to && at <= |FactoryLogs(cfg, from, to)|
         && Listed(FactoryLogs(cfg, from, to)[..at], s.db.tokens.Keys)
       case Scanning(from, to, _) =>
         && from == CursorOf(cfg, s.db) + 1 && from - 1 <= to
         && Listed(FactoryLogs(cfg, from, to), s.db.tokens.Keys)
  }

  lemma {:induction false} ListedGrows(ls: seq<CbLog>, keys: set<Address>, more: set<Address>)
    requires Listed(ls, keys) && keys <= more
    ensures Listed(ls, more)
  {
    forall i | 0 <= i < |ls| ensures ListedLog(ls[i], more) {
      assert ListedLog(ls[i], keys);
    }
  }

  /** Growing tables keep every announcement listed. */
  lemma {:induction false} ListingGrows(cfg: Config, s: Sys, t: Sys)
    requires Listing(cfg, s) && s.db.tokens.Keys <= t.db.tokens.Keys && t.db.cursor == s.db.cursor
    ensures Listing(cfg, t.(phase := s.phase))
  {
    var keys, more := s.db.tokens.Keys, t.db.tokens.Keys;
    ListedGrows(FactoryLogs(cfg, cfg.deployBlock, CursorOf(cfg, s.db)), keys, more);
    match s.phase {
      case Idle =>
      case Announcing(from, to, at) => ListedGrows(FactoryLogs(cfg, from, to)[..at], keys, more);
      case Scanning(from, to, _) => ListedGrows(FactoryLogs(cfg, from, to), keys, more);
    }
  }

  lemma {:induction false} AnnounceLists(cfg: Config, s: Sys, from: int, to: int, at: nat)
    requires Listing(cfg, s) && s.phase == Announcing(from, to, at)
    ensures Listing(cfg, ApplyAnnounce(cfg, s, from, to, at))
  {
    var t := ApplyAnnounce(cfg, s, from, to, at);
    ListingGrows(cfg, s, t);
    var ls := FactoryLogs(cfg, from, to);
    assert ls[..|ls|] == ls;
  }

  lemma {:induction false} CursorLists(cfg: Config, s: Sys, from: int, to: int)
    requires Listing(cfg, s) && s.phase.Scanning? && s.phase.from == from && s.phase.to == to
    ensures Listing(cfg, s.(db := s.db.(cursor := Some(to)), phase := Idle, chunks := s.chunks + [(from, to)]))
  {
    LogsConcat(cfg, cfg.deployBlock, from - 1, to);
    ByFactoryConcat(cfg, Logs(cfg, cfg.deployBlock, from - 1), Logs(cfg, from, to));
  }

  lemma {:induction false} ListingKeeps(cfg: Config, s: Sys, e: Event)
    requires Listing(cfg, s)
    ensures Listing(cfg, Apply(cfg, s, e))
  {
    match e {
      case Announce =>
        if s.phase.Announcing? {
          AnnounceLists(cfg, s, s.phase.from, s.phase.to, s.phase.at);
        }
      case WriteCursor =>
        if s.phase.Scanning? {
          CursorLists(cfg, s, s.phase.from, s.phase.to);
        }
      case _ =>
        TablesGrow(cfg, s, e);
        ListingGrows(cfg, s, Apply(cfg, s, e));
    }
  }

  lemma {:induction false} ListingRun(cfg: Config, es: seq<Event>)
    ensures Listing(cfg, Run(cfg, Boot(cfg), es))
  {
    if es == [] {
      assert Logs(cfg, cfg.deployBlock, cfg.deployBlock - 1) == [];
    } else {
      ListingRun(cfg, es[..|es| - 1]);
      ListingKeeps(cfg, Run(cfg, Boot(cfg), es[..|es| - 1]), es[|es| - 1]);
    }
  }

  /** In every reachable state each curve the factory announced up to the cursor has a row, whatever probes fail. */
  lemma {:induction false} AnnouncedCurvesAreListed(cfg: Config, es: seq<Event>, k: nat)
    requires k < |FactoryLogs(cfg, cfg.deployBlock, CursorOf(cfg, Run(cfg, Boot(cfg), es).db))|
    ensures var s := Run(cfg, Boot(cfg), es);
            ListedLog(FactoryLogs(cfg, cfg.deployBlock, CursorOf(cfg, s.db))[k], s.db.tokens.Keys)
  {
    ListingRun(cfg, es);
  }

  // ---------- no two curves share a token ----------

  ghost predicate TokensDiffer(tokens: map<Address, Token>) {
    forall a, b :: a in tokens && b in tokens && tokens[a].launch.token == tokens[b].launch.token ==> a == b
  }

  lemma {:induction false} InsertKeepsTokensDiffer(db: CbDb, curve: Address, launch: Launch)
    requires TokensDiffer(db.tokens) && InsertToken(db, curve, launch).Ok?
    ensures TokensDiffer(InsertToken(db, curve, launch).value.tokens)
  {
  }

  lemma {:induction false} TradeKeepsTokensDiffer(db: CbDb, t: Trade)
    requires TokensDiffer(db.tokens)
    ensures TokensDiffer(TradeTxn(db, t).tokens)
  {
  }

  lemma {:induction false} AnnounceKeepsTokensDiffer(cfg: Config, s: Sys, from: int, to: int, at: nat)
    requires TokensDiffer(s.db.tokens)
    ensures TokensDiffer(ApplyAnnounce(cfg, s, from, to, at).db.tokens)
  {
    var ls := FactoryLogs(cfg, from, to);
    if at < |ls| && ls[at].body.CurveCreated? && LaunchOf(ls[at]).Ok? {
      var (curve, launch) := LaunchOf(ls[at]).value;
      if InsertToken(s.db, curve, launch).Ok? {
        InsertKeepsTokensDiffer(s.db, curve, launch);
      }
    }
  }

  lemma {:induction false} AdoptionKeepsTokensDiffer(cfg: Config, db: CbDb, l: CbLog, reached: bool)
    requires TokensDiffer(db.tokens) && TryAdopt(cfg, db, l, reached).Some?
    ensures TokensDiffer(TryAdopt(cfg, db, l, reached).value.tokens)
  {
    InsertKeepsTokensDiffer(db, l.emitter, AdoptionOf(l, cfg.probe(l.emitter).value));
  }

  lemma {:induction false} VisitKeepsTokensDiffer(
      cfg: Config, s: Sys, from: int, to: int, at: nat, reached: bool, victim: Address)
    requires TokensDiffer(s.db.tokens) && at < |Logs(cfg, from, to)|
    ensures TokensDiffer(ApplyVisit(cfg, s, from, to, at, reached, victim).db.tokens)
  {
    var l, u := Logs(cfg, from, to)[at], ApplyVisit(cfg, s, from, to, at, reached, victim);
    if IsTrade(l) && l.emitter in s.known && TradeOf(l).Ok? {
      TradeKeepsTokensDiffer(s.db, TradeOf(l).value);
      assert u.db == TradeTxn(s.db, TradeOf(l).value);
    } else if IsTrade(l) && l.emitter !in s.known && l.emitter !in s.non && TryAdopt(cfg, s.db, l, reached).Some? {
      AdoptionKeepsTokensDiffer(cfg, s.db, l, reached);
      assert u.db == TryAdopt(cfg, s.db, l, reached).value;
    } else {
      assert u.db == s.db;
    }
  }

  /** On any chain, whatever its curves answer: no two listed curves ever claim one token. */
  lemma {:induction false} NoSharedToken(cfg: Config, es: seq<Event>)
    ensures TokensDiffer(Run(cfg, Boot(cfg), es).db.tokens)
  {
    if es != [] {
      var init, e := es[..|es| - 1], es[|es| - 1];
      NoSharedToken(cfg, init);
      var s := Run(cfg, Boot(cfg), init);
      if e.Announce? && s.phase.Announcing? {
        AnnounceKeepsTokensDiffer(cfg, s, s.phase.from, s.phase.to, s.phase.at);
      } else if e.Visit? && s.phase.Scanning? && s.phase.at < |Logs(cfg, s.phase.from, s.phase.to)| {
        VisitKeepsTokensDiffer(cfg, s, s.phase.from, s.phase.to, s.phase.at, e.reached, e.victim);
      } else {
        assert Apply(cfg, s, e).db.tokens == s.db.tokens;
      }
    }
  }
}
