/**
 Any two histories of the worker that have settled at one block hold the same tables, however often they
 were cut off, whatever their chunks, and however far earlier attempts aimed.
 */
module CoinBlastSettled {
  import opened Prelude
  import opened Rows
  import opened CoinBlastStore
  import opened CoinBlastLogs
  import opened CoinBlastRuns
  import opened CoinBlastListings
  import opened CoinBlastOrder
  import opened CoinBlastExactlyOnce
  import opened CoinBlastSources

  ghost predicate Announced(cfg: Config, hi: int, x: Address) {
    exists a, j :: a <= hi && AnnouncesAt(cfg, a, j, x)
  }

  ghost predicate Traded(cfg: Config, hi: int, x: Address) {
    exists t, i :: t <= hi && TradesAt(cfg, t, i, x)
  }

  /** Where one curve stands in a run none of whose probes of it failed. */
  ghost predicate CurveHistory(cfg: Config, s: Sys, x: Address) {
    Met(cfg, s, x) && Dated(cfg, s.db.tokens, s.reach, x)
  }

  ghost predicate History(cfg: Config, s: Sys) {
    Inv(cfg, s) && InOrder(cfg, s) && Listing(cfg, s) && forall x :: CurveHistory(cfg, s, x)
  }

  lemma {:induction false} RunHistory(cfg: Config, es: seq<Event>)
    requires ChainOk(cfg) && CurvesAnswer(cfg, Boot(cfg), es)
    ensures History(cfg, Run(cfg, Boot(cfg), es))
  {
    var s := Run(cfg, Boot(cfg), es);
    ReachableInOrder(cfg, es);
    ListingRun(cfg, es);
    forall x ensures CurveHistory(cfg, s, x) {
      if cfg.probe(x).Some? {
        TradersAreListed(cfg, es, x);
        ListingHasSource(cfg, es, x);
      }
    }
  }

  // ---------- settled histories agree ----------

  /** Everything up to `c` is done and nothing was ever aimed beyond it. */
  ghost predicate SettledAt(cfg: Config, s: Sys, c: int) {
    && s.reach == c
    && (CursorOf(cfg, s.db) == c
        || (s.phase.Scanning? && s.phase.to == c && s.phase.at == |Logs(cfg, s.phase.from, c)|))
  }

  /** The trades are then exactly the rows of the canonical logs up to `c`. */
  lemma {:induction false} SettledTrades(cfg: Config, s: Sys, c: int)
    requires Placed(cfg, s) && InOrder(cfg, s) && SettledAt(cfg, s, c)
    ensures |s.db.trades| == |Canon(cfg, c)| && RowsMatch(Canon(cfg, c), s.db.trades)
  {
    if CursorOf(cfg, s.db) != c {
      CanonGrows(cfg, s.phase.from - 1, c);
      assert Logs(cfg, s.phase.from, c)[..s.phase.at] == Logs(cfg, s.phase.from, c);
    }
  }

  /** And the listed curves are exactly those announced or traded up to `c`. */
  lemma {:induction false} SettledKeys(cfg: Config, s: Sys, c: int, x: Address)
    requires History(cfg, s) && SettledAt(cfg, s, c)
    ensures x in s.db.tokens <==> Announced(cfg, c, x) || Traded(cfg, c, x)
  {
    assert CurveHistory(cfg, s, x);
    if x in s.db.tokens {
      SourceIsBelow(cfg, c, x, s.db.tokens[x].launch);
    }
    if a, j :| a <= c && AnnouncesAt(cfg, a, j, x) {
      AnnouncedIsListed(cfg, s, x, a, j);
    }
    if t, i :| t <= c && TradesAt(cfg, t, i, x) {
      if CursorOf(cfg, s.db) < t {
        InChunk(cfg, s.phase.from, c, t, i);
      }
      assert LeftBehind(cfg, s, t, i);
    }
  }

  lemma {:induction false} SourceIsBelow(cfg: Config, c: int, x: Address, launch: Launch)
    requires Source(cfg, x, c, launch)
    ensures Announced(cfg, c, x) || Traded(cfg, c, x)
  {
    if a, j :| ByAnnouncement(cfg, x, c, launch, a, j) {
      assert a <= c && AnnouncesAt(cfg, a, j, x);
    } else {
      var t, i :| ByTrade(cfg, x, c, launch, t, i);
      assert t <= c && TradesAt(cfg, t, i, x);
    }
  }

  /** Equal up to the data a row was created with. */
  ghost predicate SameTally(a: Token, b: Token) {
    a.count == b.count && a.volume == b.volume && a.lastPrice == b.lastPrice && a.graduated == b.graduated
  }

  lemma {:induction false} SameRows(canon: seq<CbLog>, a: seq<Trade>, b: seq<Trade>)
    requires RowsMatch(canon, a) && RowsMatch(canon, b) && |a| == |b|
    ensures a == b
  {
    forall i | 0 <= i < |a| ensures a[i] == b[i] {
      assert RowMatches(canon[i], a[i]) && RowMatches(canon[i], b[i]);
    }
  }

  lemma {:induction false} SettledAgree(cfg: Config, p: Sys, q: Sys, c: int)
    requires History(cfg, p) && History(cfg, q) && SettledAt(cfg, p, c) && SettledAt(cfg, q, c)
    ensures p.db.trades == q.db.trades && p.db.tokens.Keys == q.db.tokens.Keys
    ensures forall x :: x in p.db.tokens ==> SameTally(p.db.tokens[x], q.db.tokens[x])
  {
    SettledTrades(cfg, p, c);
    SettledTrades(cfg, q, c);
    SameRows(Canon(cfg, c), p.db.trades, q.db.trades);
    forall x ensures x in p.db.tokens <==> x in q.db.tokens {
      SettledKeys(cfg, p, c, x);
      SettledKeys(cfg, q, c, x);
    }
    forall x | x in p.db.tokens ensures SameTally(p.db.tokens[x], q.db.tokens[x]) {
      assert Tallies(p.db.tokens[x], p.db.trades, x) && Tallies(q.db.tokens[x], q.db.trades, x);
    }
  }

  lemma {:induction false} ListingsAgree(cfg: Config, p: Sys, q: Sys, c: int)
    requires History(cfg, p) && History(cfg, q) && SettledAt(cfg, p, c) && SettledAt(cfg, q, c)
    requires ListingsDetermined(cfg, c)
    ensures p.db.tokens == q.db.tokens
  {
    SettledAgree(cfg, p, q, c);
    forall x | x in p.db.tokens ensures p.db.tokens[x] == q.db.tokens[x] {
      assert CurveHistory(cfg, p, x) && CurveHistory(cfg, q, x);
      SourcesAgree(cfg, c, x, p.db.tokens[x].launch, q.db.tokens[x].launch);
    }
  }

  /** A run in which no probe of a curve failed and which settled at `c`. */
  ghost predicate Settles(cfg: Config, es: seq<Event>, c: int) {
    CurvesAnswer(cfg, Boot(cfg), es) && SettledAt(cfg, Run(cfg, Boot(cfg), es), c)
  }

  /**
   Crash and rerun: two histories of the worker, interrupted and restarted anywhere, over different tips
   and chunks, that have settled at one block hold the same trades and the same listed curves with the same
   counts, volumes, last prices and graduation flags; and the very same tables if no curve is announced after
   its first trade by less than a chunk.
   */
  lemma {:induction false} CrashAndRerun(cfg: Config, es: seq<Event>, fs: seq<Event>, c: int)
    requires ChainOk(cfg) && Settles(cfg, es, c) && Settles(cfg, fs, c)
    ensures var p, q := Run(cfg, Boot(cfg), es).db, Run(cfg, Boot(cfg), fs).db;
            && p.trades == q.trades && p.tokens.Keys == q.tokens.Keys
            && (forall x :: x in p.tokens ==> SameTally(p.tokens[x], q.tokens[x]))
            && (ListingsDetermined(cfg, c) ==> p.tokens == q.tokens)
  {
    RunHistory(cfg, es);
    RunHistory(cfg, fs);
    SettledAgree(cfg, Run(cfg, Boot(cfg), es), Run(cfg, Boot(cfg), fs), c);
    if ListingsDetermined(cfg, c) {
      ListingsAgree(cfg, Run(cfg, Boot(cfg), es), Run(cfg, Boot(cfg), fs), c);
    }
  }

  /** Even if earlier attempts aimed beyond `c`, the rows of the blocks up to `c` are the same. */
  lemma {:induction false} RowsUpToAgree(cfg: Config, es: seq<Event>, fs: seq<Event>, c: int)
    requires ChainOk(cfg) && CurvesAnswer(cfg, Boot(cfg), es) && CurvesAnswer(cfg, Boot(cfg), fs)
    requires cfg.deployBlock - 1 <= c <= CursorOf(cfg, Run(cfg, Boot(cfg), es).db)
    requires c <= CursorOf(cfg, Run(cfg, Boot(cfg), fs).db)
    ensures var x, y, n := Run(cfg, Boot(cfg), es).db, Run(cfg, Boot(cfg), fs).db, |Canon(cfg, c)|;
            n <= |x.trades| && n <= |y.trades| && x.trades[..n] == y.trades[..n]
            && RowsMatch(Canon(cfg, c), x.trades[..n])
  {
    FirstRows(cfg, es, c);
    FirstRows(cfg, fs, c);
    var x, y, n := Run(cfg, Boot(cfg), es).db, Run(cfg, Boot(cfg), fs).db, |Canon(cfg, c)|;
    SameRows(Canon(cfg, c), x.trades[..n], y.trades[..n]);
  }

  lemma {:induction false} FirstRows(cfg: Config, es: seq<Event>, c: int)
    requires ChainOk(cfg) && CurvesAnswer(cfg, Boot(cfg), es)
    requires cfg.deployBlock - 1 <= c <= CursorOf(cfg, Run(cfg, Boot(cfg), es).db)
    ensures var x, n := Run(cfg, Boot(cfg), es).db, |Canon(cfg, c)|;
            n <= |x.trades| && RowsMatch(Canon(cfg, c), x.trades[..n])
  {
    var s := Run(cfg, Boot(cfg), es);
    ReachableInOrder(cfg, es);
    CanonGrows(cfg, c, CursorOf(cfg, s.db));
    CanonGrows(cfg, c, s.reach);
    var n := |Canon(cfg, c)|;
    forall i | 0 <= i < n ensures RowMatches(Canon(cfg, c)[i], s.db.trades[..n][i]) {
      assert RowMatches(Canon(cfg, s.reach)[i], s.db.trades[i]);
    }
  }
}
