/** What the aggregates of a curve stand for on the chain: the amounts of its recorded logs, not of its rows. */
module CoinBlastVolumes {
  import opened Prelude
  import opened Folds
  import opened Rows
  import opened CoinBlastStore
  import opened CoinBlastLogs
  import opened CoinBlastRuns

  /** The SRX side of a buy or a sell. */
  function SrxSide(l: CbLog): nat {
    match l.body
    case BuyLog(Some(e)) => e.srxIn
    case SellLog(Some(e)) => e.srxOut
    case _ => 0
  }

  function TokenSide(l: CbLog): nat {
    match l.body
    case BuyLog(Some(e)) => e.tokensOut
    case SellLog(Some(e)) => e.tokensIn
    case _ => 0
  }

  function SrxOver(ls: seq<CbLog>): nat {
    if ls == [] then 0 else SrxOver(ls[..|ls| - 1]) + SrxSide(ls[|ls| - 1])
  }

  /** The largest whole rate at which the SRX side pays for the tokens; zero if there are none. */
  predicate IsRate(price: nat, l: CbLog) {
    if TokenSide(l) == 0 then price == 0
    else price * TokenSide(l) <= SrxSide(l) < (price + 1) * TokenSide(l)
  }

  /** A buy or sell log of the curve, in some block the worker has aimed at. */
  ghost predicate IsSwapOf(cfg: Config, reach: int, x: Address, l: CbLog) {
    && l.emitter == x && (l.body.BuyLog? || l.body.SellLog?)
    && exists h, i :: cfg.deployBlock <= h <= reach && 0 <= i < |cfg.logs(h)| && cfg.logs(h)[i] == l
  }

  /** `ls` are the logs of exactly the curve's buy and sell rows, in row order; `at` are the places of these rows. */
  ghost predicate AreSwapsOf(cfg: Config, s: Sys, x: Address, ls: seq<CbLog>, at: seq<nat>) {
    && |at| == |ls|
    && (forall k :: 0 <= k < |ls| ==>
          IsSwapOf(cfg, s.reach, x, ls[k]) && at[k] < |s.db.trades| && RowMatches(ls[k], s.db.trades[at[k]]))
    && (forall i, j :: 0 <= i < j < |at| ==> at[i] < at[j])
    && (forall j: nat :: j < |s.db.trades| && s.db.trades[j].curve == x && !s.db.trades[j].kind.Graduated? ==> j in at)
  }

  function SwapOn(x: Address): Trade -> Option<Trade> {
    (t: Trade) => if t.curve == x && !t.kind.Graduated? then Some(t) else None
  }

  lemma {:induction false} SwapsInOrder(trades: seq<Trade>, x: Address) returns (at: seq<nat>)
    ensures Gathers(trades, SwapOn(x), SwapsOf(trades, x), at)
  {
    at := [];
    if trades != [] {
      var init, last := trades[..|trades| - 1], trades[|trades| - 1];
      at := SwapsInOrder(init, x);
      GathersSnoc(init, last, SwapOn(x), SwapsOf(init, x), at);
      assert trades == init + [last];
      if SwapOn(x)(last).Some? {
        at := at + [|init|];
      }
    }
  }

  ghost predicate AreLogsBehind(cfg: Config, reach: int, x: Address, ls: seq<CbLog>, ts: seq<Trade>) {
    |ls| == |ts| && forall k :: 0 <= k < |ls| ==> IsSwapOf(cfg, reach, x, ls[k]) && RowMatches(ls[k], ts[k])
  }

  /** Every buy or sell row of the curve has its log on the chain. */
  lemma {:induction false} LogsBehind(cfg: Config, reach: int, x: Address, ts: seq<Trade>) returns (ls: seq<CbLog>)
    requires forall k :: 0 <= k < |ts| ==>
                           HasOrigin(cfg, reach, ts[k]) && ts[k].curve == x && !ts[k].kind.Graduated?
    ensures AreLogsBehind(cfg, reach, x, ls, ts)
  {
    ls := [];
    if ts != [] {
      var last := ts[|ts| - 1];
      ls := LogsBehind(cfg, reach, x, ts[..|ts| - 1]);
      assert HasOrigin(cfg, reach, last);
      var h: int, i: nat :| OriginAt(cfg, reach, h, i, last);
      ls := ls + [cfg.logs(h)[i]];
    }
  }

  lemma {:induction false} SameVolume(ls: seq<CbLog>, ts: seq<Trade>)
    requires |ls| == |ts| && forall k :: 0 <= k < |ls| ==> RowMatches(ls[k], ts[k]) && !ts[k].kind.Graduated?
    ensures SrxOver(ls) == TotalSrx(ts)
  {
    if ls != [] {
      var n := |ls| - 1;
      SameVolume(ls[..n], ts[..n]);
      assert RowMatches(ls[n], ts[n]);
    }
  }

  lemma {:induction false} PriceIsRate(l: CbLog, t: Trade)
    requires RowMatches(l, t) && !t.kind.Graduated?
    ensures IsRate(PricePerToken(t.srx, t.tokens), l)
  {
    if t.tokens > 0 {
      PriceIsFloor(t.srx, t.tokens);
    }
  }

  /**
   In every run, whatever probes fail: a listed curve's count, volume and last price are the number of its recorded
   buy and sell logs, the sum of their SRX sides, and the rate of the last of them.
   */
  lemma {:induction false} AggregatesCountLogs(cfg: Config, es: seq<Event>, x: Address)
    returns (ls: seq<CbLog>, at: seq<nat>)
    requires FactoryIsSilent(cfg) && AnnouncementsHold(cfg) && x in Run(cfg, Boot(cfg), es).db.tokens
    ensures AreSwapsOf(cfg, Run(cfg, Boot(cfg), es), x, ls, at)
    ensures var token := Run(cfg, Boot(cfg), es).db.tokens[x];
            && token.count == |ls| && token.volume == SrxOver(ls)
            && (if ls == [] then token.lastPrice == 0 else IsRate(token.lastPrice, ls[|ls| - 1]))
  {
    var s := Run(cfg, Boot(cfg), es);
    Reachable(cfg, es);
    ls, at := SwapLogs(cfg, s, x);
  }

  /** The places of the swap rows are those of the swaps with a log each. */
  lemma {:induction false} SwapsAreSwapsOf(
      cfg: Config, s: Sys, x: Address, swaps: seq<Trade>, ls: seq<CbLog>, at: seq<nat>)
    requires Gathers(s.db.trades, SwapOn(x), swaps, at) && AreLogsBehind(cfg, s.reach, x, ls, swaps)
    ensures AreSwapsOf(cfg, s, x, ls, at)
  {
    forall j: nat | j < |s.db.trades| && s.db.trades[j].curve == x && !s.db.trades[j].kind.Graduated? ensures j in at {
      assert SwapOn(x)(s.db.trades[j]).Some?;
    }
  }

  lemma {:induction false} SwapsHaveOrigins(cfg: Config, s: Sys, x: Address, swaps: seq<Trade>, at: seq<nat>)
    requires Sourced(cfg, s) && Gathers(s.db.trades, SwapOn(x), swaps, at)
    ensures forall k :: 0 <= k < |swaps| ==>
                          HasOrigin(cfg, s.reach, swaps[k]) && swaps[k].curve == x && !swaps[k].kind.Graduated?
  {
    forall k | 0 <= k < |swaps|
      ensures HasOrigin(cfg, s.reach, swaps[k]) && swaps[k].curve == x && !swaps[k].kind.Graduated?
    {
      assert SwapOn(x)(s.db.trades[at[k]]) == Some(swaps[k]);
    }
  }

  lemma {:induction false} SwapLogs(cfg: Config, s: Sys, x: Address) returns (ls: seq<CbLog>, at: seq<nat>)
    requires Sourced(cfg, s) && x in s.db.tokens && Tallies(s.db.tokens[x], s.db.trades, x)
    ensures AreSwapsOf(cfg, s, x, ls, at)
    ensures var token := s.db.tokens[x];
            && token.count == |ls| && token.volume == SrxOver(ls)
            && (if ls == [] then token.lastPrice == 0 else IsRate(token.lastPrice, ls[|ls| - 1]))
  {
    var swaps := SwapsOf(s.db.trades, x);
    at := SwapsInOrder(s.db.trades, x);
    SwapsHaveOrigins(cfg, s, x, swaps, at);
    ls := LogsBehind(cfg, s.reach, x, swaps);
    SwapsAreSwapsOf(cfg, s, x, swaps, ls, at);
    SameVolume(ls, swaps);
    if ls != [] {
      PriceIsRate(ls[|ls| - 1], swaps[|ls| - 1]);
    }
  }

  ghost predicate GraduationAt(cfg: Config, reach: int, trades: seq<Trade>, h: int, i: nat, x: Address) {
    && cfg.deployBlock <= h <= reach && i < |cfg.logs(h)|
    && cfg.logs(h)[i].emitter == x && cfg.logs(h)[i].body.GraduatedLog?
    && exists k :: 0 <= k < |trades| && RowMatches(cfg.logs(h)[i], trades[k])
  }

  lemma {:induction false} GraduationHasLog(cfg: Config, reach: int, trades: seq<Trade>, x: Address)
    requires Origins(cfg, trades, reach)
    ensures HasGraduation(trades, x) <==> exists h, i :: GraduationAt(cfg, reach, trades, h, i, x)
  {
    if HasGraduation(trades, x) {
      var k :| 0 <= k < |trades| && trades[k].curve == x && trades[k].kind.Graduated?;
      assert HasOrigin(cfg, reach, trades[k]);
      var h: int, i: nat :| OriginAt(cfg, reach, h, i, trades[k]);
      assert GraduationAt(cfg, reach, trades, h, i, x);
    }
    if h: int, i: nat :| GraduationAt(cfg, reach, trades, h, i, x) {
      var k :| 0 <= k < |trades| && RowMatches(cfg.logs(h)[i], trades[k]);
      assert trades[k].curve == x && trades[k].kind.Graduated?;
    }
  }

  /** And it is marked graduated exactly if a graduation log of its own has been recorded. */
  lemma {:induction false} GraduatedByLog(cfg: Config, es: seq<Event>, x: Address)
    requires FactoryIsSilent(cfg) && AnnouncementsHold(cfg) && x in Run(cfg, Boot(cfg), es).db.tokens
    ensures var s := Run(cfg, Boot(cfg), es);
            s.db.tokens[x].graduated <==> exists h, i :: GraduationAt(cfg, s.reach, s.db.trades, h, i, x)
  {
    var s := Run(cfg, Boot(cfg), es);
    Reachable(cfg, es);
    GraduationHasLog(cfg, s.reach, s.db.trades, x);
  }
}
