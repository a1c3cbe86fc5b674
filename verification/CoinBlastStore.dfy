/**
 The two CoinBlast tables: one row per curve with running aggregates, one row per trade. A trade
 insert and its aggregate update commit together; every other statement commits on its own.
 */
module CoinBlastStore {
  import opened Prelude
  import opened Rows

  datatype TradeKind = Buy | Sell | Graduated

  /** Rows of `cb_trades` in id order; `(txHash, logIndex)` is unique. */
  datatype Trade = Trade(
    curve: Address, kind: TradeKind, trader: Address, srx: nat, tokens: nat, fee: nat,
    block: int, txHash: Hash, logIndex: int)

  /** What is known about a curve when its row is created. */
  datatype Launch = Launch(token: Address, owner: Address, block: int, txHash: Hash)

  datatype Token = Token(launch: Launch, volume: nat, count: nat, lastPrice: nat, graduated: bool)

  datatype CbDb = CbDb(tokens: map<Address, Token>, trades: seq<Trade>, cursor: Option<int>)

  const EMPTY: CbDb := CbDb(map[], [], None)

  function TradeKey(t: Trade): (Hash, int) { (t.txHash, t.logIndex) }

  ghost predicate HasTrade(trades: seq<Trade>, key: (Hash, int)) {
    exists i :: 0 <= i < |trades| && TradeKey(trades[i]) == key
  }

  function Stored(trades: seq<Trade>, key: (Hash, int)): (found: bool)
    ensures found <==> HasTrade(trades, key)
  {
    trades != [] && (TradeKey(trades[|trades| - 1]) == key || Stored(trades[..|trades| - 1], key))
  }

  // ---------- statements ----------

  function FreshToken(launch: Launch): Token {
    Token(launch, 0, 0, 0, false)
  }

  /** A known curve is left alone; a new curve must bring a token address of its own. */
  function InsertToken(db: CbDb, curve: Address, launch: Launch): Result<CbDb> {
    if curve in db.tokens then Ok(db)
    else if exists c :: c in db.tokens && db.tokens[c].launch.token == launch.token then Err(UniqueViolation)
    else Ok(db.(tokens := db.tokens[curve := FreshToken(launch)]))
  }

  /** Whole units of SRX per token; a trade of no tokens has price zero. */
  function PricePerToken(srx: nat, tokens: nat): nat {
    if tokens == 0 then 0 else srx / tokens
  }

  /** Long division: the price is the largest whole rate the SRX side can pay. */
  lemma {:induction false} PriceIsFloor(srx: nat, tokens: nat)
    ensures tokens > 0 ==>
              PricePerToken(srx, tokens) * tokens <= srx < (PricePerToken(srx, tokens) + 1) * tokens
    ensures tokens == 0 ==> PricePerToken(srx, tokens) == 0
  {
  }

  /** UPDATE of a missing row changes nothing. */
  function BumpTradeAggregate(db: CbDb, curve: Address, srx: nat, price: nat): CbDb {
    if curve !in db.tokens then db
    else
      var t := db.tokens[curve];
      db.(tokens := db.tokens[curve := t.(volume := t.volume + srx, count := t.count + 1, lastPrice := price)])
  }

  function MarkGraduated(db: CbDb, curve: Address): CbDb {
    if curve !in db.tokens then db
    else db.(tokens := db.tokens[curve := db.tokens[curve].(graduated := true)])
  }

  /** One trade transaction: the row, and only if it was new, the aggregates or the graduation flag. */
  function TradeTxn(db: CbDb, t: Trade): CbDb {
    if Stored(db.trades, TradeKey(t)) then db
    else
      var d := db.(trades := db.trades + [t]);
      if t.kind.Graduated? then MarkGraduated(d, t.curve)
      else BumpTradeAggregate(d, t.curve, t.srx, PricePerToken(t.srx, t.tokens))
  }

  // ---------- what the aggregates stand for ----------

  /** The buys and sells of one curve, oldest first. */
  function SwapsOf(trades: seq<Trade>, curve: Address): seq<Trade> {
    if trades == [] then []
    else
      var rest, last := SwapsOf(trades[..|trades| - 1], curve), trades[|trades| - 1];
      if last.curve == curve && !last.kind.Graduated? then rest + [last] else rest
  }

  function TotalSrx(trades: seq<Trade>): nat {
    if trades == [] then 0 else TotalSrx(trades[..|trades| - 1]) + trades[|trades| - 1].srx
  }

  ghost predicate HasGraduation(trades: seq<Trade>, curve: Address) {
    exists i :: 0 <= i < |trades| && trades[i].curve == curve && trades[i].kind.Graduated?
  }

  /** Every aggregate of a curve's row is determined by the trade rows. */
  ghost predicate Tallies(t: Token, trades: seq<Trade>, curve: Address) {
    var swaps := SwapsOf(trades, curve);
    && t.count == |swaps|
    && t.volume == TotalSrx(swaps)
    && t.lastPrice == (if swaps == [] then 0
                       else PricePerToken(swaps[|swaps| - 1].srx, swaps[|swaps| - 1].tokens))
    && (t.graduated <==> HasGraduation(trades, curve))
  }

  /** Aggregates are conserved, no trade lacks its curve's row, and no two trades share a key. */
  ghost predicate Consistent(db: CbDb) {
    && (forall c :: c in db.tokens ==> Tallies(db.tokens[c], db.trades, c))
    && (forall i :: 0 <= i < |db.trades| ==> db.trades[i].curve in db.tokens)
    && (forall i, j :: 0 <= i < j < |db.trades| ==> TradeKey(db.trades[i]) != TradeKey(db.trades[j]))
  }

  lemma {:induction false} AppendedTrade(trades: seq<Trade>, t: Trade, curve: Address)
    ensures SwapsOf(trades + [t], curve) ==
            SwapsOf(trades, curve) + if t.curve == curve && !t.kind.Graduated? then [t] else []
    ensures HasGraduation(trades + [t], curve) <==>
            HasGraduation(trades, curve) || (t.curve == curve && t.kind.Graduated?)
  {
    var all := trades + [t];
    assert all[..|all| - 1] == trades;
    if HasGraduation(trades, curve) {
      var i :| 0 <= i < |trades| && trades[i].curve == curve && trades[i].kind.Graduated?;
      assert all[i] == trades[i];
    }
    if t.curve == curve && t.kind.Graduated? {
      assert all[|trades|] == t;
    }
  }

  lemma {:induction false} NoSwapsOfStrangers(trades: seq<Trade>, curve: Address)
    requires forall i :: 0 <= i < |trades| ==> trades[i].curve != curve
    ensures SwapsOf(trades, curve) == [] && !HasGraduation(trades, curve)
  {
    if trades != [] {
      NoSwapsOfStrangers(trades[..|trades| - 1], curve);
    }
  }

  /** The row of `curve` after a new trade of it. */
  function Credited(t: Token, trade: Trade): Token {
    if trade.kind.Graduated? then t.(graduated := true)
    else t.(volume := t.volume + trade.srx, count := t.count + 1, lastPrice := PricePerToken(trade.srx, trade.tokens))
  }

  lemma {:induction false} NewTradeTallies(row: Token, trades: seq<Trade>, t: Trade, c: Address)
    requires Tallies(row, trades, c)
    ensures Tallies(if t.curve == c then Credited(row, t) else row, trades + [t], c)
  {
    AppendedTrade(trades, t, c);
    var swaps := SwapsOf(trades, c);
    assert (swaps + [t])[..|swaps|] == swaps;
  }

  /** A new trade of a listed curve adds its row and credits that curve's row, nothing else. */
  lemma {:induction false} NewTradeEffect(db: CbDb, t: Trade)
    requires t.curve in db.tokens && !HasTrade(db.trades, TradeKey(t))
    ensures TradeTxn(db, t) ==
            db.(trades := db.trades + [t], tokens := db.tokens[t.curve := Credited(db.tokens[t.curve], t)])
  {
  }

  lemma {:induction false} CreditConserves(db: CbDb, t: Trade, d: CbDb)
    requires Consistent(db) && t.curve in db.tokens && !HasTrade(db.trades, TradeKey(t))
    requires d.trades == db.trades + [t] && d.tokens == db.tokens[t.curve := Credited(db.tokens[t.curve], t)]
    ensures Consistent(d) && d.tokens.Keys == db.tokens.Keys
    ensures HasTrade(d.trades, TradeKey(t))
  {
    assert d.trades[|db.trades|] == t;
    forall c | c in d.tokens ensures Tallies(d.tokens[c], d.trades, c) {
      NewTradeTallies(db.tokens[c], db.trades, t, c);
    }
  }

  /** A trade of a listed curve keeps the tables consistent, whether or not the row was new. */
  lemma {:induction false} TradeConserves(db: CbDb, t: Trade)
    requires Consistent(db) && t.curve in db.tokens
    ensures Consistent(TradeTxn(db, t)) && TradeTxn(db, t).tokens.Keys == db.tokens.Keys
    ensures HasTrade(TradeTxn(db, t).trades, TradeKey(t))
  {
    if !Stored(db.trades, TradeKey(t)) {
      NewTradeEffect(db, t);
      CreditConserves(db, t, TradeTxn(db, t));
    }
  }

  lemma {:induction false} InsertTokenConserves(db: CbDb, curve: Address, launch: Launch)
    requires Consistent(db) && InsertToken(db, curve, launch).Ok?
    ensures Consistent(InsertToken(db, curve, launch).value)
  {
    if curve !in db.tokens {
      NoSwapsOfStrangers(db.trades, curve);
    }
  }

  /** The token rows after a trade that is new. */
  function CreditIn(tokens: map<Address, Token>, t: Trade): map<Address, Token> {
    if t.curve in tokens then tokens[t.curve := Credited(tokens[t.curve], t)] else tokens
  }

  ghost predicate SplitsAs(db: CbDb, t: Trade, d: CbDb) {
    var found := HasTrade(db.trades, TradeKey(t));
    && d.tokens == (if found then db.tokens else CreditIn(db.tokens, t))
    && d.trades == (if found then db.trades else db.trades + [t])
  }

  lemma {:induction false} TradeSplits(db: CbDb, t: Trade)
    ensures SplitsAs(db, t, TradeTxn(db, t))
  {
  }

  lemma {:induction false} OtherKeyStays(trades: seq<Trade>, a: Trade, key: (Hash, int))
    requires TradeKey(a) != key
    ensures HasTrade(trades + [a], key) == HasTrade(trades, key)
  {
    if i :| 0 <= i < |trades| && TradeKey(trades[i]) == key {
      assert (trades + [a])[i] == trades[i];
    }
  }

  lemma {:induction false} CreditsCommute(tokens: map<Address, Token>, a: Trade, b: Trade)
    requires a.curve != b.curve
    ensures CreditIn(CreditIn(tokens, a), b) == CreditIn(CreditIn(tokens, b), a)
  {
  }

  lemma {:induction false} SplitsCommute(db: CbDb, a: Trade, b: Trade, da: CbDb, ab: CbDb, b0: CbDb, ba: CbDb)
    requires a.curve != b.curve && TradeKey(a) != TradeKey(b)
    requires SplitsAs(db, a, da) && SplitsAs(da, b, ab) && SplitsAs(db, b, b0) && SplitsAs(b0, a, ba)
    ensures ab.tokens == ba.tokens && multiset(ab.trades) == multiset(ba.trades)
  {
    OtherKeyStays(db.trades, a, TradeKey(b));
    OtherKeyStays(db.trades, b, TradeKey(a));
    CreditsCommute(db.tokens, a, b);
  }

  /** Trades of different curves leave the same tables in either order, but for the row order; new or repeated. */
  lemma {:induction false} TradesCommute(db: CbDb, a: Trade, b: Trade)
    requires a.curve != b.curve && TradeKey(a) != TradeKey(b)
    ensures var x, y := TradeTxn(TradeTxn(db, a), b), TradeTxn(TradeTxn(db, b), a);
            x.tokens == y.tokens && multiset(x.trades) == multiset(y.trades)
  {
    var da, db' := TradeTxn(db, a), TradeTxn(db, b);
    TradeSplits(db, a);
    TradeSplits(db, b);
    TradeSplits(da, b);
    TradeSplits(db', a);
    SplitsCommute(db, a, b, da, TradeTxn(da, b), db', TradeTxn(db', a));
  }

  /** Without the curve's row the trade is stored but counted nowhere. */
  lemma {:induction false} UnlistedTradeIsNotCounted(db: CbDb, t: Trade)
    requires t.curve !in db.tokens && !HasTrade(db.trades, TradeKey(t))
    ensures TradeTxn(db, t) == db.(trades := db.trades + [t])
    ensures !Consistent(TradeTxn(db, t))
  {
    var d := TradeTxn(db, t);
    assert d.trades[|db.trades|].curve !in d.tokens;
  }

  // ---------- idempotent operations ----------

  /** The commits a chunk consists of. */
  datatype Op = AddToken(curve: Address, launch: Launch) | AddTrade(trade: Trade)

  function ApplyOp(db: CbDb, op: Op): CbDb {
    match op
    case AddToken(c, launch) => if c in db.tokens then db else db.(tokens := db.tokens[c := FreshToken(launch)])
    case AddTrade(t) => TradeTxn(db, t)
  }

  function ApplyOps(db: CbDb, ops: seq<Op>): CbDb {
    if ops == [] then db else ApplyOp(ApplyOps(db, ops[..|ops| - 1]), ops[|ops| - 1])
  }

  ghost predicate Done(db: CbDb, op: Op) {
    match op
    case AddToken(c, _) => c in db.tokens
    case AddTrade(t) => HasTrade(db.trades, TradeKey(t))
  }

  lemma {:induction false} DoneIsStable(db: CbDb, op: Op, other: Op)
    ensures Done(ApplyOp(db, op), op)
    ensures Done(db, op) ==> ApplyOp(db, op) == db && Done(ApplyOp(db, other), op)
  {
    if op.AddTrade? && !Done(db, op) {
      var d := ApplyOp(db, op);
      assert d.trades[|db.trades|] == op.trade;
    }
    if op.AddTrade? && Done(db, op) {
      var i :| 0 <= i < |db.trades| && TradeKey(db.trades[i]) == TradeKey(op.trade);
      assert ApplyOp(db, other).trades[i] == db.trades[i];
    }
  }

  lemma {:induction false} AllDone(db: CbDb, ops: seq<Op>, k: nat)
    requires k < |ops|
    ensures Done(ApplyOps(db, ops), ops[k])
  {
    var n := |ops| - 1;
    if k < n {
      AllDone(db, ops[..n], k);
    }
    DoneIsStable(ApplyOps(db, ops[..n]), ops[k], ops[n]);
  }

  /**
   Re-applying operation `k` after the first `n` did their work moves the state to the first
   `max(n, k + 1)`: an operation already done is absorbed, the next one in line makes progress.
   */
  lemma {:induction false} Absorbed(db: CbDb, ops: seq<Op>, n: nat, k: nat)
    requires k <= n <= |ops| && k < |ops|
    ensures ApplyOp(ApplyOps(db, ops[..n]), ops[k]) == ApplyOps(db, ops[..Max(n, k + 1)])
  {
    if k < n {
      AllDone(db, ops[..n], k);
      DoneIsStable(ApplyOps(db, ops[..n]), ops[k], ops[k]);
    } else {
      assert ops[..n + 1][..n] == ops[..n];
    }
  }
}
