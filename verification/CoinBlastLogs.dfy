/**
 Chain logs as the CoinBlast worker sees them, their decoding into rows, and the canonical list of
 logs that ought to become trades.
 */
module CoinBlastLogs {
  import opened Prelude
  import opened Rows
  import opened CoinBlastStore

  datatype BuyEvent = BuyEvent(buyer: Address, srxIn: nat, fee: nat, tokensOut: nat)

  datatype SellEvent = SellEvent(seller: Address, tokensIn: nat, fee: nat, srxOut: nat)

  datatype GraduatedEvent = GraduatedEvent(pair: Address, srxLiquidity: nat, tokenLiquidity: nat, lpBurned: nat)

  /** Who traded, the SRX and token sides, and the fee. */
  datatype Amounts = Amounts(who: Address, srx: nat, tokens: nat, fee: nat)

  /** First topic and, when the rest of the log decodes, its fields. */
  datatype Body =
    | NoTopic
    | OtherTopic
    | CurveCreated(fields: Option<(Address, Address, Address)>)
    | BuyLog(buy: Option<BuyEvent>)
    | SellLog(sell: Option<SellEvent>)
    | GraduatedLog(graduated: Option<GraduatedEvent>)

  datatype CbLog = CbLog(block: Option<nat>, txHash: Option<Hash>, logIndex: Option<nat>, emitter: Address, body: Body)

  const I64_MAX: int := 0x7FFF_FFFF_FFFF_FFFF
  const I32_MAX: int := 0x7FFF_FFFF

  /**
   `logs(h)` are the logs of block `h` in order; `probe(a)` is the token of `a` if `a` answers the
   curve views, as a deterministic oracle.
   */
  datatype Config = Config(
    factory: Address, deployBlock: nat, chunkSize: nat, safeLag: nat,
    logs: int -> seq<CbLog>, probe: Address -> Option<Address>)

  datatype Network = Mainnet | Testnet

  const MAINNET_DEPLOY_BLOCK: nat := 1_178_667
  const TESTNET_DEPLOY_BLOCK: nat := 1_637_883
  const DEFAULT_CHUNK_SIZE: nat := 4000
  const DEFAULT_SAFE_LAG: nat := 5
  const ZERO_ADDRESS: Address := "0x0000000000000000000000000000000000000000"

  /** The default worker of a network, on a given chain. */
  function ForNetwork(
      n: Network, factory: Address, logs: int -> seq<CbLog>, probe: Address -> Option<Address>): Config {
    var deployBlock := if n.Mainnet? then MAINNET_DEPLOY_BLOCK else TESTNET_DEPLOY_BLOCK;
    Config(factory, deployBlock, DEFAULT_CHUNK_SIZE, DEFAULT_SAFE_LAG, logs, probe)
  }

  // ---------- decoding ----------

  function RequireBlock(l: CbLog): Result<int> {
    if l.block.None? then Err(MissingField) else if l.block.value > I64_MAX then Err(OutOfRange) else Ok(l.block.value)
  }

  function RequireLogIndex(l: CbLog): Result<int> {
    if l.logIndex.None? then Err(MissingField)
    else if l.logIndex.value > I32_MAX then Err(OutOfRange) else Ok(l.logIndex.value)
  }

  function RequireTxHash(l: CbLog): Result<Hash> {
    if l.txHash.None? then Err(MissingField) else Ok(l.txHash.value)
  }

  predicate IsTrade(l: CbLog) {
    l.body.BuyLog? || l.body.SellLog? || l.body.GraduatedLog?
  }

  function KindOf(l: CbLog): TradeKind
    requires IsTrade(l)
  {
    if l.body.BuyLog? then Buy else if l.body.SellLog? then Sell else Graduated
  }

  /** A graduation carries no fee. */
  function AmountsOf(b: Body): Option<Amounts> {
    match b
    case BuyLog(Some(e)) => Some(Amounts(e.buyer, e.srxIn, e.tokensOut, e.fee))
    case SellLog(Some(e)) => Some(Amounts(e.seller, e.srxOut, e.tokensIn, e.fee))
    case GraduatedLog(Some(e)) => Some(Amounts(e.pair, e.srxLiquidity, e.tokenLiquidity, 0))
    case _ => None
  }

  /** The row of a Buy, Sell or Graduated log. */
  function TradeOf(l: CbLog): Result<Trade>
    requires IsTrade(l)
  {
    var block :- RequireBlock(l);
    var index :- RequireLogIndex(l);
    var hash :- RequireTxHash(l);
    match AmountsOf(l.body)
    case None => Err(BadEvent)
    case Some(a) => Ok(Trade(l.emitter, KindOf(l), a.who, a.srx, a.tokens, a.fee, block, hash, index))
  }

  /** The row is that of the log, field by field: a buy, a sell, or a graduation, which carries no fee. */
  ghost predicate RowMatches(l: CbLog, t: Trade) {
    && t.curve == l.emitter && l.block.Some? && t.block == l.block.value <= 0x7FFF_FFFF_FFFF_FFFF
    && l.txHash == Some(t.txHash) && l.logIndex.Some? && t.logIndex == l.logIndex.value <= 0x7FFF_FFFF
    && match l.body
       case BuyLog(Some(e)) =>
         t.kind.Buy? && t.trader == e.buyer && t.srx == e.srxIn && t.tokens == e.tokensOut && t.fee == e.fee
       case SellLog(Some(e)) =>
         t.kind.Sell? && t.trader == e.seller && t.srx == e.srxOut && t.tokens == e.tokensIn && t.fee == e.fee
       case GraduatedLog(Some(e)) =>
         t.kind.Graduated? && t.trader == e.pair && t.srx == e.srxLiquidity && t.tokens == e.tokenLiquidity
         && t.fee == 0
       case _ => false
  }

  /** The handlers write exactly the log's row, and refuse a log that has none. */
  lemma {:induction false} TradeOfExact(l: CbLog, t: Trade)
    ensures IsTrade(l) && TradeOf(l) == Ok(t) <==> RowMatches(l, t)
  {
  }

  /** The curve a CurveCreated log announces. */
  function LaunchOf(l: CbLog): Result<(Address, Launch)>
    requires l.body.CurveCreated?
  {
    var block :- RequireBlock(l);
    var hash :- RequireTxHash(l);
    if l.body.fields.None? then Err(BadEvent)
    else
      var (curve, token, owner) := l.body.fields.value;
      Ok((curve, Launch(token, owner, block, hash)))
  }

  /** An adopted curve has no owner and is dated by the first trade seen. */
  function AdoptionOf(l: CbLog, token: Address): Launch {
    var block := if l.block.Some? then l.block.value else 0;
    Launch(token, ZERO_ADDRESS, block, if l.txHash.Some? then l.txHash.value else "")
  }

  /** A listing carries the announced token and owner, and the block and transaction of the announcement. */
  lemma {:induction false} LaunchOfExact(l: CbLog, x: Address, launch: Launch)
    requires l.body.CurveCreated?
    ensures LaunchOf(l) == Ok((x, launch)) <==>
            && l.body.fields.Some? && l.body.fields.value.0 == x
            && l.body.fields.value.1 == launch.token && l.body.fields.value.2 == launch.owner
            && l.block.Some? && launch.block == l.block.value <= 0x7FFF_FFFF_FFFF_FFFF
            && l.txHash == Some(launch.txHash)
  {
  }

  /** An adopted curve has the zero address as its owner and the trade's own block and transaction, if it has them. */
  lemma {:induction false} AdoptionOfExact(l: CbLog, token: Address)
    ensures var a := AdoptionOf(l, token);
            && a.token == token && a.owner == "0x0000000000000000000000000000000000000000"
            && (l.block.Some? ==> a.block == l.block.value) && (l.block.None? ==> a.block == 0)
            && (l.txHash.Some? ==> l.txHash == Some(a.txHash)) && (l.txHash.None? ==> a.txHash == "")
  {
  }

  // ---------- ranges of the chain ----------

  function Logs(cfg: Config, lo: int, hi: int): seq<CbLog>
    decreases hi - lo
  {
    if hi < lo then [] else Logs(cfg, lo, hi - 1) + cfg.logs(hi)
  }

  function ByFactory(cfg: Config, ls: seq<CbLog>): seq<CbLog> {
    if ls == [] then []
    else
      var rest, l := ByFactory(cfg, ls[..|ls| - 1]), ls[|ls| - 1];
      if l.emitter == cfg.factory then rest + [l] else rest
  }

  function FactoryLogs(cfg: Config, lo: int, hi: int): seq<CbLog> {
    ByFactory(cfg, Logs(cfg, lo, hi))
  }

  /** A Buy, Sell or Graduated log of a curve that answers the probe. */
  predicate IsWanted(cfg: Config, l: CbLog) {
    (l.body.BuyLog? || l.body.SellLog? || l.body.GraduatedLog?) && cfg.probe(l.emitter).Some?
  }

  /** The trade logs of accepted curves. */
  function Wanted(cfg: Config, ls: seq<CbLog>): seq<CbLog> {
    if ls == [] then []
    else
      var rest, l := Wanted(cfg, ls[..|ls| - 1]), ls[|ls| - 1];
      if IsWanted(cfg, l) then rest + [l] else rest
  }

  /** The canonical trade logs from the deploy block up to `hi`. */
  function Canon(cfg: Config, hi: int): seq<CbLog> {
    Wanted(cfg, Logs(cfg, cfg.deployBlock, hi))
  }

  // ---------- what is assumed of the chain ----------

  ghost predicate SameKey(a: CbLog, b: CbLog) {
    a.txHash.Some? && a.logIndex.Some? && a.txHash == b.txHash && a.logIndex == b.logIndex
  }

  /** A transaction hash and log index name one log. */
  ghost predicate KeysAreUnique(cfg: Config) {
    forall g, i, h, j :: 0 <= i < |cfg.logs(g)| && 0 <= j < |cfg.logs(h)| ==>
                           SameKey(cfg.logs(g)[i], cfg.logs(h)[j]) ==> g == h && i == j
  }

  /** Announced curves answer the probe with the announced token. */
  ghost predicate AnnouncementsHold(cfg: Config) {
    forall h, i :: 0 <= i < |cfg.logs(h)| ==> AnnouncesTruly(cfg, cfg.logs(h)[i])
  }

  ghost predicate AnnouncesTruly(cfg: Config, l: CbLog) {
    l.emitter == cfg.factory && l.body.CurveCreated? && l.body.fields.Some? ==>
      cfg.probe(l.body.fields.value.0) == Some(l.body.fields.value.1)
  }

  /** Different curves sell different tokens, and the factory is not a curve. */
  ghost predicate CurvesAreSane(cfg: Config) {
    && (forall a, b :: cfg.probe(a).Some? && cfg.probe(a) == cfg.probe(b) ==> a == b)
    && cfg.probe(cfg.factory).None?
  }

  /** The factory emits no trade. */
  ghost predicate FactoryIsSilent(cfg: Config) {
    forall h, i :: 0 <= i < |cfg.logs(h)| ==> FactoryIsQuiet(cfg, cfg.logs(h)[i])
  }

  ghost predicate FactoryIsQuiet(cfg: Config, l: CbLog) {
    l.emitter == cfg.factory ==> !IsTrade(l)
  }

  ghost predicate ChainOk(cfg: Config) {
    KeysAreUnique(cfg) && AnnouncementsHold(cfg) && CurvesAreSane(cfg) && FactoryIsSilent(cfg)
  }

  /** What must decode for the worker to get past the log. */
  ghost predicate LogReads(cfg: Config, l: CbLog) {
    (l.emitter == cfg.factory ==> AnnouncementReads(l)) && TradeReads(cfg, l)
  }

  ghost predicate ReadsUpTo(cfg: Config, hi: int) {
    forall h, i :: cfg.deployBlock <= h <= hi && 0 <= i < |cfg.logs(h)| ==> LogReads(cfg, cfg.logs(h)[i])
  }

  ghost predicate AnnouncementReads(l: CbLog) {
    l.body.CurveCreated? ==> LaunchOf(l).Ok?
  }

  ghost predicate TradeReads(cfg: Config, l: CbLog) {
    IsWanted(cfg, l) ==> TradeOf(l).Ok?
  }

  /** Every announcement and every trade of a curve in the range decodes. */
  ghost predicate Readable(cfg: Config, from: int, to: int) {
    && (forall k :: 0 <= k < |FactoryLogs(cfg, from, to)| ==> AnnouncementReads(FactoryLogs(cfg, from, to)[k]))
    && (forall k :: 0 <= k < |Logs(cfg, from, to)| ==> TradeReads(cfg, Logs(cfg, from, to)[k]))
  }

  // ---------- list facts ----------

  lemma {:induction false} WantedConcat(cfg: Config, a: seq<CbLog>, b: seq<CbLog>)
    ensures Wanted(cfg, a + b) == Wanted(cfg, a) + Wanted(cfg, b)
  {
    if b == [] {
      assert a + b == a;
    } else {
      WantedConcat(cfg, a, b[..|b| - 1]);
      assert (a + b)[..|a + b| - 1] == a + b[..|b| - 1];
    }
  }

  lemma {:induction false} ByFactoryConcat(cfg: Config, a: seq<CbLog>, b: seq<CbLog>)
    ensures ByFactory(cfg, a + b) == ByFactory(cfg, a) + ByFactory(cfg, b)
  {
    if b == [] {
      assert a + b == a;
    } else {
      ByFactoryConcat(cfg, a, b[..|b| - 1]);
      assert (a + b)[..|a + b| - 1] == a + b[..|b| - 1];
    }
  }

  lemma {:induction false} FactoryMember(cfg: Config, ls: seq<CbLog>, k: nat) returns (i: nat)
    requires k < |ByFactory(cfg, ls)|
    ensures i < |ls| && ls[i] == ByFactory(cfg, ls)[k] && ls[i].emitter == cfg.factory
    ensures |ByFactory(cfg, ls[..i])| == k
  {
    var n := |ls| - 1;
    if k < |ByFactory(cfg, ls[..n])| {
      i := FactoryMember(cfg, ls[..n], k);
      assert ls[..n][..i] == ls[..i];
    } else {
      i := n;
    }
  }

  lemma {:induction false} LogsConcat(cfg: Config, lo: int, mid: int, hi: int)
    requires lo - 1 <= mid <= hi
    ensures Logs(cfg, lo, hi) == Logs(cfg, lo, mid) + Logs(cfg, mid + 1, hi)
    decreases hi - mid
  {
    if mid < hi {
      LogsConcat(cfg, lo, mid, hi - 1);
    } else {
      assert Logs(cfg, mid + 1, hi) == [];
    }
  }

  /** The canonical list only grows at its end. */
  lemma {:induction false} CanonGrows(cfg: Config, mid: int, hi: int)
    requires cfg.deployBlock - 1 <= mid <= hi
    ensures Canon(cfg, hi) == Canon(cfg, mid) + Wanted(cfg, Logs(cfg, mid + 1, hi))
  {
    LogsConcat(cfg, cfg.deployBlock, mid, hi);
    WantedConcat(cfg, Logs(cfg, cfg.deployBlock, mid), Logs(cfg, mid + 1, hi));
  }

  /** Where a wanted log at position `k` of a chunk stands in the chunk's wanted logs. */
  lemma {:induction false} WantedAt(cfg: Config, ls: seq<CbLog>, k: nat)
    requires k < |ls|
    ensures Wanted(cfg, ls[..k + 1]) == Wanted(cfg, ls[..k]) + (if IsWanted(cfg, ls[k]) then [ls[k]] else [])
    ensures Wanted(cfg, ls[..k + 1]) <= Wanted(cfg, ls)
  {
    assert ls[..k + 1][..k] == ls[..k];
    assert ls == ls[..k + 1] + ls[k + 1..];
    WantedConcat(cfg, ls[..k + 1], ls[k + 1..]);
  }

  lemma {:induction false} LogsMember(cfg: Config, lo: int, hi: int, k: nat) returns (h: int, i: nat)
    requires k < |Logs(cfg, lo, hi)|
    ensures lo <= h <= hi && i < |cfg.logs(h)| && cfg.logs(h)[i] == Logs(cfg, lo, hi)[k]
    ensures k == |Logs(cfg, lo, h - 1)| + i
    decreases hi - lo
  {
    var init := Logs(cfg, lo, hi - 1);
    if k < |init| {
      h, i := LogsMember(cfg, lo, hi - 1, k);
    } else {
      h, i := hi, k - |init|;
    }
  }

  /** A range whose blocks read is a readable range. */
  lemma {:induction false} RangeReads(cfg: Config, from: int, to: int)
    requires ReadsUpTo(cfg, to) && cfg.deployBlock <= from
    ensures Readable(cfg, from, to)
  {
    forall k | 0 <= k < |Logs(cfg, from, to)| ensures LogReads(cfg, Logs(cfg, from, to)[k]) {
      var h, i := LogsMember(cfg, from, to, k);
    }
    forall k | 0 <= k < |FactoryLogs(cfg, from, to)| ensures AnnouncementReads(FactoryLogs(cfg, from, to)[k]) {
      var i := FactoryMember(cfg, Logs(cfg, from, to), k);
      assert LogReads(cfg, Logs(cfg, from, to)[i]);
    }
  }

  ghost predicate DistinctKeys(ls: seq<CbLog>) {
    forall i, j :: 0 <= i < j < |ls| ==> !SameKey(ls[i], ls[j])
  }

  lemma {:induction false} LogsAreDistinct(cfg: Config, lo: int, hi: int)
    requires KeysAreUnique(cfg)
    ensures DistinctKeys(Logs(cfg, lo, hi))
  {
    var ls := Logs(cfg, lo, hi);
    forall i, j | 0 <= i < j < |ls| ensures !SameKey(ls[i], ls[j]) {
      var g, a := LogsMember(cfg, lo, hi, i);
      var h, b := LogsMember(cfg, lo, hi, j);
    }
  }

  lemma {:induction false} WantedMember(cfg: Config, ls: seq<CbLog>, k: nat) returns (i: nat)
    requires k < |Wanted(cfg, ls)|
    ensures i < |ls| && ls[i] == Wanted(cfg, ls)[k] && IsWanted(cfg, ls[i])
    ensures |Wanted(cfg, ls[..i])| == k
  {
    var n := |ls| - 1;
    if k < |Wanted(cfg, ls[..n])| {
      i := WantedMember(cfg, ls[..n], k);
      assert ls[..n][..i] == ls[..i];
    } else {
      i := n;
    }
  }

  lemma {:induction false} CanonIsDistinct(cfg: Config, hi: int)
    requires KeysAreUnique(cfg)
    ensures DistinctKeys(Canon(cfg, hi))
  {
    var ls := Logs(cfg, cfg.deployBlock, hi);
    LogsAreDistinct(cfg, cfg.deployBlock, hi);
    forall i, j | 0 <= i < j < |Wanted(cfg, ls)| ensures !SameKey(Wanted(cfg, ls)[i], Wanted(cfg, ls)[j]) {
      var a := WantedMember(cfg, ls, i);
      var b := WantedMember(cfg, ls, j);
      assert a != b;
      if b < a {
        assert ls[..a][..b] == ls[..b];
        WantedPrefix(cfg, ls[..a], b);
      }
    }
  }

  lemma {:induction false} WantedPrefix(cfg: Config, ls: seq<CbLog>, k: nat)
    requires k <= |ls|
    ensures Wanted(cfg, ls[..k]) <= Wanted(cfg, ls)
  {
    assert ls == ls[..k] + ls[k..];
    WantedConcat(cfg, ls[..k], ls[k..]);
  }
}
