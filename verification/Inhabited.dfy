/** The assumptions made of a chain can be met, by chains that carry transactions, curves and trades. */
module Inhabited {
  import opened Prelude
  import opened Folds
  import opened Rows
  import opened BlockWriter
  import opened Fetch
  import opened Confluence
  import TokenDecode
  import Reorg
  import CB = CoinBlastLogs
  import Store = CoinBlastStore
  import Runs = CoinBlastRuns
  import Once = CoinBlastExactlyOnce

  /** A name of its own for every height. */
  function Name(h: int): string {
    if h >= 0 then seq(h, i => 'p') else ['-'] + seq(-h, i => 'n')
  }

  lemma {:induction false} NamesDiffer(g: int, h: int)
    requires Name(g) == Name(h)
    ensures g == h
  {
    assert |Name(g)| == if g >= 0 then g else 1 - g;
    assert |Name(h)| == if h >= 0 then h else 1 - h;
    assert g < 0 ==> Name(g)[0] == '-';
    assert h < 0 ==> Name(h)[0] == '-';
    assert g > 0 ==> Name(g)[0] == 'p';
    assert h > 0 ==> Name(h)[0] == 'p';
  }

  function BundleAt(h: int): Bundle {
    Bundle(Block(h, Name(h), Name(h - 1), h), [Transaction(Name(h), h, 0, "a", Some("b"), 1)], [], [])
  }

  lemma {:induction false} PowIsPositive(n: nat)
    ensures TokenDecode.Pow256(n) > 0
  {
    if n > 0 {
      PowIsPositive(n - 1);
    }
  }

  /** An ERC-20 Transfer event, as one log. */
  lemma {:induction false} SomeTransfer() returns (l: Log)
    ensures l.logIndex == 0
    ensures TokenDecode.DecodeTransfer(l).Some? && TokenDecode.DecodeTransfer(l).value.standard.Erc20?
  {
    var selector := TokenDecode.TransferSelector();
    var zeros := seq(20, i => 0 as TokenDecode.byte);
    var base := TokenDecode.RawLog(Some(0), Some(0), Some([]), zeros, [], []);
    PowIsPositive(32);
    TokenDecode.Erc20RoundTrip(selector, base, zeros, zeros, 0);
    l := TokenDecode.ToDomainLog(TokenDecode.EncodeErc20(selector, base, zeros, zeros, 0)).value;
  }

  /** The same event in the transaction of block `h`. */
  function LogIn(l: Log, h: int): Log {
    l.(blockHeight := h, txHash := Name(h))
  }

  function WithTransfer(l: Log, h: int): Bundle {
    BundleAt(h).(logs := [LogIn(l, h)], transfers := TokenDecode.DecodeAll([LogIn(l, h)]))
  }

  lemma {:induction false} OneTransfer(l: Log, h: int)
    requires TokenDecode.DecodeTransfer(l).Some?
    ensures |TokenDecode.DecodeAll([LogIn(l, h)])| == 1
  {
    assert TokenDecode.DecodeAll([]) == [] && [LogIn(l, h)][..0] == [];
  }

  function TransferChain(l: Log): int -> Bundle {
    h => WithTransfer(l, h)
  }

  lemma {:induction false} TxsAreSane(l: Log)
    ensures RowsSane(TxsAt(TransferChain(l)), TxKey, TxHeightOf)
  {
    forall h, v | HasRow(TxsAt(TransferChain(l)), h, v) ensures v == Transaction(Name(h), h, 0, "a", Some("b"), 1) {
      assert WithTransfer(l, h).txs == [Transaction(Name(h), h, 0, "a", Some("b"), 1)];
    }
    forall g, h ensures Name(g) == Name(h) ==> g == h {
      if Name(g) == Name(h) {
        NamesDiffer(g, h);
      }
    }
  }

  lemma {:induction false} LogsAreSane(l: Log)
    ensures RowsSane(LogsAt(TransferChain(l)), LogKey, LogHeightOf)
  {
    forall h, v | HasRow(LogsAt(TransferChain(l)), h, v) ensures v == LogIn(l, h) {
      assert WithTransfer(l, h).logs == [LogIn(l, h)];
    }
  }

  /** One transaction, one log and one transfer, on top of the block before. */
  ghost predicate IsFull(chain: int -> Bundle, h: int) {
    && |chain(h).txs| == |chain(h).logs| == |chain(h).transfers| == 1
    && chain(h).block.parentHash == chain(h - 1).block.hash
  }

  lemma {:induction false} TransferBlockIsSane(l: Log, h: int)
    requires TokenDecode.DecodeTransfer(l).Some?
    ensures BundleSane(TransferChain(l), h) && IsFull(TransferChain(l), h)
  {
    assert WithTransfer(l, h).txs[0] in WithTransfer(l, h).txs;
    OneTransfer(l, h);
  }

  lemma {:induction false} HashesAreSane(l: Log, g: int, h: int)
    requires TransferChain(l)(g).block.hash == TransferChain(l)(h).block.hash
    ensures g == h
  {
    NamesDiffer(g, h);
  }

  /** A chain with a transaction, a log and a decoded transfer in every block. */
  lemma {:induction false} SaneChainExists() returns (chain: int -> Bundle)
    ensures ChainSane(chain) && forall h :: IsFull(chain, h)
  {
    var l := SomeTransfer();
    chain := TransferChain(l);
    TxsAreSane(l);
    LogsAreSane(l);
    forall h ensures BundleSane(chain, h) && IsFull(chain, h) {
      TransferBlockIsSane(l, h);
    }
    forall g, h | chain(g).block.hash == chain(h).block.hash ensures g == h {
      HashesAreSane(l, g, h);
    }
  }

  // ---------- two forks ----------

  /** A second chain whose blocks all differ from the first. */
  function ForkAt(h: int): Bundle {
    Bundle(Block(h, "f" + Name(h), "f" + Name(h - 1), h), [], [], [])
  }

  lemma {:induction false} ForkNamesDiffer(g: int, h: int)
    ensures "f" + Name(g) == "f" + Name(h) ==> g == h
    ensures "f" + Name(g) != Name(h)
  {
    assert ("f" + Name(g))[1..] == Name(g) && ("f" + Name(h))[1..] == Name(h);
    if Name(g) == Name(h) {
      NamesDiffer(g, h);
    }
    assert ("f" + Name(g))[0] == 'f';
    assert Name(h) != [] ==> Name(h)[0] == 'p' || Name(h)[0] == '-';
  }

  lemma {:induction false} ForkIsSane()
    ensures ChainSane(ForkAt)
  {
    assert TokenDecode.DecodeAll([]) == [];
    forall h ensures BundleSane(ForkAt, h) {
    }
    forall g, h | ForkAt(g).block.hash == ForkAt(h).block.hash ensures g == h {
      ForkNamesDiffer(g, h);
    }
  }

  /** Linked chains that disagree everywhere exist, and one can be stored, so a gap really can hide a fork. */
  lemma {:induction false} HiddenForkExists() returns (fork: int -> Bundle, canon: int -> Bundle)
    ensures ChainSane(fork) && Reorg.Linked(fork) && Reorg.Linked(canon) && Reorg.HashesCommit(fork, canon)
    ensures forall h :: fork(h).block.hash != canon(h).block.hash
  {
    fork, canon := ForkAt, BundleAt;
    ForkIsSane();
    forall g, h ensures fork(g).block.hash != canon(h).block.hash {
      ForkNamesDiffer(g, h);
    }
  }

  // ---------- a curve ----------

  const DEPLOY: int := CB.MAINNET_DEPLOY_BLOCK

  function CurveLogs(h: int): seq<CB.CbLog> {
    if h == DEPLOY then
      [CB.CbLog(Some(DEPLOY), Some("t"), Some(0), "factory", CB.CurveCreated(Some(("curve", "token", "owner"))))]
    else if h == DEPLOY + 1 then
      [CB.CbLog(Some(DEPLOY + 1), Some("u"), Some(0), "curve", CB.BuyLog(Some(CB.BuyEvent("trader", 10, 1, 5)))),
       CB.CbLog(Some(DEPLOY + 1), Some("u"), Some(1), "other", CB.SellLog(None))]
    else []
  }

  function CurveProbe(a: Address): Option<Address> {
    if a == "curve" then Some("token") else None
  }

  function CurveChain(): CB.Config {
    CB.ForNetwork(CB.Mainnet, "factory", CurveLogs, CurveProbe)
  }

  lemma {:induction false} CurveKeysDiffer(g: int, i: nat, h: int, j: nat)
    requires i < |CurveLogs(g)| && j < |CurveLogs(h)| && CB.SameKey(CurveLogs(g)[i], CurveLogs(h)[j])
    ensures g == h && i == j
  {
    var a, b := CurveLogs(g)[i], CurveLogs(h)[j];
    assert a.txHash.value == if g == DEPLOY then "t" else "u";
    assert b.txHash.value == if h == DEPLOY then "t" else "u";
    assert "t"[0] != "u"[0];
  }

  lemma {:induction false} NamesOfCurveChain()
    ensures "curve" != "factory" && "curve" != "other" && "factory" != "other"
  {
    assert "curve"[0] != "factory"[0] && "curve"[0] != "other"[0] && "factory"[0] != "other"[0];
  }

  /** A factory that announces one curve, a trade of it, and an unrelated emitter of the same topics. */
  lemma {:induction false} CurveChainIsSane()
    ensures CB.ChainOk(CurveChain())
  {
    var cfg := CurveChain();
    forall g, i, h, j | 0 <= i < |cfg.logs(g)| && 0 <= j < |cfg.logs(h)| && CB.SameKey(cfg.logs(g)[i], cfg.logs(h)[j])
      ensures g == h && i == j
    {
      CurveKeysDiffer(g, i, h, j);
    }
    NamesOfCurveChain();
  }

  lemma {:induction false} CurveRange()
    ensures CB.Logs(CurveChain(), DEPLOY, DEPLOY + 1) == CurveLogs(DEPLOY) + CurveLogs(DEPLOY + 1)
    ensures CB.FactoryLogs(CurveChain(), DEPLOY, DEPLOY + 1) == CurveLogs(DEPLOY)
  {
    var cfg := CurveChain();
    assert CB.Logs(cfg, DEPLOY, DEPLOY - 1) == [];
    assert CB.Logs(cfg, DEPLOY, DEPLOY) == CurveLogs(DEPLOY);
    NamesOfCurveChain();
    CB.ByFactoryConcat(cfg, CurveLogs(DEPLOY), CurveLogs(DEPLOY + 1));
    var a, b := CurveLogs(DEPLOY), CurveLogs(DEPLOY + 1);
    assert a[..0] == [] && b[..1][..0] == [];
    assert CB.ByFactory(cfg, b[..1]) == [] && CB.ByFactory(cfg, b) == [];
    assert CB.ByFactory(cfg, a) == a;
  }

  lemma {:induction false} RunThree(cfg: CB.Config, s: Runs.Sys, e: Runs.Event, f: Runs.Event, g: Runs.Event)
    ensures Runs.Run(cfg, s, [e, f, g]) == Runs.Apply(cfg, Runs.Apply(cfg, Runs.Apply(cfg, s, e), f), g)
  {
    assert [e, f, g][..2] == [e, f] && [e, f][..1] == [e] && [e][..0] == [];
    assert Runs.Run(cfg, s, [e]) == Runs.Apply(cfg, Runs.Run(cfg, s, []), e);
    assert Runs.Run(cfg, s, [e, f]) == Runs.Apply(cfg, Runs.Run(cfg, s, [e]), f);
  }

  /** The first pass is over; the curve is listed but not remembered. */
  ghost predicate AtScan(s: Runs.Sys, at: nat) {
    && s.phase == Runs.Scanning(DEPLOY, DEPLOY + 1, at) && s.known == {"factory"} && s.db.trades == []
    && |s.non| <= at && "curve" !in s.known
  }

  lemma {:induction false} FirstPass()
    ensures var cfg := CurveChain();
            var s := Runs.Run(cfg, Runs.Boot(cfg),
                              [Runs.StartChunk(DEPLOY + 1 + cfg.safeLag), Runs.Announce, Runs.Announce]);
            AtScan(s, 0) && s.non == {}
  {
    CurveRange();
    NamesOfCurveChain();
    var cfg := CurveChain();
    RunThree(cfg, Runs.Boot(cfg), Runs.StartChunk(DEPLOY + 1 + cfg.safeLag), Runs.Announce, Runs.Announce);
    var s1 := Runs.Apply(cfg, Runs.Boot(cfg), Runs.StartChunk(DEPLOY + 1 + cfg.safeLag));
    assert s1.phase == Runs.Announcing(DEPLOY, DEPLOY + 1, 0);
    var s2 := Runs.Apply(cfg, s1, Runs.Announce);
    assert s2.phase == Runs.Announcing(DEPLOY, DEPLOY + 1, 1) && s2.known == {"factory"};
  }

  lemma {:induction false} SecondPass(s: Runs.Sys)
    requires AtScan(s, 0) && s.non == {}
    ensures var t := Runs.Run(CurveChain(), s, [Runs.Visit(true, ""), Runs.Visit(false, ""), Runs.Visit(true, "")]);
            t.phase == Runs.Scanning(DEPLOY, DEPLOY + 1, 3) && t.db.trades == []
  {
    CurveRange();
    NamesOfCurveChain();
    var cfg := CurveChain();
    RunThree(cfg, s, Runs.Visit(true, ""), Runs.Visit(false, ""), Runs.Visit(true, ""));
    var s4 := Runs.Apply(cfg, s, Runs.Visit(true, ""));
    assert AtScan(s4, 1) && s4.non == {};
    var s5 := Runs.Apply(cfg, s4, Runs.Visit(false, ""));
    assert AtScan(s5, 2) && s5.non == {"curve"};
  }

  lemma {:induction false} LastStep(s: Runs.Sys)
    requires s.phase == Runs.Scanning(DEPLOY, DEPLOY + 1, 3) && s.db.trades == []
    ensures var t := Runs.Apply(CurveChain(), s, Runs.WriteCursor);
            Runs.CursorOf(CurveChain(), t.db) == DEPLOY + 1 && t.db.trades == []
  {
    CurveRange();
  }

  lemma {:induction false} BuyIsTarget()
    ensures Once.Target(CurveChain(), DEPLOY + 1, 0)
  {
  }

  /** The input on which a trade is lost: one failed probe of the curve, and the cursor moves on. */
  lemma {:induction false} LostTrade() returns (es: seq<Runs.Event>)
    ensures CB.ChainOk(CurveChain()) && Once.Target(CurveChain(), DEPLOY + 1, 0)
    ensures var s := Runs.Run(CurveChain(), Runs.Boot(CurveChain()), es);
            Runs.CursorOf(CurveChain(), s.db) == DEPLOY + 1 && s.db.trades == []
  {
    es := LostRun(CurveChain());
    CurveChainIsSane();
    BuyIsTarget();
  }

  lemma {:induction false} LostRun(cfg: CB.Config) returns (es: seq<Runs.Event>)
    requires cfg == CurveChain()
    ensures var s := Runs.Run(cfg, Runs.Boot(cfg), es); Runs.CursorOf(cfg, s.db) == DEPLOY + 1 && s.db.trades == []
  {
    var a := [Runs.StartChunk(DEPLOY + 1 + cfg.safeLag), Runs.Announce, Runs.Announce];
    var b := [Runs.Visit(true, ""), Runs.Visit(false, ""), Runs.Visit(true, "")];
    FirstPass();
    SecondPass(Runs.Run(cfg, Runs.Boot(cfg), a));
    Runs.RunConcat(cfg, Runs.Boot(cfg), a, b);
    LastStep(Runs.Run(cfg, Runs.Boot(cfg), a + b));
    Runs.RunSnoc(cfg, Runs.Boot(cfg), a + b, Runs.WriteCursor);
    es := (a + b) + [Runs.WriteCursor];
  }
}
