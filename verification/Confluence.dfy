/**
 On a stable chain the tables are exactly the union of the bundles of the stored heights, no matter
 which workers wrote them, how often, or in which order.
 */
module Confluence {
  import opened Prelude
  import opened Folds
  import opened Rows
  import opened Store
  import opened BlockWriter
  import opened BatchRefinement
  import opened Fetch
  import opened Ingest
  import opened TokenDecode
  import opened SyncProtocol

  // ---------- one table as the image of a chain ----------

  predicate HasRow<V(==)>(rows: int -> seq<V>, h: int, v: V) {
    v in rows(h)
  }

  /** Rows of a table per height: each row knows its height, and no two rows share a key. */
  ghost predicate RowsSane<K, V(!new)>(rows: int -> seq<V>, key: V -> K, height: V -> int) {
    && (forall h, v :: HasRow(rows, h, v) ==> height(v) == h)
    && (forall g, h, u, v :: HasRow(rows, g, u) && HasRow(rows, h, v) && key(u) == key(v) ==> u == v)
  }

  predicate Stores<K, V(==)>(m: map<K, V>, key: V -> K, v: V) {
    key(v) in m && m[key(v)] == v
  }

  predicate RowFits<K(==), V(==)>(
      m: map<K, V>, hs: set<int>, rows: int -> seq<V>, key: V -> K, height: V -> int, k: K) {
    k in m ==> key(m[k]) == k && height(m[k]) in hs && HasRow(rows, height(m[k]), m[k])
  }

  /** The table holds exactly the rows of the heights in `hs`, each under its own key. */
  ghost predicate TableImage<K(!new), V(!new)>(
      m: map<K, V>, hs: set<int>, rows: int -> seq<V>, key: V -> K, height: V -> int) {
    && (forall k :: RowFits(m, hs, rows, key, height, k))
    && (forall h, v :: h in hs && HasRow(rows, h, v) ==> Stores(m, key, v))
  }

  /** Offering the rows of one height, new or already stored, yields the image of one more height. */
  lemma {:induction false} OfferHeight<K(!new), V(!new)>(
      m: map<K, V>, hs: set<int>, rows: int -> seq<V>, key: V -> K, height: V -> int, h: int)
    requires RowsSane(rows, key, height) && TableImage(m, hs, rows, key, height)
    ensures TableImage(FirstWins(m, rows(h), key), hs + {h}, rows, key, height)
  {
    FirstWinsContents(m, rows(h), key);
    var m' := FirstWins(m, rows(h), key);
    forall k ensures RowFits(m', hs + {h}, rows, key, height, k) {
      assert RowFits(m, hs, rows, key, height, k);
      if k in m' && k !in m {
        assert HasRow(rows, h, m'[k]);
      }
    }
    forall g, v | g in hs + {h} && HasRow(rows, g, v) ensures Stores(m', key, v) {
      assert RowFits(m, hs, rows, key, height, key(v));
      if g in hs {
        assert Stores(m, key, v);
      } else if key(v) !in m {
        assert HasRow(rows, h, m'[key(v)]);
      }
    }
  }

  /** An image is determined by its heights. */
  lemma {:induction false} ImageUnique<K(!new), V(!new)>(
      m: map<K, V>, n: map<K, V>, hs: set<int>, rows: int -> seq<V>, key: V -> K, height: V -> int)
    requires TableImage(m, hs, rows, key, height) && TableImage(n, hs, rows, key, height)
    ensures m == n
  {
    forall k | k in m ensures k in n && n[k] == m[k] {
      assert RowFits(m, hs, rows, key, height, k);
      assert Stores(n, key, m[k]);
    }
    forall k | k in n ensures k in m {
      assert RowFits(n, hs, rows, key, height, k);
      assert Stores(m, key, n[k]);
    }
  }

  // ---------- a stable chain ----------

  function BlocksAt(chain: int -> Bundle): int -> seq<Block> { h => [chain(h).block] }

  function TxsAt(chain: int -> Bundle): int -> seq<Transaction> { h => chain(h).txs }

  function LogsAt(chain: int -> Bundle): int -> seq<Log> { h => chain(h).logs }

  function TransfersAt(chain: int -> Bundle): int -> seq<TokenTransfer> { h => chain(h).transfers }

  function TxHeightOf(t: Transaction): int { t.blockHeight }

  function LogHeightOf(l: Log): int { l.blockHeight }

  function TransferHeightOf(t: TokenTransfer): int { t.blockHeight }

  ghost predicate BundleSane(chain: int -> Bundle, h: int) {
    WellFormed(chain(h)) && chain(h).block.height == h
  }

  /** Bundles are well formed; tx hashes, block hashes and the log indexes of a block are unique. */
  ghost predicate ChainSane(chain: int -> Bundle) {
    && (forall h :: BundleSane(chain, h))
    && RowsSane(TxsAt(chain), TxKey, TxHeightOf)
    && RowsSane(LogsAt(chain), LogKey, LogHeightOf)
    && (forall g, h :: chain(g).block.hash == chain(h).block.hash ==> g == h)
  }

  lemma {:induction false} BlocksAreSane(chain: int -> Bundle)
    requires ChainSane(chain)
    ensures RowsSane(BlocksAt(chain), BlockKey, BlockKey)
  {
    forall h, v | HasRow(BlocksAt(chain), h, v) ensures v == chain(h).block && v.height == h {
      assert BundleSane(chain, h);
    }
  }

  lemma {:induction false} TransferSource(
      chain: int -> Bundle, h: int, t: TokenTransfer) returns (l: Log, x: Transaction)
    requires ChainSane(chain) && HasRow(TransfersAt(chain), h, t)
    ensures HasRow(LogsAt(chain), h, l) && HasRow(TxsAt(chain), h, x)
    ensures DecodeTransfer(l) == Some(t) && x.hash == l.txHash && l.blockHeight == h
  {
    assert BundleSane(chain, h);
    TransferOrigin(chain(h), t);
    l :| l in chain(h).logs && DecodeTransfer(l) == Some(t);
    x :| x in chain(h).txs && x.hash == l.txHash;
  }

  /** Two transfers with one (tx hash, log index) come from one log. */
  lemma {:induction false} TransfersAreSane(chain: int -> Bundle)
    requires ChainSane(chain)
    ensures RowsSane(TransfersAt(chain), TransferKey, TransferHeightOf)
  {
    var rows := TransfersAt(chain);
    forall h, v | HasRow(rows, h, v) ensures TransferHeightOf(v) == h {
      var l, x := TransferSource(chain, h, v);
    }
    forall g, h, u, v | HasRow(rows, g, u) && HasRow(rows, h, v) && TransferKey(u) == TransferKey(v) ensures u == v {
      var k, x := TransferSource(chain, g, u);
      var l, y := TransferSource(chain, h, v);
      assert x == y;
      assert k == l;
    }
  }

  /** The three tables that a rewind clears, as the image of the stored heights. */
  ghost predicate Canonical(db: Db, chain: int -> Bundle) {
    && TableImage(db.blocks, db.blocks.Keys, BlocksAt(chain), BlockKey, BlockKey)
    && TableImage(db.txs, db.blocks.Keys, TxsAt(chain), TxKey, TxHeightOf)
    && TableImage(db.logs, db.blocks.Keys, LogsAt(chain), LogKey, LogHeightOf)
  }

  /** All four tables. */
  ghost predicate Image(db: Db, chain: int -> Bundle) {
    && Canonical(db, chain)
    && TableImage(db.transfers, db.blocks.Keys, TransfersAt(chain), TransferKey, TransferHeightOf)
  }

  /** `token_transfers` is exactly the decoded image of the stored logs. */
  lemma {:induction false} TransfersDecodeStoredLogs(db: Db, chain: int -> Bundle)
    requires ChainSane(chain) && Image(db, chain)
    ensures forall k :: k in db.logs && DecodeTransfer(db.logs[k]).Some? ==>
                          Stores(db.transfers, TransferKey, DecodeTransfer(db.logs[k]).value)
    ensures forall k :: k in db.transfers ==>
                          exists l :: l in db.logs && DecodeTransfer(db.logs[l]) == Some(db.transfers[k])
  {
    forall k | k in db.logs && DecodeTransfer(db.logs[k]).Some?
      ensures Stores(db.transfers, TransferKey, DecodeTransfer(db.logs[k]).value)
    {
      StoredLogDecodes(db, chain, k);
    }
    forall k | k in db.transfers
      ensures exists l :: l in db.logs && DecodeTransfer(db.logs[l]) == Some(db.transfers[k])
    {
      assert RowFits(db.transfers, db.blocks.Keys, TransfersAt(chain), TransferKey, TransferHeightOf, k);
      var t := db.transfers[k];
      var l, x := TransferSource(chain, t.blockHeight, t);
      assert Stores(db.logs, LogKey, l);
    }
  }

  lemma {:induction false} StoredLogDecodes(db: Db, chain: int -> Bundle, k: (int, int))
    requires ChainSane(chain) && Image(db, chain) && k in db.logs && DecodeTransfer(db.logs[k]).Some?
    ensures Stores(db.transfers, TransferKey, DecodeTransfer(db.logs[k]).value)
  {
    assert RowFits(db.logs, db.blocks.Keys, LogsAt(chain), LogKey, LogHeightOf, k);
    var l := db.logs[k];
    assert BundleSane(chain, l.blockHeight);
    DecodeAllIsImage(chain(l.blockHeight).logs);
    assert HasRow(TransfersAt(chain), l.blockHeight, DecodeTransfer(l).value);
  }

  // ---------- writing a chain's bundle keeps the image ----------

  lemma {:induction false} StoredBlock(db: Db, chain: int -> Bundle, k: int)
    requires TableImage(db.blocks, db.blocks.Keys, BlocksAt(chain), BlockKey, BlockKey) && k in db.blocks
    ensures db.blocks[k] == chain(k).block
  {
    assert RowFits(db.blocks, db.blocks.Keys, BlocksAt(chain), BlockKey, BlockKey, k);
  }

  lemma {:induction false} BlockNeverClashes(db: Db, chain: int -> Bundle, h: int)
    requires ChainSane(chain) && TableImage(db.blocks, db.blocks.Keys, BlocksAt(chain), BlockKey, BlockKey)
    ensures InsertBlock(db, chain(h).block).Ok?
    ensures var d := InsertBlock(db, chain(h).block).value;
            && d.blocks.Keys == db.blocks.Keys + {h}
            && TableImage(d.blocks, d.blocks.Keys, BlocksAt(chain), BlockKey, BlockKey)
  {
    forall k | k in db.blocks ensures db.blocks[k] == chain(k).block {
      StoredBlock(db, chain, k);
    }
    assert BundleSane(chain, h);
    var d := InsertBlock(db, chain(h).block).value;
    assert d.blocks.Keys == db.blocks.Keys + {h};
    BlocksAreSane(chain);
    OfferHeight(db.blocks, db.blocks.Keys, BlocksAt(chain), BlockKey, BlockKey, h);
    assert [chain(h).block][..0] == [];
    assert d.blocks == FirstWins(db.blocks, BlocksAt(chain)(h), BlockKey);
  }

  lemma {:induction false} WriteKeepsCanonical(db: Db, chain: int -> Bundle, h: int)
    requires ChainSane(chain) && Canonical(db, chain)
    ensures var r := WriteBlockTxn(db, chain(h));
            && r.Ok? && Canonical(r.value, chain) && r.value.blocks.Keys == db.blocks.Keys + {h}
            && r.value.transfers == FirstWins(db.transfers, chain(h).transfers, TransferKey)
  {
    assert BundleSane(chain, h);
    WriteBlockEffect(db, chain(h));
    BlockNeverClashes(db, chain, h);
    OfferHeight(db.txs, db.blocks.Keys, TxsAt(chain), TxKey, TxHeightOf, h);
    OfferHeight(db.logs, db.blocks.Keys, LogsAt(chain), LogKey, LogHeightOf, h);
  }

  lemma {:induction false} WriteKeepsImage(db: Db, chain: int -> Bundle, h: int)
    requires ChainSane(chain) && Image(db, chain)
    ensures var r := WriteBlockTxn(db, chain(h));
            r.Ok? && Image(r.value, chain) && r.value.blocks.Keys == db.blocks.Keys + {h}
  {
    WriteKeepsCanonical(db, chain, h);
    TransfersAreSane(chain);
    OfferHeight(db.transfers, db.blocks.Keys, TransfersAt(chain), TransferKey, TransferHeightOf, h);
  }

  ghost predicate FromChain(bs: seq<Bundle>, chain: int -> Bundle) {
    forall i :: 0 <= i < |bs| ==> bs[i] == chain(bs[i].block.height)
  }

  lemma {:induction false} FoldKeepsImage(db: Db, chain: int -> Bundle, bs: seq<Bundle>)
    requires ChainSane(chain) && FromChain(bs, chain) && Canonical(db, chain)
    ensures TryFold(db, bs, WriteBlockTxn).Ok? && Canonical(TryFold(db, bs, WriteBlockTxn).value, chain)
    ensures Image(db, chain) ==> Image(TryFold(db, bs, WriteBlockTxn).value, chain)
  {
    if bs != [] {
      var init, b := bs[..|bs| - 1], bs[|bs| - 1];
      assert FromChain(init, chain);
      FoldKeepsImage(db, chain, init);
      var mid := TryFold(db, init, WriteBlockTxn).value;
      assert b == chain(b.block.height);
      WriteKeepsCanonical(mid, chain, b.block.height);
      if Image(db, chain) {
        WriteKeepsImage(mid, chain, b.block.height);
      }
    }
  }

  lemma {:induction false} BatchKeepsImage(db: Db, chain: int -> Bundle, bs: seq<Bundle>)
    requires ChainSane(chain) && FromChain(bs, chain) && Ascending(bs) && Canonical(db, chain)
    ensures BatchTxn(db, bs).Ok? && Canonical(BatchTxn(db, bs).value, chain)
    ensures Image(db, chain) ==> Image(BatchTxn(db, bs).value, chain)
  {
    forall x ensures LagsAt(db.addresses, db.addresses, x) {
    }
    BatchRefinesFold(db, db, bs);
    FoldKeepsImage(db, chain, bs);
  }

  // ---------- runs ----------

  /** Every answer that is a block is the chain's block for that height. */
  ghost predicate StableChain(cfg: Config, chain: int -> Bundle) {
    ChainSane(chain) && forall h, b :: OfferIsChain(cfg, chain, h, b)
  }

  ghost predicate OfferIsChain(cfg: Config, chain: int -> Bundle, h: int, b: Bundle) {
    cfg.offers(h, b) ==> b == chain(h)
  }

  lemma {:induction false} StableIsValid(cfg: Config, chain: int -> Bundle)
    requires StableChain(cfg, chain) && cfg.batchSize > 0
    ensures ValidConfig(cfg)
  {
    forall h, b ensures OfferFits(cfg, h, b) {
      assert OfferIsChain(cfg, chain, h, b) && BundleSane(chain, h);
    }
  }

  lemma {:induction false} OutcomeKeepsImage(cfg: Config, chain: int -> Bundle, s: Sys, w: Worker)
    requires StableChain(cfg, chain) && cfg.batchSize > 0 && WorkerOk(cfg, s, w) && Canonical(s.db, chain)
    ensures Outcome(s.db, w).Ok? && Canonical(Outcome(s.db, w).value, chain)
    ensures Image(s.db, chain) ==> Image(Outcome(s.db, w).value, chain)
  {
    StableIsValid(cfg, chain);
    match w {
      case BackfillWalk(_, next, buf, _) =>
        OfferedAscending(cfg, buf, next);
        forall i | 0 <= i < |buf| ensures buf[i] == chain(buf[i].block.height) {
          assert OfferIsChain(cfg, chain, next - |buf| + i, buf[i]);
        }
        BatchKeepsImage(s.db, chain, buf);
      case TailWalk(_, next, Write(b)) =>
        assert OfferIsChain(cfg, chain, next, b);
        WriteKeepsCanonical(s.db, chain, next);
        if Image(s.db, chain) {
          WriteKeepsImage(s.db, chain, next);
        }
      case _ =>
    }
  }

  lemma {:induction false} EventKeepsImage(cfg: Config, chain: int -> Bundle, c0: int, s: Sys, e: Event)
    requires StableChain(cfg, chain) && cfg.batchSize > 0 && Inv(cfg, c0, s) && Canonical(s.db, chain)
    ensures Canonical(Apply(cfg, s, e).db, chain)
    ensures Image(s.db, chain) ==> Image(Apply(cfg, s, e).db, chain)
  {
    if e.Commit? && e.id in s.workers {
      assert WorkerOk(cfg, s, s.workers[e.id]);
      OutcomeKeepsImage(cfg, chain, s, s.workers[e.id]);
    }
  }

  lemma {:induction false} RunKeepsImage(cfg: Config, chain: int -> Bundle, c0: int, s: Sys, es: seq<Event>)
    requires StableChain(cfg, chain) && cfg.batchSize > 0 && Inv(cfg, c0, s) && Canonical(s.db, chain)
    ensures Canonical(Run(cfg, s, es).db, chain)
    ensures Image(s.db, chain) ==> Image(Run(cfg, s, es).db, chain)
  {
    if es != [] {
      var init := es[..|es| - 1];
      StableIsValid(cfg, chain);
      RunKeepsImage(cfg, chain, c0, s, init);
      RunKeeps(cfg, c0, s, init);
      EventKeepsImage(cfg, chain, c0, Run(cfg, s, init), es[|es| - 1]);
    }
  }

  // ---------- main results ----------

  lemma {:induction false} EmptyIsImage(chain: int -> Bundle)
    ensures Image(EMPTY, chain) && Integrity(EMPTY)
  {
    forall k ensures RowFits(EMPTY.blocks, {}, BlocksAt(chain), BlockKey, BlockKey, k) {
    }
    forall k ensures RowFits(EMPTY.txs, {}, TxsAt(chain), TxKey, TxHeightOf, k) {
    }
    forall k ensures RowFits(EMPTY.logs, {}, LogsAt(chain), LogKey, LogHeightOf, k) {
    }
    forall k ensures RowFits(EMPTY.transfers, {}, TransfersAt(chain), TransferKey, TransferHeightOf, k) {
    }
  }

  /** Two runs with different workers, tips, gaps and crashes that stored the same heights stored the same rows. */
  lemma {:induction false} RunsConfluent(a: Config, b: Config, chain: int -> Bundle, es: seq<Event>, fs: seq<Event>)
    requires StableChain(a, chain) && StableChain(b, chain) && a.batchSize > 0 && b.batchSize > 0
    requires Run(a, Boot(EMPTY, {}), es).db.blocks.Keys == Run(b, Boot(EMPTY, {}), fs).db.blocks.Keys
    ensures var x, y := Run(a, Boot(EMPTY, {}), es).db, Run(b, Boot(EMPTY, {}), fs).db;
            x.blocks == y.blocks && x.txs == y.txs && x.logs == y.logs && x.transfers == y.transfers
    ensures Image(Run(a, Boot(EMPTY, {}), es).db, chain)
  {
    EmptyIsImage(chain);
    RunKeepsImage(a, chain, -1, Boot(EMPTY, {}), es);
    RunKeepsImage(b, chain, -1, Boot(EMPTY, {}), fs);
    SameHeightsSameRows(Run(a, Boot(EMPTY, {}), es).db, Run(b, Boot(EMPTY, {}), fs).db, chain);
  }

  lemma {:induction false} SameHeightsSameRows(x: Db, y: Db, chain: int -> Bundle)
    requires Canonical(x, chain) && Canonical(y, chain) && x.blocks.Keys == y.blocks.Keys
    ensures x.blocks == y.blocks && x.txs == y.txs && x.logs == y.logs
    ensures Image(x, chain) && Image(y, chain) ==> x.transfers == y.transfers
  {
    var hs := x.blocks.Keys;
    ImageUnique(x.blocks, y.blocks, hs, BlocksAt(chain), BlockKey, BlockKey);
    ImageUnique(x.txs, y.txs, hs, TxsAt(chain), TxKey, TxHeightOf);
    ImageUnique(x.logs, y.logs, hs, LogsAt(chain), LogKey, LogHeightOf);
    if Image(x, chain) && Image(y, chain) {
      ImageUnique(x.transfers, y.transfers, hs, TransfersAt(chain), TransferKey, TransferHeightOf);
    }
  }

  function HeightsTo(n: int): set<int> {
    if n < 0 then {} else HeightsTo(n - 1) + {n}
  }

  /** The concurrent workers against one plain sequential ingestion of the whole prefix. */
  lemma {:induction false} RunMatchesSequentialIngestion(cfg: Config, chain: int -> Bundle, es: seq<Event>, n: int)
    requires StableChain(cfg, chain) && cfg.batchSize > 0
    requires Run(cfg, Boot(EMPTY, {}), es).db.blocks.Keys == HeightsTo(n)
    ensures var d := IngestRange(EMPTY, h => Found(chain(h)), 0, n);
            var x := Run(cfg, Boot(EMPTY, {}), es).db;
            d.Ok? && x.blocks == d.value.blocks && x.txs == d.value.txs && x.logs == d.value.logs
            && x.transfers == d.value.transfers
  {
    EmptyIsImage(chain);
    RunKeepsImage(cfg, chain, -1, Boot(EMPTY, {}), es);
    var answers := (h: int) => Found(chain(h));
    IngestImage(chain, answers, n);
    SameHeightsSameRows(Run(cfg, Boot(EMPTY, {}), es).db, IngestRange(EMPTY, answers, 0, n).value, chain);
  }

  lemma {:induction false} IngestImage(chain: int -> Bundle, answers: int -> Answer, n: int)
    requires ChainSane(chain) && forall h :: answers(h) == Found(chain(h))
    ensures IngestRange(EMPTY, answers, 0, n).Ok?
    ensures var d := IngestRange(EMPTY, answers, 0, n).value;
            Image(d, chain) && d.blocks.Keys == HeightsTo(n)
    decreases n
  {
    if n < 0 {
      EmptyIsImage(chain);
    } else {
      IngestImage(chain, answers, n - 1);
      WriteKeepsImage(IngestRange(EMPTY, answers, 0, n - 1).value, chain, n);
    }
  }
}
