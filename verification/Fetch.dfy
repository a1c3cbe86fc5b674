/** From chain responses to bundles: conversion, the orphan-log filter, and transfer decoding. */
module Fetch {
  import opened Prelude
  import opened Folds
  import opened Rows
  import opened BlockWriter
  import opened TokenDecode

  datatype NativeTx = NativeTx(
    txid: string, fromAddress: string, toAddress: Option<string>, amount: nat, nonce: nat)

  /** `/chain/blocks/<n>`: the header and the inline transactions. */
  datatype NativeBlock = NativeBlock(
    index: int, hash: string, previousHash: string, timestamp: int, transactions: seq<NativeTx>)

  const I64_MAX: int := 0x7fff_ffff_ffff_ffff

  const ZERO_ADDRESS: string := "0x0000000000000000000000000000000000000000"

  predicate Prefixed(s: string) {
    |s| >= 2 && s[0] == '0' && (s[1] == 'x' || s[1] == 'X')
  }

  /** The same text with a `0x` in front unless there is one. */
  function With0x(s: string): (r: string)
    ensures Prefixed(r) && (r == s || (!Prefixed(s) && r[1] == 'x' && r[2..] == s))
  {
    if |s| >= 2 && s[0] == '0' && (s[1] == 'x' || s[1] == 'X') then s else "0x" + s
  }

  function ConvertBlock(b: NativeBlock): Result<Block> {
    if b.index < 0 then Err(OutOfRange)
    else if |b.transactions| > I32_MAX then Err(OutOfRange)
    else Ok(Block(b.index, With0x(b.hash), With0x(b.previousHash), b.timestamp))
  }

  function ConvertTx(height: int, idx: nat, t: NativeTx): Result<Transaction> {
    if idx > I32_MAX then Err(OutOfRange)
    else if t.nonce > I64_MAX then Err(OutOfRange)
    else
      var from := if t.fromAddress == "COINBASE" then ZERO_ADDRESS else With0x(t.fromAddress);
      var to := if t.toAddress.None? then None else Some(With0x(t.toAddress.value));
      Ok(Transaction(With0x(t.txid), height, idx, from, to, t.amount))
  }

  function ConvertTxs(height: int, txs: seq<NativeTx>): (r: Result<seq<Transaction>>)
    ensures r.Ok? ==> |r.value| == |txs| &&
                      forall i :: 0 <= i < |txs| ==> r.value[i].blockHeight == height && r.value[i].txIndex == i
  {
    if txs == [] then Ok([])
    else
      var init :- ConvertTxs(height, txs[..|txs| - 1]);
      var t :- ConvertTx(height, |txs| - 1, txs[|txs| - 1]);
      Ok(init + [t])
  }

  function ConvertLogs(raws: seq<RawLog>): Result<seq<Log>> {
    if raws == [] then Ok([])
    else
      var init :- ConvertLogs(raws[..|raws| - 1]);
      var l :- ToDomainLog(raws[|raws| - 1]);
      Ok(init + [l])
  }

  /** Keep the logs whose transaction is in the same block. */
  function DropOrphans(logs: seq<Log>, hashes: set<Hash>): seq<Log> {
    if logs == [] then []
    else
      var init := DropOrphans(logs[..|logs| - 1], hashes);
      if logs[|logs| - 1].txHash in hashes then init + [logs[|logs| - 1]] else init
  }

  function TxHashes(txs: seq<Transaction>): set<Hash> {
    set t | t in txs :: t.hash
  }

  /** What both the pipelined fetch and the per-block ingest build from one block and its logs. */
  function Assemble(block: NativeBlock, raws: seq<RawLog>): Result<Bundle> {
    var b :- ConvertBlock(block);
    var txs :- ConvertTxs(block.index, block.transactions);
    var logs :- ConvertLogs(raws);
    var kept := DropOrphans(logs, TxHashes(txs));
    Ok(Bundle(b, txs, kept, DecodeAll(kept)))
  }

  /** One height as the sync loops see it. */
  datatype Answer = Found(bundle: Bundle) | NotFound | Failed(error: Error)

  /** 404 on the block means a gap; logs are requested only for a block that exists. */
  function FetchOne(rest: Result<Option<NativeBlock>>, logs: Result<seq<RawLog>>): Answer {
    if rest.Err? then Failed(rest.error)
    else if rest.value.None? then NotFound
    else if logs.Err? then Failed(logs.error)
    else
      match Assemble(rest.value.value, logs.value)
      case Err(e) => Failed(e)
      case Ok(b) => Found(b)
  }

  /** The filter keeps exactly the backed logs, each as often as it occurs. */
  lemma {:induction false} DropOrphansExact(logs: seq<Log>, hashes: set<Hash>)
    ensures forall l :: l in DropOrphans(logs, hashes) <==> l in logs && l.txHash in hashes
    ensures forall l :: multiset(DropOrphans(logs, hashes))[l] == if l.txHash in hashes then multiset(logs)[l] else 0
  {
    if logs != [] {
      DropOrphansExact(logs[..|logs| - 1], hashes);
      assert logs == logs[..|logs| - 1] + [logs[|logs| - 1]];
    }
  }

  lemma {:induction false} ConvertedHeights(raws: seq<RawLog>, h: int)
    requires forall r :: r in raws && r.blockNumber.Some? ==> AsI64(r.blockNumber.value) == h
    ensures ConvertLogs(raws).Ok? ==> forall l :: l in ConvertLogs(raws).value ==> l.blockHeight == h
  {
    if raws != [] {
      ConvertedHeights(raws[..|raws| - 1], h);
      assert raws[|raws| - 1] in raws;
    }
  }

  /** The chain answers a request for height `h` with block `h` and with that block's logs. */
  ghost predicate AnswersFor(h: int, block: NativeBlock, raws: seq<RawLog>) {
    block.index == h && forall r :: r in raws && r.blockNumber.Some? ==> AsI64(r.blockNumber.value) == h
  }

  /**
   Without any assumption on the answers: the bundle is the asked-for block in the shape the writers need if and
   only if the block carries the asked-for index and the logs that survive the orphan filter carry that height;
   the source copies both unchecked.
   */
  lemma {:induction false} FetchedFitsIff(h: int, block: NativeBlock, raws: seq<RawLog>)
    requires Assemble(block, raws).Ok?
    ensures var b := Assemble(block, raws).value;
            (b.block.height == h && WellFormed(b)) <==>
            block.index == h
            && forall l :: l in ConvertLogs(raws).value && l.txHash in TxHashes(b.txs) ==> l.blockHeight == h
  {
    var b := Assemble(block, raws).value;
    DropOrphansExact(ConvertLogs(raws).value, TxHashes(b.txs));
    forall l | l in b.logs ensures exists t :: t in b.txs && t.hash == l.txHash {
      assert l.txHash in TxHashes(b.txs);
      var t :| t in b.txs && t.hash == l.txHash;
    }
  }

  // ---------- what a bundle is made of ----------

  /** The row of a block's header. */
  ghost predicate IsBlockOf(block: NativeBlock, b: Block) {
    && b.height == block.index >= 0 && b.timestamp == block.timestamp
    && b.hash == With0x(block.hash) && b.parentHash == With0x(block.previousHash)
  }

  /** The row of the block's transaction at place `i`; a coinbase comes from the zero address. */
  ghost predicate IsTxOf(block: NativeBlock, i: nat, t: Transaction)
    requires i < |block.transactions|
  {
    var native := block.transactions[i];
    && t.hash == With0x(native.txid) && t.blockHeight == block.index && t.txIndex == i && t.value == native.amount
    && (if native.fromAddress == "COINBASE" then t.fromAddr == "0x0000000000000000000000000000000000000000"
        else t.fromAddr == With0x(native.fromAddress))
    && (match native.toAddress
        case None => t.toAddr.None?
        case Some(to) => t.toAddr == Some(With0x(to)))
  }

  /** The log belongs to a transaction that the block carries. */
  ghost predicate Backed(block: NativeBlock, raw: RawLog) {
    raw.txHash.Some? && exists tx :: tx in block.transactions && With0x(tx.txid) == Hex0x(raw.txHash.value)
  }

  ghost function Within(hashes: set<Hash>): Log -> Option<Log> {
    (l: Log) => if l.txHash in hashes then Some(l) else None
  }

  /** The logs are the rows of the backed raw logs, each once and in order; `at` are their places. */
  ghost predicate AreLogsOf(block: NativeBlock, raws: seq<RawLog>, logs: seq<Log>, at: seq<nat>) {
    && |at| == |logs| && (forall k :: 0 <= k < |at| ==> at[k] < |raws| && IsLogOf(raws[at[k]], logs[k]))
    && (forall i, j :: 0 <= i < j < |at| ==> at[i] < at[j])
    && (forall j: nat :: j < |raws| ==> (j in at <==> Backed(block, raws[j])))
  }

  /** The rows of the block's first `|txs|` transactions. */
  ghost predicate AreTxsOf(block: NativeBlock, txs: seq<Transaction>) {
    |txs| <= |block.transactions| && forall i: nat :: i < |txs| ==> IsTxOf(block, i, txs[i])
  }

  ghost predicate NoncesFit(txs: seq<NativeTx>) {
    forall i :: 0 <= i < |txs| ==> txs[i].nonce <= I64_MAX
  }

  lemma {:induction false} ConvertTxExact(block: NativeBlock, i: nat)
    requires i < |block.transactions| && i <= I32_MAX
    ensures var r := ConvertTx(block.index, i, block.transactions[i]);
            && (r.Ok? <==> block.transactions[i].nonce <= I64_MAX)
            && (r.Ok? ==> IsTxOf(block, i, r.value))
  {
  }

  lemma {:induction false} OneMoreTx(block: NativeBlock, init: seq<Transaction>, t: Transaction)
    requires AreTxsOf(block, init) && |init| < |block.transactions| && IsTxOf(block, |init|, t)
    ensures AreTxsOf(block, init + [t])
  {
  }

  lemma {:induction false} ConvertTxsStep(height: int, txs: seq<NativeTx>)
    requires txs != []
    ensures ConvertTxs(height, txs) ==
            var init, last := ConvertTxs(height, txs[..|txs| - 1]), ConvertTx(height, |txs| - 1, txs[|txs| - 1]);
            if init.Err? then init else if last.Err? then Err(last.error) else Ok(init.value + [last.value])
  {
  }

  lemma {:induction false} NoncesSnoc(txs: seq<NativeTx>, k: nat)
    requires k < |txs|
    ensures NoncesFit(txs[..k + 1]) <==> NoncesFit(txs[..k]) && txs[k].nonce <= I64_MAX
  {
    assert forall i :: 0 <= i < k ==> txs[..k + 1][i] == txs[..k][i];
    assert txs[..k + 1][k] == txs[k];
  }

  /** What converting the first `n` transactions gives. */
  ghost predicate ConvertsTo(block: NativeBlock, n: nat, r: Result<seq<Transaction>>)
    requires n <= |block.transactions|
  {
    (r.Ok? <==> NoncesFit(block.transactions[..n])) && (r.Ok? ==> |r.value| == n && AreTxsOf(block, r.value))
  }

  lemma {:induction false} ConvertsOneMore(
      block: NativeBlock, k: nat, init: Result<seq<Transaction>>, last: Result<Transaction>,
      all: Result<seq<Transaction>>)
    requires k < |block.transactions| && ConvertsTo(block, k, init)
    requires (last.Ok? <==> block.transactions[k].nonce <= I64_MAX) && (last.Ok? ==> IsTxOf(block, k, last.value))
    requires all == if init.Err? then init else if last.Err? then Err(last.error) else Ok(init.value + [last.value])
    ensures ConvertsTo(block, k + 1, all)
  {
    NoncesSnoc(block.transactions, k);
    if all.Ok? {
      OneMoreTx(block, init.value, last.value);
    }
  }

  lemma {:induction false} ConvertTxsExact(block: NativeBlock, n: nat)
    requires n <= |block.transactions| && n <= I32_MAX + 1
    ensures ConvertsTo(block, n, ConvertTxs(block.index, block.transactions[..n]))
  {
    if n > 0 {
      var k := n - 1;
      var txs := block.transactions[..n];
      assert txs[..k] == block.transactions[..k] && txs[k] == block.transactions[k];
      ConvertTxsExact(block, k);
      ConvertTxExact(block, k);
      ConvertTxsStep(block.index, txs);
      ConvertsOneMore(block, k, ConvertTxs(block.index, txs[..k]), ConvertTx(block.index, k, txs[k]),
                      ConvertTxs(block.index, txs));
    }
  }

  ghost predicate AreRowsOf(raws: seq<RawLog>, logs: seq<Log>) {
    |logs| == |raws| && forall i :: 0 <= i < |raws| ==> IsLogOf(raws[i], logs[i])
  }

  ghost predicate Storable(raw: RawLog) {
    raw.blockNumber.Some? && raw.txHash.Some? && raw.logIndex.Some? && raw.logIndex.value <= 0x7fff_ffff
  }

  ghost predicate AllStorable(raws: seq<RawLog>) {
    forall i :: 0 <= i < |raws| ==> Storable(raws[i])
  }

  lemma {:induction false} OneMoreRow(raws: seq<RawLog>, raw: RawLog, logs: seq<Log>, l: Log)
    requires AreRowsOf(raws, logs) && IsLogOf(raw, l)
    ensures AreRowsOf(raws + [raw], logs + [l])
  {
  }

  lemma {:induction false} ConvertLogsExact(raws: seq<RawLog>)
    ensures var r := ConvertLogs(raws); (r.Ok? <==> AllStorable(raws)) && (r.Ok? ==> AreRowsOf(raws, r.value))
  {
    if raws != [] {
      var n := |raws| - 1;
      var init, raw := raws[..n], raws[n];
      assert raws == init + [raw];
      ConvertLogsExact(init);
      assert AllStorable(raws) <==> AllStorable(init) && Storable(raw) by {
        assert forall i :: 0 <= i < n ==> raws[i] == init[i];
      }
      var l := ToDomainLog(raw);
      if l.Ok? {
        DomainLogExact(raw, l.value);
        if ConvertLogs(init).Ok? {
          OneMoreRow(init, raw, ConvertLogs(init).value, l.value);
        }
      } else {
        NotStorable(raw);
      }
    }
  }

  lemma {:induction false} NotStorable(raw: RawLog)
    ensures ToDomainLog(raw).Ok? <==> Storable(raw)
  {
  }

  /** The filter keeps the backed logs in their order. */
  lemma {:induction false} DropOrphansInOrder(logs: seq<Log>, hashes: set<Hash>) returns (at: seq<nat>)
    ensures Gathers(logs, Within(hashes), DropOrphans(logs, hashes), at)
  {
    at := [];
    if logs != [] {
      var init, last := logs[..|logs| - 1], logs[|logs| - 1];
      at := DropOrphansInOrder(init, hashes);
      GathersSnoc(init, last, Within(hashes), DropOrphans(init, hashes), at);
      assert logs == init + [last];
      if last.txHash in hashes {
        at := at + [|init|];
      }
    }
  }

  lemma {:induction false} BackedIff(block: NativeBlock, txs: seq<Transaction>, raw: RawLog, l: Log)
    requires |txs| == |block.transactions| && AreTxsOf(block, txs)
    requires IsLogOf(raw, l)
    ensures l.txHash in TxHashes(txs) <==> Backed(block, raw)
  {
    if l.txHash in TxHashes(txs) {
      var t :| t in txs && t.hash == l.txHash;
      var i: nat :| i < |txs| && txs[i] == t;
      assert block.transactions[i] in block.transactions;
    }
    if Backed(block, raw) {
      var tx :| tx in block.transactions && With0x(tx.txid) == Hex0x(raw.txHash.value);
      var i: nat :| i < |block.transactions| && block.transactions[i] == tx;
      assert IsTxOf(block, i, txs[i]) && txs[i] in txs;
    }
  }

  lemma {:induction false} KeptAreBacked(
      block: NativeBlock, txs: seq<Transaction>, raws: seq<RawLog>, logs: seq<Log>, kept: seq<Log>, at: seq<nat>)
    requires |txs| == |block.transactions| && AreTxsOf(block, txs) && AreRowsOf(raws, logs)
    requires Gathers(logs, Within(TxHashes(txs)), kept, at)
    ensures AreLogsOf(block, raws, kept, at)
  {
    forall j: nat | j < |raws| ensures j in at <==> Backed(block, raws[j]) {
      BackedIff(block, txs, raws[j], logs[j]);
    }
  }

  /**
   What one height's bundle carries, over the chain's answer alone: the header's row, a row for every transaction
   in order, the row of every raw log whose transaction the block carries, and the transfers of those logs.
   */
  lemma {:induction false} AssembledExactly(block: NativeBlock, raws: seq<RawLog>, b: Bundle)
    returns (logsAt: seq<nat>, transfersAt: seq<nat>)
    requires Assemble(block, raws) == Ok(b)
    ensures IsBlockOf(block, b.block) && |b.txs| == |block.transactions| && AreTxsOf(block, b.txs)
    ensures AreLogsOf(block, raws, b.logs, logsAt) && Gathers(b.logs, DecodeTransfer, b.transfers, transfersAt)
  {
    var n := |block.transactions|;
    assert block.transactions[..n] == block.transactions;
    ConvertTxsExact(block, n);
    ConvertLogsExact(raws);
    var logs := ConvertLogs(raws).value;
    logsAt := DropOrphansInOrder(logs, TxHashes(b.txs));
    KeptAreBacked(block, b.txs, raws, logs, b.logs, logsAt);
    transfersAt := DecodeAllInOrder(b.logs);
  }

  /** The conversion fails only on a negative height, a count or nonce out of range, or a raw log that lacks a field. */
  ghost predicate Convertible(block: NativeBlock, raws: seq<RawLog>) {
    && block.index >= 0 && |block.transactions| <= I32_MAX
    && NoncesFit(block.transactions) && AllStorable(raws)
  }

  lemma {:induction false} AssemblesIff(block: NativeBlock, raws: seq<RawLog>)
    ensures Assemble(block, raws).Ok? <==> Convertible(block, raws)
  {
    if block.index >= 0 && |block.transactions| <= I32_MAX {
      var n := |block.transactions|;
      assert block.transactions[..n] == block.transactions;
      ConvertTxsExact(block, n);
      ConvertLogsExact(raws);
    }
  }

  /** Only an answered 404 is a gap, only an answered block that converts is found, and all else is a failure. */
  lemma {:induction false} FetchOneExact(rest: Result<Option<NativeBlock>>, logs: Result<seq<RawLog>>)
    ensures FetchOne(rest, logs).NotFound? <==> rest == Ok(None)
    ensures FetchOne(rest, logs).Found? <==>
            rest.Ok? && rest.value.Some? && logs.Ok? && Convertible(rest.value.value, logs.value)
    ensures FetchOne(rest, logs).Found? ==>
              Assemble(rest.value.value, logs.value) == Ok(FetchOne(rest, logs).bundle)
  {
    if rest.Ok? && rest.value.Some? && logs.Ok? {
      AssemblesIff(rest.value.value, logs.value);
    }
  }

  /** What the answer of a height is made of when the chain answers for that height. */
  ghost predicate FetchedAt(h: int, b: Bundle) {
    exists block, raws :: AnswersFor(h, block, raws) && FetchOne(Ok(Some(block)), Ok(raws)) == Found(b)
  }

  /** Such an answer is the asked-for block, well formed. */
  lemma {:induction false} FetchedAnswers(h: int, b: Bundle)
    requires FetchedAt(h, b)
    ensures b.block.height == h && h >= 0 && WellFormed(b)
  {
    var block, raws :| AnswersFor(h, block, raws) && FetchOne(Ok(Some(block)), Ok(raws)) == Found(b);
    FetchedIsWellFormed(h, block, raws);
  }

  /** Every fetched bundle is well formed, so no orphan log and no misplaced row ever reaches a writer. */
  lemma {:induction false} FetchedIsWellFormed(h: int, block: NativeBlock, raws: seq<RawLog>)
    requires AnswersFor(h, block, raws) && Assemble(block, raws).Ok?
    ensures var b := Assemble(block, raws).value;
            b.block.height == h && h >= 0 && WellFormed(b)
  {
    var b := Assemble(block, raws).value;
    ConvertedHeights(raws, h);
    DropOrphansExact(ConvertLogs(raws).value, TxHashes(b.txs));
    forall l | l in b.logs ensures l.blockHeight == h && exists t :: t in b.txs && t.hash == l.txHash {
      assert l.txHash in TxHashes(b.txs);
      var t :| t in b.txs && t.hash == l.txHash;
    }
  }
}
