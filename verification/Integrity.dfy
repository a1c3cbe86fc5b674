/** Every transaction of the sync layer keeps the store referentially consistent, whatever it is given. */
module IntegrityKept {
  import opened Prelude
  import opened Folds
  import opened Rows
  import opened Store
  import opened BlockWriter
  import opened BatchRefinement

  ghost predicate StepKeepsIntegrity<T(!new)>(step: (Db, T) -> Result<Db>) {
    forall d, x :: Integrity(d) && step(d, x).Ok? ==> Integrity(step(d, x).value)
  }

  lemma {:induction false} FoldKeepsIntegrity<T(!new)>(db: Db, xs: seq<T>, step: (Db, T) -> Result<Db>)
    requires Integrity(db) && StepKeepsIntegrity(step)
    ensures TryFold(db, xs, step).Ok? ==> Integrity(TryFold(db, xs, step).value)
  {
    if xs != [] {
      FoldKeepsIntegrity(db, xs[..|xs| - 1], step);
    }
  }

  lemma {:induction false} InsertsKeepIntegrity()
    ensures StepKeepsIntegrity(InsertBlock)
    ensures StepKeepsIntegrity(InsertTx)
    ensures StepKeepsIntegrity(InsertLog)
    ensures StepKeepsIntegrity(InsertTransfer)
  {
  }

  /** No bundle, however malformed, can leave a tx without its block or a log without its block and tx. */
  lemma {:induction false} WriteBlockKeepsIntegrity(db: Db, b: Bundle)
    requires Integrity(db) && WriteBlockTxn(db, b).Ok?
    ensures Integrity(WriteBlockTxn(db, b).value)
  {
    InsertsKeepIntegrity();
    var d1 := InsertBlock(db, b.block).value;
    FoldKeepsIntegrity(d1, b.txs, InsertTx);
    var d2 := TryFold(d1, b.txs, InsertTx).value;
    var d3 := d2.(addresses := Register(d2.addresses, Sightings(b.txs)));
    FoldKeepsIntegrity(d3, b.logs, InsertLog);
    FoldKeepsIntegrity(TryFold(d3, b.logs, InsertLog).value, b.transfers, InsertTransfer);
  }

  lemma {:induction false} BatchKeepsIntegrity(db: Db, bs: seq<Bundle>)
    requires Integrity(db) && BatchTxn(db, bs).Ok?
    ensures Integrity(BatchTxn(db, bs).value)
  {
    if bs != [] {
      InsertsKeepIntegrity();
      var blocks := StableSort(Flatten(bs, BlockRow), BlockOrder);
      var txs := StableSort(Flatten(bs, TxRows), TxOrder);
      var logs := StableSort(Flatten(bs, LogRows), LogKey);
      FoldKeepsIntegrity(db, blocks, InsertBlock);
      var d1 := TryFold(db, blocks, InsertBlock).value;
      FoldKeepsIntegrity(d1, txs, InsertTx);
      var d2 := TryFold(d1, txs, InsertTx).value;
      var d3 := d2.(addresses := Register(d2.addresses, Sightings(txs)));
      FoldKeepsIntegrity(d3, logs, InsertLog);
      var d4 := TryFold(d3, logs, InsertLog).value;
      FoldKeepsIntegrity(d4, StableSort(Flatten(bs, TransferRows), TransferOrder), InsertTransfer);
    }
  }
}
