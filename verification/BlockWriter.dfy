/**
 The atomic block writer: one transaction per block, and the batched transaction that sorts,
 chunks and commits many blocks at once.
 */
module BlockWriter {
  import opened Prelude
  import opened Folds
  import opened Rows
  import opened Store
  import TokenDecode

  // ---------- tx_addresses ----------

  function Earlier(m: map<Address, int>, a: Address, h: int): map<Address, int> {
    m[a := if a in m then Min(m[a], h) else h]
  }

  function SightTx(m: map<Address, int>, t: Transaction): map<Address, int> {
    var m' := Earlier(m, t.fromAddr, t.blockHeight);
    if t.toAddr.None? then m' else Earlier(m', t.toAddr.value, t.blockHeight)
  }

  /** Earliest height at which each from/to address occurs. */
  function Sightings(txs: seq<Transaction>): map<Address, int> {
    if txs == [] then map[] else SightTx(Sightings(txs[..|txs| - 1]), txs[|txs| - 1])
  }

  predicate Touches(t: Transaction, a: Address) {
    t.fromAddr == a || t.toAddr == Some(a)
  }

  lemma {:induction false} SightingsAreEarliest(txs: seq<Transaction>)
    ensures forall t, a :: t in txs && Touches(t, a) ==> a in Sightings(txs) && Sightings(txs)[a] <= t.blockHeight
    ensures forall a :: a in Sightings(txs) ==>
                          exists t :: t in txs && Touches(t, a) && t.blockHeight == Sightings(txs)[a]
  {
    if txs != [] {
      var init, x := txs[..|txs| - 1], txs[|txs| - 1];
      assert txs == init + [x];
      SightingsAreEarliest(init);
      forall a | a in Sightings(txs)
        ensures exists t :: t in txs && Touches(t, a) && t.blockHeight == Sightings(txs)[a]
      {
        if a in Sightings(init) && Sightings(txs)[a] == Sightings(init)[a] {
          var t :| t in init && Touches(t, a) && t.blockHeight == Sightings(init)[a];
          assert t in txs;
        } else {
          assert x in txs && Touches(x, a);
        }
      }
    }
  }

  /** Collect sightings in a hash map and drain it in whatever order it iterates. */
  method TxAddresses(txs: seq<Transaction>) returns (seen: seq<(Address, int)>)
    ensures DistinctAddresses(seen)
    ensures AsMap(seen) == Sightings(txs)
  {
    var table: map<Address, int> := map[];
    for i := 0 to |txs|
      invariant table == Sightings(txs[..i])
    {
      assert txs[..i + 1][..i] == txs[..i];
      table := Earlier(table, txs[i].fromAddr, txs[i].blockHeight);
      if txs[i].toAddr.Some? {
        table := Earlier(table, txs[i].toAddr.value, txs[i].blockHeight);
      }
    }
    assert txs[..|txs|] == txs;
    seen := DrainTable(table);
  }

  /** `into_iter().collect()`: the entries in an unspecified order. */
  method DrainTable(table: map<Address, int>) returns (seen: seq<(Address, int)>)
    ensures DistinctAddresses(seen)
    ensures AsMap(seen) == table
  {
    seen := [];
    var rest := table;
    while rest != map[]
      invariant AsMap(seen) + rest == table
      invariant NoneIn(seen, rest)
      invariant DistinctAddresses(seen)
      decreases |rest|
    {
      var a :| a in rest;
      AppendEntry(seen, rest, a);
      seen, rest := seen + [(a, rest[a])], rest - {a};
    }
  }

  ghost predicate NoneIn(seen: seq<(Address, int)>, rest: map<Address, int>) {
    forall i :: 0 <= i < |seen| ==> seen[i].0 !in rest
  }

  lemma {:induction false} AppendEntry(seen: seq<(Address, int)>, rest: map<Address, int>, a: Address)
    requires a in rest && NoneIn(seen, rest)
    requires DistinctAddresses(seen)
    ensures AsMap(seen + [(a, rest[a])]) + (rest - {a}) == AsMap(seen) + rest
    ensures |rest - {a}| < |rest|
    ensures DistinctAddresses(seen + [(a, rest[a])])
    ensures NoneIn(seen + [(a, rest[a])], rest - {a})
  {
    var e := (a, rest[a]);
    assert (seen + [e])[..|seen|] == seen;
    assert AsMap(seen + [e]) == AsMap(seen)[a := rest[a]];
    MoveEntry(AsMap(seen), rest, a);
    RemoveShrinks(rest, a);
  }

  // ---------- bundles as the fetchers build them ----------

  /** Rows carry their block's height, txs are numbered in order, logs belong to the block's txs. */
  ghost predicate WellFormed(b: Bundle) {
    && (forall i :: 0 <= i < |b.txs| ==> b.txs[i].blockHeight == b.block.height && b.txs[i].txIndex == i)
    && (forall l :: l in b.logs ==>
          l.blockHeight == b.block.height && exists t :: t in b.txs && t.hash == l.txHash)
    && b.transfers == TokenDecode.DecodeAll(b.logs)
  }

  ghost predicate Ascending(bs: seq<Bundle>) {
    && (forall i :: 0 <= i < |bs| ==> WellFormed(bs[i]))
    && (forall i, j :: 0 <= i < j < |bs| ==> bs[i].block.height < bs[j].block.height)
  }

  function BlockRow(b: Bundle): seq<Block> { [b.block] }

  function TxRows(b: Bundle): seq<Transaction> { b.txs }

  function LogRows(b: Bundle): seq<Log> { b.logs }

  function TransferRows(b: Bundle): seq<TokenTransfer> { b.transfers }

  // ---------- the two transactions ----------

  /** One block: block row, txs, addresses, logs, transfers, cursor, in foreign-key order. */
  function WriteBlockTxn(db: Db, b: Bundle): Result<Db> {
    var d1 :- InsertBlock(db, b.block);
    var d2 :- TryFold(d1, b.txs, InsertTx);
    var d3 := d2.(addresses := Register(d2.addresses, Sightings(b.txs)));
    var d4 :- TryFold(d3, b.logs, InsertLog);
    var d5 :- TryFold(d4, b.transfers, InsertTransfer);
    Ok(WriteCursor(d5, b.block.height, b.block.timestamp))
  }

  function MaxHeight(bs: seq<Bundle>): int
    requires bs != []
  {
    if |bs| == 1 then bs[0].block.height
    else Max(MaxHeight(bs[..|bs| - 1]), bs[|bs| - 1].block.height)
  }

  /** Timestamp of the first bundle at height `h`, 0 if there is none. */
  function TimestampAt(bs: seq<Bundle>, h: int): int {
    if bs == [] then 0 else if bs[0].block.height == h then bs[0].block.timestamp else TimestampAt(bs[1..], h)
  }

  /** Many blocks: flatten each table over the bundles, sort it, insert table by table, move the cursor once. */
  function BatchTxn(db: Db, bs: seq<Bundle>): Result<Db> {
    if bs == [] then Ok(db)
    else
      var txs := StableSort(Flatten(bs, TxRows), TxOrder);
      var d1 :- TryFold(db, StableSort(Flatten(bs, BlockRow), BlockOrder), InsertBlock);
      var d2 :- TryFold(d1, txs, InsertTx);
      var d3 := d2.(addresses := Register(d2.addresses, Sightings(txs)));
      var d4 :- TryFold(d3, StableSort(Flatten(bs, LogRows), LogKey), InsertLog);
      var d5 :- TryFold(d4, StableSort(Flatten(bs, TransferRows), TransferOrder), InsertTransfer);
      Ok(WriteCursor(d5, MaxHeight(bs), TimestampAt(bs, MaxHeight(bs))))
  }

  // ---------- the pool ----------

  /** Rows per multi-row INSERT. */
  const BATCH_INSERT_CHUNK: nat := 500

  /** Insert `rows` one by one, stopping at the first that fails. */
  method InsertEach<T>(db: Db, rows: seq<T>, insert: (Db, T) -> Result<Db>) returns (r: Result<Db>)
    ensures r == TryFold(db, rows, insert)
  {
    r := Ok(db);
    for i := 0 to |rows|
      invariant r == TryFold(db, rows[..i], insert) && r.Ok?
    {
      assert rows[..i + 1][..i] == rows[..i];
      r := insert(r.value, rows[i]);
      if r.Err? {
        TryFoldConcat(db, rows[..i + 1], rows[i + 1..], insert);
        assert rows[..i + 1] + rows[i + 1..] == rows;
        return;
      }
    }
    assert rows[..|rows|] == rows;
  }

  /** Run `rows` through multi-row inserts of at most 500 rows each. */
  method InsertChunked<T>(db: Db, rows: seq<T>, insert: (Db, T) -> Result<Db>) returns (r: Result<Db>)
    ensures r == TryFold(db, rows, insert)
  {
    r := Ok(db);
    var i := 0;
    while i < |rows|
      invariant 0 <= i <= |rows|
      invariant r == TryFold(db, rows[..i], insert) && r.Ok?
    {
      var hi := Min(i + BATCH_INSERT_CHUNK, |rows|);
      TryFoldConcat(db, rows[..i], rows[i..hi], insert);
      assert rows[..i] + rows[i..hi] == rows[..hi];
      r := TryFold(r.value, rows[i..hi], insert);
      if r.Err? {
        TryFoldConcat(db, rows[..hi], rows[hi..], insert);
        assert rows[..hi] + rows[hi..] == rows;
        return;
      }
      i := hi;
    }
    assert rows[..|rows|] == rows;
  }

  /** Upsert in statements of at most 500 sightings; distinct addresses never share a statement. */
  method UpsertChunked(m: map<Address, Sighting>, seen: seq<(Address, int)>)
    returns (r: Result<map<Address, Sighting>>)
    requires DistinctAddresses(seen)
    ensures r == Ok(Register(m, AsMap(seen)))
  {
    r := Ok(m);
    assert Register(m, map[]) == m;
    var i := 0;
    while i < |seen|
      invariant 0 <= i <= |seen|
      invariant r == Ok(Register(m, AsMap(seen[..i])))
    {
      var hi := Min(i + BATCH_INSERT_CHUNK, |seen|);
      var part := seen[i..hi];
      UpsertDistinct(r.value, part);
      assert seen[..i] + part == seen[..hi];
      AsMapConcat(seen[..i], part);
      RegisterTwice(m, seen[..i], part);
      r := UpsertBatch(r.value, part);
      i := hi;
    }
    assert seen[..|seen|] == seen;
  }

  lemma {:induction false} RegisterTwice(m: map<Address, Sighting>, a: seq<(Address, int)>, b: seq<(Address, int)>)
    requires DistinctAddresses(a + b)
    ensures Register(Register(m, AsMap(a)), AsMap(b)) == Register(m, AsMap(a) + AsMap(b))
  {
    forall x | x in AsMap(a) ensures x !in AsMap(b) {
      AsMapKeys(a, x);
      AsMapKeys(b, x);
      var i :| 0 <= i < |a| && a[i].0 == x;
      assert (a + b)[i].0 == x;
      assert forall j :: 0 <= j < |b| ==> (a + b)[|a| + j] == b[j];
    }
  }

  /** The connection pool; `db` is the last committed state. */
  class Pool {
    var db: Db

    constructor ()
      ensures db == EMPTY
    {
      db := EMPTY;
    }

    /** `online` says whether the server stays reachable through the commit. */
    method WriteBlock(b: Bundle, online: bool) returns (r: Result<()>)
      modifies this
      ensures !online ==> r == Err(DatabaseDown) && db == old(db)
      ensures online ==> match WriteBlockTxn(old(db), b)
                         case Ok(d) => r == Ok(()) && db == d
                         case Err(e) => r == Err(e) && db == old(db)
    {
      if !online {
        return Err(DatabaseDown);
      }
      var step := InsertBlock(db, b.block);
      if step.Err? {
        return Err(step.error);
      }
      step := InsertEach(step.value, b.txs, InsertTx);
      if step.Err? {
        return Err(step.error);
      }
      var work := step.value;
      var seen := TxAddresses(b.txs);
      UpsertDistinct(work.addresses, seen);
      var up := UpsertBatch(work.addresses, seen);
      step := InsertEach(work.(addresses := up.value), b.logs, InsertLog);
      if step.Err? {
        return Err(step.error);
      }
      step := InsertEach(step.value, b.transfers, InsertTransfer);
      if step.Err? {
        return Err(step.error);
      }
      work := step.value;
      db := WriteCursor(work, b.block.height, b.block.timestamp);
      return Ok(());
    }

    /** All bundles in one transaction, table by table, in chunks. */
    method BatchWriteBlocks(bs: seq<Bundle>, online: bool) returns (r: Result<()>)
      modifies this
      ensures bs == [] ==> r == Ok(()) && db == old(db)
      ensures bs != [] && !online ==> r == Err(DatabaseDown) && db == old(db)
      ensures bs != [] && online ==> match BatchTxn(old(db), bs)
                                     case Ok(d) => r == Ok(()) && db == d
                                     case Err(e) => r == Err(e) && db == old(db)
    {
      if bs == [] {
        return Ok(());
      }
      if !online {
        return Err(DatabaseDown);
      }
      var txs := StableSort(Flatten(bs, TxRows), TxOrder);
      var step := InsertChunked(db, StableSort(Flatten(bs, BlockRow), BlockOrder), InsertBlock);
      if step.Err? {
        return Err(step.error);
      }
      step := InsertChunked(step.value, txs, InsertTx);
      if step.Err? {
        return Err(step.error);
      }
      var work := step.value;
      var seen := TxAddresses(txs);
      var up := UpsertChunked(work.addresses, seen);
      step := InsertChunked(work.(addresses := up.value), StableSort(Flatten(bs, LogRows), LogKey), InsertLog);
      if step.Err? {
        return Err(step.error);
      }
      step := InsertChunked(step.value, StableSort(Flatten(bs, TransferRows), TransferOrder), InsertTransfer);
      if step.Err? {
        return Err(step.error);
      }
      db := WriteCursor(step.value, MaxHeight(bs), TimestampAt(bs, MaxHeight(bs)));
      return Ok(());
    }

    /** The stand-alone cursor write of a skipped height. */
    method AdvanceCursor(h: int, ts: int, online: bool) returns (r: Result<()>)
      modifies this
      ensures r == if online then Ok(()) else Err(DatabaseDown)
      ensures db == if online then WriteCursor(old(db), h, ts) else old(db)
      ensures r.Ok? ==> CursorOf(db) >= h && db.(cursor := old(db.cursor), cursorTs := old(db.cursorTs)) == old(db)
    {
      if !online {
        return Err(DatabaseDown);
      }
      db := WriteCursor(db, h, ts);
      return Ok(());
    }
  }
}
