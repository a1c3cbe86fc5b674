/**
 The batched transaction refines the per-block fold: same outcome, same rows, same cursor, same
 first sightings; only the last sighting of an address may lag behind.
 */
module BatchRefinement {
  import opened Prelude
  import opened Folds
  import opened Rows
  import opened Store
  import opened BlockWriter
  import TokenDecode

  // ---------- what a successful insert run leaves behind ----------

  lemma {:induction false} InsertTxsEffect(db: Db, txs: seq<Transaction>)
    requires forall t :: t in txs ==> t.blockHeight in db.blocks
    ensures TryFold(db, txs, InsertTx) == Ok(db.(txs := FirstWins(db.txs, txs, TxKey)))
  {
    if txs != [] {
      InsertTxsEffect(db, txs[..|txs| - 1]);
      assert txs[|txs| - 1] in txs;
    }
  }

  lemma {:induction false} InsertLogsEffect(db: Db, logs: seq<Log>)
    requires forall l :: l in logs ==> l.blockHeight in db.blocks && l.txHash in db.txs
    ensures TryFold(db, logs, InsertLog) == Ok(db.(logs := FirstWins(db.logs, logs, LogKey)))
  {
    if logs != [] {
      InsertLogsEffect(db, logs[..|logs| - 1]);
      assert logs[|logs| - 1] in logs;
    }
  }

  lemma {:induction false} InsertTransfersEffect(db: Db, ts: seq<TokenTransfer>)
    ensures TryFold(db, ts, InsertTransfer) == Ok(db.(transfers := FirstWins(db.transfers, ts, TransferKey)))
  {
    if ts != [] {
      InsertTransfersEffect(db, ts[..|ts| - 1]);
    }
  }

  /** Block inserts touch only `blocks`, never remove or change a row, and store every offered height. */
  lemma {:induction false} InsertBlocksEffect(db: Db, rows: seq<Block>)
    ensures var r := TryFold(db, rows, InsertBlock);
            r.Ok? ==>
              && r.value == db.(blocks := r.value.blocks)
              && r.value.blocks.Keys == db.blocks.Keys + (set b | b in rows :: b.height)
              && (forall h :: h in db.blocks ==> r.value.blocks[h] == db.blocks[h])
              && (forall h :: h in r.value.blocks && h !in db.blocks ==>
                    r.value.blocks[h] in rows && r.value.blocks[h].height == h)
  {
    InsertBlocksIsFirstWins(db, rows);
    FirstWinsContents(db.blocks, rows, BlockKey);
    assert (set b | b in rows :: BlockKey(b)) == (set b | b in rows :: b.height);
  }

  /** Where no hash clashes, block inserts are first-writer-wins on the height. */
  lemma {:induction false} InsertBlocksIsFirstWins(db: Db, rows: seq<Block>)
    ensures var r := TryFold(db, rows, InsertBlock);
            r.Ok? ==> r.value == db.(blocks := FirstWins(db.blocks, rows, BlockKey))
  {
    if rows != [] {
      InsertBlocksIsFirstWins(db, rows[..|rows| - 1]);
    }
  }

  /** Whether and how a block run succeeds depends on the `blocks` table alone. */
  lemma {:induction false} BlocksDecide(a: Db, b: Db, rows: seq<Block>)
    requires a.blocks == b.blocks
    ensures match (TryFold(a, rows, InsertBlock), TryFold(b, rows, InsertBlock))
            case (Ok(x), Ok(y)) => x.blocks == y.blocks
            case (Err(e), Err(f)) => e == f
            case _ => false
  {
    if rows != [] {
      BlocksDecide(a, b, rows[..|rows| - 1]);
    }
  }

  // ---------- one well-formed block ----------

  /** The tables after `b`'s rows were offered, given the block inserts already made. */
  function Landed(d: Db, db: Db, txs: seq<Transaction>, logs: seq<Log>, ts: seq<TokenTransfer>,
                  addresses: map<Address, Sighting>, h: int, stamp: int): Db {
    WriteCursor(
      Db(d.blocks, FirstWins(db.txs, txs, TxKey), FirstWins(db.logs, logs, LogKey),
         FirstWins(db.transfers, ts, TransferKey), addresses, db.cursor, db.cursorTs), h, stamp)
  }

  lemma {:induction false} WriteBlockEffect(db: Db, b: Bundle)
    requires WellFormed(b)
    ensures WriteBlockTxn(db, b) ==
            match InsertBlock(db, b.block)
            case Err(e) => Err(e)
            case Ok(d) => Ok(Landed(d, db, b.txs, b.logs, b.transfers,
                                    Register(db.addresses, Sightings(b.txs)), b.block.height, b.block.timestamp))
  {
    if InsertBlock(db, b.block).Ok? {
      var d1 := InsertBlock(db, b.block).value;
      forall t | t in b.txs ensures t.blockHeight in d1.blocks {
        var i :| 0 <= i < |b.txs| && b.txs[i] == t;
      }
      InsertTxsEffect(d1, b.txs);
      var d2 := TryFold(d1, b.txs, InsertTx).value;
      var d3 := d2.(addresses := Register(d2.addresses, Sightings(b.txs)));
      FirstWinsContents(d1.txs, b.txs, TxKey);
      forall l | l in b.logs ensures l.blockHeight in d3.blocks && l.txHash in d3.txs {
        var t :| t in b.txs && t.hash == l.txHash;
        assert TxKey(t) in d3.txs;
      }
      InsertLogsEffect(d3, b.logs);
      InsertTransfersEffect(TryFold(d3, b.logs, InsertLog).value, b.transfers);
    }
  }

  /** A fetched bundle never trips a foreign key; its only possible database error is a reused block hash. */
  lemma {:induction false} WellFormedNeverBreaksForeignKeys(db: Db, b: Bundle)
    requires WellFormed(b)
    ensures WriteBlockTxn(db, b).Err? <==>
            b.block.height !in db.blocks && exists h :: h in db.blocks && db.blocks[h].hash == b.block.hash
    ensures WriteBlockTxn(db, b).Err? ==> WriteBlockTxn(db, b).error == UniqueViolation
  {
    WriteBlockEffect(db, b);
  }

  // ---------- flattened rows ----------

  lemma {:induction false} FlattenMembers<T>(bs: seq<Bundle>, rows: Bundle -> seq<T>, x: T)
    ensures x in Flatten(bs, rows) <==> exists i :: 0 <= i < |bs| && x in rows(bs[i])
  {
    if bs != [] {
      var init := bs[..|bs| - 1];
      FlattenMembers(init, rows, x);
      assert forall i :: 0 <= i < |init| ==> init[i] == bs[i];
      if x in Flatten(init, rows) {
        var i :| 0 <= i < |init| && x in rows(init[i]);
        assert x in rows(bs[i]);
      }
    }
  }

  lemma {:induction false} AscendingPrefix(bs: seq<Bundle>)
    requires bs != [] && Ascending(bs)
    ensures Ascending(bs[..|bs| - 1])
  {
    var init := bs[..|bs| - 1];
    assert forall i :: 0 <= i < |init| ==> init[i] == bs[i];
  }

  lemma {:induction false} TransferOrigin(b: Bundle, t: TokenTransfer)
    requires WellFormed(b) && t in b.transfers
    ensures t.blockHeight == b.block.height
    ensures exists l :: l in b.logs && TokenDecode.DecodeTransfer(l) == Some(t)
  {
    TokenDecode.DecodeAllIsImage(b.logs);
    var l :| l in b.logs && TokenDecode.DecodeTransfer(l) == Some(t);
  }

  lemma {:induction false} AscendingFlatten<T>(
      bs: seq<Bundle>, rows: Bundle -> seq<T>, height: T -> int, i: nat, j: nat)
    requires forall k, l :: 0 <= k < l < |bs| ==> bs[k].block.height < bs[l].block.height
    requires forall k, x :: 0 <= k < |bs| && x in rows(bs[k]) ==> height(x) == bs[k].block.height
    requires bs != []
    requires var init := Flatten(bs[..|bs| - 1], rows); i < |init| <= j < |Flatten(bs, rows)|
    ensures height(Flatten(bs, rows)[i]) < height(Flatten(bs, rows)[j])
    ensures Flatten(bs, rows)[j] == rows(bs[|bs| - 1])[j - |Flatten(bs[..|bs| - 1], rows)|]
  {
    var prev := bs[..|bs| - 1];
    var init := Flatten(prev, rows);
    FlattenMembers(prev, rows, init[i]);
    var k :| 0 <= k < |prev| && init[i] in rows(prev[k]);
    assert prev[k] == bs[k];
    assert Flatten(bs, rows)[j] in rows(bs[|bs| - 1]);
  }

  lemma {:induction false} BlocksSorted(bs: seq<Bundle>)
    requires Ascending(bs)
    ensures SortedBy(Flatten(bs, BlockRow), BlockOrder)
  {
    if bs != [] {
      AscendingPrefix(bs);
      BlocksSorted(bs[..|bs| - 1]);
      var all := Flatten(bs, BlockRow);
      var n := |Flatten(bs[..|bs| - 1], BlockRow)|;
      forall i, j | 0 <= i < j < |all| ensures KeyLeq(BlockOrder(all[i]), BlockOrder(all[j])) {
        if j >= n {
          AscendingFlatten(bs, BlockRow, (b: Block) => b.height, i, j);
        } else {
          assert all[..n][i] == all[i] && all[..n][j] == all[j];
        }
      }
    }
  }

  lemma {:induction false} TxsSorted(bs: seq<Bundle>)
    requires Ascending(bs)
    ensures SortedBy(Flatten(bs, TxRows), TxOrder)
  {
    if bs != [] {
      AscendingPrefix(bs);
      TxsSorted(bs[..|bs| - 1]);
      var all := Flatten(bs, TxRows);
      var last := bs[|bs| - 1];
      var n := |Flatten(bs[..|bs| - 1], TxRows)|;
      forall i, j | 0 <= i < j < |all| ensures KeyLeq(TxOrder(all[i]), TxOrder(all[j])) {
        if j < n {
          assert all[..n][i] == all[i] && all[..n][j] == all[j];
        } else if i < n {
          AscendingFlatten(bs, TxRows, (t: Transaction) => t.blockHeight, i, j);
        } else {
          assert all[i] == last.txs[i - n] && all[j] == last.txs[j - n];
        }
      }
    }
  }

  /** Two rows with one log coordinate share a sort key or sit in different blocks in block order. */
  lemma {:induction false} TransfersNoInversion(bs: seq<Bundle>)
    requires Ascending(bs)
    ensures NoKeyInversion(Flatten(bs, TransferRows), TransferOrder, TransferKey)
  {
    if bs != [] {
      AscendingPrefix(bs);
      TransfersNoInversion(bs[..|bs| - 1]);
      forall k, t | 0 <= k < |bs| && t in TransferRows(bs[k]) ensures t.blockHeight == bs[k].block.height {
        TransferOrigin(bs[k], t);
      }
      var all := Flatten(bs, TransferRows);
      var n := |Flatten(bs[..|bs| - 1], TransferRows)|;
      forall i, j | 0 <= i < j < |all| && !KeyLeq(TransferOrder(all[i]), TransferOrder(all[j]))
        ensures TransferKey(all[i]) != TransferKey(all[j])
      {
        if j < n {
          assert all[..n][i] == all[i] && all[..n][j] == all[j];
        } else if i < n {
          AscendingFlatten(bs, TransferRows, (t: TokenTransfer) => t.blockHeight, i, j);
        } else {
          assert all[i] in TransferRows(bs[|bs| - 1]) && all[j] in TransferRows(bs[|bs| - 1]);
        }
      }
    }
  }

  // ---------- sightings over several blocks ----------

  lemma {:induction false} SightingsConcat(a: seq<Transaction>, b: seq<Transaction>)
    requires forall s, t :: s in a && t in b ==> s.blockHeight <= t.blockHeight
    ensures Sightings(a + b) == Sightings(b) + Sightings(a)
  {
    if b == [] {
      assert a + b == a;
    } else {
      var init, x := b[..|b| - 1], b[|b| - 1];
      assert (a + b)[..|a + b| - 1] == a + init;
      assert b == init + [x];
      SightingsConcat(a, init);
      SightingsAreEarliest(a);
      var earlier := Sightings(a);
      assert forall k :: k in earlier ==> earlier[k] <= x.blockHeight;
      EarlierUnion(Sightings(init), earlier, x.fromAddr, x.blockHeight);
      if x.toAddr.Some? {
        EarlierUnion(Earlier(Sightings(init), x.fromAddr, x.blockHeight), earlier, x.toAddr.value, x.blockHeight);
      }
    }
  }

  lemma {:induction false} EarlierUnion(m: map<Address, int>, early: map<Address, int>, a: Address, h: int)
    requires forall k :: k in early ==> early[k] <= h
    ensures Earlier(m + early, a, h) == Earlier(m, a, h) + early
  {
  }

  /** Highest block each address occurs in, bundle by bundle. */
  function Latest(bs: seq<Bundle>): map<Address, int> {
    if bs == [] then map[] else Latest(bs[..|bs| - 1]) + Sightings(bs[|bs| - 1].txs)
  }

  /** A registry after sightings known by their earliest and latest heights. */
  function Span(m: map<Address, Sighting>, early: map<Address, int>, late: map<Address, int>): map<Address, Sighting> {
    map a | a in m.Keys + late.Keys ::
      if a !in late then m[a]
      else if a in m then Sighting(m[a].first, Max(m[a].last, late[a]))
      else Sighting(if a in early then early[a] else late[a], late[a])
  }

  /** What the fold leaves in the registry: first sighting kept, last sighting raised to the latest. */
  function RegisterSpan(m: map<Address, Sighting>, bs: seq<Bundle>): map<Address, Sighting> {
    Span(m, Sightings(Flatten(bs, TxRows)), Latest(bs))
  }

  /** In ascending bundles the earliest sighting of an address is no later than its latest, and both exist together. */
  lemma {:induction false} SpanOrder(bs: seq<Bundle>)
    requires Ascending(bs)
    ensures Sightings(Flatten(bs, TxRows)).Keys == Latest(bs).Keys
    ensures forall a :: a in Latest(bs) ==> Sightings(Flatten(bs, TxRows))[a] <= Latest(bs)[a]
    ensures bs != [] ==> forall a :: a in Latest(bs) ==> Latest(bs)[a] <= bs[|bs| - 1].block.height
  {
    if bs != [] {
      var init, b := bs[..|bs| - 1], bs[|bs| - 1];
      AscendingPrefix(bs);
      SpanOrder(init);
      FlattenSightings(bs);
      OneBlockSightings(b);
    }
  }

  lemma {:induction false} OneBlockSightings(b: Bundle)
    requires WellFormed(b)
    ensures forall a :: a in Sightings(b.txs) ==> Sightings(b.txs)[a] == b.block.height
  {
    SightingsAreEarliest(b.txs);
    forall a | a in Sightings(b.txs) ensures Sightings(b.txs)[a] == b.block.height {
      var t :| t in b.txs && Touches(t, a) && t.blockHeight == Sightings(b.txs)[a];
      var i :| 0 <= i < |b.txs| && b.txs[i] == t;
    }
  }

  lemma {:induction false} TxHeight(b: Bundle, t: Transaction)
    requires WellFormed(b) && t in b.txs
    ensures t.blockHeight == b.block.height
  {
    var i :| 0 <= i < |b.txs| && b.txs[i] == t;
  }

  lemma {:induction false} TxHeightsBelow(bs: seq<Bundle>, t: Transaction)
    requires bs != [] && Ascending(bs) && t in Flatten(bs[..|bs| - 1], TxRows)
    ensures t.blockHeight < bs[|bs| - 1].block.height
  {
    var init := bs[..|bs| - 1];
    FlattenMembers(init, TxRows, t);
    var k :| 0 <= k < |init| && t in TxRows(init[k]);
    assert init[k] == bs[k];
    var p :| 0 <= p < |bs[k].txs| && bs[k].txs[p] == t;
  }

  lemma {:induction false} FlattenSightings(bs: seq<Bundle>)
    requires bs != [] && Ascending(bs)
    ensures Sightings(Flatten(bs, TxRows)) ==
            Sightings(bs[|bs| - 1].txs) + Sightings(Flatten(bs[..|bs| - 1], TxRows))
  {
    var b := bs[|bs| - 1];
    var prev := Flatten(bs[..|bs| - 1], TxRows);
    forall s, t | s in prev && t in b.txs ensures s.blockHeight <= t.blockHeight {
      TxHeightsBelow(bs, s);
      TxHeight(b, t);
    }
    SightingsConcat(prev, b.txs);
  }

  lemma {:induction false} SpanUnion(
      m: map<Address, Sighting>, early: map<Address, int>, late: map<Address, int>, now: map<Address, int>, h: int)
    requires early.Keys == late.Keys
    requires forall a :: a in late ==> late[a] <= h
    requires forall a :: a in now ==> now[a] == h
    ensures Register(Span(m, early, late), now) == Span(m, now + early, late + now)
  {
    assert Register(Span(m, early, late), now).Keys == Span(m, now + early, late + now).Keys;
  }

  lemma {:induction false} SpanStep(m: map<Address, Sighting>, bs: seq<Bundle>)
    requires bs != [] && Ascending(bs)
    ensures Register(RegisterSpan(m, bs[..|bs| - 1]), Sightings(bs[|bs| - 1].txs)) == RegisterSpan(m, bs)
  {
    var init, b := bs[..|bs| - 1], bs[|bs| - 1];
    AscendingPrefix(bs);
    SpanOrder(init);
    FlattenSightings(bs);
    OneBlockSightings(b);
    if init != [] {
      assert init[|init| - 1].block.height < b.block.height;
    }
    SpanUnion(m, Sightings(Flatten(init, TxRows)), Latest(init), Sightings(b.txs), b.block.height);
  }

  // ---------- the two effects ----------

  lemma {:induction false} AscendingCursor(bs: seq<Bundle>)
    requires bs != [] && Ascending(bs)
    ensures MaxHeight(bs) == bs[|bs| - 1].block.height
  {
    if |bs| > 1 {
      AscendingPrefix(bs);
      AscendingCursor(bs[..|bs| - 1]);
    }
  }

  lemma {:induction false} AscendingTimestamp(bs: seq<Bundle>)
    requires bs != [] && Ascending(bs)
    ensures TimestampAt(bs, bs[|bs| - 1].block.height) == bs[|bs| - 1].block.timestamp
  {
    if |bs| > 1 {
      var rest := bs[1..];
      assert forall i :: 0 <= i < |rest| ==> rest[i] == bs[i + 1];
      AscendingTimestamp(rest);
    }
  }

  lemma {:induction false} BatchEffect(db: Db, bs: seq<Bundle>)
    requires bs != [] && Ascending(bs)
    ensures BatchTxn(db, bs) ==
            match TryFold(db, Flatten(bs, BlockRow), InsertBlock)
            case Err(e) => Err(e)
            case Ok(d) => Ok(Landed(d, db, Flatten(bs, TxRows), Flatten(bs, LogRows), Flatten(bs, TransferRows),
                                    Register(db.addresses, Sightings(Flatten(bs, TxRows))),
                                    bs[|bs| - 1].block.height, bs[|bs| - 1].block.timestamp))
  {
    BlocksSorted(bs);
    SortOfSorted(Flatten(bs, BlockRow), BlockOrder);
    TxsSorted(bs);
    SortOfSorted(Flatten(bs, TxRows), TxOrder);
    AscendingCursor(bs);
    AscendingTimestamp(bs);
    var d := TryFold(db, Flatten(bs, BlockRow), InsertBlock);
    if d.Ok? {
      InsertBlocksEffect(db, Flatten(bs, BlockRow));
      BatchTxsLand(d.value, bs);
      var txs := FirstWins(db.txs, Flatten(bs, TxRows), TxKey);
      var d3 := d.value.(txs := txs, addresses := Register(db.addresses, Sightings(Flatten(bs, TxRows))));
      BatchLogsLand(d3, db, bs);
      var d4 := d3.(logs := FirstWins(db.logs, Flatten(bs, LogRows), LogKey));
      InsertTransfersEffect(d4, StableSort(Flatten(bs, TransferRows), TransferOrder));
      TransfersNoInversion(bs);
      SortKeepsFirstWins(db.transfers, Flatten(bs, TransferRows), TransferOrder, TransferKey);
    }
  }

  lemma {:induction false} BatchTxsLand(d: Db, bs: seq<Bundle>)
    requires Ascending(bs)
    requires d.blocks.Keys >= (set b | b in Flatten(bs, BlockRow) :: b.height)
    ensures TryFold(d, Flatten(bs, TxRows), InsertTx) ==
            Ok(d.(txs := FirstWins(d.txs, Flatten(bs, TxRows), TxKey)))
  {
    forall t | t in Flatten(bs, TxRows) ensures t.blockHeight in d.blocks {
      FlattenMembers(bs, TxRows, t);
      var i :| 0 <= i < |bs| && t in TxRows(bs[i]);
      var k :| 0 <= k < |bs[i].txs| && bs[i].txs[k] == t;
      FlattenMembers(bs, BlockRow, bs[i].block);
      assert bs[i].block in BlockRow(bs[i]);
    }
    InsertTxsEffect(d, Flatten(bs, TxRows));
  }

  lemma {:induction false} BatchLogsLand(d: Db, db: Db, bs: seq<Bundle>)
    requires Ascending(bs) && d.logs == db.logs
    requires d.blocks.Keys >= (set b | b in Flatten(bs, BlockRow) :: b.height)
    requires d.txs == FirstWins(db.txs, Flatten(bs, TxRows), TxKey)
    ensures TryFold(d, StableSort(Flatten(bs, LogRows), LogKey), InsertLog) ==
            Ok(d.(logs := FirstWins(db.logs, Flatten(bs, LogRows), LogKey)))
  {
    var sorted := StableSort(Flatten(bs, LogRows), LogKey);
    FirstWinsContents(db.txs, Flatten(bs, TxRows), TxKey);
    forall l | l in sorted ensures l.blockHeight in d.blocks && l.txHash in d.txs {
      StableSortSound(Flatten(bs, LogRows), LogKey, (0, 0));
      assert l in multiset(sorted);
      assert l in Flatten(bs, LogRows);
      FlattenMembers(bs, LogRows, l);
      var i :| 0 <= i < |bs| && l in LogRows(bs[i]);
      FlattenMembers(bs, BlockRow, bs[i].block);
      assert bs[i].block in BlockRow(bs[i]);
      var t :| t in bs[i].txs && t.hash == l.txHash;
      FlattenMembers(bs, TxRows, t);
      assert t in TxRows(bs[i]);
      assert TxKey(t) in d.txs;
    }
    InsertLogsEffect(d, sorted);
    SortKeepsFirstWins(db.logs, Flatten(bs, LogRows), LogKey, LogKey);
  }

  /** The outcome of the fold, given the outcome `blocks` of its block inserts alone. */
  function FoldOutcome(db: Db, bs: seq<Bundle>, blocks: Result<Db>): Result<Db> {
    if blocks.Err? then blocks
    else if bs == [] then Ok(db)
    else Ok(Landed(blocks.value, db, Flatten(bs, TxRows), Flatten(bs, LogRows), Flatten(bs, TransferRows),
                   RegisterSpan(db.addresses, bs), bs[|bs| - 1].block.height, bs[|bs| - 1].block.timestamp))
  }

  lemma {:induction false} FoldEffect(db: Db, bs: seq<Bundle>)
    requires Ascending(bs)
    ensures TryFold(db, bs, WriteBlockTxn) == FoldOutcome(db, bs, TryFold(db, Flatten(bs, BlockRow), InsertBlock))
  {
    if bs != [] {
      var init, b := bs[..|bs| - 1], bs[|bs| - 1];
      AscendingPrefix(bs);
      FoldEffect(db, init);
      var prev := TryFold(db, Flatten(init, BlockRow), InsertBlock);
      TryFoldConcat(db, Flatten(init, BlockRow), [b.block], InsertBlock);
      assert [b.block][..0] == [];
      if prev.Ok? {
        assert TryFold(prev.value, [b.block], InsertBlock) == InsertBlock(prev.value, b.block);
        FoldStep(db, bs, prev.value);
      }
    }
  }

  /** Offering rows in two rounds is offering them in one, and the cursor keeps the greater height. */
  lemma {:induction false} LandedTwice(
      db: Db, d1: Db, d2: Db, t1: seq<Transaction>, t2: seq<Transaction>, l1: seq<Log>, l2: seq<Log>,
                    x1: seq<TokenTransfer>, x2: seq<TokenTransfer>,
                    a1: map<Address, Sighting>, a2: map<Address, Sighting>, h1: int, h2: int, s1: int, s2: int)
    requires h1 <= h2
    ensures Landed(d2, Landed(d1, db, t1, l1, x1, a1, h1, s1), t2, l2, x2, a2, h2, s2) ==
            Landed(d2, db, t1 + t2, l1 + l2, x1 + x2, a2, h2, s2)
  {
    FirstWinsConcat(db.txs, t1, t2, TxKey);
    FirstWinsConcat(db.logs, l1, l2, LogKey);
    FirstWinsConcat(db.transfers, x1, x2, TransferKey);
  }

  lemma {:induction false} FoldStep(db: Db, bs: seq<Bundle>, prev: Db)
    requires bs != [] && Ascending(bs)
    requires |bs| == 1 ==> prev == db
    ensures WriteBlockTxn(FoldOutcome(db, bs[..|bs| - 1], Ok(prev)).value, bs[|bs| - 1]) ==
            FoldOutcome(db, bs, InsertBlock(prev, bs[|bs| - 1].block))
  {
    var init, b := bs[..|bs| - 1], bs[|bs| - 1];
    SpanStep(db.addresses, bs);
    WriteBlockEffect(FoldOutcome(db, init, Ok(prev)).value, b);
    FoldFirst(db, bs);
    if init != [] {
      assert init[|init| - 1].block.height < b.block.height;
      FoldNext(db, bs, prev);
    }
  }

  lemma {:induction false} FoldNext(db: Db, bs: seq<Bundle>, prev: Db)
    requires |bs| > 1 && bs[|bs| - 2].block.height <= bs[|bs| - 1].block.height
    requires Register(RegisterSpan(db.addresses, bs[..|bs| - 1]), Sightings(bs[|bs| - 1].txs)) ==
             RegisterSpan(db.addresses, bs)
    ensures var b := bs[|bs| - 1];
            var mid := FoldOutcome(db, bs[..|bs| - 1], Ok(prev)).value;
            FoldOutcome(db, bs, InsertBlock(prev, b.block)) ==
            match InsertBlock(mid, b.block)
            case Err(e) => Err(e)
            case Ok(d) => Ok(Landed(d, mid, b.txs, b.logs, b.transfers,
                                    Register(mid.addresses, Sightings(b.txs)), b.block.height, b.block.timestamp))
  {
    var init, b := bs[..|bs| - 1], bs[|bs| - 1];
    var last := init[|init| - 1].block;
    var mid := FoldOutcome(db, init, Ok(prev)).value;
    assert mid.blocks == prev.blocks && mid.addresses == RegisterSpan(db.addresses, init);
    var hit := InsertBlock(mid, b.block);
    if hit.Ok? {
      LandedTwice(db, prev, hit.value, Flatten(init, TxRows), b.txs,
                  Flatten(init, LogRows), b.logs, Flatten(init, TransferRows), b.transfers,
                  RegisterSpan(db.addresses, init), RegisterSpan(db.addresses, bs),
                  last.height, b.block.height, last.timestamp, b.block.timestamp);
      assert InsertBlock(prev, b.block).value.blocks == hit.value.blocks;
    }
  }

  lemma {:induction false} FoldFirst(db: Db, bs: seq<Bundle>)
    requires bs != []
    ensures RegisterSpan(db.addresses, []) == db.addresses
    ensures |bs| == 1 ==> Flatten(bs, TxRows) == bs[0].txs && Flatten(bs, LogRows) == bs[0].logs
                          && Flatten(bs, TransferRows) == bs[0].transfers
  {
    assert Latest([]) == map[];
    assert RegisterSpan(db.addresses, []).Keys == db.addresses.Keys;
    if |bs| == 1 {
      assert bs[..0] == [];
    }
  }

  // ---------- main results ----------

  /** Equal but for last sightings, where `a` may lag behind `b`. */
  ghost predicate Lags(a: Db, b: Db) {
    && a.blocks == b.blocks && a.txs == b.txs && a.logs == b.logs && a.transfers == b.transfers
    && a.cursor == b.cursor && a.cursorTs == b.cursorTs
    && LagsBehind(a.addresses, b.addresses)
  }

  ghost predicate LagsBehind(a: map<Address, Sighting>, b: map<Address, Sighting>) {
    a.Keys == b.Keys && forall x :: LagsAt(a, b, x)
  }

  ghost predicate LagsAt(a: map<Address, Sighting>, b: map<Address, Sighting>, x: Address) {
    x in a && x in b ==> a[x].first == b[x].first && a[x].last <= b[x].last
  }

  /** Same outcome, and on success the first result lags the second. */
  ghost predicate SameUpToLag(a: Result<Db>, b: Result<Db>) {
    match (a, b)
    case (Ok(x), Ok(y)) => Lags(x, y)
    case (Err(e), Err(f)) => e == f
    case _ => false
  }

  lemma {:induction false} LandedLags(
      da: Db, d: Db, a: Db, b: Db, txs: seq<Transaction>, logs: seq<Log>, ts: seq<TokenTransfer>,
                   ra: map<Address, Sighting>, rb: map<Address, Sighting>, h: int, stamp: int)
    requires da.blocks == d.blocks && Lags(a, b) && LagsBehind(ra, rb)
    ensures Lags(Landed(da, a, txs, logs, ts, ra, h, stamp), Landed(d, b, txs, logs, ts, rb, h, stamp))
  {
  }

  lemma {:induction false} RegistersLag(ma: map<Address, Sighting>, mb: map<Address, Sighting>, bs: seq<Bundle>)
    requires LagsBehind(ma, mb) && Ascending(bs)
    ensures LagsBehind(Register(ma, Sightings(Flatten(bs, TxRows))), RegisterSpan(mb, bs))
  {
    SpanOrder(bs);
    var early, late := Sightings(Flatten(bs, TxRows)), Latest(bs);
    var ra, rb := Register(ma, early), Span(mb, early, late);
    assert ra.Keys == rb.Keys;
    forall x ensures LagsAt(ra, rb, x) {
      assert LagsAt(ma, mb, x);
    }
  }

  /** One batched commit against the block-by-block fold, from stores that already differ by a lag. */
  lemma {:induction false} BatchRefinesFold(a: Db, b: Db, bs: seq<Bundle>)
    requires Lags(a, b) && Ascending(bs)
    ensures SameUpToLag(BatchTxn(a, bs), TryFold(b, bs, WriteBlockTxn))
  {
    FoldEffect(b, bs);
    if bs != [] {
      BatchEffect(a, bs);
      var rows := Flatten(bs, BlockRow);
      BlocksDecide(a, b, rows);
      RegistersLag(a.addresses, b.addresses, bs);
      if TryFold(a, rows, InsertBlock).Ok? {
        var x, y := TryFold(a, rows, InsertBlock).value, TryFold(b, rows, InsertBlock).value;
        LandedLags(x, y, a, b, Flatten(bs, TxRows), Flatten(bs, LogRows), Flatten(bs, TransferRows),
                   Register(a.addresses, Sightings(Flatten(bs, TxRows))), RegisterSpan(b.addresses, bs),
                   bs[|bs| - 1].block.height, bs[|bs| - 1].block.timestamp);
      }
    }
  }

  /** The exact registry of both writers, and exactly when an address comes out the same. */
  lemma {:induction false} BatchSightingsExact(db: Db, bs: seq<Bundle>, a: Address)
    requires bs != [] && Ascending(bs) && BatchTxn(db, bs).Ok? && a in Latest(bs)
    ensures TryFold(db, bs, WriteBlockTxn).Ok?
    ensures var early, late := Sightings(Flatten(bs, TxRows)), Latest(bs);
            var batch, fold := BatchTxn(db, bs).value.addresses, TryFold(db, bs, WriteBlockTxn).value.addresses;
            && a in early && a in batch && a in fold
            && batch[a].last == (if a in db.addresses then Max(db.addresses[a].last, early[a]) else early[a])
            && fold[a].last == (if a in db.addresses then Max(db.addresses[a].last, late[a]) else late[a])
            && (batch[a] == fold[a] <==>
                early[a] == late[a] || (a in db.addresses && late[a] <= db.addresses[a].last))
  {
    FoldEffect(db, bs);
    BatchEffect(db, bs);
    SpanOrder(bs);
  }

  /** The lag is real: a sender active in two batched blocks keeps the first height as its last sighting. */
  lemma {:induction false} BatchLagsStrictly() returns (bs: seq<Bundle>, a: Address)
    ensures Ascending(bs) && BatchTxn(EMPTY, bs).Ok? && TryFold(EMPTY, bs, WriteBlockTxn).Ok?
    ensures a in BatchTxn(EMPTY, bs).value.addresses && a in TryFold(EMPTY, bs, WriteBlockTxn).value.addresses
    ensures BatchTxn(EMPTY, bs).value.addresses[a].last < TryFold(EMPTY, bs, WriteBlockTxn).value.addresses[a].last
  {
    var b0, b1 := FirstOfTwo(), SecondOfTwo();
    bs, a := [b0, b1], "a";
    OneSender(b0);
    OneSender(b1);
    assert Ascending([b0, b1]);
    TwoBlockSightings(b0, b1);
    LatestOfTwo(b0, b1);
    TwoFreshBlocks([b0, b1]);
    StrictLag(EMPTY, [b0, b1], "a");
  }

  function FirstOfTwo(): Bundle {
    Bundle(Block(0, "g", "", 0), [Transaction("s", 0, 0, "a", None, 0)], [], [])
  }

  function SecondOfTwo(): Bundle {
    Bundle(Block(1, "h", "g", 1), [Transaction("t", 1, 0, "a", None, 0)], [], [])
  }

  /** A new address sighted at two heights of one batch comes out behind. */
  lemma {:induction false} StrictLag(db: Db, bs: seq<Bundle>, a: Address)
    requires bs != [] && Ascending(bs) && TryFold(db, Flatten(bs, BlockRow), InsertBlock).Ok?
    requires a !in db.addresses && a in Latest(bs) && a in Sightings(Flatten(bs, TxRows))
    requires Sightings(Flatten(bs, TxRows))[a] < Latest(bs)[a]
    ensures BatchTxn(db, bs).Ok? && TryFold(db, bs, WriteBlockTxn).Ok?
    ensures a in BatchTxn(db, bs).value.addresses && a in TryFold(db, bs, WriteBlockTxn).value.addresses
    ensures BatchTxn(db, bs).value.addresses[a].last < TryFold(db, bs, WriteBlockTxn).value.addresses[a].last
  {
    BatchEffect(db, bs);
    BatchSightingsExact(db, bs, a);
  }

  lemma {:induction false} TwoBlockSightings(b0: Bundle, b1: Bundle)
    requires Ascending([b0, b1])
    ensures Sightings(Flatten([b0, b1], TxRows)) == Sightings(b1.txs) + Sightings(b0.txs)
  {
    FlattenOne(b0);
    assert [b0, b1][..1] == [b0];
    FlattenSightings([b0, b1]);
  }

  lemma {:induction false} FlattenOne(b: Bundle)
    ensures Flatten([b], TxRows) == b.txs
  {
    assert [b][..0] == [] && Flatten([], TxRows) == [];
  }

  lemma {:induction false} LatestOfTwo(b0: Bundle, b1: Bundle)
    ensures Latest([b0, b1]) == Sightings(b0.txs) + Sightings(b1.txs)
  {
    var bs := [b0, b1];
    assert bs[..1] == [b0] && [b0][..0] == [];
    assert Latest([]) == map[];
    assert Latest([b0]) == Sightings(b0.txs);
  }

  lemma {:induction false} OneSender(b: Bundle)
    requires |b.txs| == 1 && b.txs[0].toAddr.None? && b.txs[0].blockHeight == b.block.height && b.txs[0].txIndex == 0
    requires b.logs == [] && b.transfers == []
    ensures WellFormed(b) && Sightings(b.txs) == map[b.txs[0].fromAddr := b.block.height]
  {
    assert b.txs[..0] == [];
  }

  lemma {:induction false} TwoFreshBlocks(bs: seq<Bundle>)
    requires |bs| == 2 && bs[0].block.height != bs[1].block.height && bs[0].block.hash != bs[1].block.hash
    ensures TryFold(EMPTY, Flatten(bs, BlockRow), InsertBlock).Ok?
  {
    assert bs[..1][..0] == [];
    assert Flatten(bs[..1], BlockRow) == [bs[0].block];
    var rows := Flatten(bs, BlockRow);
    assert rows == [bs[0].block, bs[1].block];
    TwoFreshRows(rows);
  }

  lemma {:induction false} TwoFreshRows(rows: seq<Block>)
    requires |rows| == 2 && rows[0].height != rows[1].height && rows[0].hash != rows[1].hash
    ensures TryFold(EMPTY, rows, InsertBlock).Ok?
  {
    assert rows[..1] == [rows[0]] && rows[..1][..0] == [];
    var first := InsertBlock(EMPTY, rows[0]);
    assert TryFold(EMPTY, rows[..1], InsertBlock) == first;
    assert InsertBlock(first.value, rows[1]).Ok?;
  }

  /** A written block leaves its own timestamp beside the cursor, whether or not the cursor moved. */
  lemma {:induction false} WriteStamps(db: Db, b: Bundle)
    requires WellFormed(b) && WriteBlockTxn(db, b).Ok?
    ensures WriteBlockTxn(db, b).value.cursorTs == b.block.timestamp
  {
    WriteBlockEffect(db, b);
  }

  /** A batch leaves the timestamp of its highest block. */
  lemma {:induction false} BatchStamps(db: Db, bs: seq<Bundle>)
    requires bs != [] && Ascending(bs) && BatchTxn(db, bs).Ok?
    ensures BatchTxn(db, bs).value.cursorTs == bs[|bs| - 1].block.timestamp
  {
    BatchEffect(db, bs);
  }
}
