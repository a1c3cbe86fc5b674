/** Reorg detection by walking back over mismatching hashes, and the rewind as written and as intended. */
module Reorg {
  import opened Prelude
  import opened Rows
  import opened Store
  import opened BlockWriter
  import opened Confluence
  import opened SyncProtocol

  /** What the node says about the block at a height. */
  datatype Remote = Has(hash: Hash) | Missing | Unreachable

  /** The reset the comments ask for: delete from `h` and put the cursor on `h - 1`. */
  function IntendedRewind(db: Db, h: int): Db {
    DeleteFrom(db, h).(cursor := Some(h - 1), cursorTs := 0)
  }

  /** The reset as written: the cursor goes through the monotone upsert. */
  function Rewind(db: Db, h: int): Db {
    WriteCursor(DeleteFrom(db, h), h - 1, 0)
  }

  /** What a rewind of a consistent store to `h` removes and keeps. */
  ghost predicate RewindRemoves(db: Db, d: Db, h: int)
    requires Integrity(db)
  {
    && Integrity(d)
    && (forall k :: k in d.blocks <==> k in db.blocks && k < h)
    && (forall k :: k in d.txs <==> k in db.txs && db.txs[k].blockHeight < h)
    && (forall k :: k in d.logs <==>
          k in db.logs && db.logs[k].blockHeight < h && db.txs[db.logs[k].txHash].blockHeight < h)
    && (forall k :: k in d.blocks ==> d.blocks[k] == db.blocks[k])
    && (forall k :: k in d.txs ==> d.txs[k] == db.txs[k])
    && (forall k :: k in d.logs ==> d.logs[k] == db.logs[k])
    && d.transfers == db.transfers && d.addresses == db.addresses
    && d.cursor.Some? && d.cursor.value >= h - 1 && (db.cursor.Some? ==> d.cursor.value >= db.cursor.value)
  }

  ghost predicate Mismatch(db: Db, remote: int -> Remote, h: int) {
    h in db.blocks && remote(h).Has? && remote(h).hash != db.blocks[h].hash
  }

  ghost predicate Match(db: Db, remote: int -> Remote, h: int) {
    h in db.blocks && remote(h).Has? && remote(h).hash == db.blocks[h].hash
  }

  /** Everything from `d` up to below the probe mismatches, and just below `d` it no longer does. */
  ghost predicate IsDivergence(db: Db, remote: int -> Remote, probe: int, d: int) {
    && 0 <= d <= probe
    && (forall h :: d <= h < probe ==> Mismatch(db, remote, h))
    && (d == 0 || d - 1 !in db.blocks || remote(d - 1).Missing? || Match(db, remote, d - 1))
  }

  lemma {:induction false} DivergenceIsUnique(db: Db, remote: int -> Remote, probe: int, d: int, e: int)
    requires IsDivergence(db, remote, probe, d) && IsDivergence(db, remote, probe, e)
    ensures d == e
  {
    assert d <= e - 1 < probe ==> Mismatch(db, remote, e - 1);
    assert e <= d - 1 < probe ==> Mismatch(db, remote, d - 1);
  }

  /** The node cannot be reached at some height below the probe above which everything mismatches. */
  ghost predicate Blocked(db: Db, remote: int -> Remote, probe: int) {
    exists u :: 0 <= u < probe && remote(u).Unreachable? && forall h :: u < h < probe ==> Mismatch(db, remote, h)
  }

  method WalkBackToDivergence(pool: Pool, remote: int -> Remote, probe: int) returns (r: Result<int>)
    requires probe >= 0
    ensures r.Ok? ==> IsDivergence(pool.db, remote, probe, r.value)
    ensures r.Err? <==> Blocked(pool.db, remote, probe)
  {
    var cursor := probe;
    while cursor != 0
      invariant 0 <= cursor <= probe
      invariant forall h :: cursor <= h < probe ==> Mismatch(pool.db, remote, h)
      invariant Blocked(pool.db, remote, probe) ==> Blocked(pool.db, remote, cursor)
    {
      var parent := cursor - 1;
      if remote(parent).Unreachable? {
        return Err(ChainFailure);
      }
      assert Mismatch(pool.db, remote, parent) ==> parent in pool.db.blocks && remote(parent).Has?;
      if parent !in pool.db.blocks || remote(parent).Missing? {
        return Ok(cursor);
      }
      if remote(parent).hash == pool.db.blocks[parent].hash {
        return Ok(cursor);
      }
      cursor := parent;
    }
    return Ok(0);
  }

  method RewindTo(pool: Pool, h: int, online: bool) returns (r: Result<()>)
    modifies pool
    ensures r == if online then Ok(()) else Err(DatabaseDown)
    ensures pool.db == if online then Rewind(old(pool.db), h) else old(pool.db)
    // Exactly the rows at or above the height go, with the logs of the txs that go; the cursor never falls.
    ensures r.Ok? && Integrity(old(pool.db)) ==> RewindRemoves(old(pool.db), pool.db, h)
  {
    if !online {
      return Err(DatabaseDown);
    }
    var work := DeleteFrom(pool.db, h);
    pool.db := WriteCursor(work, h - 1, 0);
    return Ok(());
  }

  /** One pass; `rewound` is the divergence height when rows were deleted. */
  method CheckOnce(pool: Pool, remote: int -> Remote, depth: nat, cursor: int, online: bool)
    returns (r: Result<int>, ghost rewound: Option<int>)
    modifies pool
    ensures rewound.None? ==> pool.db == old(pool.db) && (r.Ok? ==> r.value == cursor)
    ensures rewound.Some? ==>
              var d, probe := rewound.value, Max(cursor - depth, 0);
              && r == Ok(d - 1) && cursor >= 0 && pool.db == Rewind(old(pool.db), d)
              && Mismatch(old(pool.db), remote, probe) && IsDivergence(old(pool.db), remote, probe, d)
    ensures var probe := Max(cursor - depth, 0);
            cursor < 0 || probe !in old(pool.db).blocks || remote(probe).Missing? || Match(old(pool.db), remote, probe)
            ==> rewound.None? && r == Ok(cursor)
    // A mismatching probe is rewound unless the walk back or the rewind is kept from it; nothing else is.
    ensures rewound.Some? <==>
            && cursor >= 0 && online && Mismatch(old(pool.db), remote, Max(cursor - depth, 0))
            && !Blocked(old(pool.db), remote, Max(cursor - depth, 0))
    // The pass fails exactly on an unreachable node or, with something to rewind, an offline database.
    ensures r.Err? <==>
            var probe := Max(cursor - depth, 0);
            && cursor >= 0 && probe in old(pool.db).blocks
            && (remote(probe).Unreachable?
                || (Mismatch(old(pool.db), remote, probe) && (Blocked(old(pool.db), remote, probe) || !online)))
  {
    rewound := None;
    if cursor < 0 {
      return Ok(cursor), rewound;
    }
    var probe := Max(cursor - depth, 0);
    if probe !in pool.db.blocks {
      return Ok(cursor), rewound;
    }
    var local := pool.db.blocks[probe];
    match remote(probe) {
      case Unreachable => return Err(ChainFailure), rewound;
      case Missing => return Ok(cursor), rewound;
      case Has(hash) =>
        if hash == local.hash {
          return Ok(cursor), rewound;
        }
    }
    var d := WalkBackToDivergence(pool, remote, probe);
    if d.Err? {
      return Err(d.error), rewound;
    }
    var w := RewindTo(pool, d.value, online);
    if w.Err? {
      return Err(w.error), rewound;
    }
    rewound := Some(d.value);
    return Ok(d.value - 1), rewound;
  }

  /** With the node reachable at and below the probe nothing is blocked. */
  lemma {:induction false} ReachableIsNotBlocked(db: Db, remote: int -> Remote, probe: int)
    requires forall h :: 0 <= h < probe ==> !remote(h).Unreachable?
    ensures !Blocked(db, remote, probe)
  {
  }

  // ---------- coverage after the two rewinds ----------

  /** The intended reset re-establishes the covered prefix, whatever was deleted. */
  lemma {:induction false} IntendedRewindCovers(db: Db, gaps: set<int>, d: int)
    requires Covered(db, gaps, CursorOf(db)) && 0 <= d <= CursorOf(db) + 1
    ensures var t := IntendedRewind(db, d);
            CursorOf(t) == d - 1 && Covered(t, gaps, CursorOf(t))
  {
  }

  /**
   The reset as written keeps the old cursor, and the covered prefix survives it exactly when every
   height from the divergence to that cursor had been answered 404.
   */
  lemma {:induction false} RewindCoverageIff(db: Db, gaps: set<int>, d: int)
    requires Covered(db, gaps, CursorOf(db)) && 0 <= d <= CursorOf(db) + 1
    ensures CursorOf(Rewind(db, d)) == CursorOf(db)
    ensures Covered(Rewind(db, d), gaps, CursorOf(Rewind(db, d))) <==> forall h :: d <= h <= CursorOf(db) ==> h in gaps
  {
    var t := Rewind(db, d);
    if Covered(t, gaps, CursorOf(t)) {
      forall h | d <= h <= CursorOf(db) ensures h in gaps {
        assert h !in t.blocks;
      }
    }
  }

  /**
   Whenever the checker rewinds at the persisted cursor, the divergence block was stored, so coverage
   is lost unless that very height was also once answered 404; and the height it returns is not the
   one it persisted.
   */
  lemma {:induction false} CheckOnceLosesCoverage(db: Db, gaps: set<int>, remote: int -> Remote, depth: nat, d: int)
    requires Covered(db, gaps, CursorOf(db)) && CursorOf(db) >= 0
    requires var probe := Max(CursorOf(db) - depth, 0);
             Mismatch(db, remote, probe) && IsDivergence(db, remote, probe, d)
    ensures d in db.blocks && CursorOf(Rewind(db, d)) > d - 1
    ensures d !in gaps ==> !Covered(Rewind(db, d), gaps, CursorOf(Rewind(db, d)))
  {
    var probe := Max(CursorOf(db) - depth, 0);
    if d < probe {
      assert Mismatch(db, remote, d);
    }
    RewindCoverageIff(db, gaps, d);
  }

  // ---------- the hash-chain argument ----------

  ghost predicate Linked(chain: int -> Bundle) {
    forall h :: h > 0 ==> chain(h).block.parentHash == chain(h - 1).block.hash
  }

  /** Equal hashes mean equal blocks, on and across the two chains. */
  ghost predicate HashesCommit(a: int -> Bundle, b: int -> Bundle) {
    forall g, h :: a(g).block.hash == b(h).block.hash ==> a(g) == b(h)
  }

  /** Two linked chains that agree on one hash agree on every block below it. */
  lemma {:induction false} AgreementRunsDown(a: int -> Bundle, b: int -> Bundle, top: int, h: int)
    requires Linked(a) && Linked(b) && HashesCommit(a, b) && a(top).block.hash == b(top).block.hash
    requires 0 <= h <= top
    ensures a(h) == b(h)
    decreases top
  {
    if h < top {
      assert a(top) == b(top);
      assert a(top).block.parentHash == a(top - 1).block.hash && b(top).block.parentHash == b(top - 1).block.hash;
      AgreementRunsDown(a, b, top - 1, h);
    }
  }

  /** The node answers with the canonical chain where it answers at all. */
  ghost predicate Serves(remote: int -> Remote, canon: int -> Bundle) {
    forall h :: remote(h).Has? ==> remote(h).hash == canon(h).block.hash
  }

  /** A walk that ended on a match (or at genesis) found the exact fork point of a store built from one fork. */
  lemma {:induction false} DivergenceIsForkPoint(
      db: Db, fork: int -> Bundle, canon: int -> Bundle, remote: int -> Remote, probe: int, d: int)
    requires Linked(fork) && Linked(canon) && HashesCommit(fork, canon) && Serves(remote, canon)
    requires Confluence.Canonical(db, fork) && IsDivergence(db, remote, probe, d)
    requires d == 0 || Match(db, remote, d - 1)
    ensures forall h :: 0 <= h < d ==> fork(h) == canon(h)
    ensures forall h :: d <= h < probe ==> fork(h).block.hash != canon(h).block.hash
  {
    forall h | 0 <= h < d ensures fork(h) == canon(h) {
      StoredBlock(db, fork, d - 1);
      AgreementRunsDown(fork, canon, d - 1, h);
    }
    forall h | d <= h < probe ensures fork(h).block.hash != canon(h).block.hash {
      assert Mismatch(db, remote, h);
      StoredBlock(db, fork, h);
    }
  }

  // ---------- recovery ----------

  lemma {:induction false} PruneTable<K(!new), V(!new)>(
      m: map<K, V>, n: map<K, V>, hs: set<int>, d: int, rows: int -> seq<V>, rows': int -> seq<V>,
      key: V -> K, height: V -> int)
    requires RowsSane(rows, key, height) && TableImage(m, hs, rows, key, height)
    requires forall h :: h in hs && h < d ==> rows(h) == rows'(h)
    requires forall k :: k in n <==> k in m && height(m[k]) < d
    requires forall k :: k in n ==> n[k] == m[k]
    ensures TableImage(n, (set h | h in hs && h < d), rows', key, height)
  {
    var kept := set h | h in hs && h < d;
    forall k ensures RowFits(n, kept, rows', key, height, k) {
      assert RowFits(m, hs, rows, key, height, k);
    }
    forall h, v | h in kept && HasRow(rows', h, v) ensures Stores(n, key, v) {
      assert HasRow(rows, h, v);
      assert Stores(m, key, v);
    }
  }

  /** Deleting from the fork point leaves exactly the canonical rows of the heights below it. */
  lemma {:induction false} PrunedIsCanonical(db: Db, fork: int -> Bundle, canon: int -> Bundle, d: int)
    requires ChainSane(fork) && Confluence.Canonical(db, fork) && Integrity(db)
    requires forall h :: h in db.blocks && h < d ==> fork(h) == canon(h)
    ensures Confluence.Canonical(DeleteFrom(db, d), canon)
  {
    CascadeIsExact(db, d);
    assert DeleteFrom(db, d).blocks.Keys == (set h | h in db.blocks.Keys && h < d);
    PrunedBlocks(db, DeleteFrom(db, d).blocks, fork, canon, d);
    PrunedTxs(db, DeleteFrom(db, d).txs, fork, canon, d);
    forall k | k in db.logs ensures db.txs[db.logs[k].txHash].blockHeight == db.logs[k].blockHeight {
      LogSitsWithItsTx(db, fork, k);
    }
    PrunedLogs(db, DeleteFrom(db, d).logs, fork, canon, d);
  }

  lemma {:induction false} PrunedBlocks(db: Db, n: map<int, Block>, fork: int -> Bundle, canon: int -> Bundle, d: int)
    requires ChainSane(fork) && Confluence.Canonical(db, fork) && Integrity(db)
    requires forall h :: h in db.blocks && h < d ==> fork(h) == canon(h)
    requires forall k :: k in n <==> k in db.blocks && k < d
    requires forall k :: k in n ==> n[k] == db.blocks[k]
    ensures TableImage(n, (set h | h in db.blocks.Keys && h < d), BlocksAt(canon), BlockKey, BlockKey)
  {
    BlocksAreSane(fork);
    forall k | k in db.blocks ensures BlockKey(db.blocks[k]) == k {
    }
    PruneTable(db.blocks, n, db.blocks.Keys, d, BlocksAt(fork), BlocksAt(canon), BlockKey, BlockKey);
  }

  lemma {:induction false} PrunedTxs(
      db: Db, n: map<Hash, Transaction>, fork: int -> Bundle, canon: int -> Bundle, d: int)
    requires ChainSane(fork) && Confluence.Canonical(db, fork)
    requires forall h :: h in db.blocks && h < d ==> fork(h) == canon(h)
    requires forall k :: k in n <==> k in db.txs && db.txs[k].blockHeight < d
    requires forall k :: k in n ==> n[k] == db.txs[k]
    ensures TableImage(n, (set h | h in db.blocks.Keys && h < d), TxsAt(canon), TxKey, TxHeightOf)
  {
    PruneTable(db.txs, n, db.blocks.Keys, d, TxsAt(fork), TxsAt(canon), TxKey, TxHeightOf);
  }

  lemma {:induction false} PrunedLogs(
      db: Db, n: map<(int, int), Log>, fork: int -> Bundle, canon: int -> Bundle, d: int)
    requires ChainSane(fork) && Confluence.Canonical(db, fork)
    requires forall h :: h in db.blocks && h < d ==> fork(h) == canon(h)
    requires forall k :: k in n <==> k in db.logs && db.logs[k].blockHeight < d
    requires forall k :: k in n ==> n[k] == db.logs[k]
    ensures TableImage(n, (set h | h in db.blocks.Keys && h < d), LogsAt(canon), LogKey, LogHeightOf)
  {
    PruneTable(db.logs, n, db.blocks.Keys, d, LogsAt(fork), LogsAt(canon), LogKey, LogHeightOf);
  }

  lemma {:induction false} LogSitsWithItsTx(db: Db, chain: int -> Bundle, k: (int, int))
    requires ChainSane(chain) && Confluence.Canonical(db, chain) && Integrity(db) && k in db.logs
    ensures db.txs[db.logs[k].txHash].blockHeight == db.logs[k].blockHeight
  {
    assert RowFits(db.logs, db.blocks.Keys, LogsAt(chain), LogKey, LogHeightOf, k);
    var l := db.logs[k];
    assert BundleSane(chain, l.blockHeight);
    var x :| x in chain(l.blockHeight).txs && x.hash == l.txHash;
    assert HasRow(TxsAt(chain), l.blockHeight, x);
    assert Stores(db.txs, TxKey, x);
  }

  // ---------- token transfers are not rewound ----------

  /** No foreign key, no cascade: the transfers match the pruned blocks exactly when none sits at or above `d`. */
  lemma {:induction false} TransfersStaleIff(db: Db, fork: int -> Bundle, canon: int -> Bundle, d: int)
    requires ChainSane(fork) && Image(db, fork) && Integrity(db)
    requires forall h :: h in db.blocks && h < d ==> fork(h) == canon(h)
    ensures Image(DeleteFrom(db, d), canon) <==> forall k :: k in db.transfers ==> db.transfers[k].blockHeight < d
  {
    var t := DeleteFrom(db, d);
    PrunedIsCanonical(db, fork, canon, d);
    CascadeIsExact(db, d);
    assert t.blocks.Keys == (set h | h in db.blocks.Keys && h < d);
    if forall k :: k in db.transfers ==> db.transfers[k].blockHeight < d {
      TransfersAreSane(fork);
      PruneTable(db.transfers, t.transfers, db.blocks.Keys, d, TransfersAt(fork), TransfersAt(canon),
                 TransferKey, TransferHeightOf);
    }
    if Image(t, canon) {
      forall k | k in db.transfers ensures db.transfers[k].blockHeight < d {
        assert RowFits(t.transfers, t.blocks.Keys, TransfersAt(canon), TransferKey, TransferHeightOf, k);
      }
    }
  }
}
