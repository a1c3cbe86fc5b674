/**
 The Postgres tables of the sync layer as values: keys, unique constraints, foreign keys, conflict
 clauses and the monotone cursor. A statement maps one committed state to the next or to an error.
 */
module Store {
  import opened Prelude
  import opened Folds
  import opened Rows

  /** First and last block an address was sighted in. */
  datatype Sighting = Sighting(first: int, last: int)

  datatype Db = Db(
    blocks: map<int, Block>,
    txs: map<Hash, Transaction>,
    logs: map<(int, int), Log>,
    transfers: map<(Hash, int), TokenTransfer>,
    addresses: map<Address, Sighting>,
    cursor: Option<int>,
    cursorTs: int)

  const EMPTY: Db := Db(map[], map[], map[], map[], map[], None, 0)

  /** `read_cursor` with the callers' default: -1 before the first write. */
  function CursorOf(db: Db): int {
    if db.cursor.None? then -1 else db.cursor.value
  }

  // ---------- single-row inserts ----------

  /** Height conflicts are skipped; a fresh height with a hash that is already stored is an error. */
  function InsertBlock(db: Db, b: Block): Result<Db> {
    if b.height in db.blocks then Ok(db)
    else if exists h :: h in db.blocks && db.blocks[h].hash == b.hash then Err(UniqueViolation)
    else Ok(db.(blocks := db.blocks[b.height := b]))
  }

  function InsertTx(db: Db, t: Transaction): Result<Db> {
    if t.hash in db.txs then Ok(db)
    else if t.blockHeight !in db.blocks then Err(ForeignKeyViolation)
    else Ok(db.(txs := db.txs[t.hash := t]))
  }

  function InsertLog(db: Db, l: Log): Result<Db> {
    if LogKey(l) in db.logs then Ok(db)
    else if l.blockHeight !in db.blocks || l.txHash !in db.txs then Err(ForeignKeyViolation)
    else Ok(db.(logs := db.logs[LogKey(l) := l]))
  }

  function InsertTransfer(db: Db, t: TokenTransfer): Result<Db> {
    Ok(db.(transfers := KeepFirst(db.transfers, t, TransferKey)))
  }

  /** GREATEST on the stored height; the timestamp is always refreshed. */
  function WriteCursor(db: Db, h: int, ts: int): Db {
    db.(cursor := Some(if db.cursor.None? then h else Max(db.cursor.value, h)), cursorTs := ts)
  }

  /** Cursor writes of any workers, in the order in which they commit. */
  function CursorWrites(db: Db, hs: seq<int>): Db {
    if hs == [] then db else WriteCursor(CursorWrites(db, hs[..|hs| - 1]), hs[|hs| - 1], 0)
  }

  /**
   However the writes of several workers interleave, the cursor ends at the greatest of its old value and the
   heights written, and no row changes.
   */
  lemma {:induction false} CursorIsGreatest(db: Db, hs: seq<int>)
    requires CursorOf(db) >= -1 && forall i :: 0 <= i < |hs| ==> hs[i] >= -1
    ensures var c := CursorOf(CursorWrites(db, hs));
            && c >= CursorOf(db) && (forall i :: 0 <= i < |hs| ==> c >= hs[i])
            && (c == CursorOf(db) || exists i :: 0 <= i < |hs| && c == hs[i])
    ensures CursorWrites(db, hs).(cursor := db.cursor, cursorTs := db.cursorTs) == db
  {
    if hs != [] {
      var init := hs[..|hs| - 1];
      assert forall i :: 0 <= i < |init| ==> init[i] == hs[i];
      CursorIsGreatest(db, init);
      var c := CursorOf(CursorWrites(db, init));
      if i :| 0 <= i < |init| && c == init[i] {
        assert c == hs[i];
      }
    }
  }

  // ---------- address upsert ----------

  function Sight(m: map<Address, Sighting>, a: Address, h: int): map<Address, Sighting> {
    m[a := if a in m then Sighting(m[a].first, Max(m[a].last, h)) else Sighting(h, h)]
  }

  /** The sightings as a table; a later pair replaces an earlier one. */
  function AsMap(seen: seq<(Address, int)>): map<Address, int> {
    if seen == [] then map[] else AsMap(seen[..|seen| - 1])[seen[|seen| - 1].0 := seen[|seen| - 1].1]
  }

  /** One multi-row upsert; Postgres refuses to touch the same row twice in one statement. */
  function UpsertBatch(m: map<Address, Sighting>, seen: seq<(Address, int)>): Result<map<Address, Sighting>> {
    if seen == [] then Ok(m)
    else
      var init, last := seen[..|seen| - 1], seen[|seen| - 1];
      if last.0 in AsMap(init) then Err(DuplicateUpsertTarget)
      else
        match UpsertBatch(m, init)
        case Err(e) => Err(e)
        case Ok(mid) => Ok(Sight(mid, last.0, last.1))
  }

  /** The registry after every address in `seen` was sighted at its height. */
  function Register(m: map<Address, Sighting>, seen: map<Address, int>): map<Address, Sighting> {
    map a | a in m.Keys + seen.Keys ::
      if a !in seen then m[a]
      else if a in m then Sighting(m[a].first, Max(m[a].last, seen[a]))
      else Sighting(seen[a], seen[a])
  }

  ghost predicate DistinctAddresses(seen: seq<(Address, int)>) {
    forall i, j :: 0 <= i < j < |seen| ==> seen[i].0 != seen[j].0
  }

  lemma {:induction false} AsMapKeys(seen: seq<(Address, int)>, a: Address)
    ensures a in AsMap(seen) <==> exists i :: 0 <= i < |seen| && seen[i].0 == a
  {
    if seen != [] {
      var init := seen[..|seen| - 1];
      AsMapKeys(init, a);
      assert forall i :: 0 <= i < |init| ==> init[i] == seen[i];
      if a in AsMap(init) {
        var i :| 0 <= i < |init| && init[i].0 == a;
        assert seen[i].0 == a;
      }
    }
  }

  lemma {:induction false} RegisterOne(m: map<Address, Sighting>, seen: map<Address, int>, a: Address, h: int)
    requires a !in seen
    ensures Sight(Register(m, seen), a, h) == Register(m, seen[a := h])
  {
    assert Sight(Register(m, seen), a, h).Keys == Register(m, seen[a := h]).Keys;
  }

  /** An upsert over distinct addresses succeeds and does not depend on their order. */
  lemma {:induction false} UpsertDistinct(m: map<Address, Sighting>, seen: seq<(Address, int)>)
    requires DistinctAddresses(seen)
    ensures UpsertBatch(m, seen) == Ok(Register(m, AsMap(seen)))
  {
    if seen == [] {
      assert Register(m, map[]) == m;
    } else {
      var init, last := seen[..|seen| - 1], seen[|seen| - 1];
      assert forall i :: 0 <= i < |init| ==> init[i] == seen[i];
      UpsertDistinct(m, init);
      AsMapKeys(init, last.0);
      RegisterOne(m, AsMap(init), last.0, last.1);
    }
  }

  lemma {:induction false} AsMapConcat(a: seq<(Address, int)>, b: seq<(Address, int)>)
    ensures AsMap(a + b) == AsMap(a) + AsMap(b)
  {
    if b == [] {
      assert a + b == a;
    } else {
      AsMapConcat(a, b[..|b| - 1]);
      assert (a + b)[..|a + b| - 1] == a + b[..|b| - 1];
    }
  }

  // ---------- referential integrity ----------

  /** Every row sits under its own key, every tx has its block, every log has its block and tx. */
  ghost predicate Integrity(db: Db) {
    && (forall h :: h in db.blocks ==> db.blocks[h].height == h)
    && (forall k :: k in db.txs ==> db.txs[k].hash == k && db.txs[k].blockHeight in db.blocks)
    && (forall k :: k in db.logs ==>
          LogKey(db.logs[k]) == k && db.logs[k].blockHeight in db.blocks && db.logs[k].txHash in db.txs)
    && (forall k :: k in db.transfers ==> TransferKey(db.transfers[k]) == k)
  }

  // ---------- cascading delete ----------

  /** Delete blocks at or above `h`; the foreign keys cascade to txs and logs, not to transfers. */
  function DeleteFrom(db: Db, h: int): Db {
    var blocks := map k | k in db.blocks && k < h :: db.blocks[k];
    var txs := map k | k in db.txs && db.txs[k].blockHeight in blocks :: db.txs[k];
    var logs := map k | k in db.logs && db.logs[k].blockHeight in blocks && db.logs[k].txHash in txs :: db.logs[k];
    db.(blocks := blocks, txs := txs, logs := logs)
  }

  /**
   On a consistent store the cascade removes exactly the rows at or above the height plus the logs
   of removed txs, leaves every other row alone, and leaves a consistent store.
   */
  lemma {:induction false} CascadeIsExact(db: Db, h: int)
    requires Integrity(db)
    ensures var d := DeleteFrom(db, h);
            && Integrity(d)
            && (forall k :: k in d.blocks <==> k in db.blocks && k < h)
            && (forall k :: k in d.txs <==> k in db.txs && db.txs[k].blockHeight < h)
            && (forall k :: k in d.logs <==>
                  k in db.logs && db.logs[k].blockHeight < h && db.txs[db.logs[k].txHash].blockHeight < h)
            && (forall k :: k in d.blocks ==> d.blocks[k] == db.blocks[k])
            && (forall k :: k in d.txs ==> d.txs[k] == db.txs[k])
            && (forall k :: k in d.logs ==> d.logs[k] == db.logs[k])
            && d.transfers == db.transfers && d.addresses == db.addresses
  {
  }
}
