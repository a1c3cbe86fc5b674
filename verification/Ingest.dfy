/** The plain meaning of syncing a range: one height after another, write what exists, step over 404s. */
module Ingest {
  import opened Prelude
  import opened Folds
  import opened Rows
  import opened Store
  import opened BlockWriter
  import opened BatchRefinement
  import opened Fetch

  function IngestOne(db: Db, h: int, a: Answer): Result<Db> {
    match a
    case Found(b) => WriteBlockTxn(db, b)
    case NotFound => Ok(WriteCursor(db, h, 0))
    case Failed(e) => Err(e)
  }

  /** Heights `lo` to `hi` inclusive, in ascending order. */
  function IngestRange(db: Db, answers: int -> Answer, lo: int, hi: int): Result<Db>
    decreases hi - lo
  {
    if hi < lo then Ok(db)
    else
      var d :- IngestRange(db, answers, lo, hi - 1);
      IngestOne(d, hi, answers(hi))
  }

  /** A found bundle is the block that was asked for, in the shape the fetchers build. */
  ghost predicate Honest(answers: int -> Answer) {
    forall h :: HonestAt(answers, h)
  }

  ghost predicate HonestAt(answers: int -> Answer, h: int) {
    answers(h).Found? ==> answers(h).bundle.block.height == h && WellFormed(answers(h).bundle)
  }

  /** Answers that come out of the fetchers are honest. */
  lemma {:induction false} FetchedIsHonest(answers: int -> Answer)
    requires forall h :: answers(h).Found? ==> FetchedAt(h, answers(h).bundle)
    ensures Honest(answers)
  {
    forall h ensures HonestAt(answers, h) {
      if answers(h).Found? {
        FetchedAnswers(h, answers(h).bundle);
      }
    }
  }

  /** `buf` holds the answers for the `|buf|` heights ending at `hi`. */
  ghost predicate Buffered(buf: seq<Bundle>, answers: int -> Answer, hi: int) {
    forall i :: 0 <= i < |buf| ==> answers(hi - |buf| + 1 + i) == Found(buf[i])
  }

  lemma {:induction false} BufferedAscending(buf: seq<Bundle>, answers: int -> Answer, hi: int)
    requires Honest(answers) && Buffered(buf, answers, hi)
    ensures Ascending(buf)
    ensures forall i :: 0 <= i < |buf| ==> buf[i].block.height == hi - |buf| + 1 + i
  {
    forall i | 0 <= i < |buf| ensures buf[i].block.height == hi - |buf| + 1 + i && WellFormed(buf[i]) {
      assert answers(hi - |buf| + 1 + i) == Found(buf[i]);
      assert HonestAt(answers, hi - |buf| + 1 + i);
    }
  }

  lemma {:induction false} FoldSnoc(start: Db, buf: seq<Bundle>, before: Result<Db>, after: Result<Db>)
    requires buf != [] && before == TryFold(start, buf[..|buf| - 1], WriteBlockTxn)
    requires after == match before
                      case Err(e) => Err(e)
                      case Ok(d) => WriteBlockTxn(d, buf[|buf| - 1])
    ensures after == TryFold(start, buf, WriteBlockTxn)
  {
  }

  /** Folding the buffer over the store is ingesting its heights. */
  lemma {:induction false} FoldIsIngest(db: Db, answers: int -> Answer, lo: int, hi: int, buf: seq<Bundle>)
    requires Buffered(buf, answers, hi) && lo <= hi - |buf| + 1
    requires IngestRange(db, answers, lo, hi - |buf|).Ok?
    ensures IngestRange(db, answers, lo, hi) ==
            TryFold(IngestRange(db, answers, lo, hi - |buf|).value, buf, WriteBlockTxn)
    decreases |buf|
  {
    if buf != [] {
      var init := buf[..|buf| - 1];
      forall i | 0 <= i < |init| ensures answers(hi - 1 - |init| + 1 + i) == Found(init[i]) {
        assert init[i] == buf[i];
      }
      FoldIsIngest(db, answers, lo, hi - 1, init);
      assert answers(hi - |buf| + 1 + (|buf| - 1)) == Found(buf[|buf| - 1]);
      LastIngest(db, answers, lo, hi, buf[|buf| - 1]);
      FoldSnoc(IngestRange(db, answers, lo, hi - |buf|).value, buf,
               IngestRange(db, answers, lo, hi - 1), IngestRange(db, answers, lo, hi));
    }
  }

  lemma {:induction false} LastIngest(db: Db, answers: int -> Answer, lo: int, hi: int, b: Bundle)
    requires lo <= hi && answers(hi) == Found(b)
    ensures IngestRange(db, answers, lo, hi) ==
            match IngestRange(db, answers, lo, hi - 1)
            case Err(e) => Err(e)
            case Ok(d) => WriteBlockTxn(d, b)
  {
  }

  /** One batched commit of the buffer tracks the plain ingestion of its heights. */
  lemma {:induction false} BatchTracksIngest(a: Db, db: Db, answers: int -> Answer, lo: int, hi: int, buf: seq<Bundle>)
    requires Honest(answers) && Buffered(buf, answers, hi) && lo <= hi - |buf| + 1
    requires SameUpToLag(Ok(a), IngestRange(db, answers, lo, hi - |buf|))
    ensures SameUpToLag(BatchTxn(a, buf), IngestRange(db, answers, lo, hi))
  {
    BufferedAscending(buf, answers, hi);
    FoldIsIngest(db, answers, lo, hi, buf);
    BatchRefinesFold(a, IngestRange(db, answers, lo, hi - |buf|).value, buf);
  }

  /** An ingested range ingested every shorter prefix on the way. */
  lemma {:induction false} IngestPrefix(db: Db, answers: int -> Answer, lo: int, mid: int, hi: int)
    requires mid <= hi && IngestRange(db, answers, lo, hi).Ok?
    ensures IngestRange(db, answers, lo, mid).Ok?
    ensures lo <= mid ==> !answers(mid).Failed?
    decreases hi - mid
  {
    if mid < hi && lo <= hi {
      IngestPrefix(db, answers, lo, mid, hi - 1);
    }
  }

  lemma {:induction false} IngestOneEffect(db: Db, answers: int -> Answer, h: int)
    requires Honest(answers) && IngestOne(db, h, answers(h)).Ok?
    ensures var d := IngestOne(db, h, answers(h)).value;
            && (forall k :: k in db.blocks ==> k in d.blocks && d.blocks[k] == db.blocks[k])
            && (h in d.blocks || answers(h).NotFound?)
            && d.cursor == Some(if db.cursor.None? then h else Max(db.cursor.value, h))
  {
    assert HonestAt(answers, h);
    if answers(h).Found? {
      WriteBlockEffect(db, answers(h).bundle);
    }
  }

  /** Every height of an ingested range is stored or was a 404, and the cursor is at least its end. */
  lemma {:induction false} IngestCovers(db: Db, answers: int -> Answer, lo: int, hi: int)
    requires Honest(answers) && IngestRange(db, answers, lo, hi).Ok?
    ensures var d := IngestRange(db, answers, lo, hi).value;
            && (forall h :: h in db.blocks ==> h in d.blocks && d.blocks[h] == db.blocks[h])
            && (forall h :: lo <= h <= hi ==> h in d.blocks || answers(h).NotFound?)
            && (lo <= hi ==> d.cursor == Some(if db.cursor.None? then hi else Max(db.cursor.value, hi)))
            && (hi < lo ==> d == db)
    decreases hi - lo
  {
    if lo <= hi {
      IngestCovers(db, answers, lo, hi - 1);
      IngestOneEffect(IngestRange(db, answers, lo, hi - 1).value, answers, hi);
    }
  }

  /** `model(k)` is the ingestion of `lo` to `k` into `db0`, for every `k`. */
  ghost predicate IsIngestion(model: int -> Result<Db>, db0: Db, answers: int -> Answer, lo: int) {
    forall k :: IsIngestionAt(model, db0, answers, lo, k)
  }

  ghost predicate IsIngestionAt(model: int -> Result<Db>, db0: Db, answers: int -> Answer, lo: int, k: int) {
    model(k) == IngestRange(db0, answers, lo, k)
  }

  lemma {:induction false} ModelPrefix(
      model: int -> Result<Db>, db0: Db, answers: int -> Answer, lo: int, mid: int, hi: int)
    requires IsIngestion(model, db0, answers, lo) && mid <= hi && model(hi).Ok?
    ensures model(mid).Ok?
    ensures lo <= hi ==> !answers(hi).Failed?
  {
    assert IsIngestionAt(model, db0, answers, lo, mid) && IsIngestionAt(model, db0, answers, lo, hi);
    IngestPrefix(db0, answers, lo, mid, hi);
  }

  lemma {:induction false} ModelStep(
      model: int -> Result<Db>, db0: Db, answers: int -> Answer, lo: int, h: int, db: Db)
    requires IsIngestion(model, db0, answers, lo) && lo <= h && model(h - 1) == Ok(db)
    ensures model(h) == IngestOne(db, h, answers(h))
  {
    assert IsIngestionAt(model, db0, answers, lo, h) && IsIngestionAt(model, db0, answers, lo, h - 1);
  }

  /** Ingesting from `lo` as a function of the last height. */
  ghost function RangeModel(db: Db, answers: int -> Answer, lo: int): int -> Result<Db> {
    k => IngestRange(db, answers, lo, k)
  }

  lemma {:induction false} RangeModelIsIngestion(db: Db, answers: int -> Answer, lo: int)
    ensures IsIngestion(RangeModel(db, answers, lo), db, answers, lo)
    ensures RangeModel(db, answers, lo)(lo - 1) == Ok(db)
  {
  }

  /** Ingesting from the height after the cursor up to `hi`. */
  ghost function SyncedTo(db: Db, answers: int -> Answer, hi: int): Result<Db> {
    RangeModel(db, answers, CursorOf(db) + 1)(hi)
  }
}
