/** What the sync loops are configured with, and how far a backfill may go. */
module SyncSettings {
  import opened Prelude

  datatype SyncConfig = SyncConfig(safeLag: nat, maxBackfillHeight: Option<int>)

  /** Highest height a backfill may reach for a given tip. */
  function BackfillCap(cfg: SyncConfig, tip: int): int {
    if cfg.maxBackfillHeight.None? then tip - cfg.safeLag
    else Min(cfg.maxBackfillHeight.value, tip - cfg.safeLag)
  }

  /** Last height a fault-free, uncancelled run reaches. */
  function BackfillEnd(cfg: SyncConfig, cursor: int, tip: Result<int>): int {
    if tip.Err? then cursor else Max(cursor, BackfillCap(cfg, tip.value))
  }

  /** The safe distance from the tip and, if there is one, the configured maximum. */
  predicate InReach(cfg: SyncConfig, tip: int, h: int) {
    h <= tip - cfg.safeLag && (cfg.maxBackfillHeight.Some? ==> h <= cfg.maxBackfillHeight.value)
  }

  /** The cap allows exactly the heights in reach. */
  lemma {:induction false} BackfillCapIff(cfg: SyncConfig, tip: int, h: int)
    ensures h <= BackfillCap(cfg, tip) <==> InReach(cfg, tip, h)
  {
  }

  /** Last height of a walk from `cursor` that is cancelled after `cancelAt` heights, if at all. */
  function WalkEnd(cursor: int, cap: int, cancelAt: Option<nat>): int {
    if cancelAt.None? then cap else Min(cap, cursor + cancelAt.value)
  }

  /**
   A backfill from `cursor` ends here: everything above the cursor that is in reach, up to a cancellation, and
   nothing else.
   */
  ghost predicate EndsAt(cfg: SyncConfig, cursor: int, tip: int, cancelAt: Option<nat>, end: int) {
    && cursor <= end
    && forall h :: cursor < h ==>
                     (h <= end <==> InReach(cfg, tip, h) && (cancelAt.Some? ==> h <= cursor + cancelAt.value))
  }

  lemma {:induction false} WalkEndIs(cfg: SyncConfig, cursor: int, tip: int, cancelAt: Option<nat>, end: int)
    ensures EndsAt(cfg, cursor, tip, cancelAt, end) <==>
            end == WalkEnd(cursor, BackfillEnd(cfg, cursor, Ok(tip)), cancelAt)
  {
    var e := WalkEnd(cursor, BackfillEnd(cfg, cursor, Ok(tip)), cancelAt);
    assert e == cursor || (InReach(cfg, tip, e) && (cancelAt.Some? ==> e <= cursor + cancelAt.value));
    assert !InReach(cfg, tip, e + 1) || (cancelAt.Some? && e + 1 > cursor + cancelAt.value);
  }
}
