/**
 The CoinBlast worker itself: the chunk loop, the two passes of a chunk, the adoption probe and the
 bounded cache of rejected emitters. Every method is tied to the step machine by the trace it performs.
 */
module CoinBlastWorker {
  import opened Prelude
  import opened Rows
  import opened CoinBlastStore
  import opened CoinBlastLogs
  import opened CoinBlastOrder
  import opened CoinBlastReruns
  import Runs = CoinBlastRuns

  /** How one adoption attempt fares: a view call or the insert may fail for reasons of its own. */
  datatype Probe = Answered | CallFailed | InsertFailed

  /** What the environment does to one chunk, by log position. */
  datatype Weather = Weather(
    factoryUp: bool, logsUp: bool, listUp: int -> bool, probe: int -> Probe, tradeUp: int -> bool)

  /** One turn of the loop: the cursor read, the tip, the chunk and the cursor write. */
  datatype Turn = Turn(readUp: bool, tip: Result<int>, weather: Weather, writeUp: bool)

  ghost predicate Answers(w: Weather) {
    forall i :: w.probe(i).Answered?
  }

  /** No fetch and no statement of the chunk fails; probes may. */
  ghost predicate Fair(w: Weather) {
    w.factoryUp && w.logsUp && forall i :: w.listUp(i) && w.tradeUp(i)
  }

  ghost predicate FairTurn(t: Turn) {
    t.readUp && t.tip.Ok? && Fair(t.weather) && t.writeUp
  }

  /** A sane chain and a state its runs can reach. */
  ghost predicate Healthy(cfg: Config, s: Runs.Sys) {
    ChainOk(cfg) && Runs.Inv(cfg, s)
  }

  /** With reliable probes a successful chunk leaves exactly its commits applied in order. */
  ghost predicate AppliesAll(cfg: Config, s: Runs.Sys, from: int, to: int, w: Weather, d: CbDb, ok: bool) {
    ok && Answers(w) && Healthy(cfg, s) && InOrder(cfg, s) ==> d == ApplyOps(s.db, ChunkOps(cfg, from, to))
  }

  /** In fair weather a readable chunk succeeds. */
  ghost predicate GetsThrough(cfg: Config, s: Runs.Sys, from: int, to: int, w: Weather, ok: bool) {
    Fair(w) && Healthy(cfg, s) && Readable(cfg, from, to) ==> ok
  }

  ghost predicate ListsFine(cfg: Config, s: Runs.Sys, from: int, to: int, at: nat, w: Weather, ok: bool)
    requires at < |FactoryLogs(cfg, from, to)|
  {
    w.listUp(at) && Healthy(cfg, s) && AnnouncementReads(FactoryLogs(cfg, from, to)[at]) ==> ok
  }

  ghost predicate RecordsFine(cfg: Config, s: Runs.Sys, from: int, to: int, at: nat, w: Weather, ok: bool)
    requires at < |Logs(cfg, from, to)|
  {
    w.tradeUp(at) && Healthy(cfg, s) && TradeReads(cfg, Logs(cfg, from, to)[at]) ==> ok
  }

  lemma {:induction false} ListsThrough(
      cfg: Config, s: Runs.Sys, mid: Runs.Sys, es: seq<Runs.Event>, from: int, to: int, at: nat, w: Weather, ok: bool)
    requires mid == Runs.Run(cfg, s, es) && at < |FactoryLogs(cfg, from, to)|
    requires ListsFine(cfg, mid, from, to, at, w, ok)
    ensures GetsThrough(cfg, s, from, to, w, ok)
  {
    if Healthy(cfg, s) {
      StaysHealthy(cfg, s, es);
    }
  }

  lemma {:induction false} StillFine(
      cfg: Config, s: Runs.Sys, mid: Runs.Sys, es: seq<Runs.Event>, from: int, to: int, at: nat, w: Weather, ok: bool)
    requires mid == Runs.Run(cfg, s, es) && at < |Logs(cfg, from, to)|
    requires RecordsFine(cfg, mid, from, to, at, w, ok)
    ensures RecordsFine(cfg, s, from, to, at, w, ok)
  {
    if Healthy(cfg, s) {
      StaysHealthy(cfg, s, es);
    }
  }

  lemma {:induction false} RecordsThrough(
      cfg: Config, s: Runs.Sys, mid: Runs.Sys, es: seq<Runs.Event>, from: int, to: int, at: nat, w: Weather, ok: bool)
    requires mid == Runs.Run(cfg, s, es) && at < |Logs(cfg, from, to)|
    requires RecordsFine(cfg, mid, from, to, at, w, ok)
    ensures GetsThrough(cfg, s, from, to, w, ok)
  {
    StillFine(cfg, s, mid, es, from, to, at, w, ok);
  }

  lemma {:induction false} StaysHealthy(cfg: Config, s: Runs.Sys, es: seq<Runs.Event>)
    requires Healthy(cfg, s)
    ensures Healthy(cfg, Runs.Run(cfg, s, es))
  {
    Runs.RunKeeps(cfg, s, es);
  }

  /** The events of one attempt at a chunk. */
  predicate InChunk(e: Runs.Event) {
    e.Announce? || e.Visit? || e.Fail?
  }

  ghost predicate ChunkTrace(es: seq<Runs.Event>, w: Weather) {
    && (forall i :: 0 <= i < |es| ==> InChunk(es[i]))
    && (Answers(w) ==> Runs.Honest(es))
  }

  class Worker {
    const cfg: Config
    var db: CbDb
    var known: set<Address>
    var non: set<Address>
    ghost var now: Runs.Sys

    ghost predicate Valid()
      reads this
    {
      now.db == db && now.known == known && now.non == non
    }

    /** `hydrate_known_curves` and an empty cache. */
    constructor (cfg: Config, db: CbDb, ghost before: Runs.Sys)
      requires before.db == db
      ensures Valid() && this.cfg == cfg && now == Runs.Apply(cfg, before, Runs.Restart)
    {
      this.cfg := cfg;
      this.db := db;
      known := db.tokens.Keys;
      non := {};
      now := Runs.Apply(cfg, before, Runs.Restart);
    }

    method CacheNonCurve(a: Address) returns (ghost victim: Address)
      modifies this`non
      ensures |old(non)| >= Runs.KNOWN_NON_CURVES_MAX ==> victim in old(non)
      ensures non == Runs.CacheNonCurve(old(non), victim, a)
    {
      victim := a;
      if |non| >= Runs.KNOWN_NON_CURVES_MAX {
        assert non != {};
        var v :| v in non;
        victim := v;
        non := non - {v};
      }
      non := non + {a};
    }

    /** Probe the curve views, then list the curve. */
    method TryAdopt(l: CbLog, p: Probe) returns (r: Result<bool>)
      modifies this`db
      ensures r == Ok(true) <==> Runs.TryAdopt(cfg, old(db), l, p.Answered?).Some?
      ensures db == if r == Ok(true) then Runs.TryAdopt(cfg, old(db), l, p.Answered?).value else old(db)
    {
      if p.CallFailed? || cfg.probe(l.emitter).None? {
        return Ok(false);
      }
      if p.InsertFailed? {
        return Err(DatabaseDown);
      }
      var step := InsertToken(db, l.emitter, AdoptionOf(l, cfg.probe(l.emitter).value));
      if step.Err? {
        return Err(step.error);
      }
      db := step.value;
      return Ok(true);
    }

    /** First pass, one log: list the curve it announces, and remember the emitter. */
    method AnnounceOne(from: int, to: int, at: nat, w: Weather) returns (r: Result<()>, ghost e: Runs.Event)
      requires Valid() && now.phase == Runs.Announcing(from, to, at) && at < |FactoryLogs(cfg, from, to)|
      modifies this
      ensures Valid() && InChunk(e) && Runs.Reliable(e) && now == Runs.Apply(cfg, old(now), e)
      ensures now.phase == if r.Ok? then Runs.Announcing(from, to, at + 1) else Runs.Idle
      ensures ListsFine(cfg, old(now), from, to, at, w, r.Ok?)
    {
      var l := FactoryLogs(cfg, from, to)[at];
      r, e := Ok(()), Runs.Announce;
      if l.body.CurveCreated? {
        if Healthy(cfg, now) && LaunchOf(l).Ok? {
          AnnouncementFits(cfg, now, from, to, at);
        }
        var launch := LaunchOf(l);
        if launch.Err? {
          r := Err(launch.error);
        } else if !w.listUp(at) {
          r, e := Err(DatabaseDown), Runs.Fail;
        } else {
          var step := InsertToken(db, launch.value.0, launch.value.1);
          if step.Err? {
            r := Err(step.error);
          } else {
            db, known := step.value, known + {l.emitter};
          }
        }
      }
      now := Runs.Apply(cfg, now, e);
    }

    /** First pass: list every curve the factory announced. */
    method AnnounceAll(from: int, to: int, w: Weather) returns (r: Result<()>, ghost es: seq<Runs.Event>)
      requires Valid() && now.phase == Runs.Announcing(from, to, 0)
      modifies this
      ensures Valid() && now == Runs.Run(cfg, old(now), es) && ChunkTrace(es, w)
      ensures now.phase == if r.Ok? then Runs.Scanning(from, to, 0) else Runs.Idle
      ensures GetsThrough(cfg, old(now), from, to, w, r.Ok?)
    {
      es := [];
      if !w.factoryUp {
        now, es := Runs.Apply(cfg, now, Runs.Fail), Extend(now, es, Runs.Fail, w);
        return Err(ChainFailure), es;
      }
      ghost var e;
      for at := 0 to |FactoryLogs(cfg, from, to)|
        invariant Valid() && now.phase == Runs.Announcing(from, to, at)
        invariant now == Runs.Run(cfg, old(now), es) && ChunkTrace(es, w)
      {
        ghost var mid := now;
        r, e := AnnounceOne(from, to, at, w);
        ListsThrough(cfg, old(now), mid, es, from, to, at, w, r.Ok?);
        es := Extend(old(now), es, e, w);
        if r.Err? {
          return;
        }
      }
      now, es := Runs.Apply(cfg, now, Runs.Announce), Extend(old(now), es, Runs.Announce, w);
      return Ok(()), es;
    }

    /** A trace is extended by one event of the chunk. */
    ghost function Extend(s: Runs.Sys, es: seq<Runs.Event>, e: Runs.Event, w: Weather): (longer: seq<Runs.Event>)
      requires InChunk(e) && ChunkTrace(es, w) && (Answers(w) ==> Runs.Reliable(e))
      ensures ChunkTrace(longer, w)
      ensures Runs.Run(cfg, s, longer) == Runs.Apply(cfg, Runs.Run(cfg, s, es), e)
    {
      assert (es + [e])[..|es|] == es;
      es + [e]
    }

    /** Second pass, a trade of an unknown emitter: skip it if rejected before, else probe it. */
    method Resolve(from: int, to: int, at: nat, w: Weather) returns (adopted: bool, ghost e: Runs.Event)
      requires Valid() && now.phase == Runs.Scanning(from, to, at) && at < |Logs(cfg, from, to)|
      requires var l := Logs(cfg, from, to)[at]; IsTrade(l) && l.emitter !in known
      modifies this
      ensures Valid() && e.Visit? && e.reached == w.probe(at).Answered? && now == Runs.Apply(cfg, old(now), e)
      ensures now.phase == Runs.Scanning(from, to, if adopted then at else at + 1)
      ensures adopted ==> Logs(cfg, from, to)[at].emitter in known
    {
      var l := Logs(cfg, from, to)[at];
      e := Runs.Visit(w.probe(at).Answered?, l.emitter);
      if l.emitter in non {
        now := Runs.Apply(cfg, now, e);
        return false, e;
      }
      var probed := TryAdopt(l, w.probe(at));
      if probed == Ok(true) {
        known := known + {l.emitter};
        adopted := true;
      } else {
        ghost var victim := CacheNonCurve(l.emitter);
        e := e.(victim := victim);
        adopted := false;
      }
      now := Runs.Apply(cfg, now, e);
    }

    /** Second pass, a log whose emitter is known or that is no trade. */
    method RecordTrade(from: int, to: int, at: nat, w: Weather) returns (r: Result<()>, ghost e: Runs.Event)
      requires Valid() && now.phase == Runs.Scanning(from, to, at) && at < |Logs(cfg, from, to)|
      requires var l := Logs(cfg, from, to)[at]; IsTrade(l) ==> l.emitter in known
      modifies this
      ensures Valid() && InChunk(e) && Runs.Reliable(e) && now == Runs.Apply(cfg, old(now), e)
      ensures now.phase == if r.Ok? then Runs.Scanning(from, to, at + 1) else Runs.Idle
      ensures RecordsFine(cfg, old(now), from, to, at, w, r.Ok?)
    {
      var l := Logs(cfg, from, to)[at];
      r, e := Ok(()), Runs.Visit(true, l.emitter);
      if IsTrade(l) {
        if Healthy(cfg, now) && TradeReads(cfg, l) {
          KnownTradeReads(cfg, now, from, to, at);
        }
        var row := TradeOf(l);
        if row.Err? {
          r := Err(row.error);
        } else if !w.tradeUp(at) {
          r, e := Err(DatabaseDown), Runs.Fail;
        } else {
          db := TradeTxn(db, row.value);
        }
      }
      now := Runs.Apply(cfg, now, e);
    }

    /** Second pass, one log: adopt an unknown emitter if it is a curve, then record the trade. */
    method VisitOne(from: int, to: int, at: nat, w: Weather) returns (r: Result<()>, ghost es: seq<Runs.Event>)
      requires Valid() && now.phase == Runs.Scanning(from, to, at) && at < |Logs(cfg, from, to)|
      modifies this
      ensures Valid() && now == Runs.Run(cfg, old(now), es) && ChunkTrace(es, w)
      ensures now.phase == if r.Ok? then Runs.Scanning(from, to, at + 1) else Runs.Idle
      ensures RecordsFine(cfg, old(now), from, to, at, w, r.Ok?)
    {
      es := [];
      if IsTrade(Logs(cfg, from, to)[at]) && Logs(cfg, from, to)[at].emitter !in known {
        var adopted;
        ghost var e;
        adopted, e := Resolve(from, to, at, w);
        es := Extend(old(now), es, e, w);
        if !adopted {
          return Ok(()), es;
        }
      }
      ghost var mid := now;
      ghost var f;
      r, f := RecordTrade(from, to, at, w);
      StillFine(cfg, old(now), mid, es, from, to, at, w, r.Ok?);
      es := Extend(old(now), es, f, w);
    }

    /**
     Both passes over `[from, to]`. On success, with reliable probes on a sane chain, the tables are
     exactly those of the chunk's commits applied in order; in fair weather a readable chunk gets through.
     */
    method RunChunk(from: int, to: int, w: Weather) returns (r: Result<()>, ghost es: seq<Runs.Event>)
      requires Valid() && now.phase == Runs.Announcing(from, to, 0)
      modifies this
      ensures Valid() && now == Runs.Run(cfg, old(now), es) && ChunkTrace(es, w)
      ensures now.phase == if r.Ok? then Runs.Scanning(from, to, |Logs(cfg, from, to)|) else Runs.Idle
      ensures AppliesAll(cfg, old(now), from, to, w, db, r.Ok?)
      ensures GetsThrough(cfg, old(now), from, to, w, r.Ok?)
    {
      r, es := AnnounceAll(from, to, w);
      if r.Err? {
        return;
      }
      if !w.logsUp {
        now, es := Runs.Apply(cfg, now, Runs.Fail), Extend(old(now), es, Runs.Fail, w);
        return Err(ChainFailure), es;
      }
      var ls := Logs(cfg, from, to);
      for at := 0 to |ls|
        invariant Valid() && now.phase == Runs.Scanning(from, to, at)
        invariant now == Runs.Run(cfg, old(now), es) && ChunkTrace(es, w)
      {
        ghost var mid := now;
        ghost var fs;
        r, fs := VisitOne(from, to, at, w);
        RecordsThrough(cfg, old(now), mid, es, from, to, at, w, r.Ok?);
        Runs.RunConcat(cfg, old(now), es, fs);
        es := es + fs;
        if r.Err? {
          return;
        }
      }
      r := Ok(());
      if Answers(w) && Healthy(cfg, old(now)) && InOrder(cfg, old(now)) {
        WholeChunk(cfg, old(now), from, to, es, w);
      }
    }

    /** Pick the next range, if the safe tip is past the cursor. */
    method NextRange(tip: int) returns (range: Option<(int, int)>)
      requires Valid() && now.phase.Idle?
      modifies this`now
      ensures Valid() && now == Runs.Apply(cfg, old(now), Runs.StartChunk(tip))
      ensures now.phase == if range.None? then Runs.Idle else Runs.Announcing(range.value.0, range.value.1, 0)
      ensures var cursor := Runs.CursorOf(cfg, db);
              && (range.None? <==> cursor >= tip - cfg.safeLag)
              && (range.Some? ==> range.value == (cursor + 1, Runs.ChunkEnd(cfg, cursor, tip)))
    {
      var cursor, target := Runs.CursorOf(cfg, db), tip - cfg.safeLag;
      now := Runs.Apply(cfg, now, Runs.StartChunk(tip));
      if cursor >= target {
        return None;
      }
      return Some((cursor + 1, Min(cursor + cfg.chunkSize, target)));
    }

    method WriteCursor(from: int, to: int)
      requires Valid() && now.phase == Runs.Scanning(from, to, |Logs(cfg, from, to)|)
      modifies this
      ensures Valid() && now == Runs.Apply(cfg, old(now), Runs.WriteCursor) && now.phase.Idle?
      ensures db == old(db).(cursor := Some(to))
    {
      db := db.(cursor := Some(to));
      now := Runs.Apply(cfg, now, Runs.WriteCursor);
    }

    /** One turn: nothing when caught up, else a chunk and, if it got through, the cursor. */
    method RunTurn(t: Turn) returns (r: Result<()>, ghost es: seq<Runs.Event>)
      requires Valid() && now.phase.Idle?
      modifies this
      ensures Valid() && now == Runs.Run(cfg, old(now), es)
      ensures Answers(t.weather) ==> Runs.Honest(es)
      ensures r.Ok? ==> now.phase.Idle?
      // A fair turn does nothing when caught up, and otherwise moves the cursor to the end of a readable chunk.
      ensures Fares(cfg, old(now), t, Runs.CursorOf(cfg, db), r.Ok?)
    {
      es := [];
      if !t.readUp {
        return Err(DatabaseDown), es;
      }
      if t.tip.Err? {
        return Err(t.tip.error), es;
      }
      var range := NextRange(t.tip.value);
      es := Appended(old(now), es, Runs.StartChunk(t.tip.value));
      if range.None? {
        return Ok(()), es;
      }
      ghost var mid := now;
      ghost var fs;
      var c;
      c, fs := RunChunk(range.value.0, range.value.1, t.weather);
      TurnFares(cfg, old(now), mid, t, range.value.0, range.value.1, c.Ok?);
      Runs.RunConcat(cfg, old(now), es, fs);
      es := es + fs;
      if c.Ok? {
        if !t.writeUp {
          return Err(DatabaseDown), es;
        }
        WriteCursor(range.value.0, range.value.1);
        es := Appended(old(now), es, Runs.WriteCursor);
      }
      return Ok(()), es;
    }

    /** Turn `k` of a run that began in `s` and performed `es` so far. */
    method NextTurn(turns: seq<Turn>, k: nat, ghost floor: int, ghost s: Runs.Sys, ghost es: seq<Runs.Event>)
      returns (r: Result<()>, ghost longer: seq<Runs.Event>)
      requires Valid() && now.phase.Idle? && k < |turns| && now == Runs.Run(cfg, s, es)
      requires HonestTurns(turns, k, es) && Arrives(cfg, s, turns, floor, k, Runs.CursorOf(cfg, db), true)
      modifies this
      ensures Valid() && now == Runs.Run(cfg, s, longer)
      ensures HonestTurns(turns, |turns|, longer) && (r.Ok? ==> HonestTurns(turns, k + 1, longer))
      ensures r.Ok? ==> now.phase.Idle? && Arrives(cfg, s, turns, floor, k + 1, Runs.CursorOf(cfg, db), true)
      ensures r.Err? ==> Arrives(cfg, s, turns, floor, |turns|, Runs.CursorOf(cfg, db), false)
    {
      ghost var before := now;
      ghost var fs;
      r, fs := RunTurn(turns[k]);
      TurnAdvances(cfg, s, before, es, turns, floor, k, Runs.CursorOf(cfg, db), r.Ok?);
      Runs.RunConcat(cfg, s, es, fs);
      longer := es + fs;
    }

    /** The chunk loop until it is cancelled after the last turn, or a read or cursor write fails. */
    method RunWorker(turns: seq<Turn>, ghost floor: int) returns (r: Result<()>, ghost es: seq<Runs.Event>)
      requires Valid() && now.phase.Idle?
      modifies this
      ensures Valid() && now == Runs.Run(cfg, old(now), es)
      ensures HonestTurns(turns, |turns|, es)
      // In fair turns the cursor advances by a chunk per turn until it reaches the safe distance from the tips.
      ensures Arrives(cfg, old(now), turns, floor, |turns|, Runs.CursorOf(cfg, db), r.Ok?)
    {
      es := [];
      for k := 0 to |turns|
        invariant Valid() && now.phase.Idle? && now == Runs.Run(cfg, old(now), es)
        invariant HonestTurns(turns, k, es)
        invariant Arrives(cfg, old(now), turns, floor, k, Runs.CursorOf(cfg, db), true)
      {
        r, es := NextTurn(turns, k, floor, old(now), es);
        if r.Err? {
          return;
        }
      }
      return Ok(()), es;
    }

    ghost function Appended(s: Runs.Sys, es: seq<Runs.Event>, e: Runs.Event): (longer: seq<Runs.Event>)
      ensures longer == es + [e]
      ensures Runs.Run(cfg, s, longer) == Runs.Apply(cfg, Runs.Run(cfg, s, es), e)
    {
      assert (es + [e])[..|es|] == es;
      es + [e]
    }
  }

  /** A fair turn that got past the tip gets its readable chunk through. */
  lemma {:induction false} TurnFares(
      cfg: Config, s: Runs.Sys, mid: Runs.Sys, t: Turn, from: int, to: int, ok: bool)
    requires t.tip.Ok? && mid == Runs.Apply(cfg, s, Runs.StartChunk(t.tip.value))
    requires GetsThrough(cfg, mid, from, to, t.weather, ok)
    ensures FairTurn(t) && Healthy(cfg, s) && Readable(cfg, from, to) ==> ok
  {
    if Healthy(cfg, s) {
      Runs.EventKeeps(cfg, s, Runs.StartChunk(t.tip.value));
    }
  }

  /** Turns whose probes all go through perform no failed probe. */
  ghost predicate HonestTurns(turns: seq<Turn>, n: nat, es: seq<Runs.Event>)
    requires n <= |turns|
  {
    (forall k :: 0 <= k < n ==> Answers(turns[k].weather)) ==> Runs.Honest(es)
  }

  /** What a fair turn does to the cursor. */
  ghost predicate Advances(cfg: Config, t: Turn, before: int, after: int, ok: bool)
    requires FairTurn(t)
  {
    var end := Runs.ChunkEnd(cfg, before, t.tip.value);
    && (before >= t.tip.value - cfg.safeLag ==> ok && after == before)
    && (before < t.tip.value - cfg.safeLag && Readable(cfg, before + 1, end) ==> ok && after == end)
  }

  ghost predicate Fares(cfg: Config, s: Runs.Sys, t: Turn, after: int, ok: bool) {
    FairTurn(t) && Healthy(cfg, s) ==> Advances(cfg, t, Runs.CursorOf(cfg, s.db), after, ok)
  }

  /**
   From a healthy state, `n` fair turns with tips of at least `floor` succeed and move the cursor by `n` chunks
   or up to the safe distance from `floor`.
   */
  ghost predicate Arrives(cfg: Config, s: Runs.Sys, turns: seq<Turn>, floor: int, n: nat, after: int, ok: bool) {
    Healthy(cfg, s) && FairTurns(cfg, turns, floor) ==>
      ok && after >= Advanced(cfg, Runs.CursorOf(cfg, s.db), n, floor)
  }

  /** All turns are fair, see tips of at least `floor`, and meet readable chunks. */
  ghost predicate FairTurns(cfg: Config, turns: seq<Turn>, floor: int) {
    && (forall k :: 0 <= k < |turns| ==> FairTurn(turns[k]) && turns[k].tip.value >= floor)
    && (forall lo, hi :: Readable(cfg, lo, hi))
  }

  /** Where the cursor stands at least after `n` fair turns. */
  ghost function Advanced(cfg: Config, cursor: int, n: nat, floor: int): int
    decreases n
  {
    if n == 0 then Min(cursor, floor - cfg.safeLag)
    else Min(Advanced(cfg, cursor, n - 1, floor) + cfg.chunkSize, floor - cfg.safeLag)
  }

  lemma {:induction false} OneMoreTurn(
      cfg: Config, turns: seq<Turn>, floor: int, cursor: int, k: nat, before: int, after: int, ok: bool)
    requires FairTurns(cfg, turns, floor) && k < |turns| && before >= Advanced(cfg, cursor, k, floor)
    requires Advances(cfg, turns[k], before, after, ok)
    ensures ok && after >= Advanced(cfg, cursor, k + 1, floor)
  {
    assert FairTurn(turns[k]) && turns[k].tip.value >= floor;
    assert Readable(cfg, before + 1, Runs.ChunkEnd(cfg, before, turns[k].tip.value));
  }

  lemma {:induction false} TurnAdvances(
      cfg: Config, s: Runs.Sys, mid: Runs.Sys, es: seq<Runs.Event>, turns: seq<Turn>, floor: int, k: nat,
      after: int, ok: bool)
    requires mid == Runs.Run(cfg, s, es) && k < |turns|
    requires Fares(cfg, mid, turns[k], after, ok)
    requires Arrives(cfg, s, turns, floor, k, Runs.CursorOf(cfg, mid.db), true)
    ensures ok ==> Arrives(cfg, s, turns, floor, k + 1, after, true)
    ensures !ok ==> Arrives(cfg, s, turns, floor, |turns|, after, false)
  {
    if Healthy(cfg, s) && FairTurns(cfg, turns, floor) {
      StaysHealthy(cfg, s, es);
      assert FairTurn(turns[k]);
      OneMoreTurn(cfg, turns, floor, Runs.CursorOf(cfg, s.db), k, Runs.CursorOf(cfg, mid.db), after, ok);
    }
  }

  /** The bound is the distance covered, cut at the safe distance from the tips. */
  lemma {:induction false} AdvancedIs(cfg: Config, cursor: int, n: nat, floor: int)
    ensures Advanced(cfg, cursor, n, floor) == Min(cursor + n * cfg.chunkSize, floor - cfg.safeLag)
  {
    if n > 0 {
      AdvancedIs(cfg, cursor, n - 1, floor);
      assert n * cfg.chunkSize == (n - 1) * cfg.chunkSize + cfg.chunkSize;
    }
  }

  /** A completed attempt applied every commit of the chunk. */
  lemma {:induction false} WholeChunk(cfg: Config, s: Runs.Sys, from: int, to: int, es: seq<Runs.Event>, w: Weather)
    requires Healthy(cfg, s) && InOrder(cfg, s) && s.phase == Runs.Announcing(from, to, 0)
    requires ChunkTrace(es, w) && Answers(w)
    requires Runs.Run(cfg, s, es).phase == Runs.Scanning(from, to, |Logs(cfg, from, to)|)
    ensures Runs.Run(cfg, s, es).db == ApplyOps(s.db, ChunkOps(cfg, from, to))
  {
    assert FactoryLogs(cfg, from, to)[..0] == [];
    assert ChunkOps(cfg, from, to)[..0] == [];
    assert Progress(cfg, s.db, from, to, s, 0);
    Runs.HonestAnswers(cfg, s, es);
    var n := CutOffAnywhere(cfg, s.db, from, to, s, 0, es);
    ScannedIsWhole(cfg, s.db, from, to, Runs.Run(cfg, s, es), n);
  }
}
