/**
 A curve announced less than a chunk after its first trade can be listed either way: cut the chunks at the
 trade and it is adopted without an owner, put both into one chunk and it is listed with one. So listing data
 are determined by the chain exactly when there is no such curve.
 */
module LateAnnouncement {
  import opened Prelude
  import opened Rows
  import opened CoinBlastStore
  import opened CoinBlastLogs
  import opened CoinBlastRuns
  import opened CoinBlastListings
  import opened CoinBlastOrder
  import opened CoinBlastSources
  import opened CoinBlastSettled

  // ---------- runs without any fault ----------

  /** No failure, no restart, no failed probe. */
  predicate Smooth(e: Event) {
    !e.Fail? && !e.Restart? && Reliable(e)
  }

  ghost predicate FaultFree(es: seq<Event>) {
    forall i :: 0 <= i < |es| ==> Smooth(es[i])
  }

  ghost predicate Leads(cfg: Config, s: Sys, t: Sys) {
    exists es :: FaultFree(es) && Run(cfg, s, es) == t
  }

  lemma {:induction false} LeadsOn(cfg: Config, s: Sys, t: Sys, e: Event)
    requires Leads(cfg, s, t) && Smooth(e)
    ensures Leads(cfg, s, Apply(cfg, t, e))
  {
    var es :| FaultFree(es) && Run(cfg, s, es) == t;
    RunSnoc(cfg, s, es, e);
    assert FaultFree(es + [e]);
  }

  lemma {:induction false} LeadsStart(cfg: Config, s: Sys)
    ensures Leads(cfg, s, s)
  {
    assert FaultFree([]) && Run(cfg, s, []) == s;
  }

  /** A state some fault-free run reaches. */
  ghost predicate Arrived(cfg: Config, s: Sys) {
    Leads(cfg, Boot(cfg), s)
  }

  lemma {:induction false} ArrivedHistory(cfg: Config, s: Sys)
    requires ChainOk(cfg) && Arrived(cfg, s)
    ensures History(cfg, s)
  {
    var es :| FaultFree(es) && Run(cfg, Boot(cfg), es) == s;
    SmoothIsHonest(cfg, es);
    RunHistory(cfg, es);
  }

  lemma {:induction false} SmoothIsHonest(cfg: Config, es: seq<Event>)
    requires FaultFree(es)
    ensures CurvesAnswer(cfg, Boot(cfg), es)
  {
    forall i | 0 <= i < |es| ensures Reliable(es[i]) {
      assert Smooth(es[i]);
    }
    HonestAnswers(cfg, Boot(cfg), es);
  }

  /** One more smooth event: the state is still arrived at, and what was listed stays. */
  lemma {:induction false} SmoothStep(cfg: Config, s: Sys, e: Event) returns (t: Sys)
    requires ChainOk(cfg) && Arrived(cfg, s) && Smooth(e)
    ensures t == Apply(cfg, s, e) && Arrived(cfg, t) && History(cfg, s) && History(cfg, t)
    ensures ListingStep(cfg, s, t.db.tokens) && LaunchesStay(s.db.tokens, t.db.tokens)
  {
    t := Apply(cfg, s, e);
    LeadsOn(cfg, Boot(cfg), s, e);
    ArrivedHistory(cfg, s);
    ArrivedHistory(cfg, t);
    EventLists(cfg, s, e);
  }

  // ---------- one chunk ----------

  /** What the first pass adds is listed by its first announcement. */
  ghost predicate OnlyAnnounced(cfg: Config, s: Sys, t: Sys) {
    && LaunchesStay(s.db.tokens, t.db.tokens)
    && forall x :: x in t.db.tokens && x !in s.db.tokens ==> IsAnnounced(cfg, x, t.db.tokens[x].launch)
  }

  ghost predicate IsAnnounced(cfg: Config, x: Address, launch: Launch) {
    exists a, j :: FirstAnnounced(cfg, x, a, j) && launch == LaunchAt(cfg, a, j)
  }

  ghost predicate Stands(cfg: Config, s: Sys, phase: Phase, reach: int, cursor: int) {
    Arrived(cfg, s) && s.phase == phase && s.reach == reach && CursorOf(cfg, s.db) == cursor
  }

  lemma {:induction false} NewIsAnnounced(cfg: Config, s: Sys, from: int, to: int, at: nat, t: Sys)
    requires Listing(cfg, s) && s.phase == Announcing(from, to, at) && ListingStep(cfg, s, t.db.tokens)
    ensures OnlyAnnounced(cfg, s, t)
  {
    forall x | x in t.db.tokens && x !in s.db.tokens ensures IsAnnounced(cfg, x, t.db.tokens[x].launch) {
      var a, j := FirstToList(cfg, s, from, to, at, x);
      assert t.db.tokens[x].launch == LaunchAt(cfg, a, j);
    }
  }

  lemma {:induction false} FirstPass(cfg: Config, s: Sys, from: int, to: int, at: nat) returns (t: Sys)
    requires ChainOk(cfg) && ReadsUpTo(cfg, to) && cfg.deployBlock <= from && at <= |FactoryLogs(cfg, from, to)|
    requires Stands(cfg, s, Announcing(from, to, at), to, from - 1)
    ensures Stands(cfg, t, Scanning(from, to, 0), to, from - 1) && OnlyAnnounced(cfg, s, t)
    decreases |FactoryLogs(cfg, from, to)| - at
  {
    var u := SmoothStep(cfg, s, Announce);
    NewIsAnnounced(cfg, s, from, to, at, u);
    AnnounceMoves(cfg, s, from, to, at);
    if at == |FactoryLogs(cfg, from, to)| {
      t := u;
    } else {
      RangeReads(cfg, from, to);
      AnnouncementGoes(cfg, s, from, to, at);
      t := FirstPass(cfg, u, from, to, at + 1);
      forall x | x in t.db.tokens && x !in s.db.tokens ensures IsAnnounced(cfg, x, t.db.tokens[x].launch) {
        assert x in u.db.tokens ==> IsAnnounced(cfg, x, u.db.tokens[x].launch);
      }
    }
  }

  lemma {:induction false} AnnouncementGoes(cfg: Config, s: Sys, from: int, to: int, at: nat)
    requires ChainOk(cfg) && Inv(cfg, s) && Readable(cfg, from, to)
    requires s.phase == Announcing(from, to, at) && at < |FactoryLogs(cfg, from, to)|
    ensures ApplyAnnounce(cfg, s, from, to, at).phase == Announcing(from, to, at + 1)
  {
    var l := FactoryLogs(cfg, from, to)[at];
    assert AnnouncementReads(l);
    if l.body.CurveCreated? {
      AnnouncementFits(cfg, s, from, to, at);
    }
  }

  /** A visit, with a victim if the cache is full, passes the log or makes its emitter known. */
  lemma {:induction false} VisitGoes(cfg: Config, s: Sys, from: int, to: int, at: nat) returns (victim: Address)
    requires s.phase == Scanning(from, to, at) && at < |Logs(cfg, from, to)|
    requires var l := Logs(cfg, from, to)[at]; IsTrade(l) && l.emitter in s.known ==> TradeOf(l).Ok?
    ensures var t := ApplyVisit(cfg, s, from, to, at, true, victim);
            || t.phase == Scanning(from, to, at + 1)
            || (t.phase == s.phase && Logs(cfg, from, to)[at].emitter !in s.known
                && Logs(cfg, from, to)[at].emitter in t.known)
  {
    if |s.non| >= KNOWN_NON_CURVES_MAX {
      assert s.non != {};
      victim :| victim in s.non;
    } else {
      victim := Logs(cfg, from, to)[at].emitter;
    }
  }

  lemma {:induction false} StayStays(m: map<Address, Token>, n: map<Address, Token>, after: map<Address, Token>)
    requires LaunchesStay(m, n) && LaunchesStay(n, after)
    ensures LaunchesStay(m, after)
  {
  }

  lemma {:induction false} ScanReads(cfg: Config, s: Sys, from: int, to: int, at: nat)
    requires ChainOk(cfg) && Inv(cfg, s) && ReadsUpTo(cfg, to) && cfg.deployBlock <= from && at < |Logs(cfg, from, to)|
    ensures var l := Logs(cfg, from, to)[at]; IsTrade(l) && l.emitter in s.known ==> TradeOf(l).Ok?
  {
    RangeReads(cfg, from, to);
    if IsTrade(Logs(cfg, from, to)[at]) && Logs(cfg, from, to)[at].emitter in s.known {
      KnownTradeReads(cfg, s, from, to, at);
    }
  }

  /** One visit of the scan: the log is passed, or its emitter is known from now on. */
  lemma {:induction false} VisitStep(cfg: Config, s: Sys, from: int, to: int, at: nat) returns (t: Sys)
    requires ChainOk(cfg) && ReadsUpTo(cfg, to) && cfg.deployBlock <= from && at < |Logs(cfg, from, to)|
    requires Stands(cfg, s, Scanning(from, to, at), to, from - 1)
    ensures Stands(cfg, t, t.phase, to, from - 1) && LaunchesStay(s.db.tokens, t.db.tokens)
    ensures t.phase == Scanning(from, to, at + 1)
            || (t.phase == s.phase && Logs(cfg, from, to)[at].emitter !in s.known
                && Logs(cfg, from, to)[at].emitter in t.known)
  {
    ArrivedHistory(cfg, s);
    ScanReads(cfg, s, from, to, at);
    var victim := VisitGoes(cfg, s, from, to, at);
    VisitMoves(cfg, s, from, to, at, true, victim);
    t := SmoothStep(cfg, s, Visit(true, victim));
  }

  lemma {:induction false} SecondPass(cfg: Config, s: Sys, from: int, to: int, at: nat) returns (t: Sys)
    requires ChainOk(cfg) && ReadsUpTo(cfg, to) && cfg.deployBlock <= from && at <= |Logs(cfg, from, to)|
    requires Stands(cfg, s, Scanning(from, to, at), to, from - 1)
    ensures Stands(cfg, t, Scanning(from, to, |Logs(cfg, from, to)|), to, from - 1)
    ensures LaunchesStay(s.db.tokens, t.db.tokens)
    decreases |Logs(cfg, from, to)| - at,
              if at < |Logs(cfg, from, to)| && Logs(cfg, from, to)[at].emitter !in s.known then 1 else 0
  {
    if at == |Logs(cfg, from, to)| {
      t := s;
    } else {
      var u := VisitStep(cfg, s, from, to, at);
      t := SecondPass(cfg, u, from, to, u.phase.at);
      StayStays(s.db.tokens, u.db.tokens, t.db.tokens);
    }
  }

  lemma {:induction false} WriteStep(cfg: Config, s: Sys, from: int, to: int) returns (t: Sys)
    requires ChainOk(cfg) && cfg.deployBlock <= from <= to + 1
    requires Stands(cfg, s, Scanning(from, to, |Logs(cfg, from, to)|), to, from - 1)
    ensures Stands(cfg, t, Idle, to, to) && t.db.tokens == s.db.tokens
  {
    LeadsOn(cfg, Boot(cfg), s, WriteCursor);
    t := Apply(cfg, s, WriteCursor);
  }

  lemma {:induction false} StartStep(cfg: Config, s: Sys, c: int, to: int) returns (t: Sys)
    requires ChainOk(cfg) && Stands(cfg, s, Idle, c, c) && c < to <= c + cfg.chunkSize
    ensures Stands(cfg, t, Announcing(c + 1, to, 0), to, c) && t.db.tokens == s.db.tokens
  {
    var e := StartChunk(to + cfg.safeLag);
    LeadsOn(cfg, Boot(cfg), s, e);
    t := Apply(cfg, s, e);
  }

  /** A whole chunk; what is new after the first pass was listed by its announcement. */
  lemma {:induction false} WholeChunk(cfg: Config, s: Sys, c: int, to: int) returns (mid: Sys, t: Sys)
    requires ChainOk(cfg) && ReadsUpTo(cfg, to) && Stands(cfg, s, Idle, c, c)
    requires cfg.deployBlock - 1 <= c < to <= c + cfg.chunkSize
    ensures Stands(cfg, mid, Scanning(c + 1, to, 0), to, c) && OnlyAnnounced(cfg, s, mid)
    ensures Stands(cfg, t, Idle, to, to) && LaunchesStay(mid.db.tokens, t.db.tokens)
  {
    var a := StartStep(cfg, s, c, to);
    mid := FirstPass(cfg, a, c + 1, to, 0);
    var d := SecondPass(cfg, mid, c + 1, to, 0);
    t := WriteStep(cfg, d, c + 1, to);
  }

  /** Chunk by chunk to any later block. */
  lemma {:induction false} Onward(cfg: Config, s: Sys, c: int, target: int) returns (t: Sys)
    requires ChainOk(cfg) && ReadsUpTo(cfg, target) && Stands(cfg, s, Idle, c, c)
    requires cfg.deployBlock - 1 <= c <= target && cfg.chunkSize > 0
    ensures Stands(cfg, t, Idle, target, target) && LaunchesStay(s.db.tokens, t.db.tokens)
    decreases target - c
  {
    if c == target {
      t := s;
    } else {
      var stop := Min(c + cfg.chunkSize, target);
      var mid, u := WholeChunk(cfg, s, c, stop);
      t := Onward(cfg, u, stop, target);
      StayStays(s.db.tokens, mid.db.tokens, u.db.tokens);
      StayStays(s.db.tokens, u.db.tokens, t.db.tokens);
    }
  }

  lemma {:induction false} FromBoot(cfg: Config, target: int) returns (t: Sys)
    requires ChainOk(cfg) && ReadsUpTo(cfg, target) && cfg.deployBlock - 1 <= target && cfg.chunkSize > 0
    ensures Stands(cfg, t, Idle, target, target)
  {
    LeadsStart(cfg, Boot(cfg));
    t := Onward(cfg, Boot(cfg), cfg.deployBlock - 1, target);
  }

  // ---------- both ways ----------

  /** First traded in block `t` and first announced later, by less than a chunk, with other data. */
  ghost predicate EitherWay(cfg: Config, c: int, x: Address, t: int, i: int, a: int, j: int) {
    FirstTraded(cfg, x, t, i) && FirstAnnounced(cfg, x, a, j) && a <= c && !SameEitherWay(cfg, t, i, a, j)
  }

  ghost predicate ListedAs(s: Sys, x: Address, launch: Launch) {
    x in s.db.tokens && s.db.tokens[x].launch == launch
  }

  /** Chunks that stop at the first trade adopt the curve. */
  lemma {:induction false} CutThere(cfg: Config, c: int, x: Address, t: int, i: int, a: int, j: int) returns (s: Sys)
    requires ChainOk(cfg) && ReadsUpTo(cfg, c) && EitherWay(cfg, c, x, t, i, a, j)
    ensures Stands(cfg, s, Idle, c, c) && ListedAs(s, x, AdoptionAt(cfg, t, i))
  {
    var u := FromBoot(cfg, t);
    ArrivedHistory(cfg, u);
    SettledKeys(cfg, u, t, x);
    assert CurveHistory(cfg, u, x);
    var launch := u.db.tokens[x].launch;
    assert launch == AdoptionAt(cfg, t, i) by {
      assert forall b, k :: ByAnnouncement(cfg, x, t, launch, b, k) ==> AnnouncesAt(cfg, b, k, x);
      var v, m :| ByTrade(cfg, x, t, launch, v, m);
      assert !Earlier(t, i, v, m) && !Earlier(v, m, t, i);
    }
    s := Onward(cfg, u, t, c);
  }

  /** A chunk that starts at the first trade and ends at the announcement lists it as announced. */
  lemma {:induction false} BothInOne(cfg: Config, c: int, x: Address, t: int, i: int, a: int, j: int) returns (s: Sys)
    requires ChainOk(cfg) && ReadsUpTo(cfg, c) && EitherWay(cfg, c, x, t, i, a, j)
    ensures Stands(cfg, s, Idle, c, c) && ListedAs(s, x, LaunchAt(cfg, a, j))
  {
    var u := FromBoot(cfg, t - 1);
    ArrivedHistory(cfg, u);
    SettledKeys(cfg, u, t - 1, x);
    assert x !in u.db.tokens;
    var mid, v := WholeChunk(cfg, u, t - 1, a);
    ArrivedHistory(cfg, mid);
    AnnouncedIsListed(cfg, mid, x, a, j);
    assert IsAnnounced(cfg, x, mid.db.tokens[x].launch);
    var b, k :| FirstAnnounced(cfg, x, b, k) && mid.db.tokens[x].launch == LaunchAt(cfg, b, k);
    assert !Earlier(a, j, b, k) && !Earlier(b, k, a, j);
    s := Onward(cfg, v, a, c);
  }

  /**
   On any readable chain, whenever some curve is announced less than a chunk after its first trade with other
   data than an adoption gives, two fault-free runs that settle at one block list it differently.
   */
  lemma {:induction false} TwoListings(cfg: Config, c: int, x: Address, t: int, i: int, a: int, j: int)
    returns (es: seq<Event>, fs: seq<Event>)
    requires ChainOk(cfg) && ReadsUpTo(cfg, c) && EitherWay(cfg, c, x, t, i, a, j)
    ensures FaultFree(es) && Settles(cfg, es, c) && ListedAs(Run(cfg, Boot(cfg), es), x, AdoptionAt(cfg, t, i))
    ensures FaultFree(fs) && Settles(cfg, fs, c) && ListedAs(Run(cfg, Boot(cfg), fs), x, LaunchAt(cfg, a, j))
  {
    var p := CutThere(cfg, c, x, t, i, a, j);
    var q := BothInOne(cfg, c, x, t, i, a, j);
    es :| FaultFree(es) && Run(cfg, Boot(cfg), es) == p;
    fs :| FaultFree(fs) && Run(cfg, Boot(cfg), fs) == q;
    SmoothIsHonest(cfg, es);
    SmoothIsHonest(cfg, fs);
  }

  /** All histories that settle at `c` hold the same listings. */
  ghost predicate OneListing(cfg: Config, c: int) {
    forall es, fs :: Settles(cfg, es, c) && Settles(cfg, fs, c) ==>
                       Run(cfg, Boot(cfg), es).db.tokens == Run(cfg, Boot(cfg), fs).db.tokens
  }

  /**
   The exact condition: on a readable chain the listings of a history settled at `c` are determined by the chain
   if and only if no curve is announced, with other data than an adoption gives, after its first trade by less
   than a chunk.
   */
  lemma {:induction false} ListingsAgreeIff(cfg: Config, c: int)
    requires ChainOk(cfg) && ReadsUpTo(cfg, c)
    ensures OneListing(cfg, c) <==> ListingsDetermined(cfg, c)
  {
    if ListingsDetermined(cfg, c) {
      forall es, fs | Settles(cfg, es, c) && Settles(cfg, fs, c)
        ensures Run(cfg, Boot(cfg), es).db.tokens == Run(cfg, Boot(cfg), fs).db.tokens
      {
        CrashAndRerun(cfg, es, fs, c);
      }
    } else {
      var x, t, i, a, j :| FirstTraded(cfg, x, t, i) && FirstAnnounced(cfg, x, a, j) && a <= c
                           && !SameEitherWay(cfg, t, i, a, j);
      var es, fs := TwoListings(cfg, c, x, t, i, a, j);
    }
  }

  // ---------- an instance ----------

  const DEPLOY: int := TESTNET_DEPLOY_BLOCK

  function TheBuy(): CbLog {
    CbLog(Some(DEPLOY), Some("t"), Some(0), "curve", BuyLog(Some(BuyEvent("trader", 10, 1, 5))))
  }

  function TheAnnouncement(): CbLog {
    CbLog(Some(DEPLOY + 1), Some("u"), Some(0), "factory", CurveCreated(Some(("curve", "token", "owner"))))
  }

  function LateLogs(h: int): seq<CbLog> {
    if h == DEPLOY then [TheBuy()] else if h == DEPLOY + 1 then [TheAnnouncement()] else []
  }

  /** A curve that trades one block before it is announced. */
  function LateChain(): Config {
    ForNetwork(Testnet, "factory", LateLogs, a => if a == "curve" then Some("token") else None)
  }

  lemma {:induction false} LateNames()
    ensures "curve" != "factory" && "owner" != ZERO_ADDRESS && "t" != "u"
  {
    assert "curve"[0] != "factory"[0] && "owner"[0] != ZERO_ADDRESS[0] && "t"[0] != "u"[0];
  }

  lemma {:induction false} LateChainIsSane()
    ensures ChainOk(LateChain())
  {
    LateNames();
  }

  lemma {:induction false} LateChainReads()
    ensures ReadsUpTo(LateChain(), DEPLOY + 1)
  {
    LateNames();
  }

  lemma {:induction false} OnlyTrade(h: int, i: int, x: Address)
    ensures TradesAt(LateChain(), h, i, x) <==> h == DEPLOY && i == 0 && x == "curve"
  {
    LateNames();
  }

  lemma {:induction false} OnlyAnnouncement(h: int, j: int, x: Address)
    ensures AnnouncesAt(LateChain(), h, j, x) <==> h == DEPLOY + 1 && j == 0 && x == "curve"
  {
    LateNames();
  }

  lemma {:induction false} LateChainIsLate()
    ensures FirstTraded(LateChain(), "curve", DEPLOY, 0) && FirstAnnounced(LateChain(), "curve", DEPLOY + 1, 0)
  {
    forall h, i ensures TradesAt(LateChain(), h, i, "curve") <==> h == DEPLOY && i == 0 {
      OnlyTrade(h, i, "curve");
    }
    forall h, j ensures AnnouncesAt(LateChain(), h, j, "curve") <==> h == DEPLOY + 1 && j == 0 {
      OnlyAnnouncement(h, j, "curve");
    }
  }

  lemma {:induction false} OwnersDiffer()
    requires TradesAt(LateChain(), DEPLOY, 0, "curve") && AnnouncesAt(LateChain(), DEPLOY + 1, 0, "curve")
    ensures AdoptionAt(LateChain(), DEPLOY, 0).owner != LaunchAt(LateChain(), DEPLOY + 1, 0).owner
  {
    LateNames();
  }

  /** Two fault-free runs of one chain that settle at one block and list the curve under different owners. */
  lemma {:induction false} ListingDependsOnChunks() returns (es: seq<Event>, fs: seq<Event>)
    ensures var cfg := LateChain();
            var p, q := Run(cfg, Boot(cfg), es), Run(cfg, Boot(cfg), fs);
            && ChainOk(cfg) && FaultFree(es) && FaultFree(fs)
            && Settles(cfg, es, DEPLOY + 1) && Settles(cfg, fs, DEPLOY + 1)
            && "curve" in p.db.tokens && "curve" in q.db.tokens
            && p.db.tokens["curve"].launch.owner != q.db.tokens["curve"].launch.owner
  {
    LateChainIsSane();
    LateChainReads();
    LateChainIsLate();
    OwnersDiffer();
    es, fs := TwoListings(LateChain(), DEPLOY + 1, "curve", DEPLOY, 0, DEPLOY + 1, 0);
  }
}
