/** Refusals. Every refused request is refused as its handler would refuse it alone at that
    instant, except a plan whose count has gone stale: unplanning takes none of the locks the
    count is read under. A stale count always refuses wrongly, and such a run exists. */
module PlanQuota {
  import opened Orders
  import opened Catalogue
  import opened WatchHandlers
  import opened ViewingScripts
  import opened ViewingAlone
  import opened ViewingProtocol

  /** The insert of a plan is next, and plans have gone since they were counted. */
  predicate StalePlan(tx: Tx, db: Member) {
    tx.pc < |tx.ops| && tx.ops[tx.pc].AddPlan? && |db.plans| < tx.local.planCount
  }

  // ---- every count taken was within the cap --------------------------------------------

  ghost predicate CountsCapped(s: State) {
    forall t :: t in s.txs ==> s.txs[t].local.planCount <= MAX_EPISODE_PLANS_PER_USER
  }

  lemma StatementCounts(world: World, op: Op, l: Local, db: Member)
    requires Execute(world, op, l, db).Ok?
    ensures var after := Execute(world, op, l, db).value;
      after.planCount == if op.CountPlans? then |View(db, l).plans| else l.planCount
  {
  }

  lemma CountIsPlan(world: World, q: Request, now: Instant, k: nat)
    requires world.cache.Valid() && k < |Script(world, q, now)| && Script(world, q, now)[k].CountPlans?
    ensures q.Plan? && k == 6
  {
  }

  /** A transaction that counts plans has planned nothing itself. */
  lemma CountSeesRows(cache: Cache, s: State, t: TxId)
    requires Inv(s) && Active(s, t) && Scripted(cache, s.txs[t])
    requires s.txs[t].pc < |s.txs[t].ops| && s.txs[t].ops[s.txs[t].pc].CountPlans?
    ensures var db := RowsOf(s.members, s.txs[t].user); View(db, s.txs[t].local).plans <= db.plans
  {
    var tx := s.txs[t];
    assert TxInv(s, t);
    CountIsPlan(tx.world, tx.request, tx.now, tx.pc);
    var r := PlanChecks(tx.world, tx.ops, tx.request.episode, RowsOf(s.members, tx.user));
  }

  lemma CountsStep(cache: Cache, s: State, event: Event)
    requires Inv(s) && AllScripted(cache, s) && AllSound(cache, s.members) && CountsCapped(s)
    ensures CountsCapped(Apply(cache, s, event))
  {
    if event.Advance? && Active(s, event.t) && !Waits(s, event.t) && s.txs[event.t].pc < |s.txs[event.t].ops| {
      StatementCapped(cache, s, event.t);
    }
  }

  lemma StatementCapped(cache: Cache, s: State, t: TxId)
    requires Inv(s) && AllSound(cache, s.members) && CountsCapped(s)
    requires Active(s, t) && Scripted(cache, s.txs[t]) && s.txs[t].pc < |s.txs[t].ops|
    ensures CountsCapped(Statement(s, t))
  {
    var tx := s.txs[t];
    var db := RowsOf(s.members, tx.user);
    var op := tx.ops[tx.pc];
    var done := Execute(tx.world, op, tx.local, db);
    if done.Ok? {
      StatementCounts(tx.world, op, tx.local, db);
      if op.CountPlans? {
        CountSeesRows(cache, s, t);
        SubsetSize(View(db, tx.local).plans, db.plans);
        RowsWithinCap(cache, s.members, tx.user);
      }
    }
  }

  lemma RowsWithinCap(cache: Cache, members: map<UserId, Member>, u: UserId)
    requires AllSound(cache, members)
    ensures |RowsOf(members, u).plans| <= MAX_EPISODE_PLANS_PER_USER
  {
    if u in members { assert SoundRows(cache, members[u]); }
  }

  lemma {:induction false} RunCapped(cache: Cache, members: map<UserId, Member>, events: seq<Event>)
    requires AllSound(cache, members)
    ensures CountsCapped(Run(cache, members, events))
    decreases |events|
  {
    if events != [] {
      var before := events[..|events| - 1];
      RunCapped(cache, members, before);
      RunKeeps(cache, members, before);
      RunScripted(cache, members, before);
      RunSound(cache, members, before);
      CountsStep(cache, Run(cache, members, before), events[|events| - 1]);
    }
  }

  // ---- exactly which refusals are wrong ------------------------------------------------

  /** In every run, a refusal is the one the handler would give alone at that instant if and only
      if it is not a plan refused by a stale count; and then the handler would have accepted. */
  lemma RefusalsAreHandlers(
      cache: Cache, members: map<UserId, Member>, events: seq<Event>, t: TxId, error: Error)
    requires AllSound(cache, members)
    requires var s := Run(cache, members, events);
      Active(s, t) && !Waits(s, t) && Advanced(s, t).txs[t].progress == Failed(Some(error))
    ensures var s := Run(cache, members, events); var tx := s.txs[t]; var db := RowsOf(s.members, tx.user);
      && WellFormed(tx.world, tx.request)
      && (Handle(tx.world, tx.request, tx.now, db) == Err(error) <==> !StalePlan(tx, db))
      && (Handle(tx.world, tx.request, tx.now, db).Ok? <==> StalePlan(tx, db))
  {
    RunKeeps(cache, members, events);
    RunScripted(cache, members, events);
    RunCapped(cache, members, events);
    var s := Run(cache, members, events);
    assert TxInv(s, t) && Scripted(cache, s.txs[t]);
    Refused(cache, s, t, error);
  }

  lemma Refused(cache: Cache, s: State, t: TxId, error: Error)
    requires Inv(s) && CountsCapped(s) && Active(s, t) && !Waits(s, t) && Scripted(cache, s.txs[t])
    requires Advanced(s, t).txs[t].progress == Failed(Some(error))
    ensures var tx := s.txs[t]; var db := RowsOf(s.members, tx.user);
      Handle(tx.world, tx.request, tx.now, db) == Err(error)
      || (StalePlan(tx, db) && Handle(tx.world, tx.request, tx.now, db).Ok?)
    ensures var tx := s.txs[t]; var db := RowsOf(s.members, tx.user);
      StalePlan(tx, db) ==> Handle(tx.world, tx.request, tx.now, db).Ok?
  {
    var tx := s.txs[t];
    var db := RowsOf(s.members, tx.user);
    assert TxInv(s, t);
    StatementSteps(s, t);
    ScriptIsHandler(tx.world, tx.request, tx.now, db);
    if tx.ops[tx.pc].AddPlan? {
      PlanRefused(tx.world, tx.request, tx.now, tx.pc, tx.local, db);
    }
  }

  lemma InsertIsPlan(world: World, q: Request, now: Instant, k: nat)
    requires world.cache.Valid() && k < |Script(world, q, now)| && Script(world, q, now)[k].AddPlan?
    ensures q.Plan? && k == 8
  {
  }

  lemma PlanRefused(world: World, q: Request, now: Instant, k: nat, l: Local, db: Member)
    requires world.cache.Valid() && k < |Script(world, q, now)| && Script(world, q, now)[k].AddPlan?
    requires var ops := Script(world, q, now);
      && Replay(world, ops, k, db).Ok? && Sim(Held(ops, k), l, Replay(world, ops, k, db).value, db.plans)
      && Execute(world, ops[k], l, db).Err?
    requires l.planCount <= MAX_EPISODE_PLANS_PER_USER
    ensures var ops := Script(world, q, now);
      && q.Plan? && Execute(world, ops[k], l, db) == Err(Conflict)
      && (if |db.plans| < l.planCount then HandlePlan(world, q.episode, db).Ok?
          else Outcome(world, ops, db) == Err(Conflict))
  {
    InsertIsPlan(world, q, now, k);
    var ops := Script(world, q, now);
    var r := PlanChecks(world, ops, q.episode, db);
    PlanCounted(world, ops, q.episode, db);
    CountDecides(world, ops, q.episode, l, db);
  }

  /** Within the cap, a count that has gone down left room for the plan. */
  lemma CountDecides(world: World, ops: seq<Op>, e: EpisodeId, l: Local, db: Member)
    requires |ops| == 9 && ops[8] == AddPlan(e) && InFollowedShow(world, db, e) && !db.HasWatched(e)
    requires Replay(world, ops, 8, db) == Ok(NOTHING.(planCount := |db.plans|, isPlanned := e in db.plans))
    requires |db.plans| <= l.planCount <= MAX_EPISODE_PLANS_PER_USER
    requires l.isPlanned == (e in db.plans) && Execute(world, AddPlan(e), l, db).Err?
    ensures Execute(world, AddPlan(e), l, db) == Err(Conflict)
    ensures if |db.plans| < l.planCount then HandlePlan(world, e, db).Ok? else Outcome(world, ops, db) == Err(Conflict)
  {
    assert Replay(world, ops, 9, db)
        == Execute(world, AddPlan(e), NOTHING.(planCount := |db.plans|, isPlanned := e in db.plans), db);
  }

  // ---- a run with a wrong refusal ------------------------------------------------------

  function Advances(t: TxId, n: nat): seq<Event> {
    if n == 0 then [] else Advances(t, n - 1) + [Advance(t)]
  }

  lemma RunAppends(cache: Cache, members: map<UserId, Member>, events: seq<Event>, event: Event)
    ensures Run(cache, members, events + [event]) == Apply(cache, Run(cache, members, events), event)
  {
    assert (events + [event])[..|events|] == events;
  }

  /** `s'` is `s` after `t` has run its first `n` statements with no one in between. */
  ghost predicate RanAlone(s: State, s': State, t: TxId, n: nat)
    requires Active(s, t) && n <= |s.txs[t].ops|
  {
    var tx := s.txs[t];
    var replay := Replay(tx.world, tx.ops, n, RowsOf(s.members, tx.user));
    && replay.Ok?
    && s'.members == s.members && s'.log == s.log
    && s'.txs == s.txs[t := tx.(pc := n, local := replay.value)]
    && (forall k :: k in s'.locks <==> k in s.locks || (k.0 == tx.user && k.1 in Held(tx.ops, n)))
    && (forall k :: k in s.locks ==> s'.locks[k] == s.locks[k])
  }

  ghost predicate Unlocked(s: State, t: TxId, n: nat)
    requires Active(s, t) && n <= |s.txs[t].ops|
  {
    forall lock :: lock in Held(s.txs[t].ops, n) ==> (s.txs[t].user, lock) !in s.locks
  }

  lemma UnlockedBefore(s: State, t: TxId, n: nat)
    requires Active(s, t) && n < |s.txs[t].ops| && Unlocked(s, t, n + 1)
    requires Replay(s.txs[t].world, s.txs[t].ops, n + 1, RowsOf(s.members, s.txs[t].user)).Ok?
    ensures Unlocked(s, t, n)
    ensures Replay(s.txs[t].world, s.txs[t].ops, n, RowsOf(s.members, s.txs[t].user)).Ok?
  {
    HeldGrows(s.txs[t].ops, n);
  }

  lemma NotYetRun(s: State, t: TxId)
    requires Active(s, t) && s.txs[t].pc == 0 && s.txs[t].local == NOTHING
    ensures RanAlone(s, s, t, 0)
  {
    assert s.txs == s.txs[t := s.txs[t].(pc := 0, local := NOTHING)];
  }

  lemma StatementAlone(cache: Cache, s: State, s': State, t: TxId, n: nat)
    requires Active(s, t) && n < |s.txs[t].ops| && RanAlone(s, s', t, n) && Unlocked(s, t, n + 1)
    requires Disciplined(s.txs[t].ops)
    requires Replay(s.txs[t].world, s.txs[t].ops, n + 1, RowsOf(s.members, s.txs[t].user)).Ok?
    ensures RanAlone(s, Apply(cache, s', Advance(t)), t, n + 1)
  {
    var ops := s.txs[t].ops;
    HeldGrows(ops, n);
    if ops[n].Take? { TakesNewLock(ops, n); }
    assert Active(s', t) && !Waits(s', t);
    StatementRuns(s, s', t, n);
  }

  lemma StatementRuns(s: State, s': State, t: TxId, n: nat)
    requires Active(s, t) && n < |s.txs[t].ops| && RanAlone(s, s', t, n)
    requires s.txs[t].ops[n].Take? ==> (s.txs[t].user, s.txs[t].ops[n].lock) !in s'.locks
    requires Replay(s.txs[t].world, s.txs[t].ops, n + 1, RowsOf(s.members, s.txs[t].user)).Ok?
    ensures RanAlone(s, Statement(s', t), t, n + 1)
  {
    HeldGrows(s.txs[t].ops, n);
  }

  lemma TakesNewLock(ops: seq<Op>, n: nat)
    requires n < |ops| && Disciplined(ops) && ops[n].Take?
    ensures ops[n].lock !in Held(ops, n) && ops[n].lock in Held(ops, n + 1)
  {
    forall i | 0 <= i < n && ops[i].Take? ensures ops[i].lock != ops[n].lock {
      assert Rank(ops[i].lock) < Rank(ops[n].lock);
    }
  }

  /** A transaction at its start that would get through `n` statements alone, with their locks free. */
  ghost predicate CanRun(s: State, t: TxId, n: nat) {
    && Active(s, t) && s.txs[t].pc == 0 && s.txs[t].local == NOTHING && n <= |s.txs[t].ops|
    && Disciplined(s.txs[t].ops) && Unlocked(s, t, n)
    && Replay(s.txs[t].world, s.txs[t].ops, n, RowsOf(s.members, s.txs[t].user)).Ok?
  }

  lemma AdvancesAppend(cache: Cache, members: map<UserId, Member>, events: seq<Event>, t: TxId, n: nat)
    ensures Run(cache, members, events + Advances(t, n + 1))
         == Apply(cache, Run(cache, members, events + Advances(t, n)), Advance(t))
  {
    RunAppends(cache, members, events + Advances(t, n), Advance(t));
    assert events + Advances(t, n + 1) == events + Advances(t, n) + [Advance(t)];
  }

  /** Not interrupted, it runs as its replay. */
  lemma {:induction false} Uninterrupted(
      cache: Cache, members: map<UserId, Member>, events: seq<Event>, s: State, t: TxId, n: nat)
    requires s == Run(cache, members, events) && CanRun(s, t, n)
    ensures RanAlone(s, Run(cache, members, events + Advances(t, n)), t, n)
    decreases n
  {
    if n == 0 {
      assert events + Advances(t, 0) == events;
      NotYetRun(s, t);
    } else {
      UnlockedBefore(s, t, n - 1);
      Uninterrupted(cache, members, events, s, t, n - 1);
      var before := events + Advances(t, n - 1);
      StatementAlone(cache, s, Run(cache, members, before), t, n - 1);
      AdvancesAppend(cache, members, events, t, n - 1);
    }
  }

  /** Rows with the plans at their cap, where one more episode could be planned. */
  ghost predicate AtTheCap(world: World, db: Member, e: EpisodeId, gone: EpisodeId) {
    && world.cache.Valid() && InFollowedShow(world, db, e) && !db.HasWatched(e)
    && |db.plans| == MAX_EPISODE_PLANS_PER_USER && gone in db.plans && e !in db.plans
  }

  /** Plan `e` up to its insert, unplan `gone` whole, in one run. */
  function StaleRun(u: UserId, clock: Clock, today: Date, e: EpisodeId, gone: EpisodeId, now: Instant): seq<Event> {
    UnplanBegun(u, clock, today, e, gone, now) + Advances(1, 2) + [Advance(1)]
  }

  function PlanRun(u: UserId, clock: Clock, today: Date, e: EpisodeId, now: Instant): seq<Event> {
    [Begin(0, u, clock, today, Plan(e), now)] + Advances(0, 8)
  }

  lemma PlanPrefix(world: World, e: EpisodeId, now: Instant, db: Member)
    requires world.cache.Valid() && InFollowedShow(world, db, e) && !db.HasWatched(e)
    ensures var ops := Script(world, Plan(e), now);
      Replay(world, ops, 8, db) == Ok(NOTHING.(planCount := |db.plans|, isPlanned := e in db.plans))
  {
    var ops := Script(world, Plan(e), now);
    var r := PlanChecks(world, ops, e, db);
    PlanLooks(world, ops, e, db);
  }

  lemma PlanRuns(
      cache: Cache, members: map<UserId, Member>, u: UserId, clock: Clock, today: Date, e: EpisodeId, now: Instant)
    requires var world := World(cache, clock, today); var db := RowsOf(members, u);
      cache.Valid() && InFollowedShow(world, db, e) && !db.HasWatched(e)
    ensures var world := World(cache, clock, today); var db := RowsOf(members, u);
      var s := Run(cache, members, PlanRun(u, clock, today, e, now)); var ops := Script(world, Plan(e), now);
      && s.members == members
      && s.txs == map[0 := PlanHalfway(world, u, e, now, db)]
      && (forall k :: k in s.locks <==> k.0 == u && k.1 in Held(ops, 8))
  {
    var world := World(cache, clock, today);
    var begin := [Begin(0, u, clock, today, Plan(e), now)];
    RunAppends(cache, members, [], begin[0]);
    assert [] + begin == begin;
    assert Run(cache, members, begin).locks == map[];
    PlanPrefix(world, e, now, RowsOf(members, u));
    ScriptsDisciplined(world, Plan(e), now);
    Uninterrupted(cache, members, begin, Run(cache, members, begin), 0, 8);
  }

  lemma UnplanMeetsNoLock(ops: seq<Op>, other: seq<Op>, e: EpisodeId, gone: EpisodeId)
    requires |ops| == 9 && e != gone && other == [Take(EpisodeState(gone)), DropPlan(gone)]
    requires ops[..6] == [Take(EpisodeState(e)), Take(Tracking), RequireFollowed(e), Take(History),
                          RequireUnwatched(e), Take(Plans)]
    requires ops[6] == CountPlans && ops[7] == LookPlanned(e)
    ensures Held(ops, 8) !! Held(other, 2)
  {
    assert forall i :: 0 <= i < 6 ==> ops[i] == ops[..6][i];
    forall lock | lock in Held(other, 2) ensures lock !in Held(ops, 8) {
    }
  }

  function UnplanBegun(u: UserId, clock: Clock, today: Date, e: EpisodeId, gone: EpisodeId, now: Instant): seq<Event> {
    PlanRun(u, clock, today, e, now) + [Begin(1, u, clock, today, Unplan(gone), now)]
  }

  function PlanHalfway(world: World, u: UserId, e: EpisodeId, now: Instant, db: Member): Tx
    requires world.cache.Valid()
  {
    Tx(u, world, Plan(e), now, Script(world, Plan(e), now), 8,
       NOTHING.(planCount := |db.plans|, isPlanned := e in db.plans), Running)
  }

  lemma UnplanCanRun(
      cache: Cache, members: map<UserId, Member>, u: UserId, clock: Clock, today: Date,
      e: EpisodeId, gone: EpisodeId, now: Instant)
    requires AtTheCap(World(cache, clock, today), RowsOf(members, u), e, gone)
    ensures var world := World(cache, clock, today);
      var s := Run(cache, members, UnplanBegun(u, clock, today, e, gone, now));
      && CanRun(s, 1, 2) && s.members == members && s.txs[1].user == u && |s.txs[1].ops| == 2
      && s.txs[1].world == world && s.txs[1].ops == Script(world, Unplan(gone), now)
      && 0 in s.txs && s.txs[0] == PlanHalfway(world, u, e, now, RowsOf(members, u))
  {
    var world, db := World(cache, clock, today), RowsOf(members, u);
    PlanRuns(cache, members, u, clock, today, e, now);
    RunAppends(cache, members, PlanRun(u, clock, today, e, now), Begin(1, u, clock, today, Unplan(gone), now));
    ScriptsDisciplined(world, Unplan(gone), now);
    UnplanMeetsNoLock(Script(world, Plan(e), now), Script(world, Unplan(gone), now), e, gone);
    UnplanAlone(world, gone, now, db);
  }

  /** The unplanning goes through while the plan waits for its insert. */
  lemma UnplanRuns(
      cache: Cache, members: map<UserId, Member>, u: UserId, clock: Clock, today: Date,
      e: EpisodeId, gone: EpisodeId, now: Instant)
    requires AtTheCap(World(cache, clock, today), RowsOf(members, u), e, gone)
    ensures var world := World(cache, clock, today); var db := RowsOf(members, u);
      var s := Run(cache, members, StaleRun(u, clock, today, e, gone, now));
      && s.members == members[u := db.(plans := db.plans - {gone})]
      && 0 in s.txs && s.txs[0] == PlanHalfway(world, u, e, now, db)
  {
    var begun := UnplanBegun(u, clock, today, e, gone, now);
    var s := Run(cache, members, begun);
    UnplanCanRun(cache, members, u, clock, today, e, gone, now);
    Uninterrupted(cache, members, begun, s, 1, 2);
    RunAppends(cache, members, begun + Advances(1, 2), Advance(1));
    UnplanAlone(World(cache, clock, today), gone, now, RowsOf(members, u));
    CommitsAlone(cache, s, Run(cache, members, begun + Advances(1, 2)), 1);
  }

  /** A transaction that has run alone commits its outcome. */
  lemma CommitsAlone(cache: Cache, s: State, s': State, t: TxId)
    requires Active(s, t) && RanAlone(s, s', t, |s.txs[t].ops|)
    ensures var tx := s.txs[t]; var after := Apply(cache, s', Advance(t));
      && Outcome(tx.world, tx.ops, RowsOf(s.members, tx.user)).Ok?
      && after.members == s.members[tx.user := Outcome(tx.world, tx.ops, RowsOf(s.members, tx.user)).value]
      && forall o :: o in s.txs && o != t ==> o in after.txs && after.txs[o] == s.txs[o]
  {
    assert Apply(cache, s', Advance(t)) == Commit(s', t);
  }

  /** A stale count refuses a plan there is room for: such a run, from any rows at the cap. */
  lemma PlanCountGoesStale(
      cache: Cache, members: map<UserId, Member>, u: UserId, clock: Clock, today: Date,
      e: EpisodeId, gone: EpisodeId, now: Instant)
    requires AtTheCap(World(cache, clock, today), RowsOf(members, u), e, gone)
    ensures var world := World(cache, clock, today);
      var s := Run(cache, members, StaleRun(u, clock, today, e, gone, now));
      var s' := Run(cache, members, StaleRun(u, clock, today, e, gone, now) + [Advance(0)]);
      && Active(s, 0) && s.txs[0].request == Plan(e) && StalePlan(s.txs[0], RowsOf(s.members, u))
      && Handle(world, Plan(e), now, RowsOf(s.members, u)).Ok?
      && 0 in s'.txs && s'.txs[0].progress == Failed(Some(Conflict))
  {
    var run := StaleRun(u, clock, today, e, gone, now);
    UnplanRuns(cache, members, u, clock, today, e, gone, now);
    RunAppends(cache, members, run, Advance(0));
    var world, db := World(cache, clock, today), RowsOf(members, u);
    var unplanned := db.(plans := db.plans - {gone});
    assert |unplanned.plans| == |db.plans| - 1;
    RoomAfterAll(world, e, NOTHING.(planCount := |db.plans|, isPlanned := false), unplanned);
  }

  lemma RoomAfterAll(world: World, e: EpisodeId, l: Local, db: Member)
    requires InFollowedShow(world, db, e) && !db.HasWatched(e) && e !in db.plans
    requires |db.plans| < MAX_EPISODE_PLANS_PER_USER <= l.planCount && !l.isPlanned
    ensures Execute(world, AddPlan(e), l, db) == Err(Conflict) && HandlePlan(world, e, db).Ok?
  {
  }

  // ---- rows at the cap exist -----------------------------------------------------------

  function FirstIds(n: nat): (ids: set<EpisodeId>)
    requires n <= MAX_EPISODE_PLANS_PER_USER
    ensures |ids| == n && forall e: EpisodeId :: e in ids <==> 0 <= e < n
  {
    if n == 0 then {} else FirstIds(n - 1) + {n - 1}
  }

  function ShowAtTheCap(): Cache {
    Cache(map[0 := Media(Tv, "", None)], map[0 := Season(0, 1, None)],
          map e: EpisodeId | 0 <= e <= MAX_EPISODE_PLANS_PER_USER :: Episode(0, e, None))
  }

  lemma ShowIsValid()
    ensures ShowAtTheCap().Valid()
  {
  }

  function RowsAtTheCap(): Member {
    Member(map[0 := Watching], FirstIds(MAX_EPISODE_PLANS_PER_USER), [])
  }

  lemma RowsAreSound(cache: Cache)
    ensures SoundRows(cache, RowsAtTheCap()) && !RowsAtTheCap().HasWatched(MAX_EPISODE_PLANS_PER_USER)
  {
    assert RowsAtTheCap().tracked.Keys == {0};
    assert |RowsAtTheCap().tracked| == |RowsAtTheCap().tracked.Keys|;
  }

  /** One followed show with one episode more than can be planned: such rows exist and are sound. */
  lemma RowsAtTheCapExist(clock: Clock, today: Date)
    ensures SoundRows(ShowAtTheCap(), RowsAtTheCap())
    ensures AtTheCap(World(ShowAtTheCap(), clock, today), RowsAtTheCap(), MAX_EPISODE_PLANS_PER_USER, 0)
  {
    ShowIsValid();
    RowsAreSound(ShowAtTheCap());
    assert ShowAtTheCap().SeasonOf(MAX_EPISODE_PLANS_PER_USER) == Season(0, 1, None);
  }
}
