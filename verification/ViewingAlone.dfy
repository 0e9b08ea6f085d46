/** Run without interruption, each script has the effect, or gives the error, of its handler. */
module ViewingAlone {
  import opened Orders
  import opened Catalogue
  import opened WatchHandlers
  import opened ViewingScripts

  ghost function Outcome(world: World, ops: seq<Op>, db: Member): Result<Member, Error> {
    match Replay(world, ops, |ops|, db)
    case Err(error) => Err(error)
    case Ok(l) => Ok(View(db, l))
  }

  lemma {:induction false} ErrorStays(world: World, ops: seq<Op>, k: nat, n: nat, db: Member)
    requires k <= n <= |ops| && Replay(world, ops, k, db).Err?
    ensures Replay(world, ops, n, db) == Replay(world, ops, k, db)
    decreases n - k
  {
    if k < n { ErrorStays(world, ops, k, n - 1, db); }
  }

  lemma ViewNothing(db: Member)
    ensures View(db, NOTHING) == db
  {
    NothingRemoved(db.history);
    assert View(db, NOTHING).tracked == db.tracked;
    assert View(db, NOTHING).plans == db.plans;
    assert View(db, NOTHING).history == db.history;
  }

  lemma InsertView(db: Member, l: Local, rows: seq<HistoryRow>)
    ensures View(db, Insert(db, l, rows)) == InsertRows(View(db, l), rows)
  {
    var a, b := View(db, Insert(db, l, rows)), InsertRows(View(db, l), rows);
    assert a.plans == b.plans;
    assert a.history == b.history;
  }

  lemma DropView(db: Member, l: Local, e: EpisodeId, after: Local)
    requires after == l.(dropPlans := l.dropPlans + (View(db, l).plans * {e}), addPlans := l.addPlans - {e})
    ensures View(db, after) == View(db, l).(plans := View(db, l).plans - {e})
  {
    assert View(db, after).plans == View(db, l).plans - {e};
    assert View(db, after).history == View(db, l).history;
  }

  lemma TrackView(db: Member, l: Local, m: MediaId, status: Status)
    ensures View(db, l.(tracked := l.tracked[m := status])) == View(db, l).(tracked := View(db, l).tracked[m := status])
  {
    var after := View(db, l.(tracked := l.tracked[m := status]));
    assert after.tracked == View(db, l).tracked[m := status];
    assert after.history == View(db, l).history;
  }

  lemma RemoveView(db: Member, removed: multiset<HistoryRow>)
    ensures View(db, NOTHING.(removed := NOTHING.removed + removed)) == db.(history := Minus(db.history, removed))
  {
    var after := View(db, NOTHING.(removed := NOTHING.removed + removed));
    assert multiset{} + removed == removed;
    assert after.history == Minus(db.history, removed);
    assert after.plans == db.plans;
    assert after.tracked == db.tracked;
  }

  lemma SeenOne(history: seq<HistoryRow>, m: MediaId, e: EpisodeId)
    ensures |WatchedAmong(history, m, [e])| > 0 <==> HasRow(history, m, e)
  {
    if HasRow(history, m, e) {
      assert e in WatchedAmong(history, m, [e]);
    } else {
      assert WatchedAmong(history, m, [e]) == {};
    }
  }

  /** The next statement of a script; an error is final. */
  lemma Next(world: World, ops: seq<Op>, k: nat, db: Member, op: Op, l: Local) returns (r: Result<Local, Error>)
    requires k < |ops| && ops[k] == op && Replay(world, ops, k, db) == Ok(l)
    ensures r == Execute(world, op, l, db) == Replay(world, ops, k + 1, db)
    ensures r.Err? ==> Outcome(world, ops, db) == Err(r.error)
    ensures r.Ok? && k + 1 == |ops| ==> Outcome(world, ops, db) == Ok(View(db, r.value))
  {
    r := Replay(world, ops, k + 1, db);
    if r.Err? { ErrorStays(world, ops, k + 1, |ops|, db); }
  }

  lemma LockTaken(world: World, ops: seq<Op>, k: nat, db: Member, l: Local)
    requires k < |ops| && ops[k].Take? && Replay(world, ops, k, db) == Ok(l)
    ensures Replay(world, ops, k + 1, db) == Ok(l)
  {
  }

  lemma PlanAlone(world: World, e: EpisodeId, now: Instant, db: Member)
    requires world.cache.Valid()
    ensures Outcome(world, Script(world, Plan(e), now), db) == HandlePlan(world, e, db)
  {
    var ops := Script(world, Plan(e), now);
    var r := PlanChecks(world, ops, e, db);
    if r.Ok? { PlanAdds(world, ops, e, db); }
  }

  lemma PlanChecks(world: World, ops: seq<Op>, e: EpisodeId, db: Member) returns (r: Result<Local, Error>)
    requires |ops| == 9
    requires ops[..6] == [Take(EpisodeState(e)), Take(Tracking), RequireFollowed(e), Take(History),
                          RequireUnwatched(e), Take(Plans)]
    ensures Replay(world, ops, 6, db) == r && (r.Ok? ==> r.value == NOTHING)
    ensures r.Ok? <==> InFollowedShow(world, db, e) && !db.HasWatched(e)
    ensures r.Err? ==> Outcome(world, ops, db) == Err(r.error) == HandlePlan(world, e, db)
  {
    ViewNothing(db);
    assert forall i :: 0 <= i < 6 ==> ops[i] == ops[..6][i];
    LockTaken(world, ops, 0, db, NOTHING);
    LockTaken(world, ops, 1, db, NOTHING);
    r := Next(world, ops, 2, db, RequireFollowed(e), NOTHING);
    if r.Err? { ErrorStays(world, ops, 3, 6, db); return; }
    LockTaken(world, ops, 3, db, NOTHING);
    r := Next(world, ops, 4, db, RequireUnwatched(e), NOTHING);
    if r.Err? { ErrorStays(world, ops, 5, 6, db); return; }
    LockTaken(world, ops, 5, db, NOTHING);
  }

  /** The plan quota is decided on the rows as they are. */
  lemma PlanCounted(world: World, ops: seq<Op>, e: EpisodeId, db: Member)
    requires |ops| == 9
    requires ops[..6] == [Take(EpisodeState(e)), Take(Tracking), RequireFollowed(e), Take(History),
                          RequireUnwatched(e), Take(Plans)]
    requires ops[6] == CountPlans && ops[7] == LookPlanned(e)
    requires Replay(world, ops, 8, db).Ok?
    ensures var l := Replay(world, ops, 8, db).value;
      Replay(world, ops, 6, db) == Ok(NOTHING) && l == NOTHING.(planCount := |db.plans|, isPlanned := e in db.plans)
  {
    var r := PlanChecks(world, ops, e, db);
    PlanLooks(world, ops, e, db);
  }

  lemma PlanLooks(world: World, ops: seq<Op>, e: EpisodeId, db: Member)
    requires |ops| == 9 && Replay(world, ops, 6, db) == Ok(NOTHING)
    requires ops[6] == CountPlans && ops[7] == LookPlanned(e)
    ensures Replay(world, ops, 8, db) == Ok(NOTHING.(planCount := |db.plans|, isPlanned := e in db.plans))
  {
    ViewNothing(db);
    var r := Next(world, ops, 6, db, CountPlans, NOTHING);
    RegistersDontShow(db, r.value);
    r := Next(world, ops, 7, db, LookPlanned(e), r.value);
  }

  lemma PlanAdds(world: World, ops: seq<Op>, e: EpisodeId, db: Member)
    requires |ops| == 9 && Replay(world, ops, 6, db) == Ok(NOTHING)
    requires ops[6] == CountPlans && ops[7] == LookPlanned(e) && ops[8] == AddPlan(e)
    ensures Outcome(world, ops, db)
         == if !HasCapacity(|db.plans|, if e in db.plans then 0 else 1, MAX_EPISODE_PLANS_PER_USER) then Err(Conflict)
            else Ok(db.(plans := db.plans + {e}))
  {
    PlanLooks(world, ops, e, db);
    var looked := Replay(world, ops, 8, db).value;
    RegistersDontShow(db, looked);
    var r := Next(world, ops, 8, db, AddPlan(e), looked);
    if r.Ok? && e !in db.plans { AddedPlanShows(db, looked, e); }
    if r.Ok? && e in db.plans { assert db.plans + {e} == db.plans; }
  }

  lemma AddedPlanShows(db: Member, l: Local, e: EpisodeId)
    requires View(db, l) == db && l.addPlans == {}
    ensures View(db, l.(addPlans := l.addPlans + {e})) == db.(plans := db.plans + {e})
  {
    var after := View(db, l.(addPlans := l.addPlans + {e}));
    assert after.plans == db.plans + {e};
    assert after.history == View(db, l).history && after.tracked == View(db, l).tracked;
  }

  lemma UnplanAlone(world: World, e: EpisodeId, now: Instant, db: Member)
    requires world.cache.Valid()
    ensures Outcome(world, Script(world, Unplan(e), now), db) == Ok(db.(plans := db.plans - {e}))
  {
    var ops := Script(world, Unplan(e), now);
    ViewNothing(db);
    var r := Next(world, ops, 0, db, Take(EpisodeState(e)), NOTHING);
    r := Next(world, ops, 1, db, DropPlan(e), NOTHING);
    assert View(db, r.value).plans == db.plans - {e};
  }

  lemma MarkFromCalendarAlone(world: World, e: EpisodeId, now: Instant, db: Member)
    requires world.cache.Valid()
    ensures Outcome(world, Script(world, MarkFromCalendar(e), now), db) == HandleMarkFromCalendar(world, e, now, db)
  {
    var ops := Script(world, MarkFromCalendar(e), now);
    var r := CalendarChecks(world, ops, e, db);
    if r.Ok? {
      ViewNothing(db);
      var m := world.cache.SeasonOf(e).media;
      CalendarMarks(world, ops, m, e, now, db, NOTHING);
      CalendarHandles(world, e, now, db);
    }
  }

  lemma CalendarHandles(world: World, e: EpisodeId, now: Instant, db: Member)
    requires InFollowedShow(world, db, e) && world.cache.Aired(world.clock, e)
    ensures var m := world.cache.SeasonOf(e).media;
      HandleMarkFromCalendar(world, e, now, db) == Settled(SeenOrOne(db, m, e, now), m, e)
  {
  }

  lemma CalendarChecks(world: World, ops: seq<Op>, e: EpisodeId, db: Member) returns (r: Result<Local, Error>)
    requires |ops| == 10 && world.cache.Valid()
    requires ops[..5] == [Take(EpisodeState(e)), Take(Tracking), RequireFollowed(e),
                          Check(e in world.cache.episodes && world.cache.Aired(world.clock, e), BadRequest),
                          Take(History)]
    ensures r.Ok? ==> r.value == NOTHING && Replay(world, ops, 5, db) == r
    ensures r.Ok? <==> InFollowedShow(world, db, e) && world.cache.Aired(world.clock, e)
    ensures r.Err? ==> Outcome(world, ops, db) == Err(r.error)
    ensures r.Err? ==> r.error == if InFollowedShow(world, db, e) then BadRequest else NotFound
  {
    ViewNothing(db);
    assert forall i :: 0 <= i < 5 ==> ops[i] == ops[..5][i];
    r := Next(world, ops, 0, db, Take(EpisodeState(e)), NOTHING);
    r := Next(world, ops, 1, db, Take(Tracking), NOTHING);
    r := Next(world, ops, 2, db, RequireFollowed(e), NOTHING);
    if r.Err? { return; }
    r := Next(world, ops, 3, db, ops[3], NOTHING);
    if r.Err? { return; }
    r := Next(world, ops, 4, db, Take(History), NOTHING);
  }

  lemma CalendarMarks(world: World, ops: seq<Op>, m: MediaId, e: EpisodeId, now: Instant, db: Member, l: Local)
    requires |ops| == 10 && Replay(world, ops, 5, db) == Ok(l) && View(db, l) == db
    requires ops[5] == CountHistory && ops[6] == LookWatched(m, [e])
    requires ops[7] == InsertUnlessSeen(HistoryRow(m, Some(e), now))
    requires ops[8] == DropPlan(e) && ops[9] == Touch(m)
    ensures Outcome(world, ops, db) == Settled(SeenOrOne(db, m, e, now), m, e)
  {
    var r := SeenOrInserted(world, ops, 5, db, l, m, e, now);
    if r.Ok? { CalendarSettles(world, ops, m, e, db, r.value); }
  }

  /** The plan gone and the tracking touched, once the row is there. */
  function Settled(marked: Result<Member, Error>, m: MediaId, e: EpisodeId): Result<Member, Error> {
    match marked
    case Err(error) => Err(error)
    case Ok(rows) => Ok(rows.(plans := rows.plans - {e}, tracked := TouchTracking(rows.tracked, m)))
  }

  /** A row for the episode, unless there is one. */
  function SeenOrOne(before: Member, m: MediaId, e: EpisodeId, now: Instant): Result<Member, Error> {
    if HasRow(before.history, m, e) then Ok(before) else InsertOne(before, HistoryRow(m, Some(e), now))
  }

  lemma CalendarSettles(world: World, ops: seq<Op>, m: MediaId, e: EpisodeId, db: Member, l: Local)
    requires |ops| == 10 && Replay(world, ops, 8, db) == Ok(l) && ops[8] == DropPlan(e) && ops[9] == Touch(m)
    ensures var marked := View(db, l);
      Outcome(world, ops, db) == Ok(marked.(plans := marked.plans - {e}, tracked := TouchTracking(marked.tracked, m)))
  {
    var r := Next(world, ops, 8, db, DropPlan(e), l);
    DropView(db, l, e, r.value);
    TrackView(db, r.value, m, Watching);
    r := Next(world, ops, 9, db, Touch(m), r.value);
  }

  lemma HistoryCounted(world: World, ops: seq<Op>, k: nat, db: Member, l: Local) returns (counted: Local)
    requires k < |ops| && Replay(world, ops, k, db) == Ok(l) && ops[k] == CountHistory
    ensures Replay(world, ops, k + 1, db) == Ok(counted) && View(db, counted) == View(db, l)
    ensures counted == l.(historyCount := |View(db, l).history|)
  {
    var r := Next(world, ops, k, db, CountHistory, l);
    counted := r.value;
  }

  lemma HistoryLooked(world: World, ops: seq<Op>, k: nat, db: Member, l: Local, m: MediaId, ids: seq<EpisodeId>)
      returns (looked: Local)
    requires k < |ops| && Replay(world, ops, k, db) == Ok(l) && ops[k] == LookWatched(m, ids)
    ensures Replay(world, ops, k + 1, db) == Ok(looked) && View(db, looked) == View(db, l)
    ensures looked == l.(seen := |WatchedAmong(View(db, l).history, m, ids)|)
  {
    var r := Next(world, ops, k, db, LookWatched(m, ids), l);
    looked := r.value;
  }

  /** Count, look for the row, and insert it unless it is there. */
  lemma SeenOrInserted(
      world: World, ops: seq<Op>, k: nat, db: Member, l: Local, m: MediaId, e: EpisodeId, now: Instant)
      returns (r: Result<Local, Error>)
    requires k + 2 < |ops| && Replay(world, ops, k, db) == Ok(l)
    requires ops[k] == CountHistory && ops[k + 1] == LookWatched(m, [e])
    requires ops[k + 2] == InsertUnlessSeen(HistoryRow(m, Some(e), now))
    ensures r == Replay(world, ops, k + 3, db)
    ensures var before := View(db, l);
      var after := SeenOrOne(before, m, e, now);
      && (r.Err? ==> after == Err(r.error) && Outcome(world, ops, db) == Err(r.error))
      && (r.Ok? ==> after == Ok(View(db, r.value)) && (k + 3 == |ops| ==> Outcome(world, ops, db) == after))
  {
    var counted := HistoryCounted(world, ops, k, db, l);
    var looked := HistoryLooked(world, ops, k + 1, db, counted, m, [e]);
    SeenOne(View(db, l).history, m, e);
    r := InsertedUnlessSeen(world, ops, k + 2, db, looked, m, e, now);
  }

  lemma InsertedUnlessSeen(
      world: World, ops: seq<Op>, k: nat, db: Member, l: Local, m: MediaId, e: EpisodeId, now: Instant)
      returns (r: Result<Local, Error>)
    requires k < |ops| && Replay(world, ops, k, db) == Ok(l) && ops[k] == InsertUnlessSeen(HistoryRow(m, Some(e), now))
    requires l.historyCount == |View(db, l).history| && (l.seen > 0 <==> HasRow(View(db, l).history, m, e))
    ensures r == Replay(world, ops, k + 1, db)
    ensures var after := SeenOrOne(View(db, l), m, e, now);
      && (r.Err? ==> after == Err(r.error) && Outcome(world, ops, db) == Err(r.error))
      && (r.Ok? ==> after == Ok(View(db, r.value)) && (k + 1 == |ops| ==> Outcome(world, ops, db) == after))
  {
    InsertView(db, l, [HistoryRow(m, Some(e), now)]);
    r := Next(world, ops, k, db, InsertUnlessSeen(HistoryRow(m, Some(e), now)), l);
  }

  /** Two checks before the transaction. */
  lemma PreChecks(world: World, ops: seq<Op>, db: Member, a: bool, e: Error, b: bool, f: Error)
      returns (r: Result<Local, Error>)
    requires |ops| >= 2 && ops[0] == Check(a, e) && ops[1] == Check(b, f)
    ensures r == if !a then Err(e) else if !b then Err(f) else Ok(NOTHING)
    ensures r.Ok? ==> Replay(world, ops, 2, db) == r
    ensures r.Err? ==> Outcome(world, ops, db) == Err(r.error)
  {
    r := Next(world, ops, 0, db, Check(a, e), NOTHING);
    if r.Err? { return; }
    r := Next(world, ops, 1, db, Check(b, f), NOTHING);
  }

  /** `ensure_tracking_for_watch` as four statements, and the history lock after it. */
  lemma TrackingEnsured(world: World, ops: seq<Op>, k: nat, m: MediaId, db: Member) returns (r: Result<Local, Error>)
    requires k + 4 < |ops| && Replay(world, ops, k, db) == Ok(NOTHING)
    requires ops[k] == Take(Tracking) && ops[k + 1] == CountTracking && ops[k + 2] == LookTracked(m)
    requires ops[k + 3] == Track(m) && ops[k + 4] == Take(History)
    ensures r.Ok? ==> Replay(world, ops, k + 5, db) == r && TrackForWatch(db, m) == Ok(View(db, r.value))
    ensures r.Err? ==> TrackForWatch(db, m) == Err(r.error) && Outcome(world, ops, db) == Err(r.error)
  {
    var looked := TrackingCounted(world, ops, k, m, db);
    TrackStatement(world, m, db, looked);
    r := Next(world, ops, k + 3, db, Track(m), looked);
    if r.Err? { return; }
    var tracking := r.value;
    r := Next(world, ops, k + 4, db, Take(History), tracking);
  }

  lemma TrackStatement(world: World, m: MediaId, db: Member, l: Local)
    requires View(db, l) == db && l.trackedCount == |db.tracked| && l.isTracked == (m in db.tracked)
    ensures var r := Execute(world, Track(m), l, db);
      TrackForWatch(db, m) == match r case Err(error) => Err(error) case Ok(tracking) => Ok(View(db, tracking))
  {
    TrackView(db, l, m, StatusForWatch(db.tracked, m));
  }

  lemma TrackingCounted(world: World, ops: seq<Op>, k: nat, m: MediaId, db: Member) returns (looked: Local)
    requires k + 3 < |ops| && Replay(world, ops, k, db) == Ok(NOTHING)
    requires ops[k] == Take(Tracking) && ops[k + 1] == CountTracking && ops[k + 2] == LookTracked(m)
    ensures Replay(world, ops, k + 3, db) == Ok(looked) && View(db, looked) == db
    ensures looked.trackedCount == |db.tracked| && looked.isTracked == (m in db.tracked)
  {
    LockTaken(world, ops, k, db, NOTHING);
    TrackingTallied(world, ops, k + 1, db);
    looked := TrackingLooked(world, ops, k + 2, m, db, NOTHING.(trackedCount := |db.tracked|));
  }

  lemma TrackingTallied(world: World, ops: seq<Op>, k: nat, db: Member)
    requires k < |ops| && Replay(world, ops, k, db) == Ok(NOTHING) && ops[k] == CountTracking
    ensures Replay(world, ops, k + 1, db) == Ok(NOTHING.(trackedCount := |db.tracked|))
  {
    ViewNothing(db);
    var r := Next(world, ops, k, db, CountTracking, NOTHING);
  }

  lemma TrackingLooked(world: World, ops: seq<Op>, k: nat, m: MediaId, db: Member, counted: Local)
      returns (looked: Local)
    requires k < |ops| && Replay(world, ops, k, db) == Ok(counted) && ops[k] == LookTracked(m)
    requires counted == NOTHING.(trackedCount := |db.tracked|)
    ensures Replay(world, ops, k + 1, db) == Ok(looked) && View(db, looked) == db
    ensures looked == counted.(isTracked := m in db.tracked)
  {
    RegistersDontShow(db, counted);
    var r := Next(world, ops, k, db, LookTracked(m), counted);
    looked := r.value;
    RegistersDontShow(db, looked);
  }

  /** A transaction that has written nothing sees the committed rows. */
  lemma RegistersDontShow(db: Member, l: Local)
    requires l.tracked == map[] && l.added == [] && l.removed == multiset{} && l.addPlans == {} && l.dropPlans == {}
    ensures View(db, l) == db
  {
    ViewNothing(db);
    assert View(db, l) == View(db, NOTHING);
  }

  lemma CountedAndInserted(world: World, ops: seq<Op>, k: nat, db: Member, l: Local, row: HistoryRow)
    requires k + 2 == |ops| && Replay(world, ops, k, db) == Ok(l)
    requires ops[k] == CountHistory && ops[k + 1] == InsertRow(row)
    ensures Outcome(world, ops, db) == InsertOne(View(db, l), row)
  {
    var counted := HistoryCounted(world, ops, k, db, l);
    InsertView(db, counted, [row]);
    var r := Next(world, ops, k + 1, db, InsertRow(row), counted);
  }

  lemma MarkAlone(world: World, m: MediaId, e: EpisodeId, now: Instant, db: Member)
    requires world.cache.Valid()
    ensures Outcome(world, Script(world, Mark(m, e), now), db) == HandleMark(world, m, e, now, db)
  {
    MarkSteps(world, Script(world, Mark(m, e), now), m, e, now, db);
  }

  lemma MarkSteps(world: World, ops: seq<Op>, m: MediaId, e: EpisodeId, now: Instant, db: Member)
    requires world.cache.Valid() && |ops| == 10
    requires ops[0] == Check(world.cache.IsEpisodeOf(e, m), NotFound)
    requires ops[1] == Check(world.cache.IsEpisodeOf(e, m) && !InFuture(world, e), BadRequest)
    requires ops[2..7] == EnsureTracking(m) + [Take(History)]
    requires ops[7] == CountHistory && ops[8] == LookWatched(m, [e])
    requires ops[9] == InsertUnlessSeen(HistoryRow(m, Some(e), now))
    ensures Outcome(world, ops, db) == HandleMark(world, m, e, now, db)
  {
    var r := EpisodeTracked(world, ops, m, e, db);
    if r.Err? { return; }
    assert HandleMark(world, m, e, now, db) == SeenOrOne(View(db, r.value), m, e, now);
    r := SeenOrInserted(world, ops, 7, db, r.value, m, e, now);
  }

  lemma RewatchEpisodeAlone(world: World, m: MediaId, e: EpisodeId, now: Instant, db: Member)
    requires world.cache.Valid()
    ensures Outcome(world, Script(world, RewatchEpisode(m, e), now), db) == HandleRewatchEpisode(world, m, e, now, db)
  {
    var r := EpisodeTracked(world, Script(world, RewatchEpisode(m, e), now), m, e, db);
    if r.Err? { return; }
    CountedAndInserted(world, Script(world, RewatchEpisode(m, e), now), 7, db, r.value, HistoryRow(m, Some(e), now));
  }

  /** The checks before the transaction, the tracking row, and the history lock. */
  lemma EpisodeTracked(world: World, ops: seq<Op>, m: MediaId, e: EpisodeId, db: Member)
      returns (r: Result<Local, Error>)
    requires world.cache.Valid() && |ops| >= 7
    requires ops[0] == Check(world.cache.IsEpisodeOf(e, m), NotFound)
    requires ops[1] == Check(world.cache.IsEpisodeOf(e, m) && !InFuture(world, e), BadRequest)
    requires ops[2..7] == EnsureTracking(m) + [Take(History)]
    ensures r.Err? ==> Outcome(world, ops, db) == Err(r.error)
    ensures r.Err? ==>
      Err(r.error) == if !world.cache.IsEpisodeOf(e, m) then Err(NotFound)
                      else if InFuture(world, e) then Err(BadRequest) else TrackForWatch(db, m)
    ensures r.Ok? ==> world.cache.IsEpisodeOf(e, m) && !InFuture(world, e)
    ensures r.Ok? ==> Replay(world, ops, 7, db) == r && TrackForWatch(db, m) == Ok(View(db, r.value))
  {
    var known := world.cache.IsEpisodeOf(e, m);
    r := PreChecks(world, ops, db, known, NotFound, known && !InFuture(world, e), BadRequest);
    if r.Err? { return; }
    assert forall i :: 0 <= i < 5 ==> ops[2 + i] == ops[2..7][i];
    r := TrackingEnsured(world, ops, 2, m, db);
  }

  lemma RewatchMovieAlone(world: World, m: MediaId, now: Instant, db: Member)
    requires world.cache.Valid()
    ensures Outcome(world, Script(world, RewatchMovie(m), now), db) == HandleRewatchMovie(m, now, db)
  {
    var ops := Script(world, RewatchMovie(m), now);
    var r := TrackingEnsured(world, ops, 0, m, db);
    if r.Err? { return; }
    CountedAndInserted(world, ops, 5, db, r.value, HistoryRow(m, None, now));
  }

  lemma BulkAlone(world: World, m: MediaId, ids: seq<EpisodeId>, again: bool, now: Instant, db: Member)
    requires world.cache.Valid()
    ensures Outcome(world, Script(world, Bulk(m, ids, again), now), db) == HandleBulk(m, ids, again, now, db)
  {
    var ops := Script(world, Bulk(m, ids, again), now);
    var r := PreChecks(world, ops, db, ids != [], NotFound, |ids| <= MAX_BULK_EPISODES, BadRequest);
    if r.Err? { return; }
    r := TrackingEnsured(world, ops, 2, m, db);
    if r.Err? { return; }
    BulkInserts(world, ops, m, ids, again, now, db, r.value);
  }

  lemma BulkInserts(
      world: World, ops: seq<Op>, m: MediaId, ids: seq<EpisodeId>, again: bool, now: Instant, db: Member, l: Local)
    requires |ops| == 10 && Replay(world, ops, 7, db) == Ok(l)
    requires ops[7] == CountHistory && ops[8] == LookWatched(m, ids) && ops[9] == InsertBulk(m, ids, again, now)
    ensures var before := View(db, l);
      Outcome(world, ops, db)
      == if !HasCapacity(|before.history|, Reserved(before.history, m, ids, again), MAX_HISTORY_EVENTS_PER_USER)
         then Err(Conflict)
         else Ok(InsertRows(before, NewRows(before.history, m, ids, again, now)))
  {
    var before := View(db, l);
    var counted := HistoryCounted(world, ops, 7, db, l);
    var looked := HistoryLooked(world, ops, 8, db, counted, m, ids);
    WatchedAmongSize(before.history, m, ids);
    InsertView(db, looked, NewRows(before.history, m, ids, again, now));
    var r := Next(world, ops, 9, db, InsertBulk(m, ids, again, now), looked);
  }

  lemma CreateAlone(world: World, m: MediaId, about: Option<EpisodeId>, at: Instant, now: Instant, db: Member)
    requires world.cache.Valid()
    ensures Outcome(world, Script(world, CreateHistory(m, about, at), now), db)
        == HandleCreate(world, m, about, at, now, db)
  {
    var row := HistoryRow(m, about, if at < now then at else now);
    var aired := about.None?
        || (world.cache.IsEpisodeOf(about.value, m) && world.cache.Aired(world.clock, about.value));
    CheckedInsert(world, Script(world, CreateHistory(m, about, at), now), m in world.cache.media, aired, row, db);
  }

  lemma CheckedInsert(world: World, ops: seq<Op>, a: bool, b: bool, row: HistoryRow, db: Member)
    requires ops == [Check(a, BadRequest), Check(b, BadRequest), Take(History), CountHistory, InsertRow(row)]
    ensures Outcome(world, ops, db) == if a && b then InsertOne(db, row) else Err(BadRequest)
  {
    ViewNothing(db);
    var r := PreChecks(world, ops, db, a, BadRequest, b, BadRequest);
    if r.Err? { return; }
    r := Next(world, ops, 2, db, Take(History), NOTHING);
    CountedAndInserted(world, ops, 3, db, NOTHING, row);
  }

  lemma UnmarkAlone(world: World, e: EpisodeId, now: Instant, db: Member)
    requires world.cache.Valid()
    ensures Outcome(world, Script(world, Unmark(e), now), db) == HandleUnmark(world, e, db)
  {
    var ops := Script(world, Unmark(e), now);
    var r := Next(world, ops, 0, db, Check(e in world.cache.episodes, NotFound), NOTHING);
    if r.Err? { return; }
    LockTaken(world, ops, 1, db, NOTHING);
    EpisodeTakenOut(world, ops, 2, db, e);
  }

  lemma DeleteAlone(world: World, row: HistoryRow, now: Instant, db: Member)
    requires world.cache.Valid()
    ensures Outcome(world, Script(world, Request.DeleteHistory(row), now), db) == HandleDelete(row, db)
  {
    var ops := Script(world, Request.DeleteHistory(row), now);
    LockTaken(world, ops, 0, db, NOTHING);
    RowTakenOut(world, ops, 1, db, row);
  }

  lemma EpisodeTakenOut(world: World, ops: seq<Op>, k: nat, db: Member, e: EpisodeId)
    requires k + 1 == |ops| && Replay(world, ops, k, db) == Ok(NOTHING) && ops[k] == RemoveEpisode(e)
    ensures Outcome(world, ops, db)
         == Ok(db.(history := Minus(db.history, multiset(Matching(db.history, e)))))
  {
    ViewNothing(db);
    RemoveView(db, multiset(Matching(db.history, e)));
    var r := Next(world, ops, k, db, RemoveEpisode(e), NOTHING);
  }

  lemma RowTakenOut(world: World, ops: seq<Op>, k: nat, db: Member, row: HistoryRow)
    requires k + 1 == |ops| && Replay(world, ops, k, db) == Ok(NOTHING) && ops[k] == RemoveRow(row)
    ensures Outcome(world, ops, db) == HandleDelete(row, db)
  {
    ViewNothing(db);
    RemoveView(db, multiset{row});
    var r := Next(world, ops, k, db, RemoveRow(row), NOTHING);
  }

  lemma CalendarScripts(world: World, q: Request, now: Instant, db: Member)
    requires WellFormed(world, q) && (q.Plan? || q.Unplan? || q.MarkFromCalendar?)
    ensures Outcome(world, Script(world, q, now), db) == Handle(world, q, now, db)
  {
    match q
    case Plan(e) => PlanAlone(world, e, now, db);
    case Unplan(e) => UnplanAlone(world, e, now, db);
    case MarkFromCalendar(e) => MarkFromCalendarAlone(world, e, now, db);
  }

  lemma WatchingScripts(world: World, q: Request, now: Instant, db: Member)
    requires WellFormed(world, q) && (q.Mark? || q.Bulk? || q.RewatchEpisode? || q.RewatchMovie?)
    ensures Outcome(world, Script(world, q, now), db) == Handle(world, q, now, db)
  {
    match q
    case Mark(m, e) => MarkAlone(world, m, e, now, db);
    case Bulk(m, ids, again) => BulkAlone(world, m, ids, again, now, db);
    case RewatchEpisode(m, e) => RewatchEpisodeAlone(world, m, e, now, db);
    case RewatchMovie(m) => RewatchMovieAlone(world, m, now, db);
  }

  lemma HistoryScripts(world: World, q: Request, now: Instant, db: Member)
    requires WellFormed(world, q) && (q.CreateHistory? || q.Unmark? || q.DeleteHistory?)
    ensures Outcome(world, Script(world, q, now), db) == Handle(world, q, now, db)
  {
    match q
    case CreateHistory(m, about, at) => CreateAlone(world, m, about, at, now, db);
    case Unmark(e) => UnmarkAlone(world, e, now, db);
    case DeleteHistory(row) => DeleteAlone(world, row, now, db);
  }

  /** Run without interruption, a script has the effect, or the error, of its handler. */
  lemma ScriptIsHandler(world: World, q: Request, now: Instant, db: Member)
    requires WellFormed(world, q)
    ensures Outcome(world, Script(world, q, now), db) == Handle(world, q, now, db)
  {
    if q.Plan? || q.Unplan? || q.MarkFromCalendar? {
      CalendarScripts(world, q, now, db);
    } else if q.Mark? || q.Bulk? || q.RewatchEpisode? || q.RewatchMovie? {
      WatchingScripts(world, q, now, db);
    } else {
      HistoryScripts(world, q, now, db);
    }
  }
}
