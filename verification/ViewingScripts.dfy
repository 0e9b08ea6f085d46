/** The viewing handlers as sequences of SQL statements. A statement sees the committed rows and
    its own transaction's writes (READ COMMITTED); advisory locks are held to the end. Here: what
    each statement does, the locks it runs under, and why a statement's result under its locks
    does not depend on what others commit meanwhile. */
module ViewingScripts {
  import opened Orders
  import opened Catalogue
  import opened WatchHandlers

  /** The advisory locks of one member. */
  datatype Lock = EpisodeState(episode: EpisodeId) | Tracking | History | Plans

  function Rank(lock: Lock): nat {
    match lock
    case EpisodeState(_) => 0
    case Tracking => 1
    case History => 2
    case Plans => 3
  }

  datatype Op =
    | Take(lock: Lock)
    | Check(ok: bool, error: Error)
    | RequireFollowed(episode: EpisodeId)
    | RequireUnwatched(episode: EpisodeId)
    | CountTracking
    | LookTracked(media: MediaId)
    | Track(media: MediaId)
    | Touch(media: MediaId)
    | CountHistory
    | LookWatched(media: MediaId, ids: seq<EpisodeId>)
    | InsertBulk(media: MediaId, ids: seq<EpisodeId>, again: bool, now: Instant)
    | InsertUnlessSeen(row: HistoryRow)
    | InsertRow(row: HistoryRow)
    | RemoveEpisode(episode: EpisodeId)
    | RemoveRow(row: HistoryRow)
    | CountPlans
    | LookPlanned(episode: EpisodeId)
    | AddPlan(episode: EpisodeId)
    | DropPlan(episode: EpisodeId)

  function EnsureTracking(m: MediaId): seq<Op> {
    [Take(Tracking), CountTracking, LookTracked(m), Track(m)]
  }

  /** The statements of each handler, in the order the source issues them. */
  function Script(world: World, q: Request, now: Instant): seq<Op>
    requires world.cache.Valid()
  {
    match q
    case Plan(e) =>
      [Take(EpisodeState(e)), Take(Tracking), RequireFollowed(e), Take(History), RequireUnwatched(e),
       Take(Plans), CountPlans, LookPlanned(e), AddPlan(e)]
    case Unplan(e) =>
      [Take(EpisodeState(e)), DropPlan(e)]
    case MarkFromCalendar(e) =>
      var known := e in world.cache.episodes;
      var m := if known then world.cache.SeasonOf(e).media else 0;
      [Take(EpisodeState(e)), Take(Tracking), RequireFollowed(e),
       Check(known && world.cache.Aired(world.clock, e), BadRequest),
       Take(History), CountHistory, LookWatched(m, [e]), InsertUnlessSeen(HistoryRow(m, Some(e), now)),
       DropPlan(e), Touch(m)]
    case Mark(m, e) =>
      var known := world.cache.IsEpisodeOf(e, m);
      [Check(known, NotFound), Check(known && !InFuture(world, e), BadRequest)] + EnsureTracking(m)
      + [Take(History), CountHistory, LookWatched(m, [e]), InsertUnlessSeen(HistoryRow(m, Some(e), now))]
    case Bulk(m, ids, again) =>
      [Check(ids != [], NotFound), Check(|ids| <= MAX_BULK_EPISODES, BadRequest)] + EnsureTracking(m)
      + [Take(History), CountHistory, LookWatched(m, ids), InsertBulk(m, ids, again, now)]
    case RewatchEpisode(m, e) =>
      var known := world.cache.IsEpisodeOf(e, m);
      [Check(known, NotFound), Check(known && !InFuture(world, e), BadRequest)] + EnsureTracking(m)
      + [Take(History), CountHistory, InsertRow(HistoryRow(m, Some(e), now))]
    case RewatchMovie(m) =>
      EnsureTracking(m) + [Take(History), CountHistory, InsertRow(HistoryRow(m, None, now))]
    case CreateHistory(m, about, at) =>
      [Check(m in world.cache.media, BadRequest),
       Check(about.None? || (world.cache.IsEpisodeOf(about.value, m) && world.cache.Aired(world.clock, about.value)),
             BadRequest),
       Take(History), CountHistory, InsertRow(HistoryRow(m, about, if at < now then at else now))]
    case Unmark(e) =>
      [Check(e in world.cache.episodes, NotFound), Take(History), RemoveEpisode(e)]
    case DeleteHistory(row) =>
      [Take(History), RemoveRow(row)]
  }

  // ---- one transaction -----------------------------------------------------------------

  /** What a transaction has read, and what it has written and not yet committed. */
  datatype Local = Local(
    trackedCount: nat, isTracked: bool, historyCount: nat, seen: nat, planCount: nat, isPlanned: bool,
    tracked: map<MediaId, Status>, added: seq<HistoryRow>, removed: multiset<HistoryRow>,
    addPlans: set<EpisodeId>, dropPlans: set<EpisodeId>)

  const NOTHING := Local(0, false, 0, 0, 0, false, map[], [], multiset{}, {}, {})

  /** The committed rows with a transaction's own writes over them. */
  function View(db: Member, l: Local): Member {
    Member(db.tracked + l.tracked, (db.plans - l.dropPlans) + l.addPlans, Minus(db.history, l.removed) + l.added)
  }

  /** Insert history rows; the trigger deletes the plans the statement can see. */
  function Insert(db: Member, l: Local, rows: seq<HistoryRow>): Local {
    var cleared := EpisodesOf(rows);
    l.(added := l.added + rows,
       dropPlans := l.dropPlans + (View(db, l).plans * cleared),
       addPlans := l.addPlans - cleared)
  }

  /** One statement. A bulk insert has counted at most `|ids|` watched ids, so its first branch is
      never taken in a run. */
  function Execute(world: World, op: Op, l: Local, db: Member): Result<Local, Error> {
    var view := View(db, l);
    match op
    case Take(_) => Ok(l)
    case Check(ok, error) => if ok then Ok(l) else Err(error)
    case RequireFollowed(e) => if InFollowedShow(world, view, e) then Ok(l) else Err(NotFound)
    case RequireUnwatched(e) => if view.HasWatched(e) then Err(Conflict) else Ok(l)
    case CountTracking => Ok(l.(trackedCount := |view.tracked|))
    case LookTracked(m) => Ok(l.(isTracked := m in view.tracked))
    case Track(m) =>
      if !HasCapacity(l.trackedCount, if l.isTracked then 0 else 1, MAX_TRACKING_ITEMS_PER_USER) then Err(Conflict)
      else Ok(l.(tracked := l.tracked[m := StatusForWatch(view.tracked, m)]))
    case Touch(m) =>
      if m in view.tracked && view.tracked[m] == PlanToWatch then Ok(l.(tracked := l.tracked[m := Watching])) else Ok(l)
    case CountHistory => Ok(l.(historyCount := |view.history|))
    case LookWatched(m, ids) => Ok(l.(seen := |WatchedAmong(view.history, m, ids)|))
    case InsertBulk(m, ids, again, now) =>
      if !again && l.seen > |ids| then Err(Internal)
      else if !HasCapacity(l.historyCount, if again then |ids| else |ids| - l.seen, MAX_HISTORY_EVENTS_PER_USER)
        then Err(Conflict)
      else Ok(Insert(db, l, NewRows(view.history, m, ids, again, now)))
    case InsertUnlessSeen(row) =>
      if l.seen > 0 then Ok(l)
      else if !HasCapacity(l.historyCount, 1, MAX_HISTORY_EVENTS_PER_USER) then Err(Conflict)
      else Ok(Insert(db, l, [row]))
    case InsertRow(row) =>
      if !HasCapacity(l.historyCount, 1, MAX_HISTORY_EVENTS_PER_USER) then Err(Conflict) else Ok(Insert(db, l, [row]))
    case RemoveEpisode(e) => Ok(l.(removed := l.removed + multiset(Matching(view.history, e))))
    case RemoveRow(row) => if row !in view.history then Err(NotFound) else Ok(l.(removed := l.removed + multiset{row}))
    case CountPlans => Ok(l.(planCount := |view.plans|))
    case LookPlanned(e) => Ok(l.(isPlanned := e in view.plans))
    case AddPlan(e) =>
      if !HasCapacity(l.planCount, if l.isPlanned then 0 else 1, MAX_EPISODE_PLANS_PER_USER) then Err(Conflict)
      else if e in view.plans then Ok(l)
      else Ok(l.(addPlans := l.addPlans + {e}))
    case DropPlan(e) =>
      Ok(l.(dropPlans := l.dropPlans + (view.plans * {e}), addPlans := l.addPlans - {e}))
  }

  /** The first `k` statements of a script, run without interruption over fixed rows. */
  function Replay(world: World, ops: seq<Op>, k: nat, db: Member): Result<Local, Error>
    requires k <= |ops|
  {
    if k == 0 then Ok(NOTHING)
    else
      match Replay(world, ops, k - 1, db)
      case Err(error) => Err(error)
      case Ok(l) => Execute(world, ops[k - 1], l, db)
  }

  ghost function Held(ops: seq<Op>, k: nat): set<Lock>
    requires k <= |ops|
  {
    set i | 0 <= i < k && ops[i].Take? :: ops[i].lock
  }

  // ---- the locking discipline ----------------------------------------------------------

  /** The locks under which a statement may run. */
  ghost predicate Guarded(op: Op, held: set<Lock>) {
    match op
    case Take(_) => true
    case Check(_, _) => true
    case RequireFollowed(_) => Tracking in held
    case CountTracking => Tracking in held
    case LookTracked(_) => Tracking in held
    case Track(_) => Tracking in held
    case Touch(_) => Tracking in held
    case CountPlans => History in held
    case LookPlanned(e) => History in held && EpisodeState(e) in held
    case AddPlan(e) => History in held && EpisodeState(e) in held
    case DropPlan(e) => EpisodeState(e) in held
    case _ => History in held
  }

  ghost predicate Disciplined(ops: seq<Op>) {
    && (forall i :: 0 <= i < |ops| ==> Guarded(ops[i], Held(ops, i)))
    && (forall i, j :: 0 <= i < j < |ops| && ops[i].Take? && ops[j].Take? ==> Rank(ops[i].lock) < Rank(ops[j].lock))
  }

  /** Every handler reads and writes only under the locks it holds by then, and takes its locks
      in rank order, so at most one of each kind. */
  lemma ScriptsDisciplined(world: World, q: Request, now: Instant)
    requires world.cache.Valid()
    ensures Disciplined(Script(world, q, now))
  {
    if q.Plan? || q.Unplan? || q.MarkFromCalendar? {
      CalendarDisciplined(world, q, now);
    } else if q.Mark? || q.Bulk? || q.RewatchEpisode? || q.RewatchMovie? {
      WatchingDisciplined(world, q, now);
    } else {
      HistoryDisciplined(world, q, now);
    }
  }

  lemma CalendarDisciplined(world: World, q: Request, now: Instant)
    requires world.cache.Valid() && (q.Plan? || q.Unplan? || q.MarkFromCalendar?)
    ensures Disciplined(Script(world, q, now))
  {
    var ops := Script(world, q, now);
    assert ops[0] == Take(EpisodeState(q.episode));
    if q.Plan? { assert ops[1] == Take(Tracking) && ops[3] == Take(History); }
    if q.MarkFromCalendar? { assert ops[1] == Take(Tracking) && ops[4] == Take(History); }
    forall i | 0 <= i < |ops| ensures Guarded(ops[i], Held(ops, i)) {
      HeldAt(ops, i);
    }
  }

  lemma WatchingDisciplined(world: World, q: Request, now: Instant)
    requires world.cache.Valid() && (q.Mark? || q.Bulk? || q.RewatchEpisode? || q.RewatchMovie?)
    ensures Disciplined(Script(world, q, now))
  {
    if q.RewatchMovie? || q.RewatchEpisode? {
      RewatchDisciplined(world, q, now);
    } else {
      MarkDisciplined(world, q, now);
    }
  }

  lemma MarkDisciplined(world: World, q: Request, now: Instant)
    requires world.cache.Valid() && (q.Mark? || q.Bulk?)
    ensures Disciplined(Script(world, q, now))
  {
    var ops := Script(world, q, now);
    assert ops[2] == Take(Tracking) && ops[6] == Take(History);
    forall i | 0 <= i < |ops| ensures Guarded(ops[i], Held(ops, i)) {
      HeldAt(ops, i);
    }
  }

  lemma RewatchDisciplined(world: World, q: Request, now: Instant)
    requires world.cache.Valid() && (q.RewatchEpisode? || q.RewatchMovie?)
    ensures Disciplined(Script(world, q, now))
  {
    var ops := Script(world, q, now);
    var k := if q.RewatchMovie? then 0 else 2;
    assert ops[k] == Take(Tracking) && ops[k + 4] == Take(History);
    forall i | 0 <= i < |ops| ensures Guarded(ops[i], Held(ops, i)) {
      HeldAt(ops, i);
    }
  }

  lemma HistoryDisciplined(world: World, q: Request, now: Instant)
    requires world.cache.Valid() && (q.CreateHistory? || q.Unmark? || q.DeleteHistory?)
    ensures Disciplined(Script(world, q, now))
  {
    var ops := Script(world, q, now);
    assert ops[if q.CreateHistory? then 2 else if q.Unmark? then 1 else 0] == Take(History);
    forall i | 0 <= i < |ops| ensures Guarded(ops[i], Held(ops, i)) {
      HeldAt(ops, i);
    }
  }

  lemma HeldAt(ops: seq<Op>, k: nat)
    requires k <= |ops|
    ensures forall j :: 0 <= j < k && ops[j].Take? ==> ops[j].lock in Held(ops, k)
  {
  }

  /** The writes a transaction may carry under its locks. */
  ghost predicate Licensed(l: Local, held: set<Lock>) {
    && (l.tracked != map[] ==> Tracking in held)
    && (l.added != [] || l.removed != multiset{} ==> History in held)
    && (forall e :: e in l.addPlans ==> History in held && EpisodeState(e) in held)
    && (forall e :: e in l.dropPlans ==> History in held || EpisodeState(e) in held)
  }

  /** What a holder of `held` may rely on while others commit. */
  ghost predicate Rely(held: set<Lock>, db: Member, db': Member) {
    && (Tracking in held ==> db'.tracked == db.tracked)
    && (History in held ==> db'.history == db.history && db'.plans <= db.plans)
    && (forall e :: EpisodeState(e) in held && e in db'.plans ==> e in db.plans)
    && (forall e :: EpisodeState(e) in held && History in held && e in db.plans ==> e in db'.plans)
  }

  /** `l` and `r` are the same transaction at the same statement, up to a plan count that may
      have gone stale and plan deletions that have no row left to delete. */
  ghost predicate Sim(held: set<Lock>, l: Local, r: Local, plans: set<EpisodeId>) {
    && l.(planCount := 0, dropPlans := {}) == r.(planCount := 0, dropPlans := {})
    && r.planCount <= l.planCount
    && plans - l.dropPlans == plans - r.dropPlans
    && Licensed(l, held) && Licensed(r, held)
  }

  /** One commit of another transaction is within what a lock holder relies on. */
  lemma CommitWithinRely(held: set<Lock>, other: set<Lock>, l: Local, db: Member)
    requires held !! other && Licensed(l, other)
    ensures Rely(held, db, View(db, l))
  {
    if History in held { NothingRemoved(db.history); }
  }

  lemma {:induction false} NothingRemoved(history: seq<HistoryRow>)
    ensures Minus(history, multiset{}) == history
    decreases |history|
  {
    if history != [] { NothingRemoved(history[1..]); }
  }

  ghost predicate SameOutcome(
      op: Op, held: set<Lock>, a: Result<Local, Error>, b: Result<Local, Error>, plans: set<EpisodeId>) {
    && (a.Ok? ==> b.Ok? && Sim(held, a.value, b.value, plans))
    && (a.Err? && !op.AddPlan? ==> b == a)
  }

  /** A statement under its locks does the same on the rows as they have become. */
  lemma ExecuteStable(world: World, op: Op, held: set<Lock>, l: Local, r: Local, db: Member, db': Member)
    requires Guarded(op, held) && Rely(held, db, db') && Sim(held, l, r, db'.plans)
    ensures SameOutcome(op, held, Execute(world, op, l, db), Execute(world, op, r, db'), db'.plans)
  {
    if op.CountPlans? || op.LookPlanned? || op.AddPlan? || op.DropPlan? {
      PlanStatementStable(world, op, held, l, r, db, db');
    } else if op.InsertBulk? || op.InsertUnlessSeen? || op.InsertRow? {
      InsertStatementStable(world, op, held, l, r, db, db');
    } else if OnTracking(op) {
      TrackingStatementStable(world, op, held, l, r, db, db');
    } else {
      HistoryStatementStable(world, op, held, l, r, db, db');
    }
  }

  lemma PlanStatementStable(world: World, op: Op, held: set<Lock>, l: Local, r: Local, db: Member, db': Member)
    requires op.CountPlans? || op.LookPlanned? || op.AddPlan? || op.DropPlan?
    requires Guarded(op, held) && Rely(held, db, db') && Sim(held, l, r, db'.plans)
    ensures SameOutcome(op, held, Execute(world, op, l, db), Execute(world, op, r, db'), db'.plans)
  {
    if op.CountPlans? {
      SubsetSize(View(db', r).plans, View(db, l).plans);
      assert SameOutcome(op, held, Execute(world, op, l, db), Execute(world, op, r, db'), db'.plans);
    } else {
      PlannedStable(op.episode, held, l, r, db, db');
      if op.DropPlan? { DropStable(world, op.episode, held, l, r, db, db'); }
    }
  }

  /** Whether an episode is planned is settled by its own lock and the history lock. */
  lemma PlannedStable(e: EpisodeId, held: set<Lock>, l: Local, r: Local, db: Member, db': Member)
    requires EpisodeState(e) in held && Rely(held, db, db') && Sim(held, l, r, db'.plans)
    ensures History in held ==> (e in View(db, l).plans <==> e in View(db', r).plans)
    ensures e in View(db', r).plans ==> e in View(db, l).plans
  {
    assert e in db'.plans - l.dropPlans <==> e in db'.plans - r.dropPlans;
  }

  lemma DropStable(world: World, e: EpisodeId, held: set<Lock>, l: Local, r: Local, db: Member, db': Member)
    requires EpisodeState(e) in held && Rely(held, db, db') && Sim(held, l, r, db'.plans)
    ensures var op := DropPlan(e);
      SameOutcome(op, held, Execute(world, op, l, db), Execute(world, op, r, db'), db'.plans)
  {
    var a, b := Execute(world, DropPlan(e), l, db).value, Execute(world, DropPlan(e), r, db').value;
    forall f | f in db'.plans ensures f in a.dropPlans <==> f in b.dropPlans {
      assert f in db'.plans - l.dropPlans <==> f in db'.plans - r.dropPlans;
    }
    assert db'.plans - a.dropPlans == db'.plans - b.dropPlans;
  }

  lemma InsertStatementStable(world: World, op: Op, held: set<Lock>, l: Local, r: Local, db: Member, db': Member)
    requires op.InsertBulk? || op.InsertUnlessSeen? || op.InsertRow?
    requires Guarded(op, held) && Rely(held, db, db') && Sim(held, l, r, db'.plans)
    ensures SameOutcome(op, held, Execute(world, op, l, db), Execute(world, op, r, db'), db'.plans)
  {
    assert View(db, l).history == View(db', r).history;
    var rows := if op.InsertBulk? then NewRows(View(db, l).history, op.media, op.ids, op.again, op.now) else [op.row];
    InsertStable(held, l, r, db, db', rows);
  }

  /** Statements that read or write tracking rows, or nothing. */
  predicate OnTracking(op: Op) {
    op.Take? || op.Check? || op.RequireFollowed? || op.CountTracking? || op.LookTracked? || op.Track? || op.Touch?
  }

  /** Statements that read or delete history rows. */
  predicate OnHistory(op: Op) {
    op.RequireUnwatched? || op.CountHistory? || op.LookWatched? || op.RemoveEpisode? || op.RemoveRow?
  }

  lemma TrackingStatementStable(world: World, op: Op, held: set<Lock>, l: Local, r: Local, db: Member, db': Member)
    requires OnTracking(op) && Guarded(op, held) && Rely(held, db, db') && Sim(held, l, r, db'.plans)
    ensures SameOutcome(op, held, Execute(world, op, l, db), Execute(world, op, r, db'), db'.plans)
  {
    assert Tracking in held ==> View(db, l).tracked == View(db', r).tracked;
  }

  lemma HistoryStatementStable(world: World, op: Op, held: set<Lock>, l: Local, r: Local, db: Member, db': Member)
    requires OnHistory(op) && Guarded(op, held) && Rely(held, db, db') && Sim(held, l, r, db'.plans)
    ensures SameOutcome(op, held, Execute(world, op, l, db), Execute(world, op, r, db'), db'.plans)
  {
    assert View(db, l).history == View(db', r).history;
  }

  lemma InsertStable(held: set<Lock>, l: Local, r: Local, db: Member, db': Member, rows: seq<HistoryRow>)
    requires History in held && Rely(held, db, db') && Sim(held, l, r, db'.plans)
    ensures Sim(held, Insert(db, l, rows), Insert(db', r, rows), db'.plans)
  {
  }

  /** A finished prefix replays to the same state on the rows another commit has left. */
  lemma {:induction false} ReplayStable(world: World, ops: seq<Op>, k: nat, db: Member, db': Member)
    requires k <= |ops| && Disciplined(ops)
    requires Rely(Held(ops, k), db, db') && Replay(world, ops, k, db).Ok?
    ensures Replay(world, ops, k, db').Ok?
    ensures Sim(Held(ops, k), Replay(world, ops, k, db).value, Replay(world, ops, k, db').value, db'.plans)
    decreases k
  {
    if k > 0 {
      var held, held' := Held(ops, k - 1), Held(ops, k);
      assert held <= held';
      ReplayStable(world, ops, k - 1, db, db');
      var l, r := Replay(world, ops, k - 1, db).value, Replay(world, ops, k - 1, db').value;
      assert Guarded(ops[k - 1], held) && Guarded(ops[k - 1], held');
      ExecuteStable(world, ops[k - 1], held', l, r, db, db');
    }
  }
}
