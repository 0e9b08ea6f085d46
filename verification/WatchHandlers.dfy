/** The handlers that change a member's plans, tracking and watch history, each as the effect
    its transaction has when it runs alone. `MemberStore` carries them out statement by
    statement; `ViewingProtocol` shows that every interleaving has the same effects. */
module WatchHandlers {
  import opened Orders
  import opened Catalogue

  const MAX_TRACKING_ITEMS_PER_USER := 10_000
  const MAX_EPISODE_PLANS_PER_USER := 10_000
  const MAX_HISTORY_EVENTS_PER_USER := 100_000
  const MAX_BULK_EPISODES := 10_000

  datatype Error = NotFound | BadRequest | Conflict | Internal

  /** What does not change while the handlers run: the cached catalogue, which dates have aired,
      and the server's date. */
  datatype World = World(cache: Cache, clock: Clock, today: Date)

  datatype Request =
    | Plan(episode: EpisodeId)
    | Unplan(episode: EpisodeId)
    | MarkFromCalendar(episode: EpisodeId)
    | Mark(media: MediaId, episode: EpisodeId)
    | Bulk(media: MediaId, ids: seq<EpisodeId>, again: bool)
    | RewatchEpisode(media: MediaId, episode: EpisodeId)
    | RewatchMovie(media: MediaId)
    | CreateHistory(media: MediaId, about: Option<EpisodeId>, watchedAt: Instant)
    | Unmark(episode: EpisodeId)
    | DeleteHistory(row: HistoryRow)

  /** A bulk write takes its ids from a query over one show. */
  ghost predicate WellFormed(world: World, q: Request) {
    && world.cache.Valid()
    && (q.Bulk? ==> forall e :: e in q.ids ==> world.cache.IsEpisodeOf(e, q.media))
  }

  // ---- statements ----------------------------------------------------------------------

  predicate HasRow(history: seq<HistoryRow>, m: MediaId, e: EpisodeId) {
    exists r :: r in history && r.media == m && r.episode == Some(e)
  }

  predicate HasEpisode(history: seq<HistoryRow>, e: EpisodeId) {
    exists r :: r in history && r.episode == Some(e)
  }

  /** COUNT(DISTINCT episode_id) over `episode_id = ANY(ids)`. */
  function WatchedAmong(history: seq<HistoryRow>, m: MediaId, ids: seq<EpisodeId>): set<EpisodeId> {
    set e | e in ids && HasRow(history, m, e)
  }

  /** The INSERT ... SELECT over UNNEST(ids); the condition sees the rows before the statement. */
  function NewRows(
      history: seq<HistoryRow>, m: MediaId, ids: seq<EpisodeId>, again: bool, now: Instant): seq<HistoryRow> {
    if ids == [] then []
    else
      (if again || !HasRow(history, m, ids[0]) then [HistoryRow(m, Some(ids[0]), now)] else [])
      + NewRows(history, m, ids[1..], again, now)
  }

  function EpisodesOf(rows: seq<HistoryRow>): set<EpisodeId> {
    set r | r in rows && r.episode.Some? :: r.episode.value
  }

  /** Rows deleted by id, in any order: what is left keeps its order. */
  function Minus(history: seq<HistoryRow>, removed: multiset<HistoryRow>): seq<HistoryRow> {
    if history == [] then []
    else if history[0] in removed then Minus(history[1..], removed - multiset{history[0]})
    else [history[0]] + Minus(history[1..], removed)
  }

  function Matching(history: seq<HistoryRow>, e: EpisodeId): seq<HistoryRow> {
    if history == [] then []
    else (if history[0].episode == Some(e) then [history[0]] else []) + Matching(history[1..], e)
  }

  function StatusForWatch(tracked: map<MediaId, Status>, m: MediaId): Status {
    if m !in tracked then Watching
    else if tracked[m] == PlanToWatch || tracked[m] == OnHold || tracked[m] == Dropped then Watching
    else tracked[m]
  }

  predicate HasCapacity(current: nat, additional: nat, maximum: nat) {
    current + additional <= maximum
  }

  // ---- handlers ------------------------------------------------------------------------

  /** `ensure_tracking_for_watch`. */
  function TrackForWatch(member: Member, m: MediaId): Result<Member, Error> {
    if !HasCapacity(|member.tracked|, if m in member.tracked then 0 else 1, MAX_TRACKING_ITEMS_PER_USER)
      then Err(Conflict)
    else Ok(member.(tracked := member.tracked[m := StatusForWatch(member.tracked, m)]))
  }

  /** Insert history rows; the trigger clears the plans of their episodes. */
  function InsertRows(member: Member, rows: seq<HistoryRow>): Member {
    member.(history := member.history + rows, plans := member.plans - EpisodesOf(rows))
  }

  function InsertOne(member: Member, row: HistoryRow): Result<Member, Error> {
    if !HasCapacity(|member.history|, 1, MAX_HISTORY_EVENTS_PER_USER) then Err(Conflict)
    else Ok(InsertRows(member, [row]))
  }

  /** The join behind `ensure_tracked_episode`. */
  predicate InFollowedShow(world: World, member: Member, e: EpisodeId) {
    && e in world.cache.episodes && world.cache.episodes[e].season in world.cache.seasons
    && var m := world.cache.SeasonOf(e).media;
       m in world.cache.media && world.cache.media[m].kind == Tv && member.Follows(m)
  }

  function HandlePlan(world: World, e: EpisodeId, member: Member): Result<Member, Error> {
    if !InFollowedShow(world, member, e) then Err(NotFound)
    else if member.HasWatched(e) then Err(Conflict)
    else if !HasCapacity(|member.plans|, if e in member.plans then 0 else 1, MAX_EPISODE_PLANS_PER_USER)
      then Err(Conflict)
    else Ok(member.(plans := member.plans + {e}))
  }

  function HandleMarkFromCalendar(world: World, e: EpisodeId, now: Instant, member: Member): Result<Member, Error> {
    if !InFollowedShow(world, member, e) then Err(NotFound)
    else
      var m := world.cache.SeasonOf(e).media;
      if !world.cache.Aired(world.clock, e) then Err(BadRequest)
      else if !HasRow(member.history, m, e) && !HasCapacity(|member.history|, 1, MAX_HISTORY_EVENTS_PER_USER)
        then Err(Conflict)
      else
        var marked := if HasRow(member.history, m, e) then member
                      else InsertRows(member, [HistoryRow(m, Some(e), now)]);
        Ok(marked.(plans := marked.plans - {e}, tracked := TouchTracking(marked.tracked, m)))
  }

  /** The calendar's UPDATE of `user_media`: planned becomes watching, nothing else changes. */
  function TouchTracking(tracked: map<MediaId, Status>, m: MediaId): map<MediaId, Status> {
    if m in tracked && tracked[m] == PlanToWatch then tracked[m := Watching] else tracked
  }

  /** The history routes compare with the server's date instead of `episode_has_aired`. */
  predicate InFuture(world: World, e: EpisodeId)
    requires e in world.cache.episodes
  {
    world.cache.episodes[e].airDate.Some? && world.cache.episodes[e].airDate.value > world.today
  }

  function HandleMark(world: World, m: MediaId, e: EpisodeId, now: Instant, member: Member): Result<Member, Error> {
    if !world.cache.IsEpisodeOf(e, m) then Err(NotFound)
    else if InFuture(world, e) then Err(BadRequest)
    else
      match TrackForWatch(member, m)
      case Err(error) => Err(error)
      case Ok(tracking) =>
        if HasRow(tracking.history, m, e) then Ok(tracking) else InsertOne(tracking, HistoryRow(m, Some(e), now))
  }

  function HandleBulk(
      m: MediaId, ids: seq<EpisodeId>, again: bool, now: Instant, member: Member): Result<Member, Error> {
    if ids == [] then Err(NotFound)
    else if |ids| > MAX_BULK_EPISODES then Err(BadRequest)
    else
      match TrackForWatch(member, m)
      case Err(error) => Err(error)
      case Ok(tracking) =>
        if !HasCapacity(|tracking.history|, Reserved(tracking.history, m, ids, again), MAX_HISTORY_EVENTS_PER_USER)
          then Err(Conflict)
        else Ok(InsertRows(tracking, NewRows(tracking.history, m, ids, again, now)))
  }

  /** The rows a bulk write reserves against the quota. */
  function Reserved(history: seq<HistoryRow>, m: MediaId, ids: seq<EpisodeId>, again: bool): nat {
    WatchedAmongSize(history, m, ids);
    if again then |ids| else |ids| - |WatchedAmong(history, m, ids)|
  }

  lemma {:induction false} WatchedAmongSize(history: seq<HistoryRow>, m: MediaId, ids: seq<EpisodeId>)
    ensures |WatchedAmong(history, m, ids)| <= |ids|
    decreases |ids|
  {
    if ids != [] {
      WatchedAmongSize(history, m, ids[1..]);
      var smaller := WatchedAmong(history, m, ids[1..]);
      assert WatchedAmong(history, m, ids)
          == (if HasRow(history, m, ids[0]) then smaller + {ids[0]} else smaller);
    }
  }

  function HandleRewatchEpisode(
      world: World, m: MediaId, e: EpisodeId, now: Instant, member: Member): Result<Member, Error> {
    if !world.cache.IsEpisodeOf(e, m) then Err(NotFound)
    else if InFuture(world, e) then Err(BadRequest)
    else
      match TrackForWatch(member, m)
      case Err(error) => Err(error)
      case Ok(tracking) => InsertOne(tracking, HistoryRow(m, Some(e), now))
  }

  function HandleRewatchMovie(m: MediaId, now: Instant, member: Member): Result<Member, Error> {
    match TrackForWatch(member, m)
    case Err(error) => Err(error)
    case Ok(tracking) => InsertOne(tracking, HistoryRow(m, None, now))
  }

  function HandleCreate(
      world: World, m: MediaId, about: Option<EpisodeId>, watchedAt: Instant, now: Instant, member: Member)
      : Result<Member, Error>
  {
    if m !in world.cache.media then Err(BadRequest)
    else if about.Some? && !(world.cache.IsEpisodeOf(about.value, m) && world.cache.Aired(world.clock, about.value))
      then Err(BadRequest)
    else InsertOne(member, HistoryRow(m, about, if watchedAt < now then watchedAt else now))
  }

  function HandleUnmark(world: World, e: EpisodeId, member: Member): Result<Member, Error> {
    if e !in world.cache.episodes then Err(NotFound)
    else Ok(member.(history := Minus(member.history, multiset(Matching(member.history, e)))))
  }

  function HandleDelete(row: HistoryRow, member: Member): Result<Member, Error> {
    if row !in member.history then Err(NotFound)
    else Ok(member.(history := Minus(member.history, multiset{row})))
  }

  ghost function Handle(world: World, q: Request, now: Instant, member: Member): Result<Member, Error>
    requires WellFormed(world, q)
  {
    match q
    case Plan(e) => HandlePlan(world, e, member)
    case Unplan(e) => Ok(member.(plans := member.plans - {e}))
    case MarkFromCalendar(e) => HandleMarkFromCalendar(world, e, now, member)
    case Mark(m, e) => HandleMark(world, m, e, now, member)
    case Bulk(m, ids, again) => HandleBulk(m, ids, again, now, member)
    case RewatchEpisode(m, e) => HandleRewatchEpisode(world, m, e, now, member)
    case RewatchMovie(m) => HandleRewatchMovie(m, now, member)
    case CreateHistory(m, about, at) => HandleCreate(world, m, about, at, now, member)
    case Unmark(e) => HandleUnmark(world, e, member)
    case DeleteHistory(row) => HandleDelete(row, member)
  }

  // ---- what every handler keeps --------------------------------------------------------

  /** No episode both planned and watched. */
  ghost predicate Exclusive(member: Member) {
    forall e :: e in member.plans ==> !HasEpisode(member.history, e)
  }

  ghost predicate WithinQuotas(member: Member) {
    && |member.tracked| <= MAX_TRACKING_ITEMS_PER_USER
    && |member.plans| <= MAX_EPISODE_PLANS_PER_USER
    && |member.history| <= MAX_HISTORY_EVENTS_PER_USER
  }

  /** Every episode row is filed under the show its episode belongs to. */
  ghost predicate Filed(cache: Cache, history: seq<HistoryRow>) {
    forall r :: r in history && r.episode.Some? ==> cache.IsEpisodeOf(r.episode.value, r.media)
  }

  ghost predicate Sound(world: World, member: Member) {
    Exclusive(member) && WithinQuotas(member) && Filed(world.cache, member.history)
  }

  lemma {:induction false} NewRowsShape(
      history: seq<HistoryRow>, m: MediaId, ids: seq<EpisodeId>, again: bool, now: Instant)
    ensures forall r :: r in NewRows(history, m, ids, again, now) ==>
              r.media == m && r.episode.Some? && r.episode.value in ids
              && (again || !HasRow(history, m, r.episode.value))
    ensures forall e :: e in ids && (again || !HasRow(history, m, e)) ==>
              HistoryRow(m, Some(e), now) in NewRows(history, m, ids, again, now)
    decreases |ids|
  {
    if ids != [] {
      NewRowsShape(history, m, ids[1..], again, now);
    }
  }

  /** The insert never brings more rows than were reserved, whatever the ids. */
  lemma {:induction false} NewRowsWithinReserved(
      history: seq<HistoryRow>, m: MediaId, ids: seq<EpisodeId>, again: bool, now: Instant)
    ensures |NewRows(history, m, ids, again, now)| <= Reserved(history, m, ids, again)
    decreases |ids|
  {
    if ids != [] {
      NewRowsWithinReserved(history, m, ids[1..], again, now);
      var smaller := WatchedAmong(history, m, ids[1..]);
      assert WatchedAmong(history, m, ids)
          == (if HasRow(history, m, ids[0]) then smaller + {ids[0]} else smaller);
    }
  }

  lemma {:induction false} MinusShrinks(history: seq<HistoryRow>, removed: multiset<HistoryRow>)
    ensures |Minus(history, removed)| <= |history|
    ensures forall r :: r in Minus(history, removed) ==> r in history
    decreases |history|
  {
    if history != [] {
      if history[0] in removed {
        MinusShrinks(history[1..], removed - multiset{history[0]});
      } else {
        MinusShrinks(history[1..], removed);
      }
    }
  }

  lemma InsertRowsSound(world: World, member: Member, rows: seq<HistoryRow>)
    requires Sound(world, member) && |member.history| + |rows| <= MAX_HISTORY_EVENTS_PER_USER
    requires Filed(world.cache, rows)
    ensures Sound(world, InsertRows(member, rows))
  {
    var after := InsertRows(member, rows);
    SubsetSize(after.plans, member.plans);
    forall e | e in after.plans ensures !HasEpisode(after.history, e) {
      assert forall r :: r in rows && r.episode.Some? ==> r.episode.value in EpisodesOf(rows);
      assert !HasEpisode(member.history, e);
    }
  }

  lemma TrackForWatchSound(world: World, member: Member, m: MediaId)
    requires Sound(world, member) && TrackForWatch(member, m).Ok?
    ensures Sound(world, TrackForWatch(member, m).value)
  {
    var after := TrackForWatch(member, m).value;
    assert after.tracked.Keys == member.tracked.Keys + {m};
    assert m in member.tracked ==> after.tracked.Keys == member.tracked.Keys;
    assert |after.tracked| == |after.tracked.Keys| && |member.tracked| == |member.tracked.Keys|;
  }

  lemma InsertOneSound(world: World, member: Member, row: HistoryRow)
    requires Sound(world, member) && InsertOne(member, row).Ok? && Filed(world.cache, [row])
    ensures Sound(world, InsertOne(member, row).value)
  {
    InsertRowsSound(world, member, [row]);
  }

  lemma PlanSound(world: World, e: EpisodeId, member: Member)
    requires Sound(world, member)
    requires HandlePlan(world, e, member).Ok?
    ensures Sound(world, HandlePlan(world, e, member).value)
  {
    assert e in member.plans ==> member.plans + {e} == member.plans;
    assert !HasEpisode(member.history, e);
  }

  lemma MarkFromCalendarSound(world: World, e: EpisodeId, now: Instant, member: Member)
    requires Sound(world, member)
    requires HandleMarkFromCalendar(world, e, now, member).Ok?
    ensures Sound(world, HandleMarkFromCalendar(world, e, now, member).value)
  {
    var m := world.cache.SeasonOf(e).media;
    var after := HandleMarkFromCalendar(world, e, now, member).value;
    var row := HistoryRow(m, Some(e), now);
    if !HasRow(member.history, m, e) {
      InsertRowsSound(world, member, [row]);
    }
    SubsetSize(after.plans, member.plans);
    assert after.tracked.Keys == member.tracked.Keys;
    assert |after.tracked| == |after.tracked.Keys| && |member.tracked| == |member.tracked.Keys|;
  }

  lemma BulkSound(world: World, m: MediaId, ids: seq<EpisodeId>, again: bool, now: Instant, member: Member)
    requires Sound(world, member) && forall e :: e in ids ==> world.cache.IsEpisodeOf(e, m)
    requires HandleBulk(m, ids, again, now, member).Ok?
    ensures Sound(world, HandleBulk(m, ids, again, now, member).value)
  {
    TrackForWatchSound(world, member, m);
    NewRowsShape(member.history, m, ids, again, now);
    NewRowsWithinReserved(member.history, m, ids, again, now);
    InsertRowsSound(world, TrackForWatch(member, m).value, NewRows(member.history, m, ids, again, now));
  }

  lemma MarkSound(world: World, m: MediaId, e: EpisodeId, now: Instant, member: Member)
    requires Sound(world, member) && HandleMark(world, m, e, now, member).Ok?
    ensures Sound(world, HandleMark(world, m, e, now, member).value)
  {
    TrackForWatchSound(world, member, m);
    if !HasRow(member.history, m, e) {
      InsertOneSound(world, TrackForWatch(member, m).value, HistoryRow(m, Some(e), now));
    }
  }

  lemma RewatchSound(world: World, m: MediaId, about: Option<EpisodeId>, now: Instant, member: Member)
    requires Sound(world, member) && TrackForWatch(member, m).Ok?
    requires about.Some? ==> world.cache.IsEpisodeOf(about.value, m)
    requires InsertOne(TrackForWatch(member, m).value, HistoryRow(m, about, now)).Ok?
    ensures Sound(world, InsertOne(TrackForWatch(member, m).value, HistoryRow(m, about, now)).value)
  {
    TrackForWatchSound(world, member, m);
    InsertOneSound(world, TrackForWatch(member, m).value, HistoryRow(m, about, now));
  }

  lemma RemovalSound(world: World, removed: multiset<HistoryRow>, member: Member)
    requires Sound(world, member)
    ensures Sound(world, member.(history := Minus(member.history, removed)))
  {
    MinusShrinks(member.history, removed);
  }

  lemma UnplanSound(world: World, e: EpisodeId, member: Member)
    requires Sound(world, member)
    ensures Sound(world, member.(plans := member.plans - {e}))
  {
    SubsetSize(member.plans - {e}, member.plans);
  }

  lemma CreateSound(world: World, m: MediaId, about: Option<EpisodeId>, at: Instant, now: Instant, member: Member)
    requires Sound(world, member) && HandleCreate(world, m, about, at, now, member).Ok?
    ensures Sound(world, HandleCreate(world, m, about, at, now, member).value)
  {
    InsertOneSound(world, member, HistoryRow(m, about, if at < now then at else now));
  }

  /** Every handler keeps planned and watched apart and every count within its cap. */
  lemma HandlerSound(world: World, q: Request, now: Instant, member: Member)
    requires WellFormed(world, q) && Sound(world, member) && Handle(world, q, now, member).Ok?
    ensures Sound(world, Handle(world, q, now, member).value)
  {
    match q
    case Plan(e) => PlanSound(world, e, member);
    case Unplan(e) => UnplanSound(world, e, member);
    case MarkFromCalendar(e) => MarkFromCalendarSound(world, e, now, member);
    case Mark(m, e) => MarkSound(world, m, e, now, member);
    case Bulk(m, ids, again) => BulkSound(world, m, ids, again, now, member);
    case RewatchEpisode(m, e) => RewatchSound(world, m, Some(e), now, member);
    case RewatchMovie(m) => RewatchSound(world, m, None, now, member);
    case CreateHistory(m, about, at) => CreateSound(world, m, about, at, now, member);
    case Unmark(e) => RemovalSound(world, multiset(Matching(member.history, e)), member);
    case DeleteHistory(row) => RemovalSound(world, multiset{row}, member);
  }
}
