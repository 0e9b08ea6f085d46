/** One member's rows and the handlers that update them in place, statement by statement, inside
    a transaction. A refused request rolls back. Each method is proved against the handler of
    `WatchHandlers` with the same name. */
module MemberStore {
  import opened Orders
  import opened Catalogue
  import opened WatchHandlers
  import opened WatchProgress

  class Store {
    var tracked: map<MediaId, Status>
    var plans: set<EpisodeId>
    var history: seq<HistoryRow>
    var saved: Member

    constructor ()
      ensures Rows() == Member(map[], {}, [])
    {
      tracked, plans, history := map[], {}, [];
      saved := Member(map[], {}, []);
    }

    function Rows(): Member
      reads this
    {
      Member(tracked, plans, history)
    }

    method Begin()
      modifies this`saved
      ensures saved == Rows()
    {
      saved := Rows();
    }

    method Rollback()
      modifies this
      ensures Rows() == old(saved)
    {
      tracked, plans, history := saved.tracked, saved.plans, saved.history;
    }

    // ---- statements --------------------------------------------------------------------

    /** `ensure_tracking_for_watch`. */
    method EnsureTracking(m: MediaId) returns (result: Result<(), Error>)
      modifies this`tracked
      ensures result.Ok? <==> TrackForWatch(old(Rows()), m).Ok?
      ensures result.Ok? ==> TrackForWatch(old(Rows()), m) == Ok(Rows())
      ensures result.Err? ==> TrackForWatch(old(Rows()), m) == Err(result.error)
    {
      var count := |tracked|;
      var alreadyTracked := m in tracked;
      if !HasCapacity(count, if alreadyTracked then 0 else 1, MAX_TRACKING_ITEMS_PER_USER) {
        return Err(Conflict);
      }
      if alreadyTracked {
        var status := tracked[m];
        if status == PlanToWatch || status == OnHold || status == Dropped {
          tracked := tracked[m := Watching];
        }
        assert tracked == old(tracked)[m := StatusForWatch(old(tracked), m)];
      } else {
        tracked := tracked[m := Watching];
      }
      return Ok(());
    }

    /** Insert rows and fire the plan trigger. */
    method InsertHistory(rows: seq<HistoryRow>)
      modifies this`history, this`plans
      ensures Rows() == InsertRows(old(Rows()), rows)
    {
      history := history + rows;
      plans := plans - EpisodesOf(rows);
    }

    method InsertCounted(row: HistoryRow) returns (result: Result<(), Error>)
      modifies this`history, this`plans
      ensures result.Ok? ==> InsertOne(old(Rows()), row) == Ok(Rows())
      ensures result.Err? ==> InsertOne(old(Rows()), row) == Err(result.error) && Rows() == old(Rows())
    {
      if !HasCapacity(|history|, 1, MAX_HISTORY_EVENTS_PER_USER) {
        return Err(Conflict);
      }
      InsertHistory([row]);
      return Ok(());
    }

    // ---- handlers ----------------------------------------------------------------------

    /** Plan an episode; answers whether the plan is new. */
    method PlanEpisode(world: World, e: EpisodeId) returns (result: Result<bool, Error>)
      modifies this
      ensures Settled(HandlePlan(world, e, old(Rows())), old(Rows()), result)
      ensures result.Ok? ==> (result.value <==> e !in old(plans))
    {
      if !InFollowedShow(world, Rows(), e) {
        return Err(NotFound);
      }
      if Rows().HasWatched(e) {
        return Err(Conflict);
      }
      var count := |plans|;
      var alreadyPlanned := e in plans;
      if !HasCapacity(count, if alreadyPlanned then 0 else 1, MAX_EPISODE_PLANS_PER_USER) {
        return Err(Conflict);
      }
      plans := plans + {e};
      return Ok(!alreadyPlanned);
    }

    /** The committed rows are the handler's, or untouched when it refuses. */
    ghost predicate Settled<T>(handled: Result<Member, Error>, before: Member, result: Result<T, Error>)
      reads this
    {
      match handled
      case Ok(after) => result.Ok? && Rows() == after
      case Err(error) => result == Err(error) && Rows() == before
    }

    method UnplanEpisode(e: EpisodeId)
      modifies this`plans
      ensures Rows() == old(Rows()).(plans := old(plans) - {e})
    {
      plans := plans - {e};
    }

    /** Mark from the calendar; answers whether the episode was already watched. */
    method MarkEpisodeWatchedFromCalendar(world: World, e: EpisodeId, now: Instant)
        returns (result: Result<bool, Error>)
      modifies this
      ensures Settled(HandleMarkFromCalendar(world, e, now, old(Rows())), old(Rows()), result)
      ensures result.Ok? ==> (result.value <==> HasRow(old(history), world.cache.SeasonOf(e).media, e)) && e !in plans
    {
      if !InFollowedShow(world, Rows(), e) {
        return Err(NotFound);
      }
      var m := world.cache.SeasonOf(e).media;
      if !world.cache.Aired(world.clock, e) {
        return Err(BadRequest);
      }
      var alreadyWatched := HasRow(history, m, e);
      if !alreadyWatched {
        var inserted := InsertCounted(HistoryRow(m, Some(e), now));
        if inserted.Err? {
          return Err(inserted.error);
        }
      }
      plans := plans - {e};
      if m in tracked && tracked[m] == PlanToWatch {
        tracked := tracked[m := Watching];
      }
      return Ok(alreadyWatched);
    }

    method MarkEpisodeWatched(world: World, m: MediaId, e: EpisodeId, now: Instant)
        returns (result: Result<bool, Error>)
      modifies this
      ensures Settled(HandleMark(world, m, e, now, old(Rows())), old(Rows()), result)
      ensures result.Ok? ==> (result.value <==> HasRow(old(history), m, e))
    {
      if !world.cache.IsEpisodeOf(e, m) {
        return Err(NotFound);
      }
      if InFuture(world, e) {
        return Err(BadRequest);
      }
      Begin();
      var tracking := EnsureTracking(m);
      if tracking.Err? {
        Rollback();
        return Err(tracking.error);
      }
      if HasRow(history, m, e) {
        return Ok(true);
      }
      var inserted := InsertCounted(HistoryRow(m, Some(e), now));
      if inserted.Err? {
        Rollback();
        return Err(inserted.error);
      }
      return Ok(false);
    }

    /** Another viewing of an episode, or of a film when `about` is absent; answers how often it
        has been watched. */
    method Rewatch(world: World, m: MediaId, about: Option<EpisodeId>, now: Instant)
        returns (result: Result<nat, Error>)
      modifies this
      ensures Settled(
        if about.Some? then HandleRewatchEpisode(world, m, about.value, now, old(Rows()))
        else HandleRewatchMovie(m, now, old(Rows())),
        old(Rows()), result)
      ensures result.Ok? ==>
        result.value == 1 + if about.Some? then Plays(old(history), about.value) else FilmPlays(old(history), m)
    {
      if about.Some? {
        if !world.cache.IsEpisodeOf(about.value, m) {
          return Err(NotFound);
        }
        if InFuture(world, about.value) {
          return Err(BadRequest);
        }
      }
      Begin();
      var tracking := EnsureTracking(m);
      if tracking.Err? {
        Rollback();
        return Err(tracking.error);
      }
      var inserted := InsertCounted(HistoryRow(m, about, now));
      if inserted.Err? {
        Rollback();
        return Err(inserted.error);
      }
      if about.None? {
        FilmPlaysConcat(old(history), [HistoryRow(m, about, now)], m);
        return Ok(FilmPlays(history, m));
      }
      PlaysConcat(old(history), [HistoryRow(m, about, now)], about.value);
      return Ok(Plays(history, about.value));
    }

    /** `write_bulk_episode_history`; answers how many rows were written. */
    method WriteBulkEpisodeHistory(m: MediaId, ids: seq<EpisodeId>, again: bool, now: Instant)
        returns (result: Result<nat, Error>)
      modifies this
      ensures Settled(HandleBulk(m, ids, again, now, old(Rows())), old(Rows()), result)
      ensures result.Ok? ==> result.value == |history| - |old(history)| <= |ids|
      ensures result.Ok? && Distinct(ids) ==> result.value == Reserved(old(history), m, ids, again)
    {
      if ids == [] {
        return Err(NotFound);
      }
      if |ids| > MAX_BULK_EPISODES {
        return Err(BadRequest);
      }
      Begin();
      var tracking := EnsureTracking(m);
      if tracking.Err? {
        Rollback();
        return Err(tracking.error);
      }
      var additional := if again then |ids| else |ids| - |WatchedAmong(history, m, ids)|;
      WatchedAmongSize(history, m, ids);
      if !HasCapacity(|history|, additional, MAX_HISTORY_EVENTS_PER_USER) {
        Rollback();
        return Err(Conflict);
      }
      var rows := NewRows(history, m, ids, again, now);
      NewRowsWithinReserved(history, m, ids, again, now);
      ReservedIsInserted(history, m, ids, again, now);
      InsertHistory(rows);
      return Ok(|rows|);
    }

    method CreateHistory(world: World, m: MediaId, about: Option<EpisodeId>, watchedAt: Instant, now: Instant)
      returns (result: Result<(), Error>)
      modifies this
      ensures Settled(HandleCreate(world, m, about, watchedAt, now, old(Rows())), old(Rows()), result)
    {
      if m !in world.cache.media {
        return Err(BadRequest);
      }
      if about.Some? {
        if !world.cache.IsEpisodeOf(about.value, m) {
          return Err(BadRequest);
        }
        if !world.cache.Aired(world.clock, about.value) {
          return Err(BadRequest);
        }
      }
      result := InsertCounted(HistoryRow(m, about, if watchedAt < now then watchedAt else now));
    }

    /** Remove every row of an episode; answers how many there were. */
    method UnmarkEpisodeWatched(world: World, e: EpisodeId) returns (result: Result<nat, Error>)
      modifies this
      ensures Settled(HandleUnmark(world, e, old(Rows())), old(Rows()), result)
      ensures result.Ok? ==> result.value == Plays(old(history), e) && !HasEpisode(history, e)
    {
      if e !in world.cache.episodes {
        return Err(NotFound);
      }
      var matching := Matching(history, e);
      MatchingCounts(history, e);
      UnmarkClearsEpisode(world, e, Rows());
      history := Minus(history, multiset(matching));
      return Ok(|matching|);
    }

    method DeleteHistory(row: HistoryRow) returns (result: Result<MediaId, Error>)
      modifies this
      ensures Settled(HandleDelete(row, old(Rows())), old(Rows()), result)
      ensures result.Ok? ==> result.value == row.media
    {
      if row !in history {
        return Err(NotFound);
      }
      history := Minus(history, multiset{row});
      return Ok(row.media);
    }
  }

  /** COUNT(*) over a film's rows, which name no episode. */
  function FilmPlays(history: seq<HistoryRow>, m: MediaId): nat {
    if history == [] then 0
    else (if history[0].media == m && history[0].episode.None? then 1 else 0) + FilmPlays(history[1..], m)
  }

  lemma {:induction false} FilmPlaysConcat(a: seq<HistoryRow>, b: seq<HistoryRow>, m: MediaId)
    ensures FilmPlays(a + b, m) == FilmPlays(a, m) + FilmPlays(b, m)
    decreases |a|
  {
    if a == [] {
      assert a + b == b;
    } else {
      FilmPlaysConcat(a[1..], b, m);
      assert (a + b)[1..] == a[1..] + b;
    }
  }

  function FilmRows(history: seq<HistoryRow>, m: MediaId): set<nat> {
    set i: nat | i < |history| && history[i].media == m && history[i].episode == None
  }

  function EpisodeRows(history: seq<HistoryRow>, e: EpisodeId): set<nat> {
    set i: nat | i < |history| && history[i].episode == Some(e)
  }

  /** Both counts are numbers of rows. */
  lemma {:induction false} PlaysAreRows(history: seq<HistoryRow>, m: MediaId, e: EpisodeId)
    ensures FilmPlays(history, m) == |FilmRows(history, m)|
    ensures Plays(history, e) == |EpisodeRows(history, e)|
    decreases |history|
  {
    if history != [] {
      var n := |history| - 1;
      var init, last := history[..n], history[n];
      assert history == init + [last];
      PlaysAreRows(init, m, e);
      FilmPlaysConcat(init, [last], m);
      PlaysConcat(init, [last], e);
      RowsOfInit(history, m, e);
      LastCounts(n, FilmRows(history, m), FilmRows(init, m));
      LastCounts(n, EpisodeRows(history, e), EpisodeRows(init, e));
    }
  }

  lemma RowsOfInit(history: seq<HistoryRow>, m: MediaId, e: EpisodeId)
    requires history != []
    ensures var n := |history| - 1;
      && FilmRows(history[..n], m) == FilmRows(history, m) - {n}
      && EpisodeRows(history[..n], e) == EpisodeRows(history, e) - {n}
  {
  }

  /** Places among the first `n`, and perhaps `n` itself. */
  lemma LastCounts(n: nat, places: set<nat>, before: set<nat>)
    requires before == places - {n}
    ensures |places| == |before| + if n in places then 1 else 0
  {
  }

  lemma {:induction false} MatchingCounts(history: seq<HistoryRow>, e: EpisodeId)
    ensures |Matching(history, e)| == Plays(history, e)
    decreases |history|
  {
    if history != [] { MatchingCounts(history[1..], e); }
  }
}
