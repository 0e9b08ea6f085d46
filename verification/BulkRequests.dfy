/** The requests that watch many episodes at once: which episodes each one selects, when it is
    accepted, and what it leaves behind, all said of the rows of the tables. */
module BulkRequests {
  import opened Orders
  import opened Catalogue
  import opened WatchEffects
  import opened WatchHandlers
  import opened WatchProgress
  import UpNext
  import UpNextRows

  // ---- the selections ------------------------------------------------------------------

  function SeasonNumber(cache: Cache, e: EpisodeId): nat {
    if e in cache.episodes && cache.episodes[e].season in cache.seasons then cache.SeasonOf(e).number else 0
  }

  function EpisodeNumber(cache: Cache, e: EpisodeId): nat {
    if e in cache.episodes then cache.episodes[e].number else 0
  }

  /** ORDER BY season_number, episode_number. */
  function RunningOrder(cache: Cache): (EpisodeId, EpisodeId) -> bool {
    (a: EpisodeId, b: EpisodeId) =>
      if SeasonNumber(cache, a) != SeasonNumber(cache, b) then SeasonNumber(cache, a) < SeasonNumber(cache, b)
      else if EpisodeNumber(cache, a) != EpisodeNumber(cache, b) then EpisodeNumber(cache, a) < EpisodeNumber(cache, b)
      else a < b
  }

  lemma RunningOrderTotal(cache: Cache)
    ensures StrictTotal(RunningOrder(cache))
  {
  }

  /** `aired_episode_ids`: the aired episodes of a season, or of the whole show. */
  ghost function AiredEpisodes(world: World, m: MediaId, season: Option<nat>): set<EpisodeId> {
    set e | e in world.cache.episodes && world.cache.IsEpisodeOf(e, m) && world.cache.Aired(world.clock, e)
         && (season.None? || world.cache.SeasonOf(e).number == season.value)
  }

  ghost function EpisodesThrough(world: World, m: MediaId, season: nat, number: nat): set<EpisodeId> {
    set e | e in world.cache.episodes && world.cache.IsEpisodeOf(e, m)
         && (var s, n := world.cache.SeasonOf(e).number, world.cache.episodes[e].number;
             || (season == 0 && s == 0 && n <= number)
             || (season > 0 && 1 <= s <= season && (s < season || n <= number)))
         && world.cache.Aired(world.clock, e)
  }

  ghost predicate StandsAt(world: World, m: MediaId, season: nat, number: nat, e: EpisodeId) {
    && world.cache.IsEpisodeOf(e, m)
    && world.cache.SeasonOf(e).number == season && world.cache.episodes[e].number == number
  }

  // ---- the requests --------------------------------------------------------------------

  ghost function WatchAll(
      world: World, m: MediaId, selected: set<EpisodeId>, again: bool, now: Instant, member: Member)
      : Result<Member, Error>
  {
    RunningOrderTotal(world.cache);
    HandleBulk(m, Listing(RunningOrder(world.cache), selected), again, now, member)
  }

  ghost function MarkSeason(world: World, m: MediaId, season: nat, now: Instant, member: Member)
      : Result<Member, Error>
  {
    WatchAll(world, m, AiredEpisodes(world, m, Some(season)), false, now, member)
  }

  ghost function RewatchSeason(world: World, m: MediaId, season: nat, now: Instant, member: Member)
      : Result<Member, Error>
  {
    WatchAll(world, m, AiredEpisodes(world, m, Some(season)), true, now, member)
  }

  /** A show whose only season is the specials' has none to watch again. */
  ghost function RewatchShow(world: World, m: MediaId, now: Instant, member: Member): Result<Member, Error> {
    if !exists s :: s in world.cache.seasons && world.cache.seasons[s].media == m && world.cache.seasons[s].number > 0
      then Err(NotFound)
    else WatchAll(world, m, AiredEpisodes(world, m, None), true, now, member)
  }

  ghost function MarkThrough(world: World, m: MediaId, season: nat, number: nat, now: Instant, member: Member)
      : Result<Member, Error>
  {
    if !exists e :: StandsAt(world, m, season, number, e) then Err(NotFound)
    else
      var target :| StandsAt(world, m, season, number, target);
      if !world.cache.Aired(world.clock, target) then Err(BadRequest)
      else WatchAll(world, m, EpisodesThrough(world, m, season, number), false, now, member)
  }

  // ---- on the rows ---------------------------------------------------------------------

  /** A cached episode of the show that has no date or one that has come. */
  ghost predicate Out(world: World, m: MediaId, e: EpisodeId) {
    var cache := world.cache;
    && e in cache.episodes && cache.episodes[e].season in cache.seasons
    && cache.seasons[cache.episodes[e].season].media == m
    && (cache.episodes[e].airDate.Some? ==> world.clock(m, cache.episodes[e].airDate.value))
  }

  ghost predicate Unwatched(member: Member, e: EpisodeId) {
    forall r :: r in member.history ==> r.episode != Some(e)
  }

  /** A row of the show, dated now, for one of the chosen episodes. */
  predicate IsWatchOf(r: HistoryRow, m: MediaId, now: Instant, chosen: set<EpisodeId>) {
    r.media == m && r.watchedAt == now && r.episode.Some? && r.episode.value in chosen
  }

  /** Each chosen episode has one more row than before and no other episode has; nothing else was
      written but the tracking of the show. */
  ghost predicate Adds(before: Member, after: Member, m: MediaId, now: Instant, chosen: set<EpisodeId>) {
    && (forall e :: Plays(after.history, e) == Plays(before.history, e) + if e in chosen then 1 else 0)
    && before.history <= after.history && |after.history| == |before.history| + |chosen|
    && (forall i :: |before.history| <= i < |after.history| ==> IsWatchOf(after.history[i], m, now, chosen))
    && after.plans == before.plans - chosen
    && after.tracked.Keys == before.tracked.Keys + {m}
    && (forall n :: n in before.tracked && n != m ==> after.tracked[n] == before.tracked[n])
    && after.tracked[m] ==
         if m in before.tracked && before.tracked[m] == Completed then Completed else Watching
  }

  lemma ListedOnce(world: World, selected: set<EpisodeId>)
    ensures StrictTotal(RunningOrder(world.cache))
    ensures var ids := Listing(RunningOrder(world.cache), selected);
      Distinct(ids) && |ids| == |selected| && forall e :: e in ids <==> e in selected
  {
    RunningOrderTotal(world.cache);
    var ids := Listing(RunningOrder(world.cache), selected);
    ListingLength(RunningOrder(world.cache), selected);
    assert forall e :: e in ids <==> e in Elements(ids);
  }

  /** The rows are written in running order. */
  lemma SelectedInOrder(world: World, m: MediaId, selected: set<EpisodeId>, i: nat, j: nat)
    requires world.cache.Valid() && EpisodesOfShow(world, m, selected)
    requires StrictTotal(RunningOrder(world.cache))
    requires i < j < |Listing(RunningOrder(world.cache), selected)|
    ensures var ids, cache := Listing(RunningOrder(world.cache), selected), world.cache;
      && ids[i] in selected && ids[j] in selected
      && var s := cache.seasons[cache.episodes[ids[i]].season].number;
         var t := cache.seasons[cache.episodes[ids[j]].season].number;
         s < t || (s == t && cache.episodes[ids[i]].number < cache.episodes[ids[j]].number)
  {
    var ids := Listing(RunningOrder(world.cache), selected);
    ListedOnce(world, selected);
    assert ids[i] in ids && ids[j] in ids;
    assert RunningOrder(world.cache)(ids[i], ids[j]);
  }

  ghost predicate EpisodesOfShow(world: World, m: MediaId, selected: set<EpisodeId>) {
    forall e :: e in selected ==> world.cache.IsEpisodeOf(e, m)
  }

  /** The episodes of a selection that a bulk write adds a row for. */
  ghost function Chosen(member: Member, selected: set<EpisodeId>, again: bool): set<EpisodeId> {
    set e | e in selected && (again || Unwatched(member, e))
  }

  lemma FiledRows(world: World, m: MediaId, e: EpisodeId, member: Member)
    requires Filed(world.cache, member.history) && world.cache.IsEpisodeOf(e, m)
    ensures Unwatched(member, e) <==> !HasRow(member.history, m, e)
    ensures Unwatched(member, e) <==> Plays(member.history, e) == 0
  {
    RowIsEpisode(world.cache, member.history, m, e);
    PlaysPositive(member.history, e);
  }

  lemma {:induction false} ReservedForChosen(
      world: World, m: MediaId, selected: set<EpisodeId>, ids: seq<EpisodeId>, again: bool, member: Member)
    requires Filed(world.cache, member.history) && EpisodesOfShow(world, m, selected)
    requires |ids| == |selected| && forall e :: e in ids <==> e in selected
    ensures Reserved(member.history, m, ids, again) == |Chosen(member, selected, again)|
  {
    var chosen, watched := Chosen(member, selected, again), WatchedAmong(member.history, m, ids);
    forall e | e in selected ensures Unwatched(member, e) <==> e !in watched {
      FiledRows(world, m, e, member);
    }
    if again {
      assert chosen == selected;
    } else {
      assert chosen == selected - watched && watched <= selected;
      assert |selected - watched| == |selected| - |watched|;
    }
  }

  /** When a bulk watch is accepted. */
  lemma WatchAllAccepted(
      world: World, m: MediaId, selected: set<EpisodeId>, again: bool, now: Instant, member: Member)
    requires Sound(world, member) && EpisodesOfShow(world, m, selected)
    ensures var result := WatchAll(world, m, selected, again, now, member);
      && (result.Ok? <==>
            && 0 < |selected| <= 10_000
            && (m in member.tracked || |member.tracked| < 10_000)
            && |member.history| + |Chosen(member, selected, again)| <= 100_000)
      && (result.Err? ==>
            result.error
            == if |selected| == 0 then NotFound else if |selected| > 10_000 then BadRequest else Conflict)
  {
    ListedOnce(world, selected);
    var ids := Listing(RunningOrder(world.cache), selected);
    ReservedForChosen(world, m, selected, ids, again, member);
  }

  lemma NewRowsAppend(
      history: seq<HistoryRow>, m: MediaId, ids: seq<EpisodeId>, again: bool, now: Instant, chosen: set<EpisodeId>)
    requires forall e :: e in chosen <==> e in ids && (again || !HasRow(history, m, e))
    ensures var rows := NewRows(history, m, ids, again, now);
      && (forall i :: 0 <= i < |rows| ==> IsWatchOf(rows[i], m, now, chosen))
      && EpisodesOf(rows) == chosen
  {
    var rows := NewRows(history, m, ids, again, now);
    NewRowsShape(history, m, ids, again, now);
    NewRowsDated(history, m, ids, again, now);
    forall i | 0 <= i < |rows| ensures IsWatchOf(rows[i], m, now, chosen) {
      assert rows[i] in rows;
    }
    forall e ensures e in EpisodesOf(rows) <==> e in chosen {
      if e in EpisodesOf(rows) {
        var r :| r in rows && r.episode.Some? && r.episode.value == e;
      }
      if e in chosen {
        assert HistoryRow(m, Some(e), now) in rows;
        assert HistoryRow(m, Some(e), now).episode.value in EpisodesOf(rows);
      }
    }
  }

  lemma BulkInserts(m: MediaId, ids: seq<EpisodeId>, again: bool, now: Instant, member: Member)
    requires HandleBulk(m, ids, again, now, member).Ok?
    ensures var after := HandleBulk(m, ids, again, now, member).value;
      var rows := NewRows(member.history, m, ids, again, now);
      && after.history == member.history + rows && after.plans == member.plans - EpisodesOf(rows)
      && after.tracked == member.tracked[m := StatusForWatch(member.tracked, m)]
  {
  }

  /** What a bulk watch inserts: a row for every chosen episode. */
  lemma WatchAllInserts(
      world: World, m: MediaId, selected: set<EpisodeId>, again: bool, now: Instant, member: Member)
      returns (rows: seq<HistoryRow>)
    requires Sound(world, member) && EpisodesOfShow(world, m, selected)
    requires WatchAll(world, m, selected, again, now, member).Ok?
    ensures var after := WatchAll(world, m, selected, again, now, member).value;
      var chosen := Chosen(member, selected, again);
      && after.history == member.history + rows && |rows| == |chosen| && EpisodesOf(rows) == chosen
      && (forall e :: Plays(rows, e) == if e in chosen then 1 else 0)
      && (forall i :: 0 <= i < |rows| ==> IsWatchOf(rows[i], m, now, chosen))
      && after.plans == member.plans - chosen
      && after.tracked == member.tracked[m := StatusForWatch(member.tracked, m)]
  {
    ListedOnce(world, selected);
    var ids, chosen := Listing(RunningOrder(world.cache), selected), Chosen(member, selected, again);
    rows := NewRows(member.history, m, ids, again, now);
    BulkInserts(m, ids, again, now, member);
    forall e ensures e in chosen <==> e in ids && (again || !HasRow(member.history, m, e)) {
      if e in selected { FiledRows(world, m, e, member); }
    }
    NewRowsAppend(member.history, m, ids, again, now, chosen);
    assert |rows| == |chosen| by {
      ReservedForChosen(world, m, selected, ids, again, member);
      ReservedIsInserted(member.history, m, ids, again, now);
    }
    forall e ensures Plays(rows, e) == if e in chosen then 1 else 0 {
      NewRowsPlays(member.history, m, ids, again, now, e);
    }
  }

  lemma AppendedPlays(before: seq<HistoryRow>, rows: seq<HistoryRow>, chosen: set<EpisodeId>)
    requires forall e :: Plays(rows, e) == if e in chosen then 1 else 0
    ensures forall e :: Plays(before + rows, e) == Plays(before, e) + if e in chosen then 1 else 0
  {
    forall e ensures Plays(before + rows, e) == Plays(before, e) + if e in chosen then 1 else 0 {
      PlaysConcat(before, rows, e);
    }
  }

  /** What a bulk watch writes. */
  lemma WatchAllAdds(
      world: World, m: MediaId, selected: set<EpisodeId>, again: bool, now: Instant, member: Member)
    requires Sound(world, member) && EpisodesOfShow(world, m, selected)
    requires WatchAll(world, m, selected, again, now, member).Ok?
    ensures Adds(member, WatchAll(world, m, selected, again, now, member).value, m, now,
                 Chosen(member, selected, again))
  {
    var rows := WatchAllInserts(world, m, selected, again, now, member);
    AppendedPlays(member.history, rows, Chosen(member, selected, again));
  }

  // ---- the theorems --------------------------------------------------------------------

  /** Where "watched through" (season, number) reaches: among the specials up to that special, or
      through every regular season before and the own season up to that episode. */
  predicate Reaches(season: nat, number: nat, s: nat, n: nat) {
    if season == 0 then s == 0 && n <= number
    else s != 0 && (s < season || (s == season && n <= number))
  }

  ghost function OutThrough(world: World, m: MediaId, season: nat, number: nat): set<EpisodeId> {
    set e | e in world.cache.episodes && Out(world, m, e)
         && Reaches(season, number, world.cache.seasons[world.cache.episodes[e].season].number,
                    world.cache.episodes[e].number)
  }

  /** The episodes out, of one season or of all. */
  ghost function OutOf(world: World, m: MediaId, season: Option<nat>): set<EpisodeId> {
    set e | e in world.cache.episodes && Out(world, m, e)
         && (season.Some? ==> world.cache.seasons[world.cache.episodes[e].season].number == season.value)
  }

  ghost function NotYetSeen(member: Member, episodes: set<EpisodeId>): set<EpisodeId> {
    set e | e in episodes && Unwatched(member, e)
  }

  /** A bulk write of `selected` that adds a row for each of `chosen`: when it is accepted, with what
      error it is refused, and what it leaves. */
  ghost predicate Writes(
      result: Result<Member, Error>, member: Member, m: MediaId, now: Instant, selected: set<EpisodeId>,
      chosen: set<EpisodeId>) {
    && (result.Ok? <==>
          && 0 < |selected| <= 10_000
          && (m in member.tracked || |member.tracked| < 10_000)
          && |member.history| + |chosen| <= 100_000)
    && (match result
        case Ok(after) => Adds(member, after, m, now, chosen)
        case Err(error) =>
          error == if |selected| == 0 then NotFound else if |selected| > 10_000 then BadRequest else Conflict)
  }

  lemma SelectionsOnRows(world: World, m: MediaId, season: nat, number: nat, which: Option<nat>, member: Member)
    ensures EpisodesThrough(world, m, season, number) == OutThrough(world, m, season, number)
    ensures AiredEpisodes(world, m, which) == OutOf(world, m, which)
    ensures EpisodesOfShow(world, m, OutThrough(world, m, season, number))
    ensures EpisodesOfShow(world, m, OutOf(world, m, which))
  {
  }

  lemma WatchAllWrites(
      world: World, m: MediaId, selected: set<EpisodeId>, again: bool, now: Instant, member: Member)
    requires Sound(world, member) && EpisodesOfShow(world, m, selected)
    ensures Writes(WatchAll(world, m, selected, again, now, member), member, m, now, selected,
                   Chosen(member, selected, again))
  {
    WatchAllAccepted(world, m, selected, again, now, member);
    if WatchAll(world, m, selected, again, now, member).Ok? {
      WatchAllAdds(world, m, selected, again, now, member);
    }
  }

  /** Marking a season adds a row for each of its episodes that is out and not watched, and leaves a
      complete pass. */
  lemma MarkSeasonOnRows(world: World, m: MediaId, season: nat, now: Instant, member: Member)
    requires world.cache.Valid() && Sound(world, member)
    ensures var selected := OutOf(world, m, Some(season));
      var result := MarkSeason(world, m, season, now, member);
      && Writes(result, member, m, now, selected, NotYetSeen(member, selected))
      && (result.Ok? ==> CompletePasses(selected, result.value.history) >= 1)
  {
    var selected := OutOf(world, m, Some(season));
    SelectionsOnRows(world, m, season, 0, Some(season), member);
    WatchAllWrites(world, m, selected, false, now, member);
    assert Chosen(member, selected, false) == NotYetSeen(member, selected);
    if MarkSeason(world, m, season, now, member).Ok? {
      ListedOnce(world, selected);
      MarkSeasonCompletesAPass(world, selected, m, Listing(RunningOrder(world.cache), selected), now, member);
    }
  }

  /** Watching a season again adds a row for each of its episodes that is out, and so one pass. */
  lemma RewatchSeasonOnRows(world: World, m: MediaId, season: nat, now: Instant, member: Member)
    requires world.cache.Valid() && Sound(world, member)
    ensures var selected := OutOf(world, m, Some(season));
      var result := RewatchSeason(world, m, season, now, member);
      && Writes(result, member, m, now, selected, selected)
      && (result.Ok? ==>
            CompletePasses(selected, result.value.history) == CompletePasses(selected, member.history) + 1)
  {
    var selected := OutOf(world, m, Some(season));
    SelectionsOnRows(world, m, season, 0, Some(season), member);
    WatchAllWrites(world, m, selected, true, now, member);
    assert Chosen(member, selected, true) == selected;
    if RewatchSeason(world, m, season, now, member).Ok? {
      ListedOnce(world, selected);
      RewatchAddsOnePass(selected, m, Listing(RunningOrder(world.cache), selected), now, member);
    }
  }

  /** Watching a show again adds a row for each of its episodes that is out, specials included, but
      a show without a regular season is refused. */
  lemma RewatchShowOnRows(world: World, m: MediaId, now: Instant, member: Member)
    requires world.cache.Valid() && Sound(world, member)
    ensures var regular :=
      exists s :: s in world.cache.seasons && world.cache.seasons[s].media == m && world.cache.seasons[s].number != 0;
      var selected := OutOf(world, m, None);
      if regular then Writes(RewatchShow(world, m, now, member), member, m, now, selected, selected)
      else RewatchShow(world, m, now, member) == Err(NotFound)
  {
    var selected := OutOf(world, m, None);
    SelectionsOnRows(world, m, 0, 0, None, member);
    WatchAllWrites(world, m, selected, true, now, member);
    assert Chosen(member, selected, true) == selected;
  }

  /** Marking through an episode that is out adds a row for each unwatched one it reaches. */
  lemma MarkThroughOnRows(
      world: World, m: MediaId, season: nat, number: nat, now: Instant, member: Member, e: EpisodeId)
    requires world.cache.Valid() && Sound(world, member) && StandsAt(world, m, season, number, e)
    ensures var selected := OutThrough(world, m, season, number);
      var result := MarkThrough(world, m, season, number, now, member);
      if Out(world, m, e) then e in selected && Writes(result, member, m, now, selected, NotYetSeen(member, selected))
      else result == Err(BadRequest)
  {
    var selected := OutThrough(world, m, season, number);
    SelectionsOnRows(world, m, season, number, None, member);
    WatchAllWrites(world, m, selected, false, now, member);
    assert Chosen(member, selected, false) == NotYetSeen(member, selected);
    forall f | StandsAt(world, m, season, number, f) ensures f == e {
      assert world.cache.episodes[f].season == world.cache.episodes[e].season;
    }
  }

  /** The target must be there and out. */
  lemma MarkThroughNeedsEpisode(world: World, m: MediaId, season: nat, number: nat, now: Instant, member: Member)
    requires world.cache.Valid() && Sound(world, member)
    ensures var result := MarkThrough(world, m, season, number, now, member);
      && (!(exists e :: StandsAt(world, m, season, number, e)) ==> result == Err(NotFound))
      && (result.Ok? ==> exists e :: StandsAt(world, m, season, number, e) && Out(world, m, e))
  {
    if MarkThrough(world, m, season, number, now, member).Ok? {
      var e :| StandsAt(world, m, season, number, e);
      MarkThroughOnRows(world, m, season, number, now, member, e);
    }
  }

  /** So, episode by episode: what lies beyond is as it was, what is reached has a row, and what was
      watched already is not counted again. */
  lemma MarkThroughReachesExactly(
      world: World, m: MediaId, season: nat, number: nat, now: Instant, member: Member, e: EpisodeId)
    requires world.cache.Valid() && Sound(world, member) && MarkThrough(world, m, season, number, now, member).Ok?
    ensures var after := MarkThrough(world, m, season, number, now, member).value;
      var same := Plays(after.history, e) == Plays(member.history, e);
      var seen := exists r :: r in after.history && r.media == m && r.episode == Some(e);
      && (Plays(member.history, e) > 0 || !Out(world, m, e) ==> same)
      && (Out(world, m, e) ==>
            var s, n := world.cache.seasons[world.cache.episodes[e].season].number, world.cache.episodes[e].number;
            && (season > 0 && s == 0 ==> same)
            && (s > season || (s == season && n > number) ==> same)
            && (s == season && n <= number ==> seen)
            && (0 < s < season ==> seen))
  {
    MarkThroughNeedsEpisode(world, m, season, number, now, member);
    var target :| StandsAt(world, m, season, number, target) && Out(world, m, target);
    MarkThroughOnRows(world, m, season, number, now, member, target);
    var after := MarkThrough(world, m, season, number, now, member).value;
    var chosen := NotYetSeen(member, OutThrough(world, m, season, number));
    assert Adds(member, after, m, now, chosen);
    PlaysPositive(member.history, e);
    if e in OutThrough(world, m, season, number) {
      ReachedIsSeen(world, m, member, after, now, chosen, e);
    }
  }

  lemma ReachedIsSeen(
      world: World, m: MediaId, before: Member, after: Member, now: Instant, chosen: set<EpisodeId>, e: EpisodeId)
    requires Filed(world.cache, before.history) && Out(world, m, e) && Adds(before, after, m, now, chosen)
    requires e in chosen || !Unwatched(before, e)
    ensures exists r :: r in after.history && r.media == m && r.episode == Some(e)
  {
    if !Unwatched(before, e) {
      var r :| r in before.history && r.episode == Some(e);
      assert r in after.history && world.cache.IsEpisodeOf(r.episode.value, r.media);
    } else {
      PlaysPositive(before.history, e);
      PlaysPositive(after.history, e);
      var r :| r in after.history && r.episode == Some(e);
      var i :| 0 <= i < |after.history| && after.history[i] == r;
      assert forall x :: 0 <= x < |before.history| ==>
        before.history[x] == after.history[x] && before.history[x] in before.history;
    }
  }

  /** And Up Next then names a later episode of the show, or none. */
  lemma MarkThroughAgreesWithUpNext(
      world: World, m: MediaId, season: nat, number: nat, now: Instant, member: Member, recent: Instant, limit: nat)
    requires world.cache.Valid() && Sound(world, member) && season > 0
    requires MarkThrough(world, m, season, number, now, member).Ok?
    ensures var after := MarkThrough(world, m, season, number, now, member).value;
      forall x :: x in UpNext.Items(world.cache, world.clock, after, false, recent, limit)
                  && world.cache.IsEpisodeOf(x.episode, m) ==>
        var s, n := world.cache.SeasonOf(x.episode).number, world.cache.episodes[x.episode].number;
        s > season || (s == season && n > number)
  {
    var after := MarkThrough(world, m, season, number, now, member).value;
    UpNextRows.UpNextOnRows(world.cache, world.clock, after, false, recent, limit);
    forall x | x in UpNext.Items(world.cache, world.clock, after, false, recent, limit)
               && world.cache.IsEpisodeOf(x.episode, m)
      ensures var s, n := world.cache.SeasonOf(x.episode).number, world.cache.episodes[x.episode].number;
        s > season || (s == season && n > number)
    {
      var k :| UpNextRows.NextInLine(world.cache, world.clock, after, false, recent, k, x);
      MarkThroughReachesExactly(world, m, season, number, now, member, x.episode);
    }
  }
}
