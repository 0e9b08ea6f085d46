/** `/calendar/new`: the backlog, newest day first and in watching order inside a day. The
    cursor carries only the day and an episode id; the rest of the position is read back from
    the episode the id names. Between two pages the member may watch, plan and track, and the
    cache may take in new rows. */
module NewEpisodesFeed {
  import opened Orders
  import opened Catalogue
  import opened KeysetPaging

  datatype Cursor = Cursor(beforeDate: Date, beforeId: EpisodeId)

  datatype FeedRow = FeedRow(date: Date, title: string, media: MediaId, season: nat, number: nat, id: EpisodeId)

  /** What is fixed for one client: the collation titles compare by, its date, its choice. */
  datatype Feed = Feed(titleLess: (string, string) -> bool, today: Date, specials: bool)

  /** The tables when one page is read. */
  datatype Tables = Tables(cache: Cache, member: Member)

  /** The tuple comparison inside one day. */
  predicate PlaceBefore(titleLess: (string, string) -> bool, a: FeedRow, b: FeedRow) {
    if a.title != b.title then titleLess(a.title, b.title)
    else if a.media != b.media then a.media < b.media
    else if a.season != b.season then a.season < b.season
    else if a.number != b.number then a.number < b.number
    else a.id < b.id
  }

  /** ORDER BY air_date DESC, then the place inside the day. */
  function FeedOrder(titleLess: (string, string) -> bool): (FeedRow, FeedRow) -> bool {
    (a: FeedRow, b: FeedRow) =>
      if a.date != b.date then a.date > b.date else PlaceBefore(titleLess, a, b)
  }

  ghost predicate InBacklog(feed: Feed, tables: Tables, e: EpisodeId)
    requires tables.cache.Valid()
  {
    var cache, member := tables.cache, tables.member;
    && e in cache.episodes
    && member.Follows(cache.SeasonOf(e).media)
    && cache.media[cache.SeasonOf(e).media].kind == Tv
    && cache.episodes[e].airDate.Some? && cache.episodes[e].airDate.value <= feed.today
    && (feed.specials || cache.SeasonOf(e).number > 0)
    && !member.HasWatched(e)
  }

  ghost function Row(cache: Cache, e: EpisodeId): FeedRow
    requires cache.Valid() && e in cache.episodes
  {
    var season := cache.SeasonOf(e);
    var date := if cache.episodes[e].airDate.Some? then cache.episodes[e].airDate.value else 0;
    FeedRow(date, cache.media[season.media].title, season.media, season.number, cache.episodes[e].number, e)
  }

  ghost function BacklogRows(feed: Feed, tables: Tables): set<FeedRow>
    requires tables.cache.Valid()
  {
    set e | e in tables.cache.episodes && InBacklog(feed, tables, e) :: Row(tables.cache, e)
  }

  /** The WHERE clause of the cursor. When the anchor's row is gone the sub-select is NULL and
      the second disjunct never holds. */
  ghost predicate Admits(cache: Cache, titleLess: (string, string) -> bool, cursor: Option<Cursor>, row: FeedRow)
    requires cache.Valid()
  {
    || cursor.None?
    || row.date < cursor.value.beforeDate
    || (row.date == cursor.value.beforeDate
        && cursor.value.beforeId in cache.episodes
        && PlaceBefore(titleLess, Row(cache, cursor.value.beforeId), row))
  }

  ghost function Admitted(feed: Feed, tables: Tables, cursor: Option<Cursor>): set<FeedRow>
    requires tables.cache.Valid()
  {
    set row | row in BacklogRows(feed, tables) && Admits(tables.cache, feed.titleLess, cursor, row)
  }

  ghost function NewPage(feed: Feed, tables: Tables, limit: nat, cursor: Option<Cursor>): (seq<FeedRow>, Option<Cursor>)
    requires tables.cache.Valid() && StrictTotal(FeedOrder(feed.titleLess)) && limit > 0
  {
    var page := PageOf(FeedOrder(feed.titleLess), Admitted(feed, tables, cursor), limit);
    (page.items, if page.next.Some? then Some(Cursor(page.next.value.date, page.next.value.id)) else None)
  }

  /** Follow the cursors; `times[i]` is what the tables hold when page `i` is read. */
  ghost function FollowNew(feed: Feed, times: seq<Tables>, limit: nat, cursor: Option<Cursor>): Walk<FeedRow>
    requires AllValid(times) && StrictTotal(FeedOrder(feed.titleLess)) && limit > 0
    decreases |times|
  {
    if times == [] then Walk([], false)
    else
      var (items, next) := NewPage(feed, times[0], limit, cursor);
      if next.None? then Walk(items, true)
      else
        var rest := FollowNew(feed, times[1..], limit, next);
        Walk(items + rest.items, rest.finished)
  }

  ghost predicate AllValid(times: seq<Tables>) {
    forall i :: 0 <= i < |times| ==> times[i].cache.Valid()
  }

  /** Every catalogue row of `a` is still there, as it was. */
  ghost predicate Keeps(a: Cache, b: Cache) {
    && (forall m :: m in a.media ==> m in b.media && b.media[m] == a.media[m])
    && (forall s :: s in a.seasons ==> s in b.seasons && b.seasons[s] == a.seasons[s])
    && (forall e :: e in a.episodes ==> e in b.episodes && b.episodes[e] == a.episodes[e])
  }

  /** From one page to any later one the cache only takes in new rows. */
  ghost predicate CacheGrows(times: seq<Tables>) {
    forall i, j :: 0 <= i <= j < |times| ==> Keeps(times[i].cache, times[j].cache)
  }

  lemma RowsStay(a: Cache, b: Cache, e: EpisodeId)
    requires a.Valid() && b.Valid() && Keeps(a, b) && e in a.episodes
    ensures e in b.episodes && Row(b, e) == Row(a, e)
  {
  }

  lemma FeedOrderTotal(titleLess: (string, string) -> bool)
    requires StrictTotal(titleLess)
    ensures StrictTotal(FeedOrder(titleLess))
  {
  }

  ghost function Views(feed: Feed, times: seq<Tables>): (v: seq<set<FeedRow>>)
    requires AllValid(times)
    ensures |v| == |times|
    ensures forall i :: 0 <= i < |v| ==> v[i] == BacklogRows(feed, times[i])
  {
    seq(|times|, i requires 0 <= i < |times| => BacklogRows(feed, times[i]))
  }

  /** A cursor is a full position again once it is read back through its episode. */
  ghost predicate Reads(cache: Cache, cursor: Option<Cursor>, position: Option<FeedRow>)
    requires cache.Valid()
  {
    if cursor.None? then position.None?
    else
      && cursor.value.beforeId in cache.episodes
      && position == Some(Row(cache, cursor.value.beforeId))
      && cursor.value.beforeDate == position.value.date
  }

  lemma AdmittedIsAfter(feed: Feed, tables: Tables, cursor: Option<Cursor>, position: Option<FeedRow>)
    requires tables.cache.Valid() && Reads(tables.cache, cursor, position)
    ensures Admitted(feed, tables, cursor) == After(FeedOrder(feed.titleLess), BacklogRows(feed, tables), position)
  {
  }

  /** The last row of a page can be read back, on this page's tables and on the next's. */
  lemma NextReads(feed: Feed, tables: Tables, later: Cache, position: Option<FeedRow>, limit: nat)
    requires tables.cache.Valid() && StrictTotal(FeedOrder(feed.titleLess)) && limit > 0
    requires later.Valid() && Keeps(tables.cache, later)
    ensures var next := PageOf(FeedOrder(feed.titleLess),
        After(FeedOrder(feed.titleLess), BacklogRows(feed, tables), position), limit).next;
      next.Some? ==> Reads(later, Some(Cursor(next.value.date, next.value.id)), next)
  {
    var lt := FeedOrder(feed.titleLess);
    var due := After(lt, BacklogRows(feed, tables), position);
    PageCuts(lt, due, limit);
    var next := PageOf(lt, due, limit).next;
    if next.Some? { RowsStay(tables.cache, later, next.value.id); }
  }

  lemma LaterTables(feed: Feed, times: seq<Tables>)
    requires times != [] && AllValid(times) && CacheGrows(times)
    ensures AllValid(times[1..]) && CacheGrows(times[1..])
    ensures Views(feed, times)[1..] == Views(feed, times[1..]) && Views(feed, times)[0] == BacklogRows(feed, times[0])
    ensures |times| > 1 ==> Keeps(times[0].cache, times[1].cache)
  {
  }

  /** So the walk over partial cursors is the walk over full positions, even when the episode
      the cursor names has been watched in the meantime. */
  lemma {:induction false} PartialCursorSuffices(
      feed: Feed, times: seq<Tables>, limit: nat, cursor: Option<Cursor>, position: Option<FeedRow>)
    requires AllValid(times) && CacheGrows(times) && StrictTotal(FeedOrder(feed.titleLess)) && limit > 0
    requires times != [] ==> Reads(times[0].cache, cursor, position)
    ensures FollowNew(feed, times, limit, cursor)
         == Follow(FeedOrder(feed.titleLess), Views(feed, times), limit, position)
    decreases |times|
  {
    if times != [] {
      var lt := FeedOrder(feed.titleLess);
      AdmittedIsAfter(feed, times[0], cursor, position);
      LaterTables(feed, times);
      var next := PageOf(lt, After(lt, BacklogRows(feed, times[0]), position), limit).next;
      if next.Some? {
        if |times| > 1 { NextReads(feed, times[0], times[1].cache, position, limit); }
        PartialCursorSuffices(feed, times[1..], limit, Some(Cursor(next.value.date, next.value.id)), next);
      }
    }
  }

  ghost predicate StaysInBacklog(feed: Feed, times: seq<Tables>, e: EpisodeId)
    requires AllValid(times)
  {
    forall i :: 0 <= i < |times| ==> InBacklog(feed, times[i], e)
  }

  /** Paging the backlog while the member's rows change and the cache takes in more: no episode
      twice, in order, nothing that was not in the backlog, and every episode that stays in it. */
  lemma BacklogPagingExact(feed: Feed, times: seq<Tables>, limit: nat)
    requires times != [] && AllValid(times) && CacheGrows(times) && StrictTotal(feed.titleLess) && limit > 0
    ensures StrictTotal(FeedOrder(feed.titleLess))
    ensures var walk := FollowNew(feed, times, limit, None);
      && Ascending(FeedOrder(feed.titleLess), walk.items)
      && (forall row :: row in walk.items ==> exists i :: 0 <= i < |times| && row in BacklogRows(feed, times[i]))
      && (walk.finished ==>
            forall e :: StaysInBacklog(feed, times, e) ==> Row(times[0].cache, e) in walk.items)
  {
    FeedOrderTotal(feed.titleLess);
    var lt, views := FeedOrder(feed.titleLess), Views(feed, times);
    PartialCursorSuffices(feed, times, limit, None, None);
    FollowAscends(lt, views, limit, None);
    var walk := FollowNew(feed, times, limit, None);
    forall row | row in walk.items ensures exists i :: 0 <= i < |times| && row in BacklogRows(feed, times[i]) {
      var i :| 0 <= i < |views| && row in views[i];
    }
    if walk.finished {
      forall e | StaysInBacklog(feed, times, e) ensures Row(times[0].cache, e) in walk.items {
        assert InBacklog(feed, times[0], e);
        forall i | 0 <= i < |views| ensures Row(times[0].cache, e) in views[i] {
          assert InBacklog(feed, times[i], e);
          RowsStay(times[0].cache, times[i].cache, e);
        }
        FollowReturnsStable(lt, views, limit, None, Row(times[0].cache, e));
      }
    }
  }

  /** Every row of the cache, in the backlog or not. */
  ghost function Universe(cache: Cache): set<FeedRow>
    requires cache.Valid()
  {
    set e | e in cache.episodes :: Row(cache, e)
  }

  lemma UniverseSize(cache: Cache)
    requires cache.Valid()
    ensures |Universe(cache)| == |cache.episodes|
  {
    var row := (e: EpisodeId) =>
      if cache.Valid() && e in cache.episodes then Row(cache, e) else FeedRow(0, "", 0, 0, 0, 0);
    ImageSize(cache.episodes.Keys, row, Universe(cache));
  }

  lemma BacklogInUniverse(feed: Feed, tables: Tables, cache: Cache)
    requires tables.cache.Valid() && cache.Valid() && Keeps(tables.cache, cache)
    ensures BacklogRows(feed, tables) <= Universe(cache)
  {
    forall row | row in BacklogRows(feed, tables) ensures row in Universe(cache) {
      RowsStay(tables.cache, cache, row.id);
    }
  }

  /** The walk ends: every page but the last returns `limit` episodes not returned before. */
  lemma BacklogPagingEnds(feed: Feed, times: seq<Tables>, limit: nat)
    requires times != [] && AllValid(times) && CacheGrows(times) && StrictTotal(FeedOrder(feed.titleLess)) && limit > 0
    requires |times| * limit > |times[|times| - 1].cache.episodes|
    ensures FollowNew(feed, times, limit, None).finished
  {
    var views, cache := Views(feed, times), times[|times| - 1].cache;
    PartialCursorSuffices(feed, times, limit, None, None);
    forall i | 0 <= i < |views| ensures views[i] <= Universe(cache) {
      BacklogInUniverse(feed, times[i], cache);
    }
    UniverseSize(cache);
    FollowTerminates(FeedOrder(feed.titleLess), views, limit, None, Universe(cache));
  }

  // ---- when the cursor's episode is deleted --------------------------------------------

  /** What a cursor is worth once its episode's row has been deleted: the rest of that day is
      skipped, so the next page is right exactly when nothing was left of the day. */
  lemma DeletedAnchorSkipsTheDay(feed: Feed, tables: Tables, anchor: FeedRow)
    requires tables.cache.Valid() && StrictTotal(feed.titleLess) && anchor.id !in tables.cache.episodes
    ensures var rows := BacklogRows(feed, tables);
      Admitted(feed, tables, Some(Cursor(anchor.date, anchor.id)))
          == After(FeedOrder(feed.titleLess), rows, Some(anchor))
      <==> !exists row :: row in rows && row.date == anchor.date && PlaceBefore(feed.titleLess, anchor, row)
  {
    var rows := BacklogRows(feed, tables);
    var due := After(FeedOrder(feed.titleLess), rows, Some(anchor));
    if row :| row in rows && row.date == anchor.date && PlaceBefore(feed.titleLess, anchor, row) {
      assert row in due && row !in Admitted(feed, tables, Some(Cursor(anchor.date, anchor.id)));
    }
  }

  /** One followed show, with these episodes in its first season. */
  ghost function OneSeason(episodes: map<EpisodeId, Episode>): Tables {
    Tables(Cache(map[0 := Media(Tv, "", None)], map[0 := Season(0, 1, None)], episodes),
           Member(map[0 := Watching], {}, []))
  }

  function OnDay(day: Date, number: nat): Episode {
    Episode(0, number, Some(day))
  }

  ghost function BothEpisodes(day: Date): Tables {
    OneSeason(map[1 := OnDay(day, 1), 2 := OnDay(day, 2)])
  }

  ghost function SecondOnly(day: Date): Tables {
    OneSeason(map[2 := OnDay(day, 2)])
  }

  function DayRow(day: Date, number: EpisodeId): FeedRow {
    FeedRow(day, "", 0, 1, number, number)
  }

  lemma BacklogOfBoth(feed: Feed)
    ensures BothEpisodes(feed.today).cache.Valid() && InBacklog(feed, BothEpisodes(feed.today), 2)
    ensures BacklogRows(feed, BothEpisodes(feed.today)) == {DayRow(feed.today, 1), DayRow(feed.today, 2)}
  {
    var both := BothEpisodes(feed.today);
    assert InBacklog(feed, both, 1) && InBacklog(feed, both, 2);
    assert Row(both.cache, 1) == DayRow(feed.today, 1) && Row(both.cache, 2) == DayRow(feed.today, 2);
  }

  lemma BacklogOfSecond(feed: Feed)
    ensures SecondOnly(feed.today).cache.Valid() && InBacklog(feed, SecondOnly(feed.today), 2)
    ensures BacklogRows(feed, SecondOnly(feed.today)) == {DayRow(feed.today, 2)}
  {
    assert InBacklog(feed, SecondOnly(feed.today), 2);
    assert Row(SecondOnly(feed.today).cache, 2) == DayRow(feed.today, 2);
  }

  lemma FirstOfTwo(lt: (FeedRow, FeedRow) -> bool, a: FeedRow, b: FeedRow)
    requires StrictTotal(lt) && lt(a, b)
    ensures PageOf(lt, {a, b}, 1) == Page([a], Some(a))
  {
    assert Elements([a, b]) == {a, b};
    ListingUnique(lt, [a, b]);
    assert [a, b][..1] == [a];
  }

  /** Such a loss: two episodes of one day and pages of one. The first is deleted after the first
      page, and the walk ends without the second, which was in the backlog throughout. */
  lemma DeletedAnchorLosesAnEpisode(feed: Feed)
    requires StrictTotal(feed.titleLess)
    ensures StrictTotal(FeedOrder(feed.titleLess))
    ensures var times := [BothEpisodes(feed.today), SecondOnly(feed.today)];
      && AllValid(times) && InBacklog(feed, times[0], 2) && InBacklog(feed, times[1], 2)
      && FollowNew(feed, times, 1, None) == Walk([DayRow(feed.today, 1)], true)
  {
    var lt, both, second := FeedOrder(feed.titleLess), BothEpisodes(feed.today), SecondOnly(feed.today);
    var cursor := Some(Cursor(feed.today, 1));
    FeedOrderTotal(feed.titleLess);
    BacklogOfBoth(feed);
    BacklogOfSecond(feed);
    FirstOfTwo(lt, DayRow(feed.today, 1), DayRow(feed.today, 2));
    assert Admitted(feed, both, None) == BacklogRows(feed, both);
    assert Admitted(feed, second, cursor) == {};
    assert [both, second][1..] == [second];
    assert FollowNew(feed, [second], 1, cursor) == Walk([], true);
  }
}
