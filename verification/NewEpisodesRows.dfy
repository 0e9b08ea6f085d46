/** What `/calendar/new` returns, said of the rows of the tables alone, and what a watch does to it. */
module NewEpisodesRows {
  import opened Orders
  import opened Catalogue
  import opened KeysetPaging
  import opened NewEpisodesFeed
  import opened WatchHandlers
  import UpNext
  import UpNextRows

  /** An episode of a tracked, undropped series, out by the client's date, with no entry in the
      history; a special only if the client asked for specials. */
  ghost predicate Due(feed: Feed, tables: Tables, e: EpisodeId)
    requires tables.cache.Valid()
  {
    var cache, member := tables.cache, tables.member;
    && e in cache.episodes
    && var m := cache.seasons[cache.episodes[e].season].media;
    && m in member.tracked && member.tracked[m] != Dropped && cache.media[m].kind == Tv
    && cache.episodes[e].airDate.Some? && feed.today >= cache.episodes[e].airDate.value
    && (cache.seasons[cache.episodes[e].season].number == 0 ==> feed.specials)
    && forall r :: r in member.history ==> r.episode != Some(e)
  }

  /** A row of the response shows the columns of its episode. */
  ghost predicate Shows(cache: Cache, row: FeedRow)
    requires cache.Valid()
  {
    && row.id in cache.episodes
    && cache.episodes[row.id].airDate == Some(row.date) && cache.episodes[row.id].number == row.number
    && var season := cache.seasons[cache.episodes[row.id].season];
    && season.number == row.season && season.media == row.media && cache.media[row.media].title == row.title
  }

  lemma BacklogOnRows(feed: Feed, tables: Tables, row: FeedRow)
    requires tables.cache.Valid()
    ensures row in BacklogRows(feed, tables) <==> Due(feed, tables, row.id) && Shows(tables.cache, row)
  {
    if Due(feed, tables, row.id) && Shows(tables.cache, row) {
      assert row == Row(tables.cache, row.id);
    }
  }

  lemma DueIsInBacklog(feed: Feed, tables: Tables, e: EpisodeId)
    requires tables.cache.Valid()
    ensures Due(feed, tables, e) <==> InBacklog(feed, tables, e)
  {
  }

  /** Newest day first; inside a day by title and show, then in watching order. */
  ghost predicate InOrder(titleLess: (string, string) -> bool, a: FeedRow, b: FeedRow) {
    && b.date <= a.date
    && (a.date == b.date ==> a.title == b.title || titleLess(a.title, b.title))
    && (a.date == b.date && a.title == b.title ==> a.media <= b.media)
    && (a.date == b.date && a.media == b.media && a.title == b.title ==>
          a.season < b.season || (a.season == b.season && a.number <= b.number))
  }

  ghost predicate StaysDue(feed: Feed, times: seq<Tables>, e: EpisodeId)
    requires AllValid(times)
  {
    forall i :: 0 <= i < |times| ==> Due(feed, times[i], e)
  }

  ghost predicate WasDue(feed: Feed, times: seq<Tables>, row: FeedRow)
    requires AllValid(times)
  {
    exists i :: 0 <= i < |times| && Due(feed, times[i], row.id) && Shows(times[i].cache, row)
  }

  ghost predicate Returned(cache: Cache, rows: seq<FeedRow>, e: EpisodeId)
    requires cache.Valid()
  {
    exists row :: row in rows && row.id == e && Shows(cache, row)
  }

  /** A walk over tables that change between pages: its rows are due and shown as they stood at some
      page read, no episode comes twice, they are in order, and an episode due at every page of a
      finished walk is among them. */
  lemma WalkOnRows(feed: Feed, times: seq<Tables>, limit: nat)
    requires times != [] && AllValid(times) && CacheGrows(times) && StrictTotal(feed.titleLess) && limit > 0
    ensures StrictTotal(FeedOrder(feed.titleLess))
    ensures var walk := FollowNew(feed, times, limit, None);
      && (forall row :: row in walk.items ==> WasDue(feed, times, row))
      && (forall i, j :: 0 <= i < j < |walk.items| ==>
            walk.items[i].id != walk.items[j].id && InOrder(feed.titleLess, walk.items[i], walk.items[j]))
      && (walk.finished ==> forall e :: StaysDue(feed, times, e) ==> Returned(times[0].cache, walk.items, e))
  {
    FeedOrderTotal(feed.titleLess);
    var walk := FollowNew(feed, times, limit, None);
    forall row | row in walk.items ensures WasDue(feed, times, row) {
      var i := RowSeen(feed, times, limit, row);
    }
    forall i, j | 0 <= i < j < |walk.items|
      ensures walk.items[i].id != walk.items[j].id && InOrder(feed.titleLess, walk.items[i], walk.items[j])
    {
      WalkInOrder(feed, times, limit, i, j);
    }
    if walk.finished {
      forall e | StaysDue(feed, times, e) ensures Returned(times[0].cache, walk.items, e) {
        var row := DueIsReturned(feed, times, limit, e);
      }
    }
  }

  lemma WalkInOrder(feed: Feed, times: seq<Tables>, limit: nat, i: nat, j: nat)
    requires times != [] && AllValid(times) && CacheGrows(times) && StrictTotal(feed.titleLess) && limit > 0
    requires StrictTotal(FeedOrder(feed.titleLess)) && i < j < |FollowNew(feed, times, limit, None).items|
    ensures var items := FollowNew(feed, times, limit, None).items;
      items[i].id != items[j].id && InOrder(feed.titleLess, items[i], items[j])
  {
    var items := FollowNew(feed, times, limit, None).items;
    assert FeedOrder(feed.titleLess)(items[i], items[j]) by { BacklogPagingExact(feed, times, limit); }
    var p := RowSeen(feed, times, limit, items[i]);
    var q := RowSeen(feed, times, limit, items[j]);
    if items[i].id == items[j].id { SameEpisodeSameRow(times, p, q, items[i], items[j]); }
  }

  lemma DueIsReturned(feed: Feed, times: seq<Tables>, limit: nat, e: EpisodeId) returns (row: FeedRow)
    requires times != [] && AllValid(times) && CacheGrows(times) && StrictTotal(feed.titleLess) && limit > 0
    requires StrictTotal(FeedOrder(feed.titleLess)) && FollowNew(feed, times, limit, None).finished
    requires StaysDue(feed, times, e)
    ensures row in FollowNew(feed, times, limit, None).items && row.id == e && Shows(times[0].cache, row)
  {
    row := Row(times[0].cache, e);
    assert StaysInBacklog(feed, times, e) by {
      forall i | 0 <= i < |times| ensures InBacklog(feed, times[i], e) {
        DueIsInBacklog(feed, times[i], e);
      }
    }
    BacklogPagingExact(feed, times, limit);
    DueIsInBacklog(feed, times[0], e);
  }

  lemma RowSeen(feed: Feed, times: seq<Tables>, limit: nat, row: FeedRow) returns (i: nat)
    requires times != [] && AllValid(times) && CacheGrows(times) && StrictTotal(feed.titleLess) && limit > 0
    requires StrictTotal(FeedOrder(feed.titleLess)) && row in FollowNew(feed, times, limit, None).items
    ensures i < |times| && Due(feed, times[i], row.id) && Shows(times[i].cache, row)
  {
    BacklogPagingExact(feed, times, limit);
    i :| 0 <= i < |times| && row in BacklogRows(feed, times[i]);
    BacklogOnRows(feed, times[i], row);
  }

  lemma SameEpisodeSameRow(times: seq<Tables>, p: nat, q: nat, a: FeedRow, b: FeedRow)
    requires p < |times| && q < |times| && AllValid(times) && CacheGrows(times)
    requires Shows(times[p].cache, a) && Shows(times[q].cache, b) && a.id == b.id
    ensures a == b
  {
    assert Keeps(times[p].cache, times[q].cache) || Keeps(times[q].cache, times[p].cache);
  }

  /** The first page hands out a cursor exactly when an episode that is due is not on it; the page is
      then full and the cursor names its last row. */
  lemma CursorMeansMore(feed: Feed, tables: Tables, limit: nat)
    requires tables.cache.Valid() && StrictTotal(FeedOrder(feed.titleLess)) && limit > 0
    ensures var (items, next) := NewPage(feed, tables, limit, None);
      && |items| <= limit
      && (next.Some? <==> exists e :: Due(feed, tables, e) && !Returned(tables.cache, items, e))
      && (next.Some? ==> |items| == limit && next == Some(Cursor(items[limit - 1].date, items[limit - 1].id)))
  {
    var lt, rows := FeedOrder(feed.titleLess), BacklogRows(feed, tables);
    assert Admitted(feed, tables, None) == rows;
    PageCuts(lt, rows, limit);
    var page := PageOf(lt, rows, limit);
    forall e | Due(feed, tables, e) ensures Row(tables.cache, e) in rows && Row(tables.cache, e).id == e {
      DueIsInBacklog(feed, tables, e);
    }
    if page.next.Some? {
      var x :| x in rows && lt(page.next.value, x);
      BacklogOnRows(feed, tables, x);
      NotOnPage(tables.cache, page.items, page.next.value, lt, x);
    } else {
      forall e | Due(feed, tables, e) ensures Returned(tables.cache, page.items, e) {
        var row := Row(tables.cache, e);
        assert row in Elements(page.items);
        BacklogOnRows(feed, tables, row);
      }
    }
  }

  lemma NotOnPage(cache: Cache, items: seq<FeedRow>, last: FeedRow, lt: (FeedRow, FeedRow) -> bool, x: FeedRow)
    requires cache.Valid() && StrictTotal(lt) && Shows(cache, x) && lt(last, x)
    requires forall y :: y in items ==> y == last || lt(y, last)
    ensures !Returned(cache, items, x.id)
  {
    assert x !in items;
  }

  // ---- after a watch -------------------------------------------------------------------

  /** An episode with an entry in the history is on no page, wherever the cursor stands. */
  lemma WatchedIsNotListed(feed: Feed, tables: Tables, limit: nat, cursor: Option<Cursor>, e: EpisodeId)
    requires tables.cache.Valid() && StrictTotal(FeedOrder(feed.titleLess)) && limit > 0
    requires exists r :: r in tables.member.history && r.episode == Some(e)
    ensures forall row :: row in NewPage(feed, tables, limit, cursor).0 ==> row.id != e
  {
    PageCuts(FeedOrder(feed.titleLess), Admitted(feed, tables, cursor), limit);
    forall row | row in NewPage(feed, tables, limit, cursor).0 ensures row.id != e {
      assert row in Elements(NewPage(feed, tables, limit, cursor).0);
      BacklogOnRows(feed, tables, row);
    }
  }

  /** Nor does Up Next name it. */
  lemma WatchedIsNotNext(
      cache: Cache, clock: Clock, member: Member, specials: bool, recent: Instant, limit: nat, e: EpisodeId)
    requires cache.Valid() && exists r :: r in member.history && r.episode == Some(e)
    ensures forall x :: x in UpNext.Items(cache, clock, member, specials, recent, limit) ==> x.episode != e
  {
    UpNextRows.UpNextOnRows(cache, clock, member, specials, recent, limit);
    forall x | x in UpNext.Items(cache, clock, member, specials, recent, limit) ensures x.episode != e {
      var m :| UpNextRows.NextInLine(cache, clock, member, specials, recent, m, x);
    }
  }

  /** Once a mark of an episode has gone through, from the calendar or from the show's page, the
      episode is on no page of the backlog and Up Next does not name it. */
  lemma MarkedIsNotListed(
      world: World, q: Request, now: Instant, member: Member, feed: Feed, cursor: Option<Cursor>, cache: Cache,
      clock: Clock, recent: Instant, limit: nat)
    requires WellFormed(world, q) && (q.Mark? || q.MarkFromCalendar?) && Handle(world, q, now, member).Ok?
    requires cache.Valid() && StrictTotal(FeedOrder(feed.titleLess)) && limit > 0
    ensures var after := Handle(world, q, now, member).value;
      && (forall row :: row in NewPage(feed, Tables(cache, after), limit, cursor).0 ==> row.id != q.episode)
      && (forall x :: x in UpNext.Items(cache, clock, after, feed.specials, recent, limit) ==> x.episode != q.episode)
  {
    var after := Handle(world, q, now, member).value;
    MarkLeavesRow(world, q, now, member);
    WatchedIsNotListed(feed, Tables(cache, after), limit, cursor, q.episode);
    WatchedIsNotNext(cache, clock, after, feed.specials, recent, limit, q.episode);
  }

  lemma MarkLeavesRow(world: World, q: Request, now: Instant, member: Member)
    requires WellFormed(world, q) && (q.Mark? || q.MarkFromCalendar?) && Handle(world, q, now, member).Ok?
    ensures exists r :: r in Handle(world, q, now, member).value.history && r.episode == Some(q.episode)
  {
    var after := Handle(world, q, now, member).value;
    var m := if q.Mark? then q.media else world.cache.SeasonOf(q.episode).media;
    if r :| r in member.history && r.media == m && r.episode == Some(q.episode) {
      assert r in after.history;
    } else {
      assert HistoryRow(m, Some(q.episode), now) in after.history;
    }
  }
}
