/** What `/calendar/upcoming` returns, said of the rows of the tables alone. */
module UpcomingRows {
  import opened Orders
  import opened Uuids
  import opened Catalogue
  import opened KeysetPaging
  import opened UpcomingFeed

  /** After today and no later than the cutoff. */
  predicate Ahead(w: Window, date: Date) {
    w.today < date && !(w.cutoff < date)
  }

  /** An episode ahead of a tracked, undropped series. */
  ghost predicate EpisodeAhead(cache: Cache, member: Member, w: Window, e: EpisodeId, date: Date)
    requires cache.Valid()
  {
    && e in cache.episodes && cache.episodes[e].airDate == Some(date) && Ahead(w, date)
    && var season := cache.seasons[cache.episodes[e].season];
       (season.number == 0 ==> w.specials)
       && cache.media[season.media].kind == Tv
       && season.media in member.tracked && member.tracked[season.media] != Dropped
  }

  ghost predicate Wanted(cache: Cache, member: Member, m: MediaId) {
    m in member.tracked && member.tracked[m].PlanToWatch? && m in cache.media && cache.media[m].kind.Movie?
  }

  /** A planned film opens in the member's country: the first date ahead of that kind of release. */
  ghost predicate Opens(releases: set<Release>, w: Window, m: MediaId, releaseType: nat, date: Date) {
    && Release(m, w.country, releaseType, date) in releases && Ahead(w, date)
    && forall r ::
         (r in releases && r.media == m && r.country == w.country && r.releaseType == releaseType && Ahead(w, r.date))
         ==> date <= r.date
  }

  /** The general date stands in where the country has no date at all. */
  ghost predicate FallsBack(cache: Cache, releases: set<Release>, w: Window, m: MediaId, date: Date)
    requires m in cache.media
  {
    && cache.media[m].releaseDate == Some(date) && Ahead(w, date)
    && forall r :: r in releases && r.media == m ==> r.country != w.country
  }

  ghost predicate OnCalendar(cache: Cache, member: Member, releases: set<Release>, w: Window, item: Item)
    requires cache.Valid()
  {
    || (item.kind == "episode" && EpisodeAhead(cache, member, w, item.id, item.date)
        && item.releaseType.None? && item.sortKey == Text(item.id))
    || (item.kind == "movie" && Wanted(cache, member, item.id)
        && match item.releaseType
           case Some(t) =>
             && Opens(releases, w, item.id, t, item.date)
             && 1 <= t <= 6 && item.sortKey == Text(item.id) + ":" + [['1', '2', '3', '4', '5', '6'][t - 1]]
           case None =>
             && FallsBack(cache, releases, w, item.id, item.date) && item.sortKey == Text(item.id) + ":fallback")
  }

  /** Which query strings are a cursor: none of the three parts, or a date, one of the two kinds, and a
      key of 1 to 64 characters that are digits, letters, hyphens or colons. */
  lemma CursorsInWords(date: Option<Date>, kind: Option<string>, key: Option<string>)
    ensures ResolveCursor(date, kind, key) ==
      if date == None && kind == None && key == None then Ok(None)
      else if date == None || kind == None || key == None then Err(CursorIncomplete)
      else if kind.value in ["episode", "movie"] && 1 <= |key.value| <= 64 && forall c :: c in key.value ==>
                !(c < '-' || '-' < c < '0' || ':' < c < 'A' || 'Z' < c < 'a' || 'z' < c) then
        Ok(Some(Key(date.value, kind.value, key.value)))
      else Err(InvalidCursor)
  {
  }

  lemma EpisodesOnRows(cache: Cache, member: Member, w: Window, item: Item)
    requires cache.Valid()
    ensures item in EpisodeItems(cache, member, w) <==>
      item.kind == "episode" && EpisodeAhead(cache, member, w, item.id, item.date)
      && item.releaseType.None? && item.sortKey == Text(item.id)
  {
  }

  lemma DigitText(t: nat)
    requires 1 <= t <= 6
    ensures TypeText(t) == [['1', '2', '3', '4', '5', '6'][t - 1]]
  {
  }

  lemma RegionalOnRows(cache: Cache, member: Member, releases: set<Release>, w: Window, item: Item)
    requires cache.Valid() && ValidReleases(releases)
    ensures item in RegionalItems(cache, member, releases, w) <==>
      && item.kind == "movie" && Wanted(cache, member, item.id) && item.releaseType.Some?
      && Opens(releases, w, item.id, item.releaseType.value, item.date)
      && 1 <= item.releaseType.value <= 6
      && item.sortKey == Text(item.id) + ":" + [['1', '2', '3', '4', '5', '6'][item.releaseType.value - 1]]
  {
    if item in RegionalItems(cache, member, releases, w) {
      var r :| r in releases && r.country == w.country && w.Holds(r.date) && PlannedFilm(cache, member, r.media)
               && IsLeast(Earlier, DatesOf(releases, w, r.media, r.releaseType), r.date)
               && item == Item("movie", r.media, r.date, Some(r.releaseType),
                               Text(r.media) + ":" + TypeText(r.releaseType));
      DigitText(r.releaseType);
      assert r == Release(item.id, w.country, r.releaseType, item.date);
      forall o | o in releases && o.media == r.media && o.country == w.country && o.releaseType == r.releaseType
                 && Ahead(w, o.date)
        ensures r.date <= o.date
      {
        assert o.date in DatesOf(releases, w, r.media, r.releaseType);
      }
    }
    if item.releaseType.Some? && Opens(releases, w, item.id, item.releaseType.value, item.date) {
      var r := Release(item.id, w.country, item.releaseType.value, item.date);
      assert r in releases;
      DigitText(r.releaseType);
      assert IsLeast(Earlier, DatesOf(releases, w, r.media, r.releaseType), r.date);
    }
  }

  lemma FallbackOnRows(cache: Cache, member: Member, releases: set<Release>, w: Window, item: Item)
    requires cache.Valid()
    ensures item in FallbackItems(cache, member, releases, w) <==>
      && item.kind == "movie" && Wanted(cache, member, item.id) && item.releaseType.None?
      && FallsBack(cache, releases, w, item.id, item.date) && item.sortKey == Text(item.id) + ":fallback"
  {
  }

  /** The calendar holds exactly the items the rows call for. */
  lemma CalendarOnRows(cache: Cache, member: Member, releases: set<Release>, w: Window, item: Item)
    requires cache.Valid() && ValidReleases(releases)
    ensures item in CalendarItems(cache, member, releases, w) <==> OnCalendar(cache, member, releases, w, item)
  {
    EpisodesOnRows(cache, member, w, item);
    RegionalOnRows(cache, member, releases, w, item);
    FallbackOnRows(cache, member, releases, w, item);
  }

  ghost predicate HasKey(
      cache: Cache, member: Member, releases: set<Release>, w: Window, kind: string, key: Key)
    requires cache.Valid()
  {
    exists item :: OnCalendar(cache, member, releases, w, item) && (kind == "all" || kind == item.kind)
                   && item.date == key.date && item.kind == key.kind && item.sortKey == key.sortKey
  }

  /** All pages together: every item of the rows once, by day, then kind, then key. */
  lemma PagesOnRows(
      textLess: (string, string) -> bool, cache: Cache, member: Member, releases: set<Release>, w: Window,
      kind: string, limit: nat, pages: nat)
    requires cache.Valid() && ValidReleases(releases) && StrictTotal(textLess) && limit > 0
    requires var items := CalendarItems(cache, member, releases, w); pages * limit > |Keys(items, kind)|
    ensures StrictTotal(KeyOrder(textLess))
    ensures var walk :=
      FollowUpcoming(textLess, CalendarItems(cache, member, releases, w), kind, limit, None, None, None, pages);
      && walk.finished
      && (forall key :: key in walk.items <==> HasKey(cache, member, releases, w, kind, key))
      && (forall i, j :: 0 <= i < j < |walk.items| ==>
            var a, b := walk.items[i], walk.items[j];
            a.date < b.date || (a.date == b.date
              && (textLess(a.kind, b.kind) || (a.kind == b.kind && textLess(a.sortKey, b.sortKey)))))
  {
    var items := CalendarItems(cache, member, releases, w);
    UpcomingPagesConcatenate(textLess, cache, member, releases, w, kind, limit, pages);
    var listing := Listing(KeyOrder(textLess), Keys(items, kind));
    forall key ensures key in listing <==> HasKey(cache, member, releases, w, kind, key) {
      assert key in listing <==> key in Elements(listing);
      KeysOnRows(cache, member, releases, w, kind, key);
    }
  }

  lemma KeysOnRows(cache: Cache, member: Member, releases: set<Release>, w: Window, kind: string, key: Key)
    requires cache.Valid() && ValidReleases(releases)
    ensures key in Keys(CalendarItems(cache, member, releases, w), kind)
       <==> HasKey(cache, member, releases, w, kind, key)
  {
    var items := CalendarItems(cache, member, releases, w);
    if key in Keys(items, kind) {
      var i :| i in items && (kind == "all" || i.kind == kind) && key == KeyOf(i);
      CalendarOnRows(cache, member, releases, w, i);
    }
    if HasKey(cache, member, releases, w, kind, key) {
      var i :| OnCalendar(cache, member, releases, w, i) && (kind == "all" || kind == i.kind)
               && i.date == key.date && i.kind == key.kind && i.sortKey == key.sortKey;
      CalendarOnRows(cache, member, releases, w, i);
      assert key == KeyOf(i);
    }
  }
}
