/** What the two Up Next lists show, said of the rows of the tables and of nothing in between: which
    episode is named, which show is waiting and for which season, in what order, up to the limit. */
module UpNextRows {
  import opened Orders
  import opened Catalogue
  import opened UpNext

  // ---- the rows ------------------------------------------------------------------------

  /** A tracked series that has not been dropped and has an entry in the history. */
  ghost predicate Running(cache: Cache, member: Member, m: MediaId) {
    && m in member.tracked && member.tracked[m] != Dropped
    && m in cache.media && cache.media[m].kind == Tv
    && exists r :: r in member.history && r.media == m
  }

  ghost function SeasonNumber(cache: Cache, e: EpisodeId): nat
    requires e in cache.episodes && cache.episodes[e].season in cache.seasons
  {
    cache.seasons[cache.episodes[e].season].number
  }

  /** A cached episode of the show with a date that has come, and no entry in the history. */
  ghost predicate Ready(cache: Cache, clock: Clock, member: Member, specials: bool, m: MediaId, e: EpisodeId) {
    && e in cache.episodes && cache.episodes[e].season in cache.seasons
    && cache.seasons[cache.episodes[e].season].media == m
    && cache.episodes[e].airDate.Some? && clock(m, cache.episodes[e].airDate.value)
    && (SeasonNumber(cache, e) == 0 ==> specials)
    && forall r :: r in member.history ==> r.episode != Some(e)
  }

  ghost predicate Precedes(cache: Cache, e: EpisodeId, f: EpisodeId)
    requires e in cache.episodes && cache.episodes[e].season in cache.seasons
    requires f in cache.episodes && cache.episodes[f].season in cache.seasons
  {
    || SeasonNumber(cache, e) < SeasonNumber(cache, f)
    || (SeasonNumber(cache, e) == SeasonNumber(cache, f) && cache.episodes[e].number < cache.episodes[f].number)
  }

  /** A regular season that was never fetched, or of which rows are missing. */
  ghost predicate Lacking(cache: Cache, m: MediaId, s: SeasonId) {
    && s in cache.seasons && cache.seasons[s].media == m && cache.seasons[s].number != 0
    && var held := set e | e in cache.episodes && cache.episodes[e].season == s;
       match cache.seasons[s].episodeCount
       case None => held == {}
       case Some(n) => n > |held|
  }

  ghost predicate LatestWatch(member: Member, m: MediaId, at: Instant) {
    && (exists r :: r in member.history && r.media == m && r.watchedAt == at)
    && forall r :: r in member.history && r.media == m ==> r.watchedAt <= at
  }

  /** The entry of an episode that is next in its show with nothing missing at or before it. */
  ghost predicate NextInLine(
      cache: Cache, clock: Clock, member: Member, specials: bool, recent: Instant, m: MediaId, x: QueueEntry) {
    && Running(cache, member, m) && Ready(cache, clock, member, specials, m, x.episode)
    && (forall f :: Ready(cache, clock, member, specials, m, f) && f != x.episode ==> Precedes(cache, x.episode, f))
    && (forall s :: Lacking(cache, m, s) ==> cache.seasons[s].number > SeasonNumber(cache, x.episode))
    && cache.episodes[x.episode].airDate == Some(x.airDate)
    && LatestWatch(member, m, x.lastWatched)
    && x.priority == if x.episode in member.plans then 0 else if x.lastWatched >= recent then 1 else 2
  }

  /** A show with a lacking season that comes no later than any episode it could name. */
  ghost predicate HeldBack(cache: Cache, clock: Clock, member: Member, specials: bool, w: Waiting) {
    && Running(cache, member, w.media)
    && (exists s :: Lacking(cache, w.media, s) && cache.seasons[s].number == w.missing)
    && (forall s :: Lacking(cache, w.media, s) ==> w.missing <= cache.seasons[s].number)
    && (forall e :: Ready(cache, clock, member, specials, w.media, e) ==> w.missing <= SeasonNumber(cache, e))
    && LatestWatch(member, w.media, w.lastWatched)
  }

  // ---- the pieces of the query ---------------------------------------------------------

  lemma RunningShows(cache: Cache, member: Member, m: MediaId)
    ensures Considered(cache, member, m) <==> Running(cache, member, m)
    ensures m in member.Started() <==> exists r :: r in member.history && r.media == m
  {
    if r :| r in member.history && r.media == m {
      assert m in member.Started();
    }
  }

  lemma UnwatchedRows(member: Member, e: EpisodeId)
    ensures e in member.Watched() <==> exists r :: r in member.history && r.episode == Some(e)
  {
    if r :| r in member.history && r.episode == Some(e) {
      assert r.episode.value in member.Watched();
    }
  }

  ghost function PlaceOf(cache: Cache, e: EpisodeId): Position
    requires e in cache.episodes && cache.episodes[e].season in cache.seasons && cache.episodes[e].airDate.Some?
  {
    Position(SeasonNumber(cache, e), cache.episodes[e].number, cache.episodes[e].airDate.value, e)
  }

  lemma CandidateRows(
      cache: Cache, clock: Clock, member: Member, specials: bool, m: MediaId, p: Position)
    ensures p in Candidates(cache, clock, member.Watched(), specials, m)
       <==> Ready(cache, clock, member, specials, m, p.id) && p == PlaceOf(cache, p.id)
  {
    UnwatchedRows(member, p.id);
  }

  lemma LackingIsGap(cache: Cache, member: Member, m: MediaId, s: SeasonId)
    requires m in member.Started() && Lacking(cache, m, s)
    ensures cache.seasons[s].number in Gaps(SeasonCache(cache, member), m)
  {
    JoinKeepsCount(cache, member, s);
    var season := cache.seasons[s];
    assert CachedEpisodes(cache, s) == set e | e in cache.episodes && cache.episodes[e].season == s;
    var row := SeasonRow(m, season.number, season.episodeCount, |JoinedRows(cache, member, s)|);
    assert row in SeasonCache(cache, member);
    assert Incomplete(row);
  }

  lemma GapIsLacking(cache: Cache, member: Member, m: MediaId, n: nat) returns (s: SeasonId)
    requires n in Gaps(SeasonCache(cache, member), m)
    ensures Lacking(cache, m, s) && cache.seasons[s].number == n
  {
    var row :| row in SeasonCache(cache, member) && row.media == m && row.number == n && n > 0 && Incomplete(row);
    s :| s in cache.seasons && cache.seasons[s].media in member.Started()
         && row == SeasonRow(cache.seasons[s].media, cache.seasons[s].number, cache.seasons[s].episodeCount,
                             |JoinedRows(cache, member, s)|);
    JoinKeepsCount(cache, member, s);
    assert CachedEpisodes(cache, s) == set e | e in cache.episodes && cache.episodes[e].season == s;
  }

  /** The first ready episode of a running show, in order of season and number. */
  ghost predicate FirstReady(
      cache: Cache, clock: Clock, member: Member, specials: bool, m: MediaId, e: EpisodeId) {
    && Running(cache, member, m) && Ready(cache, clock, member, specials, m, e)
    && forall f :: Ready(cache, clock, member, specials, m, f) && f != e ==> Precedes(cache, e, f)
  }

  lemma PlacesApart(cache: Cache, clock: Clock, member: Member, specials: bool, m: MediaId, e: EpisodeId, f: EpisodeId)
    requires cache.Valid() && e != f
    requires Ready(cache, clock, member, specials, m, e) && Ready(cache, clock, member, specials, m, f)
    ensures PositionBefore(PlaceOf(cache, e), PlaceOf(cache, f)) <==> Precedes(cache, e, f)
  {
  }

  lemma NextIsFirstReady(cache: Cache, clock: Clock, member: Member, specials: bool, m: MediaId)
    requires cache.Valid() && NextOf(cache, clock, member, specials, m).Some?
    ensures var p := NextOf(cache, clock, member, specials, m).value;
      FirstReady(cache, clock, member, specials, m, p.id) && p == PlaceOf(cache, p.id)
  {
    RunningShows(cache, member, m);
    var candidates := Candidates(cache, clock, member.Watched(), specials, m);
    var p := NextOf(cache, clock, member, specials, m).value;
    CandidateRows(cache, clock, member, specials, m, p);
    forall f | Ready(cache, clock, member, specials, m, f) && f != p.id ensures Precedes(cache, p.id, f) {
      CandidateRows(cache, clock, member, specials, m, PlaceOf(cache, f));
      assert PlaceOf(cache, f) in candidates;
      PlacesApart(cache, clock, member, specials, m, p.id, f);
    }
  }

  lemma FirstReadyIsNext(cache: Cache, clock: Clock, member: Member, specials: bool, m: MediaId, e: EpisodeId)
    requires cache.Valid() && FirstReady(cache, clock, member, specials, m, e)
    ensures NextOf(cache, clock, member, specials, m) == Some(PlaceOf(cache, e))
  {
    RunningShows(cache, member, m);
    CandidateRows(cache, clock, member, specials, m, PlaceOf(cache, e));
    assert NextOf(cache, clock, member, specials, m).Some?;
    NextIsFirstReady(cache, clock, member, specials, m);
    assert NextOf(cache, clock, member, specials, m).value.id == e;
  }

  lemma NoNextNoReady(cache: Cache, clock: Clock, member: Member, specials: bool, m: MediaId, e: EpisodeId)
    requires Running(cache, member, m) && NextOf(cache, clock, member, specials, m).None?
    ensures !Ready(cache, clock, member, specials, m, e)
  {
    RunningShows(cache, member, m);
    if Ready(cache, clock, member, specials, m, e) {
      CandidateRows(cache, clock, member, specials, m, PlaceOf(cache, e));
    }
  }

  /** The first gap of a started show is its first lacking season. */
  lemma FirstGap(cache: Cache, member: Member, m: MediaId)
    requires m in member.Started()
    ensures var gap := FirstIncomplete(SeasonCache(cache, member), m);
      && (gap.None? <==> forall s :: !Lacking(cache, m, s))
      && (gap.Some? ==>
            && (exists s :: Lacking(cache, m, s) && cache.seasons[s].number == gap.value)
            && (forall s :: Lacking(cache, m, s) ==> gap.value <= cache.seasons[s].number))
  {
    var gap := FirstIncomplete(SeasonCache(cache, member), m);
    forall s | Lacking(cache, m, s) ensures gap.Some? && gap.value <= cache.seasons[s].number {
      LackingIsGap(cache, member, m, s);
    }
    if gap.Some? {
      var s := GapIsLacking(cache, member, m, gap.value);
    }
  }

  lemma LatestRow(member: Member, m: MediaId, at: Instant)
    requires m in member.Started()
    ensures LastWatched(member.history, m).Some?
    ensures at == LastWatched(member.history, m).value <==> LatestWatch(member, m, at)
  {
  }

  // ---- the theorems --------------------------------------------------------------------

  /** Before the limit, the queue holds exactly the entries of the rows. */
  lemma QueueOnRows(
      cache: Cache, clock: Clock, member: Member, specials: bool, recent: Instant, x: QueueEntry)
    requires cache.Valid()
    ensures x in Queue(cache, clock, member, specials, recent)
       <==> exists m :: NextInLine(cache, clock, member, specials, recent, m, x)
  {
    if x in Queue(cache, clock, member, specials, recent) {
      var m :| m in member.Started() && Listed(cache, clock, member, specials, m)
           && x == Entry(member, recent, m, NextOf(cache, clock, member, specials, m).value);
      QueuedIsNextInLine(cache, clock, member, specials, recent, m, x);
    }
    if m :| NextInLine(cache, clock, member, specials, recent, m, x) {
      NextInLineIsQueued(cache, clock, member, specials, recent, m, x);
    }
  }

  lemma QueuedIsNextInLine(
      cache: Cache, clock: Clock, member: Member, specials: bool, recent: Instant, m: MediaId, x: QueueEntry)
    requires cache.Valid() && m in member.Started() && Listed(cache, clock, member, specials, m)
    requires x == Entry(member, recent, m, NextOf(cache, clock, member, specials, m).value)
    ensures NextInLine(cache, clock, member, specials, recent, m, x)
  {
    NextIsFirstReady(cache, clock, member, specials, m);
    RunningShows(cache, member, m);
    FirstGap(cache, member, m);
    LatestRow(member, m, x.lastWatched);
  }

  lemma NextInLineIsQueued(
      cache: Cache, clock: Clock, member: Member, specials: bool, recent: Instant, m: MediaId, x: QueueEntry)
    requires cache.Valid() && NextInLine(cache, clock, member, specials, recent, m, x)
    ensures x in Queue(cache, clock, member, specials, recent)
  {
    FirstReadyIsNext(cache, clock, member, specials, m, x.episode);
    RunningShows(cache, member, m);
    FirstGap(cache, member, m);
    LatestRow(member, m, x.lastWatched);
    assert Listed(cache, clock, member, specials, m);
  }

  /** Before the limit, the shows awaiting catalogue are exactly those held back by the rows. */
  lemma AwaitingOnRows(cache: Cache, clock: Clock, member: Member, specials: bool, w: Waiting)
    requires cache.Valid()
    ensures w in AwaitingCatalog(cache, clock, member, specials) <==> HeldBack(cache, clock, member, specials, w)
  {
    RunningShows(cache, member, w.media);
    if w.media in member.Started() {
      FirstGap(cache, member, w.media);
      LatestRow(member, w.media, w.lastWatched);
      if Running(cache, member, w.media) {
        WithheldOnRows(cache, clock, member, specials, w.media);
      }
    }
  }

  /** A running show is withheld when its first lacking season comes no later than any ready episode. */
  lemma WithheldOnRows(cache: Cache, clock: Clock, member: Member, specials: bool, m: MediaId)
    requires cache.Valid() && Running(cache, member, m)
    ensures var gap := FirstIncomplete(SeasonCache(cache, member), m);
      Withheld(cache, clock, member, specials, m)
      <==> gap.Some? && forall e :: Ready(cache, clock, member, specials, m, e) ==> gap.value <= SeasonNumber(cache, e)
  {
    RunningShows(cache, member, m);
    var next := NextOf(cache, clock, member, specials, m);
    if next.Some? {
      NextIsFirstReady(cache, clock, member, specials, m);
      assert Ready(cache, clock, member, specials, m, next.value.id);
    } else {
      forall e ensures !Ready(cache, clock, member, specials, m, e) {
        NoNextNoReady(cache, clock, member, specials, m, e);
      }
    }
  }

  /** Planned before not planned, then watched since `recent` before dormant; among the first two the
      show watched last, among the dormant the newest episode. */
  predicate Ranks(member: Member, recent: Instant, x: QueueEntry, y: QueueEntry) {
    var xPlanned, yPlanned := x.episode in member.plans, y.episode in member.plans;
    var xDormant := !xPlanned && x.lastWatched < recent;
    var yDormant := !yPlanned && y.lastWatched < recent;
    if xPlanned != yPlanned then xPlanned
    else if xDormant != yDormant then yDormant
    else if xDormant && x.airDate != y.airDate then y.airDate < x.airDate
    else if x.lastWatched != y.lastWatched then y.lastWatched < x.lastWatched
    else y.episode < x.episode
  }

  /** The list that is returned: entries of the rows, ranked, no more than the limit, and whatever
      else the rows hold ranks after a full list. */
  lemma UpNextOnRows(
      cache: Cache, clock: Clock, member: Member, specials: bool, recent: Instant, limit: nat)
    requires cache.Valid()
    ensures var items := Items(cache, clock, member, specials, recent, limit);
      && |items| <= limit
      && (forall x :: x in items ==> exists m :: NextInLine(cache, clock, member, specials, recent, m, x))
      && (forall i, j :: 0 <= i < j < |items| ==> Ranks(member, recent, items[i], items[j]))
      && (forall m, x :: NextInLine(cache, clock, member, specials, recent, m, x) && x !in items ==>
            |items| == limit && forall y :: y in items ==> Ranks(member, recent, y, x))
  {
    QueueOrderTotal();
    var items := Items(cache, clock, member, specials, recent, limit);
    forall x | x in items ensures exists m :: NextInLine(cache, clock, member, specials, recent, m, x) {
      ItemQueued(cache, clock, member, specials, recent, limit, x);
      QueueOnRows(cache, clock, member, specials, recent, x);
    }
    forall i, j | 0 <= i < j < |items| ensures Ranks(member, recent, items[i], items[j]) {
      ItemQueued(cache, clock, member, specials, recent, limit, items[i]);
      ItemQueued(cache, clock, member, specials, recent, limit, items[j]);
      QueueRanks(cache, clock, member, specials, recent, items[i], items[j]);
    }
    forall m, x | NextInLine(cache, clock, member, specials, recent, m, x) && x !in items
      ensures |items| == limit && forall y :: y in items ==> Ranks(member, recent, y, x)
    {
      QueueOnRows(cache, clock, member, specials, recent, x);
      LimitKeepsTheFirst(cache, clock, member, specials, recent, limit, x);
      forall y | y in items ensures Ranks(member, recent, y, x) {
        ItemQueued(cache, clock, member, specials, recent, limit, y);
        QueueRanks(cache, clock, member, specials, recent, y, x);
      }
    }
  }

  lemma QueueRanks(
      cache: Cache, clock: Clock, member: Member, specials: bool, recent: Instant, x: QueueEntry, y: QueueEntry)
    requires x in Queue(cache, clock, member, specials, recent) && y in Queue(cache, clock, member, specials, recent)
    requires QueueBefore(x, y)
    ensures Ranks(member, recent, x, y)
  {
  }

  /** The waiting list that is returned: shows held back by the rows, the one watched last first. */
  lemma AwaitingItemsOnRows(cache: Cache, clock: Clock, member: Member, specials: bool, limit: nat)
    requires cache.Valid()
    ensures var items := AwaitingItems(cache, clock, member, specials, limit);
      && |items| <= limit
      && (forall w :: w in items ==> HeldBack(cache, clock, member, specials, w))
      && (forall i, j :: 0 <= i < j < |items| ==>
            && items[i].lastWatched >= items[j].lastWatched
            && (items[i].lastWatched == items[j].lastWatched ==> items[i].media < items[j].media))
      && (forall w :: HeldBack(cache, clock, member, specials, w) && w !in items ==>
            |items| == limit && forall v :: v in items ==> v.lastWatched >= w.lastWatched)
  {
    WaitingOrderTotal();
    var items := AwaitingItems(cache, clock, member, specials, limit);
    forall w | w in items ensures HeldBack(cache, clock, member, specials, w) {
      AwaitingItem(cache, clock, member, specials, limit, w);
      AwaitingOnRows(cache, clock, member, specials, w);
    }
    forall i, j | 0 <= i < j < |items| ensures items[i].lastWatched >= items[j].lastWatched
        && (items[i].lastWatched == items[j].lastWatched ==> items[i].media < items[j].media)
    {
      assert WaitingBefore(items[i], items[j]);
      if items[i].media == items[j].media {
        AwaitingOnce(cache, clock, member, specials, items[i], items[j]);
      }
    }
    forall w | HeldBack(cache, clock, member, specials, w) && w !in items
      ensures |items| == limit && forall v :: v in items ==> v.lastWatched >= w.lastWatched
    {
      AwaitingOnRows(cache, clock, member, specials, w);
      WaitingLimitKeepsTheLatest(cache, clock, member, specials, limit, w);
    }
  }

  lemma AwaitingItem(cache: Cache, clock: Clock, member: Member, specials: bool, limit: nat, w: Waiting)
    requires w in AwaitingItems(cache, clock, member, specials, limit)
    ensures w in AwaitingCatalog(cache, clock, member, specials)
  {
    WaitingOrderTotal();
    var all := Listing(WaitingBefore, AwaitingCatalog(cache, clock, member, specials));
    assert w in all && w in Elements(all);
  }

  /** A show waits once. */
  lemma AwaitingOnce(cache: Cache, clock: Clock, member: Member, specials: bool, v: Waiting, w: Waiting)
    requires cache.Valid() && v.media == w.media
    requires HeldBack(cache, clock, member, specials, v) && HeldBack(cache, clock, member, specials, w)
    ensures v == w
  {
  }

  /** A show that is not tracked, or was dropped, or is no series, or was never watched, is in
      neither list. */
  lemma OnlyRunningShows(
      cache: Cache, clock: Clock, member: Member, specials: bool, recent: Instant, limit: nat, m: MediaId)
    requires cache.Valid()
    requires || m !in member.tracked || member.tracked[m] == Dropped
             || (m in cache.media && cache.media[m].kind != Tv)
             || !(exists r :: r in member.history && r.media == m)
    ensures forall x :: x in Items(cache, clock, member, specials, recent, limit) ==>
      x.episode in cache.episodes && cache.seasons[cache.episodes[x.episode].season].media != m
    ensures forall w :: w in AwaitingItems(cache, clock, member, specials, limit) ==> w.media != m
  {
    UpNextOnRows(cache, clock, member, specials, recent, limit);
    AwaitingItemsOnRows(cache, clock, member, specials, limit);
    forall x | x in Items(cache, clock, member, specials, recent, limit)
      ensures x.episode in cache.episodes && cache.seasons[cache.episodes[x.episode].season].media != m
    {
      var n :| NextInLine(cache, clock, member, specials, recent, n, x);
    }
  }
}
