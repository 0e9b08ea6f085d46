/** "Up next": one next episode per started show, named only when the lazily filled cache
    cannot be hiding an earlier one, and otherwise reported as awaiting catalogue. */
module UpNext {
  import opened Orders
  import opened Catalogue

  // ---- season_cache and first_incomplete ---------------------------------------------

  datatype SeasonRow = SeasonRow(media: MediaId, number: nat, episodeCount: Option<nat>, cachedCount: nat)

  ghost function CachedEpisodes(cache: Cache, s: SeasonId): set<EpisodeId> {
    set e | e in cache.episodes && cache.episodes[e].season == s
  }

  /** `progress`: grouped, so one row per started show. */
  ghost function Progress(member: Member): set<(MediaId, Option<Instant>)> {
    set m | m in member.Started() :: (m, LastWatched(member.history, m))
  }

  /** The rows of a season after `JOIN progress` and the join with `episodes`. */
  ghost function JoinedRows(cache: Cache, member: Member, s: SeasonId): set<((MediaId, Option<Instant>), EpisodeId)>
    requires s in cache.seasons
  {
    set p, e | p in Progress(member) && p.0 == cache.seasons[s].media && e in CachedEpisodes(cache, s) :: (p, e)
  }

  /** `season_cache` as the query has it: only the seasons of started shows. */
  ghost function SeasonCache(cache: Cache, member: Member): set<SeasonRow> {
    set s | s in cache.seasons && cache.seasons[s].media in member.Started() ::
      SeasonRow(cache.seasons[s].media, cache.seasons[s].number, cache.seasons[s].episodeCount,
                |JoinedRows(cache, member, s)|)
  }

  /** The aggregate it replaced: every season of the catalogue. */
  ghost function FullSeasonCache(cache: Cache): set<SeasonRow> {
    set s | s in cache.seasons ::
      SeasonRow(cache.seasons[s].media, cache.seasons[s].number, cache.seasons[s].episodeCount,
                |CachedEpisodes(cache, s)|)
  }

  predicate Incomplete(row: SeasonRow) {
    || (row.episodeCount.None? && row.cachedCount == 0)
    || (row.episodeCount.Some? && row.cachedCount < row.episodeCount.value)
  }

  ghost function Gaps(rows: set<SeasonRow>, m: MediaId): set<nat> {
    set row | row in rows && row.media == m && row.number > 0 && Incomplete(row) :: row.number
  }

  predicate Less(a: nat, b: nat) { a < b }

  ghost function FirstIncomplete(rows: set<SeasonRow>, m: MediaId): Option<nat> {
    var gaps := Gaps(rows, m);
    if gaps == {} then None else Some(Least(Less, gaps))
  }

  // ---- next_ids ----------------------------------------------------------------------

  datatype Position = Position(season: nat, number: nat, airDate: Date, id: EpisodeId)

  predicate PositionBefore(a: Position, b: Position) {
    if a.season != b.season then a.season < b.season
    else if a.number != b.number then a.number < b.number
    else if a.airDate != b.airDate then a.airDate < b.airDate
    else a.id < b.id
  }

  ghost predicate Considered(cache: Cache, member: Member, m: MediaId) {
    && member.Follows(m)
    && m in cache.media && cache.media[m].kind == Tv
    && m in member.Started()
  }

  /** The unwatched episodes of a show that `next_ids` chooses from; `watched` is the set the
      anti-join excludes. */
  ghost function Candidates(
      cache: Cache, clock: Clock, watched: set<EpisodeId>, specials: bool, m: MediaId): set<Position> {
    set e | e in cache.episodes
         && cache.IsEpisodeOf(e, m)
         && cache.episodes[e].airDate.Some?
         && cache.Aired(clock, e)
         && (specials || cache.SeasonOf(e).number > 0)
         && e !in watched ::
      Position(cache.SeasonOf(e).number, cache.episodes[e].number, cache.episodes[e].airDate.value, e)
  }

  ghost function NextOf(cache: Cache, clock: Clock, member: Member, specials: bool, m: MediaId): Option<Position> {
    var candidates := Candidates(cache, clock, member.Watched(), specials, m);
    if Considered(cache, member, m) && candidates != {} then Some(Least(PositionBefore, candidates)) else None
  }

  // ---- withheld, prioritized, selected -----------------------------------------------

  ghost predicate WithheldBy(
      rows: set<SeasonRow>, cache: Cache, clock: Clock, member: Member, specials: bool, m: MediaId) {
    && Considered(cache, member, m)
    && FirstIncomplete(rows, m).Some?
    && var next := NextOf(cache, clock, member, specials, m);
       next.None? || FirstIncomplete(rows, m).value <= next.value.season
  }

  ghost predicate Withheld(cache: Cache, clock: Clock, member: Member, specials: bool, m: MediaId) {
    WithheldBy(SeasonCache(cache, member), cache, clock, member, specials, m)
  }

  datatype QueueEntry = QueueEntry(priority: nat, lastWatched: Instant, airDate: Date, episode: EpisodeId)

  predicate QueueBefore(a: QueueEntry, b: QueueEntry) {
    if a.priority != b.priority then a.priority < b.priority
    else if a.priority < 2 then
      if a.lastWatched != b.lastWatched then a.lastWatched > b.lastWatched
      else if a.episode != b.episode then a.episode > b.episode
      else a.airDate > b.airDate
    else if a.airDate != b.airDate then a.airDate > b.airDate
    else if a.lastWatched != b.lastWatched then a.lastWatched > b.lastWatched
    else a.episode > b.episode
  }

  /** Planned first, then what was watched since `recent`, then the dormant shows. */
  ghost function Entry(member: Member, recent: Instant, m: MediaId, next: Position): QueueEntry
    requires m in member.Started()
  {
    var last := LastWatched(member.history, m).value;
    QueueEntry(if next.id in member.plans then 0 else if last >= recent then 1 else 2, last, next.airDate, next.id)
  }

  ghost predicate Listed(cache: Cache, clock: Clock, member: Member, specials: bool, m: MediaId) {
    NextOf(cache, clock, member, specials, m).Some? && !Withheld(cache, clock, member, specials, m)
  }

  ghost function Queue(cache: Cache, clock: Clock, member: Member, specials: bool, recent: Instant): set<QueueEntry> {
    set m | m in member.Started() && Listed(cache, clock, member, specials, m) ::
      Entry(member, recent, m, NextOf(cache, clock, member, specials, m).value)
  }

  /** A withheld show, when it was last watched, and the first season the cache lacks. */
  datatype Waiting = Waiting(lastWatched: Instant, media: MediaId, missing: nat)

  predicate WaitingBefore(a: Waiting, b: Waiting) {
    if a.lastWatched != b.lastWatched then a.lastWatched > b.lastWatched
    else if a.media != b.media then a.media < b.media
    else a.missing < b.missing
  }

  ghost function AwaitingCatalog(cache: Cache, clock: Clock, member: Member, specials: bool): set<Waiting> {
    set m | m in member.Started() && Withheld(cache, clock, member, specials, m) ::
      Waiting(LastWatched(member.history, m).value, m, FirstIncomplete(SeasonCache(cache, member), m).value)
  }

  ghost function Limit<T>(s: seq<T>, limit: nat): seq<T> {
    if |s| <= limit then s else s[..limit]
  }

  ghost function Items(
      cache: Cache, clock: Clock, member: Member, specials: bool, recent: Instant, limit: nat): seq<QueueEntry> {
    Limit(Listing(QueueBefore, Queue(cache, clock, member, specials, recent)), limit)
  }

  ghost function AwaitingItems(cache: Cache, clock: Clock, member: Member, specials: bool, limit: nat): seq<Waiting> {
    Limit(Listing(WaitingBefore, AwaitingCatalog(cache, clock, member, specials)), limit)
  }

  // ---- the true catalogue --------------------------------------------------------------

  datatype TrueEpisode = TrueEpisode(media: MediaId, season: nat, number: nat, airDate: Option<Date>)

  ghost function TrueOf(cache: Cache, e: EpisodeId): TrueEpisode
    requires e in cache.episodes && cache.episodes[e].season in cache.seasons
  {
    TrueEpisode(cache.SeasonOf(e).media, cache.SeasonOf(e).number, cache.episodes[e].number, cache.episodes[e].airDate)
  }

  ghost function TrueSeason(truth: set<TrueEpisode>, m: MediaId, number: nat): set<TrueEpisode> {
    set t | t in truth && t.media == m && t.season == number
  }

  ghost function CachedTruth(cache: Cache, s: SeasonId): set<TrueEpisode>
    requires cache.Valid()
  {
    set e | e in CachedEpisodes(cache, s) :: TrueOf(cache, e)
  }

  /** What the provider guarantees: cached episodes are true ones, a given episode count is the
      true count, and a season of unknown count that holds rows holds all of them. */
  ghost predicate Reflects(cache: Cache, truth: set<TrueEpisode>)
    requires cache.Valid()
  {
    && (forall e :: e in cache.episodes ==> TrueOf(cache, e) in truth)
    && (forall s :: s in cache.seasons && cache.seasons[s].number > 0 ==>
          var all := TrueSeason(truth, cache.seasons[s].media, cache.seasons[s].number);
          if cache.seasons[s].episodeCount.Some? then cache.seasons[s].episodeCount.value == |all|
          else CachedEpisodes(cache, s) != {} ==> all <= CachedTruth(cache, s))
  }

  /** Every season of the show up to `last` that has an episode also has its row. */
  ghost predicate SeasonsKnown(cache: Cache, truth: set<TrueEpisode>, m: MediaId, last: nat) {
    forall t :: t in truth && t.media == m && 0 < t.season <= last ==>
      exists s :: s in cache.seasons && cache.seasons[s].media == m && cache.seasons[s].number == t.season
  }

  /** A non-special episode the member could watch now: dated, aired and not watched. */
  ghost predicate Pending(cache: Cache, clock: Clock, member: Member, truth: set<TrueEpisode>, t: TrueEpisode)
    requires cache.Valid()
  {
    && t in truth && t.season > 0
    && t.airDate.Some? && HasAired(clock, t.media, t.airDate)
    && !exists e :: e in cache.episodes && TrueOf(cache, e) == t && e in member.Watched()
  }

  ghost predicate Earlier(t: TrueEpisode, season: nat, number: nat) {
    t.season < season || (t.season == season && t.number < number)
  }

  // ---- the query rewrite ---------------------------------------------------------------

  /** `progress` holds one row per show, so the join multiplies no rows. */
  lemma JoinKeepsCount(cache: Cache, member: Member, s: SeasonId)
    requires s in cache.seasons && cache.seasons[s].media in member.Started()
    ensures |JoinedRows(cache, member, s)| == |CachedEpisodes(cache, s)|
  {
    var m := cache.seasons[s].media;
    var p := (m, LastWatched(member.history, m));
    var pair := (e: EpisodeId) => (p, e);
    assert p in Progress(member);
    ImageSize(CachedEpisodes(cache, s), pair, JoinedRows(cache, member, s));
  }

  /** Restricting `season_cache` to started shows leaves every gap of such a show in place. */
  lemma JoinKeepsGaps(cache: Cache, member: Member, m: MediaId)
    requires m in member.Started()
    ensures Gaps(SeasonCache(cache, member), m) == Gaps(FullSeasonCache(cache), m)
  {
    forall s | s in cache.seasons && cache.seasons[s].media == m
      ensures |JoinedRows(cache, member, s)| == |CachedEpisodes(cache, s)|
    {
      JoinKeepsCount(cache, member, s);
    }
  }

  /** Both rewrites leave the answer alone: the withheld shows are those of the full
      aggregate, and the materialised anti-join excludes what the correlated one did. */
  lemma RewritePreserved(cache: Cache, clock: Clock, member: Member, specials: bool, m: MediaId)
    ensures Withheld(cache, clock, member, specials, m)
       <==> WithheldBy(FullSeasonCache(cache), cache, clock, member, specials, m)
    ensures Candidates(cache, clock, member.Watched(), specials, m)
         == Candidates(cache, clock, (set e | e in cache.episodes && member.HasWatched(e)), specials, m)
  {
    if m in member.Started() {
      JoinKeepsGaps(cache, member, m);
    }
    forall e | e in cache.episodes ensures e in member.Watched() <==> member.HasWatched(e) {
      if e in member.Watched() {
        var r :| r in member.history && r.episode.Some? && r.episode.value == e;
      }
    }
  }

  // ---- soundness and completeness ------------------------------------------------------

  /** Distinct cached rows are distinct true episodes. */
  lemma CachedTruthSize(cache: Cache, s: SeasonId)
    requires cache.Valid() && s in cache.seasons
    ensures |CachedTruth(cache, s)| == |CachedEpisodes(cache, s)|
  {
    var view := (e: EpisodeId) => if e in cache.episodes then TrueOf(cache, e) else TrueEpisode(0, 0, 0, None);
    ImageSize(CachedEpisodes(cache, s), view, CachedTruth(cache, s));
  }

  /** A season that passes the completeness test is held in full. */
  lemma CompleteSeasonHeld(cache: Cache, member: Member, truth: set<TrueEpisode>, s: SeasonId)
    requires cache.Valid() && Reflects(cache, truth)
    requires s in cache.seasons && cache.seasons[s].number > 0 && cache.seasons[s].media in member.Started()
    requires cache.seasons[s].number !in Gaps(SeasonCache(cache, member), cache.seasons[s].media)
    ensures TrueSeason(truth, cache.seasons[s].media, cache.seasons[s].number) <= CachedTruth(cache, s)
  {
    var season := cache.seasons[s];
    var all := TrueSeason(truth, season.media, season.number);
    assert season.episodeCount.None? ==> CachedEpisodes(cache, s) != {} by {
      NotIncomplete(cache, member, s);
    }
    if season.episodeCount.Some? {
      assert |all| <= |CachedTruth(cache, s)| by {
        NotIncomplete(cache, member, s);
        CachedTruthSize(cache, s);
      }
      assert CachedTruth(cache, s) <= all;
      SubsetBySize(CachedTruth(cache, s), all);
    }
  }

  lemma NotIncomplete(cache: Cache, member: Member, s: SeasonId)
    requires s in cache.seasons && cache.seasons[s].number > 0 && cache.seasons[s].media in member.Started()
    requires cache.seasons[s].number !in Gaps(SeasonCache(cache, member), cache.seasons[s].media)
    ensures var season := cache.seasons[s];
      !Incomplete(SeasonRow(season.media, season.number, season.episodeCount, |CachedEpisodes(cache, s)|))
  {
    var season := cache.seasons[s];
    JoinKeepsCount(cache, member, s);
    var row := SeasonRow(season.media, season.number, season.episodeCount, |JoinedRows(cache, member, s)|);
    assert row in SeasonCache(cache, member);
  }

  /** With no gap at or before its season, a pending episode is in the cache and is a candidate. */
  lemma PendingIsCandidate(
      cache: Cache, clock: Clock, member: Member, truth: set<TrueEpisode>, t: TrueEpisode, last: nat)
      returns (p: Position)
    requires cache.Valid() && Reflects(cache, truth)
    requires t.media in member.Started() && Pending(cache, clock, member, truth, t) && t.season <= last
    requires SeasonsKnown(cache, truth, t.media, last)
    requires t.season !in Gaps(SeasonCache(cache, member), t.media)
    ensures p in Candidates(cache, clock, member.Watched(), false, t.media)
    ensures p.season == t.season && p.number == t.number
  {
    var s :| s in cache.seasons && cache.seasons[s].media == t.media && cache.seasons[s].number == t.season;
    CompleteSeasonHeld(cache, member, truth, s);
    assert t in TrueSeason(truth, t.media, t.season);
    var e := CachedAs(cache, s, t);
    p := Position(t.season, t.number, t.airDate.value, e);
  }

  lemma CachedAs(cache: Cache, s: SeasonId, t: TrueEpisode) returns (e: EpisodeId)
    requires cache.Valid() && t in CachedTruth(cache, s)
    ensures e in cache.episodes && cache.episodes[e].season == s && TrueOf(cache, e) == t
  {
    e :| e in CachedEpisodes(cache, s) && TrueOf(cache, e) == t;
  }

  /** Soundness: whatever is still missing from the cache, no episode of the show that the
      member could watch now comes before the one that is named. */
  lemma NothingEarlierIsPending(
      cache: Cache, clock: Clock, member: Member, truth: set<TrueEpisode>, m: MediaId, t: TrueEpisode)
    requires cache.Valid() && Reflects(cache, truth)
    requires Listed(cache, clock, member, false, m)
    requires SeasonsKnown(cache, truth, m, NextOf(cache, clock, member, false, m).value.season)
    requires t.media == m && Pending(cache, clock, member, truth, t)
    ensures var next := NextOf(cache, clock, member, false, m).value; !Earlier(t, next.season, next.number)
  {
    var next := NextOf(cache, clock, member, false, m).value;
    if Earlier(t, next.season, next.number) {
      GapsComeLater(cache, clock, member, m, t.season);
      var p := PendingIsCandidate(cache, clock, member, truth, t, next.season);
      assert PositionBefore(p, next);
    }
  }

  /** A listed show has no gap at or before the season of the episode it names. */
  lemma GapsComeLater(cache: Cache, clock: Clock, member: Member, m: MediaId, number: nat)
    requires Listed(cache, clock, member, false, m)
    requires number <= NextOf(cache, clock, member, false, m).value.season
    ensures number !in Gaps(SeasonCache(cache, member), m)
  {
  }

  /** The episode that is named is itself pending in the true catalogue. */
  lemma NamedIsPending(cache: Cache, clock: Clock, member: Member, truth: set<TrueEpisode>, m: MediaId)
    requires cache.Valid() && Reflects(cache, truth)
    requires NextOf(cache, clock, member, false, m).Some?
    ensures var next := NextOf(cache, clock, member, false, m).value;
      next.id in cache.episodes && Pending(cache, clock, member, truth, TrueOf(cache, next.id))
  {
    var next := NextOf(cache, clock, member, false, m).value;
    assert next in Candidates(cache, clock, member.Watched(), false, m);
    forall e | e in cache.episodes && TrueOf(cache, e) == TrueOf(cache, next.id) ensures e == next.id {
      assert cache.episodes[e].season == cache.episodes[next.id].season;
    }
  }

  /** Every item of the response is of a series that is tracked, not dropped and started, and names
      exactly the first true episode that is pending for it, as long as the rows of the seasons up
      to it are present. */
  lemma UpNextSound(
      cache: Cache, clock: Clock, member: Member, truth: set<TrueEpisode>, recent: Instant, limit: nat, x: QueueEntry)
    requires cache.Valid() && Reflects(cache, truth)
    requires x in Items(cache, clock, member, false, recent, limit)
    requires x.episode in cache.episodes ==>
      SeasonsKnown(cache, truth, cache.SeasonOf(x.episode).media, cache.SeasonOf(x.episode).number)
    ensures x.episode in cache.episodes
    ensures var m := cache.SeasonOf(x.episode).media;
      && m in member.tracked && member.tracked[m] != Dropped && cache.media[m].kind == Tv
      && exists r :: r in member.history && r.media == m
    ensures var named := TrueOf(cache, x.episode);
      && Pending(cache, clock, member, truth, named)
      && forall t :: Pending(cache, clock, member, truth, t) && t.media == named.media ==>
           !Earlier(t, named.season, named.number)
  {
    var m := ItemShow(cache, clock, member, false, recent, limit, x);
    NamedIsPending(cache, clock, member, truth, m);
    var named := TrueOf(cache, x.episode);
    forall t | Pending(cache, clock, member, truth, t) && t.media == named.media
      ensures !Earlier(t, named.season, named.number)
    {
      NothingEarlierIsPending(cache, clock, member, truth, m, t);
    }
  }

  /** What is named is an episode of its show, at the place it is named for. */
  lemma NextIsEpisode(cache: Cache, clock: Clock, member: Member, specials: bool, m: MediaId)
    requires NextOf(cache, clock, member, specials, m).Some?
    ensures var next := NextOf(cache, clock, member, specials, m).value;
      && cache.IsEpisodeOf(next.id, m)
      && cache.SeasonOf(next.id).number == next.season && cache.episodes[next.id].number == next.number
  {
    assert NextOf(cache, clock, member, specials, m).value in Candidates(cache, clock, member.Watched(), specials, m);
  }

  lemma ItemQueued(
      cache: Cache, clock: Clock, member: Member, specials: bool, recent: Instant, limit: nat, x: QueueEntry)
    requires x in Items(cache, clock, member, specials, recent, limit)
    ensures x in Queue(cache, clock, member, specials, recent)
  {
    QueueOrderTotal();
    var all := Listing(QueueBefore, Queue(cache, clock, member, specials, recent));
    assert x in all && x in Elements(all);
  }

  /** An item stands for a listed show, and names that show's candidate. */
  lemma ItemShow(
      cache: Cache, clock: Clock, member: Member, specials: bool, recent: Instant, limit: nat, x: QueueEntry)
      returns (m: MediaId)
    requires x in Items(cache, clock, member, specials, recent, limit)
    ensures Listed(cache, clock, member, specials, m)
    ensures NextOf(cache, clock, member, specials, m).value.id == x.episode
    ensures cache.IsEpisodeOf(x.episode, m)
    ensures cache.SeasonOf(x.episode).number == NextOf(cache, clock, member, specials, m).value.season
    ensures cache.episodes[x.episode].number == NextOf(cache, clock, member, specials, m).value.number
  {
    ItemQueued(cache, clock, member, specials, recent, limit, x);
    m :| m in member.Started() && Listed(cache, clock, member, specials, m)
         && x == Entry(member, recent, m, NextOf(cache, clock, member, specials, m).value);
    NextIsEpisode(cache, clock, member, specials, m);
  }

  /** An entry of the queue is the candidate of a listed show, and an episode of that show. */
  lemma EntryShow(
      cache: Cache, clock: Clock, member: Member, specials: bool, recent: Instant, x: QueueEntry, m: MediaId)
    requires x in Queue(cache, clock, member, specials, recent) && cache.IsEpisodeOf(x.episode, m)
    ensures Listed(cache, clock, member, specials, m)
  {
    var n :| n in member.Started() && Listed(cache, clock, member, specials, n)
         && x == Entry(member, recent, n, NextOf(cache, clock, member, specials, n).value);
    NextIsEpisode(cache, clock, member, specials, n);
  }

  lemma ListedHasEntry(
      cache: Cache, clock: Clock, member: Member, specials: bool, recent: Instant, m: MediaId) returns (x: QueueEntry)
    requires Listed(cache, clock, member, specials, m)
    ensures x in Queue(cache, clock, member, specials, recent) && cache.IsEpisodeOf(x.episode, m)
  {
    var next := NextOf(cache, clock, member, specials, m).value;
    NextIsEpisode(cache, clock, member, specials, m);
    x := Entry(member, recent, m, next);
  }

  /** A show with a pending episode has a candidate or a gap that withholds it. */
  lemma PendingShowHandled(cache: Cache, clock: Clock, member: Member, truth: set<TrueEpisode>, t: TrueEpisode)
    requires cache.Valid() && Reflects(cache, truth)
    requires Considered(cache, member, t.media) && Pending(cache, clock, member, truth, t)
    requires SeasonsKnown(cache, truth, t.media, t.season)
    ensures Listed(cache, clock, member, false, t.media) || Withheld(cache, clock, member, false, t.media)
  {
    if t.season !in Gaps(SeasonCache(cache, member), t.media) {
      var p := PendingIsCandidate(cache, clock, member, truth, t, t.season);
    }
  }

  /** Before the limit is applied, a show with a pending episode is in exactly one of the two
      lists: the queue, or the shows awaiting catalogue. */
  lemma UpNextCovers(
      cache: Cache, clock: Clock, member: Member, truth: set<TrueEpisode>, recent: Instant, t: TrueEpisode)
    requires cache.Valid() && Reflects(cache, truth)
    requires t.media in member.tracked && member.tracked[t.media] != Dropped
    requires t.media in cache.media && cache.media[t.media].kind == Tv
    requires exists r :: r in member.history && r.media == t.media
    requires Pending(cache, clock, member, truth, t) && SeasonsKnown(cache, truth, t.media, t.season)
    ensures (exists x :: x in Queue(cache, clock, member, false, recent) && cache.IsEpisodeOf(x.episode, t.media))
       <==> !(exists w :: w in AwaitingCatalog(cache, clock, member, false) && w.media == t.media)
  {
    var m := t.media;
    PendingShowHandled(cache, clock, member, truth, t);
    forall x | x in Queue(cache, clock, member, false, recent) && cache.IsEpisodeOf(x.episode, m)
      ensures Listed(cache, clock, member, false, m)
    {
      EntryShow(cache, clock, member, false, recent, x, m);
    }
    if Withheld(cache, clock, member, false, m) {
      assert Waiting(LastWatched(member.history, m).value, m, FirstIncomplete(SeasonCache(cache, member), m).value)
          in AwaitingCatalog(cache, clock, member, false);
    } else {
      var x := ListedHasEntry(cache, clock, member, false, recent, m);
    }
  }

  /** A limited listing keeps rows, as many as the limit, that come before what it drops. */
  lemma LimitCuts<T(!new)>(lt: (T, T) -> bool, rows: set<T>, limit: nat, x: T)
    requires StrictTotal(lt) && x in rows && x !in Limit(Listing(lt, rows), limit)
    ensures var items := Limit(Listing(lt, rows), limit);
      |items| == limit && forall y :: y in items ==> y in rows && lt(y, x)
  {
    var all := Listing(lt, rows);
    assert x in Elements(all);
    if |all| > limit { PrefixComesFirst(lt, all, limit, x); }
    forall y | y in Limit(all, limit) ensures y in rows {
      assert y in all && y in Elements(all);
    }
  }

  lemma QueueOrderTotal()
    ensures StrictTotal(QueueBefore)
  {
  }

  /** The limit drops only shows that rank after every show it keeps; in particular it drops no
      planned episode for one that is not. */
  lemma LimitKeepsTheFirst(
      cache: Cache, clock: Clock, member: Member, specials: bool, recent: Instant, limit: nat, x: QueueEntry)
    requires x in Queue(cache, clock, member, specials, recent)
    requires x !in Items(cache, clock, member, specials, recent, limit)
    ensures var items := Items(cache, clock, member, specials, recent, limit);
      && |items| == limit
      && (forall y :: y in items ==> QueueBefore(y, x))
      && (x.episode in member.plans ==> forall y :: y in items ==> y.episode in member.plans)
  {
    QueueOrderTotal();
    LimitCuts(QueueBefore, Queue(cache, clock, member, specials, recent), limit, x);
    forall y | y in Items(cache, clock, member, specials, recent, limit) && x.episode in member.plans
      ensures y.episode in member.plans
    {
      PlannedRanksFirst(cache, clock, member, specials, recent, y, x);
    }
  }

  lemma PlannedRanksFirst(
      cache: Cache, clock: Clock, member: Member, specials: bool, recent: Instant, y: QueueEntry, x: QueueEntry)
    requires y in Queue(cache, clock, member, specials, recent) && x in Queue(cache, clock, member, specials, recent)
    requires QueueBefore(y, x) && x.episode in member.plans
    ensures y.episode in member.plans
  {
  }

  /** The waiting list keeps the shows watched last. */
  lemma WaitingLimitKeepsTheLatest(
      cache: Cache, clock: Clock, member: Member, specials: bool, limit: nat, x: Waiting)
    requires x in AwaitingCatalog(cache, clock, member, specials)
    requires x !in AwaitingItems(cache, clock, member, specials, limit)
    ensures var items := AwaitingItems(cache, clock, member, specials, limit);
      |items| == limit && forall y :: y in items ==> WaitingBefore(y, x)
  {
    WaitingOrderTotal();
    LimitCuts(WaitingBefore, AwaitingCatalog(cache, clock, member, specials), limit, x);
  }

  lemma WaitingOrderTotal()
    ensures StrictTotal(WaitingBefore)
  {
  }
}
