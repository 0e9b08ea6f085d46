/** The tables the viewing routes read: the catalogue cache, which is filled lazily from the
    provider, and the rows of one member. Every query filters on the member, so a member's
    rows are modelled on their own. */
module Catalogue {
  import opened Orders
  import opened Uuids

  type MediaId = Uuid
  type SeasonId = Uuid
  type EpisodeId = Uuid
  type Date = int
  type Instant = int

  datatype MediaKind = Tv | Movie

  datatype Media = Media(kind: MediaKind, title: string, releaseDate: Option<Date>)

  datatype Season = Season(media: MediaId, number: nat, episodeCount: Option<nat>)

  datatype Episode = Episode(season: SeasonId, number: nat, airDate: Option<Date>)

  datatype Status = Watching | Completed | PlanToWatch | Dropped | OnHold

  datatype HistoryRow = HistoryRow(media: MediaId, episode: Option<EpisodeId>, watchedAt: Instant)

  /** `episode_has_aired` for a dated episode, at the instant of the query. */
  type Clock = (MediaId, Date) -> bool

  predicate HasAired(clock: Clock, media: MediaId, airDate: Option<Date>) {
    airDate.None? || clock(media, airDate.value)
  }

  datatype Cache = Cache(
      media: map<MediaId, Media>, seasons: map<SeasonId, Season>, episodes: map<EpisodeId, Episode>) {

    /** Foreign keys, UNIQUE(media_id, season_number) and UNIQUE(season_id, episode_number). */
    ghost predicate Valid() {
      && (forall s :: s in seasons ==> seasons[s].media in media)
      && (forall e :: e in episodes ==> episodes[e].season in seasons)
      && (forall s, t ::
            (s in seasons && t in seasons
             && seasons[s].media == seasons[t].media && seasons[s].number == seasons[t].number) ==> s == t)
      && (forall e, f ::
            (e in episodes && f in episodes
             && episodes[e].season == episodes[f].season && episodes[e].number == episodes[f].number) ==> e == f)
    }

    function SeasonOf(e: EpisodeId): Season
      requires e in episodes && episodes[e].season in seasons
    {
      seasons[episodes[e].season]
    }

    predicate IsEpisodeOf(e: EpisodeId, m: MediaId) {
      e in episodes && episodes[e].season in seasons && SeasonOf(e).media == m
    }

    predicate Aired(clock: Clock, e: EpisodeId)
      requires e in episodes && episodes[e].season in seasons
    {
      HasAired(clock, SeasonOf(e).media, episodes[e].airDate)
    }
  }

  datatype Member = Member(tracked: map<MediaId, Status>, plans: set<EpisodeId>, history: seq<HistoryRow>) {

    /** The materialised `watched` set. */
    function Watched(): set<EpisodeId> {
      set r | r in history && r.episode.Some? :: r.episode.value
    }

    /** A correlated EXISTS on `watch_history`. */
    predicate HasWatched(e: EpisodeId) {
      exists r :: r in history && r.episode == Some(e)
    }

    function Started(): set<MediaId> {
      set r | r in history :: r.media
    }

    predicate Follows(m: MediaId) {
      m in tracked && tracked[m] != Dropped
    }
  }

  /** MAX(watched_at) of a show. */
  function LastWatched(history: seq<HistoryRow>, m: MediaId): (r: Option<Instant>)
    ensures r.Some? <==> exists row :: row in history && row.media == m
    ensures r.Some? ==> forall row :: row in history && row.media == m ==> row.watchedAt <= r.value
    ensures r.Some? ==> exists row :: row in history && row.media == m && row.watchedAt == r.value
  {
    if history == [] then None
    else
      var init := history[..|history| - 1];
      var last := history[|history| - 1];
      assert history == init + [last];
      var earlier := LastWatched(init, m);
      if last.media != m then earlier
      else if earlier.Some? && earlier.value >= last.watchedAt then earlier
      else Some(last.watchedAt)
  }
}
