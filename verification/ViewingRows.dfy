/** Every viewing request in full, said of the rows it finds: when it is accepted, which refusal comes
    first, and exactly which rows it leaves. The bulk requests are in `BulkRequests`. */
module ViewingRows {
  import opened Orders
  import opened Catalogue
  import opened WatchHandlers
  import opened WatchProgress

  // ---- the rows ------------------------------------------------------------------------

  /** A cached episode of a series the member tracks and has not dropped. */
  ghost predicate Tracked(world: World, member: Member, e: EpisodeId)
    requires world.cache.Valid()
  {
    && e in world.cache.episodes
    && var m := ShowOf(world, e);
       world.cache.media[m].kind == Tv && m in member.tracked
       && member.tracked[m] in {Watching, Completed, PlanToWatch, OnHold}
  }

  function ShowOf(world: World, e: EpisodeId): MediaId
    requires e in world.cache.episodes && world.cache.episodes[e].season in world.cache.seasons
  {
    world.cache.seasons[world.cache.episodes[e].season].media
  }

  ghost predicate Seen(member: Member, m: MediaId, e: EpisodeId) {
    exists r :: r in member.history && r.episode == Some(e) && r.media == m
  }

  /** The title's tracking after a watch: completed stays, anything else becomes or stays watching. */
  function Watched(tracked: map<MediaId, Status>, m: MediaId): map<MediaId, Status> {
    tracked[m := if m in tracked && tracked[m].Completed? then Completed else Watching]
  }

  predicate TitlesLeft(member: Member, m: MediaId) {
    |member.tracked| < 10_000 || (|member.tracked| == 10_000 && m in member.tracked)
  }

  /** One more row, and no plan of its episode. */
  function Logged(member: Member, tracked: map<MediaId, Status>, row: HistoryRow): Member {
    Member(tracked, if row.episode.Some? then member.plans - {row.episode.value} else member.plans,
           member.history + [row])
  }

  // ---- the requests --------------------------------------------------------------------

  lemma PlanOnRows(world: World, e: EpisodeId, now: Instant, member: Member)
    requires world.cache.Valid()
    ensures Handle(world, Plan(e), now, member) ==
      if !Tracked(world, member, e) then Err(NotFound)
      else if (exists r :: r in member.history && r.episode == Some(e)) then Err(Conflict)
      else if |member.plans + {e}| > 10_000 then Err(Conflict)
      else Ok(Member(member.tracked, member.plans + {e}, member.history))
  {
    if e in member.plans { assert member.plans + {e} == member.plans; }
  }

  lemma UnplanOnRows(world: World, e: EpisodeId, now: Instant, member: Member)
    requires world.cache.Valid()
    ensures var result := Handle(world, Unplan(e), now, member);
      && result.Ok? && result.value.tracked == member.tracked && result.value.history == member.history
      && forall f :: f in result.value.plans <==> f in member.plans && f != e
  {
  }

  lemma MarkFromCalendarOnRows(world: World, e: EpisodeId, now: Instant, member: Member)
    requires world.cache.Valid()
    ensures Handle(world, MarkFromCalendar(e), now, member) ==
      if !Tracked(world, member, e) then Err(NotFound)
      else
        var m, date := ShowOf(world, e), world.cache.episodes[e].airDate;
        var tracked := if member.tracked[m].PlanToWatch? then member.tracked[m := Watching] else member.tracked;
        if date.Some? && !world.clock(m, date.value) then Err(BadRequest)
        else if Seen(member, m, e) then Ok(Member(tracked, member.plans - {e}, member.history))
        else if |member.history| >= 100_000 then Err(Conflict)
        else Ok(Logged(member, tracked, HistoryRow(m, Some(e), now)))
  {
    if Tracked(world, member, e) {
      assert HasRow(member.history, ShowOf(world, e), e) <==> Seen(member, ShowOf(world, e), e);
      OneRowsEpisode(HistoryRow(ShowOf(world, e), Some(e), now));
      assert member.plans - {e} - {e} == member.plans - {e};
    }
  }

  lemma OneRowsEpisode(row: HistoryRow)
    ensures EpisodesOf([row]) == if row.episode.Some? then {row.episode.value} else {}
  {
    assert row in [row];
  }

  lemma TrackOnRows(member: Member, m: MediaId)
    ensures TrackForWatch(member, m) ==
      if TitlesLeft(member, m) then Ok(Member(Watched(member.tracked, m), member.plans, member.history))
      else Err(Conflict)
  {
  }

  lemma InsertOnRows(member: Member, row: HistoryRow)
    ensures InsertOne(member, row) ==
      if |member.history| < 100_000 then Ok(Logged(member, member.tracked, row)) else Err(Conflict)
  {
    OneRowsEpisode(row);
    assert member.plans - {} == member.plans;
  }

  /** The two checks of the show's page: the episode is one of the show, and its date is not ahead of
      the server's. */
  function Refusal(world: World, m: MediaId, e: EpisodeId): Option<Error>
    requires world.cache.Valid()
  {
    if e !in world.cache.episodes || ShowOf(world, e) != m then Some(NotFound)
    else if world.cache.episodes[e].airDate.Some? && world.today < world.cache.episodes[e].airDate.value then
      Some(BadRequest)
    else None
  }

  lemma MarkOnRows(world: World, m: MediaId, e: EpisodeId, now: Instant, member: Member)
    requires world.cache.Valid()
    ensures Handle(world, Mark(m, e), now, member) ==
      if Refusal(world, m, e).Some? then Err(Refusal(world, m, e).value)
      else if !TitlesLeft(member, m) then Err(Conflict)
      else if Seen(member, m, e) then Ok(Member(Watched(member.tracked, m), member.plans, member.history))
      else if |member.history| >= 100_000 then Err(Conflict)
      else Ok(Logged(member, Watched(member.tracked, m), HistoryRow(m, Some(e), now)))
  {
    TrackOnRows(member, m);
    assert HasRow(member.history, m, e) <==> Seen(member, m, e);
    InsertOnRows(Member(Watched(member.tracked, m), member.plans, member.history), HistoryRow(m, Some(e), now));
  }

  lemma RewatchOnRows(world: World, m: MediaId, e: EpisodeId, now: Instant, member: Member)
    requires world.cache.Valid()
    ensures Handle(world, RewatchEpisode(m, e), now, member) ==
      if Refusal(world, m, e).Some? then Err(Refusal(world, m, e).value)
      else if !TitlesLeft(member, m) || |member.history| >= 100_000 then Err(Conflict)
      else Ok(Logged(member, Watched(member.tracked, m), HistoryRow(m, Some(e), now)))
    ensures Handle(world, RewatchMovie(m), now, member) ==
      if !TitlesLeft(member, m) || |member.history| >= 100_000 then Err(Conflict)
      else Ok(Logged(member, Watched(member.tracked, m), HistoryRow(m, None, now)))
  {
    TrackOnRows(member, m);
    InsertOnRows(Member(Watched(member.tracked, m), member.plans, member.history), HistoryRow(m, Some(e), now));
    InsertOnRows(Member(Watched(member.tracked, m), member.plans, member.history), HistoryRow(m, None, now));
  }

  /** A time in the past is kept, one in the future becomes now. */
  lemma CreateOnRows(
      world: World, m: MediaId, about: Option<EpisodeId>, at: Instant, now: Instant, member: Member)
    requires world.cache.Valid()
    ensures var fits := about.Some? ==>
        && about.value in world.cache.episodes && ShowOf(world, about.value) == m
        && (world.cache.episodes[about.value].airDate.Some? ==>
              world.clock(m, world.cache.episodes[about.value].airDate.value));
      var result := Handle(world, CreateHistory(m, about, at), now, member);
      if m !in world.cache.media || !fits then result == Err(BadRequest)
      else if |member.history| >= 100_000 then result == Err(Conflict)
      else
        && (at <= now ==> result == Ok(Logged(member, member.tracked, HistoryRow(m, about, at))))
        && (at > now ==> result == Ok(Logged(member, member.tracked, HistoryRow(m, about, now))))
  {
    InsertOnRows(member, HistoryRow(m, about, at));
    InsertOnRows(member, HistoryRow(m, about, now));
  }

  /** Deleting an entry takes one row equal to it out of its place. */
  lemma {:induction false} MinusOne(history: seq<HistoryRow>, row: HistoryRow) returns (k: nat)
    requires row in history
    ensures k < |history| && history[k] == row && Minus(history, multiset{row}) == history[..k] + history[k + 1..]
    decreases |history|
  {
    var rest := history[1..];
    if history[0] == row {
      k := 0;
      MinusNothing(rest);
      assert multiset{row} - multiset{history[0]} == multiset{};
      assert history[..0] + history[1..] == rest;
    } else {
      var i := MinusOne(rest, row);
      k := i + 1;
      assert Minus(history, multiset{row}) == [history[0]] + Minus(rest, multiset{row});
      CutLater(history, i);
    }
  }

  lemma CutLater(history: seq<HistoryRow>, i: nat)
    requires i + 1 < |history|
    ensures var rest := history[1..];
      history[..i + 1] + history[i + 2..] == [history[0]] + (rest[..i] + rest[i + 1..])
  {
  }

  lemma {:induction false} MinusNothing(history: seq<HistoryRow>)
    ensures Minus(history, multiset{}) == history
    decreases |history|
  {
    if history != [] { MinusNothing(history[1..]); }
  }

  lemma DeleteOnRows(world: World, row: HistoryRow, now: Instant, member: Member)
    requires world.cache.Valid()
    ensures var result := Handle(world, DeleteHistory(row), now, member);
      if row !in member.history then result == Err(NotFound)
      else exists k ::
        0 <= k < |member.history| && member.history[k] == row
        && result == Ok(Member(member.tracked, member.plans, member.history[..k] + member.history[k + 1..]))
  {
    if row in member.history {
      var k := MinusOne(member.history, row);
    }
  }

  /** The places, in order, of the rows of `history` that are not of episode `e`. */
  ghost predicate OtherPlaces(history: seq<HistoryRow>, e: EpisodeId, places: seq<nat>) {
    && (forall i, j :: 0 <= i < j < |places| ==> places[i] < places[j])
    && (forall k: nat :: k in places <==> k < |history| && history[k].episode != Some(e))
  }

  /** `kept` is what stands at those places. */
  predicate StandAt(history: seq<HistoryRow>, places: seq<nat>, kept: seq<HistoryRow>) {
    |kept| == |places| && forall i :: 0 <= i < |places| ==> places[i] < |history| && kept[i] == history[places[i]]
  }

  lemma {:induction false} WithoutPlaces(history: seq<HistoryRow>, e: EpisodeId) returns (places: seq<nat>)
    ensures OtherPlaces(history, e, places) && StandAt(history, places, Without(history, e))
    decreases |history|
  {
    if history == [] {
      places := [];
    } else {
      var n := |history| - 1;
      var init := WithoutPlaces(history[..n], e);
      var kept := Without(history[..n], e);
      WithoutLast(history, e);
      PlacesGrow(history, e, init);
      StandGrow(history, init, kept);
      places := if history[n].episode == Some(e) then init else init + [n];
    }
  }

  lemma StandGrow(history: seq<HistoryRow>, places: seq<nat>, kept: seq<HistoryRow>)
    requires history != [] && StandAt(history[..|history| - 1], places, kept)
    ensures StandAt(history, places, kept)
    ensures StandAt(history, places + [|history| - 1], kept + [history[|history| - 1]])
  {
  }

  lemma WithoutLast(history: seq<HistoryRow>, e: EpisodeId)
    requires history != []
    ensures var n := |history| - 1;
      Without(history, e)
      == if history[n].episode == Some(e) then Without(history[..n], e) else Without(history[..n], e) + [history[n]]
  {
    var init, last := history[..|history| - 1], history[|history| - 1];
    WithoutConcat(init, [last], e);
    assert init + [last] == history;
    WithoutOne(last, e);
  }

  lemma WithoutOne(row: HistoryRow, e: EpisodeId)
    ensures Without([row], e) == if row.episode == Some(e) then [] else [row]
  {
    assert [row][1..] == [];
  }

  lemma PlacesGrow(history: seq<HistoryRow>, e: EpisodeId, places: seq<nat>)
    requires history != [] && OtherPlaces(history[..|history| - 1], e, places)
    ensures var n := |history| - 1;
      OtherPlaces(history, e, if history[n].episode == Some(e) then places else places + [n])
    ensures forall i :: 0 <= i < |places| ==> places[i] < |history| - 1
  {
    var n := |history| - 1;
    assert forall k :: 0 <= k < n ==> history[..n][k] == history[k];
    forall i | 0 <= i < |places| ensures places[i] < n { assert places[i] in places; }
  }

  /** Unmarking takes out the rows of the episode, all of them and no other, and keeps the order. */
  lemma UnmarkOnRows(world: World, e: EpisodeId, now: Instant, member: Member)
    requires world.cache.Valid()
    ensures var result := Handle(world, Unmark(e), now, member);
      if e !in world.cache.episodes then result == Err(NotFound)
      else
        && result.Ok? && result.value.tracked == member.tracked && result.value.plans == member.plans
        && exists places ::
             OtherPlaces(member.history, e, places) && StandAt(member.history, places, result.value.history)
  {
    if e in world.cache.episodes {
      UnmarkRemovesExactly(member.history, e);
      var places := WithoutPlaces(member.history, e);
    }
  }
}
