/** What a viewing request may change beside what it is for: how tracking moves, why a plan goes,
    and that history is only appended to or has named rows taken out. */
module WatchEffects {
  import opened Orders
  import opened Catalogue
  import opened WatchHandlers

  /** A watch takes up a planned, paused or dropped title again, and never undoes a completed one. */
  predicate Moves(from: Status, to: Status) {
    to == from || (to == Watching && (from == PlanToWatch || from == OnHold || from == Dropped))
  }

  ghost predicate TrackingMoves(before: map<MediaId, Status>, after: map<MediaId, Status>) {
    && (forall m :: m in before ==> m in after && Moves(before[m], after[m]))
    && (forall m :: m in after && m !in before ==> after[m] == Watching)
    && (forall m, n :: m in after && m !in before && n in after && n !in before ==> m == n)
  }

  predicate FromCalendar(q: Request) {
    q.Plan? || q.Unplan? || q.MarkFromCalendar?
  }

  predicate TracksTitle(q: Request) {
    q.Mark? || q.Bulk? || q.RewatchEpisode? || q.RewatchMovie?
  }

  lemma TrackForWatchMoves(member: Member, m: MediaId)
    requires TrackForWatch(member, m).Ok?
    ensures TrackingMoves(member.tracked, TrackForWatch(member, m).value.tracked)
  {
  }

  lemma CalendarMoves(world: World, q: Request, now: Instant, member: Member)
    requires WellFormed(world, q) && FromCalendar(q) && Handle(world, q, now, member).Ok?
    ensures TrackingMoves(member.tracked, Handle(world, q, now, member).value.tracked)
  {
  }

  lemma WatchingTracks(world: World, q: Request, now: Instant, member: Member)
    requires WellFormed(world, q) && TracksTitle(q) && Handle(world, q, now, member).Ok?
    ensures TrackForWatch(member, q.media).Ok?
    ensures Handle(world, q, now, member).value.tracked == TrackForWatch(member, q.media).value.tracked
  {
  }

  /** No request stops tracking a title, sets one back, or starts more than one. */
  lemma TrackingOnlyMovesForward(world: World, q: Request, now: Instant, member: Member)
    requires WellFormed(world, q) && Handle(world, q, now, member).Ok?
    ensures TrackingMoves(member.tracked, Handle(world, q, now, member).value.tracked)
  {
    if FromCalendar(q) {
      CalendarMoves(world, q, now, member);
    } else if TracksTitle(q) {
      WatchingTracks(world, q, now, member);
      TrackForWatchMoves(member, q.media);
    }
  }

  ghost predicate PlansMove(q: Request, before: Member, after: Member, e: EpisodeId) {
    && (e in after.plans && e !in before.plans ==> q == Plan(e))
    && (e in before.plans && e !in after.plans ==> q == Unplan(e) || HasEpisode(after.history, e))
  }

  lemma CalendarPlans(world: World, q: Request, now: Instant, member: Member, e: EpisodeId)
    requires WellFormed(world, q) && FromCalendar(q) && Handle(world, q, now, member).Ok?
    ensures PlansMove(q, member, Handle(world, q, now, member).value, e)
  {
  }

  lemma WatchingPlans(world: World, q: Request, now: Instant, member: Member, e: EpisodeId)
    requires WellFormed(world, q) && TracksTitle(q) && Handle(world, q, now, member).Ok?
    ensures PlansMove(q, member, Handle(world, q, now, member).value, e)
  {
  }

  /** A plan appears only by planning it, and goes only by unplanning it or with a watch of it. */
  lemma PlansChangeForACause(world: World, q: Request, now: Instant, member: Member, e: EpisodeId)
    requires WellFormed(world, q) && Handle(world, q, now, member).Ok?
    ensures PlansMove(q, member, Handle(world, q, now, member).value, e)
  {
    if FromCalendar(q) {
      CalendarPlans(world, q, now, member, e);
    } else if TracksTitle(q) {
      WatchingPlans(world, q, now, member, e);
    }
  }

  ghost predicate Appends(before: seq<HistoryRow>, after: seq<HistoryRow>, now: Instant) {
    && |before| <= |after| && after[..|before|] == before
    && forall i :: |before| <= i < |after| ==> after[i].watchedAt <= now
  }

  lemma WatchingAppends(world: World, q: Request, now: Instant, member: Member)
    requires WellFormed(world, q) && TracksTitle(q) && Handle(world, q, now, member).Ok?
    ensures Appends(member.history, Handle(world, q, now, member).value.history, now)
  {
    if q.Bulk? { NewRowsDated(member.history, q.media, q.ids, q.again, now); }
  }

  /** Unless it removes rows by name, a request only appends, and nothing is dated in the future. */
  lemma HistoryIsAppendedTo(world: World, q: Request, now: Instant, member: Member)
    requires WellFormed(world, q) && Handle(world, q, now, member).Ok? && !q.Unmark? && !q.DeleteHistory?
    ensures Appends(member.history, Handle(world, q, now, member).value.history, now)
  {
    if TracksTitle(q) { WatchingAppends(world, q, now, member); }
  }

  lemma {:induction false} NewRowsDated(
      history: seq<HistoryRow>, m: MediaId, ids: seq<EpisodeId>, again: bool, now: Instant)
    ensures forall i :: 0 <= i < |NewRows(history, m, ids, again, now)| ==>
        NewRows(history, m, ids, again, now)[i].watchedAt == now
    decreases |ids|
  {
    if ids != [] { NewRowsDated(history, m, ids[1..], again, now); }
  }

  /** Taking rows out takes out exactly as many of each. */
  lemma {:induction false} MinusIsExact(history: seq<HistoryRow>, removed: multiset<HistoryRow>)
    ensures multiset(Minus(history, removed)) == multiset(history) - removed
    decreases |history|
  {
    if history != [] {
      var first, rest := history[0], history[1..];
      assert history == [first] + rest;
      if first in removed {
        MinusIsExact(rest, removed - multiset{first});
        assert multiset(history) - removed == multiset(rest) - (removed - multiset{first});
      } else {
        MinusIsExact(rest, removed);
        assert multiset(history) - removed == multiset{first} + (multiset(rest) - removed);
      }
    }
  }

  /** Deleting an entry takes out that one row and nothing else. */
  lemma DeleteRemovesOneRow(row: HistoryRow, member: Member)
    requires HandleDelete(row, member).Ok?
    ensures var after := HandleDelete(row, member).value;
      && multiset(after.history) == multiset(member.history) - multiset{row}
      && |after.history| == |member.history| - 1
      && after.plans == member.plans && after.tracked == member.tracked
  {
    MinusIsExact(member.history, multiset{row});
    var after := HandleDelete(row, member).value;
    assert row in multiset(member.history);
    assert |multiset(after.history)| == |multiset(member.history)| - 1;
  }
}
