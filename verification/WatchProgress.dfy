/** What the bulk writes mean: conservation against the quota, complete passes of a season, and what
    unmarking takes back. */
module WatchProgress {
  import opened Orders
  import opened Catalogue
  import opened WatchHandlers

  /** COUNT(history.id) for one episode. */
  function Plays(history: seq<HistoryRow>, e: EpisodeId): nat {
    if history == [] then 0
    else (if history[0].episode == Some(e) then 1 else 0) + Plays(history[1..], e)
  }

  predicate Distinct(ids: seq<EpisodeId>) {
    forall i, j :: 0 <= i < j < |ids| ==> ids[i] != ids[j]
  }

  predicate Less(a: nat, b: nat) { a < b }

  /** `complete_passes`: the fewest plays of any aired episode, zero when none has aired. */
  ghost function CompletePasses(aired: set<EpisodeId>, history: seq<HistoryRow>): nat {
    if aired == {} then 0
    else
      var e :| e in aired;
      assert Plays(history, e) in PlayCounts(aired, history);
      Least(Less, PlayCounts(aired, history))
  }

  ghost function PlayCounts(aired: set<EpisodeId>, history: seq<HistoryRow>): set<nat> {
    set e | e in aired :: Plays(history, e)
  }

  // ---- counting plays ------------------------------------------------------------------

  lemma {:induction false} PlaysConcat(a: seq<HistoryRow>, b: seq<HistoryRow>, e: EpisodeId)
    ensures Plays(a + b, e) == Plays(a, e) + Plays(b, e)
    decreases |a|
  {
    if a == [] {
      assert a + b == b;
    } else {
      PlaysConcat(a[1..], b, e);
      assert (a + b)[1..] == a[1..] + b;
    }
  }

  lemma {:induction false} PlaysPositive(history: seq<HistoryRow>, e: EpisodeId)
    ensures Plays(history, e) > 0 <==> HasEpisode(history, e)
    decreases |history|
  {
    if history != [] {
      PlaysPositive(history[1..], e);
      assert HasEpisode(history, e) <==> history[0].episode == Some(e) || HasEpisode(history[1..], e);
    }
  }

  /** Among distinct ids, each chosen episode gets exactly one new row and no other gets any. */
  lemma {:induction false} NewRowsPlays(
      history: seq<HistoryRow>, m: MediaId, ids: seq<EpisodeId>, again: bool, now: Instant, e: EpisodeId)
    requires Distinct(ids)
    ensures Plays(NewRows(history, m, ids, again, now), e)
         == if e in ids && (again || !HasRow(history, m, e)) then 1 else 0
    decreases |ids|
  {
    if ids != [] {
      NewRowsPlays(history, m, ids[1..], again, now, e);
      var first := if again || !HasRow(history, m, ids[0]) then [HistoryRow(m, Some(ids[0]), now)] else [];
      PlaysConcat(first, NewRows(history, m, ids[1..], again, now), e);
    }
  }

  /** In a history whose rows are filed correctly the show in the condition changes nothing. */
  lemma RowIsEpisode(cache: Cache, history: seq<HistoryRow>, m: MediaId, e: EpisodeId)
    requires Filed(cache, history) && cache.IsEpisodeOf(e, m)
    ensures HasRow(history, m, e) <==> HasEpisode(history, e)
  {
    if r :| r in history && r.episode == Some(e) {
      assert cache.IsEpisodeOf(r.episode.value, r.media);
    }
  }

  // ---- the quota reservation -----------------------------------------------------------

  predicate WatchedIdRepeats(history: seq<HistoryRow>, m: MediaId, ids: seq<EpisodeId>) {
    exists i, j :: 0 <= i < j < |ids| && ids[i] == ids[j] && HasRow(history, m, ids[i])
  }

  /** A bulk write inserts exactly the rows it reserved, unless it is a first viewing and an
      id that was already watched is listed twice. */
  lemma {:induction false} ReservedIsInserted(
      history: seq<HistoryRow>, m: MediaId, ids: seq<EpisodeId>, again: bool, now: Instant)
    ensures |NewRows(history, m, ids, again, now)| == Reserved(history, m, ids, again)
       <==> again || !WatchedIdRepeats(history, m, ids)
    decreases |ids|
  {
    if ids != [] {
      var rest := ids[1..];
      ReservedIsInserted(history, m, rest, again, now);
      NewRowsWithinReserved(history, m, rest, again, now);
      var smaller := WatchedAmong(history, m, rest);
      assert WatchedAmong(history, m, ids) == (if HasRow(history, m, ids[0]) then smaller + {ids[0]} else smaller);
      RepeatsInRest(history, m, ids);
    }
  }

  lemma RepeatsInRest(history: seq<HistoryRow>, m: MediaId, ids: seq<EpisodeId>)
    requires ids != []
    ensures WatchedIdRepeats(history, m, ids)
       <==> WatchedIdRepeats(history, m, ids[1..]) || (HasRow(history, m, ids[0]) && ids[0] in ids[1..])
  {
    var rest := ids[1..];
    if i, j :| 0 <= i < j < |rest| && rest[i] == rest[j] && HasRow(history, m, rest[i]) {
      assert ids[i + 1] == ids[j + 1] && HasRow(history, m, ids[i + 1]);
    }
    if HasRow(history, m, ids[0]) && ids[0] in rest {
      var j :| 0 <= j < |rest| && rest[j] == ids[0];
      assert ids[0] == ids[j + 1];
    }
    if i, j :| 0 <= i < j < |ids| && ids[i] == ids[j] && HasRow(history, m, ids[i]) {
      assert rest[j - 1] == ids[j];
      if i > 0 { assert rest[i - 1] == ids[i]; }
    }
  }

  /** Pressing "watched" twice inserts nothing the second time. */
  lemma {:induction false} FirstTimeIsIdempotent(
      history: seq<HistoryRow>, m: MediaId, ids: seq<EpisodeId>, now: Instant, later: Instant, chosen: seq<EpisodeId>)
    requires forall e :: e in chosen ==> e in ids
    ensures NewRows(history + NewRows(history, m, ids, false, now), m, chosen, false, later) == []
    decreases |chosen|
  {
    if chosen != [] {
      FirstTimeIsIdempotent(history, m, ids, now, later, chosen[1..]);
      NewRowsShape(history, m, ids, false, now);
      var after := history + NewRows(history, m, ids, false, now);
      assert HasRow(after, m, chosen[0]) by {
        if HasRow(history, m, chosen[0]) {
          var r :| r in history && r.media == m && r.episode == Some(chosen[0]);
          assert r in after;
        } else {
          assert HistoryRow(m, Some(chosen[0]), now) in after;
        }
      }
    }
  }

  // ---- complete passes -----------------------------------------------------------------

  lemma PassesBound(aired: set<EpisodeId>, history: seq<HistoryRow>, e: EpisodeId)
    requires e in aired
    ensures CompletePasses(aired, history) <= Plays(history, e)
  {
    assert Plays(history, e) in PlayCounts(aired, history);
  }

  lemma PassesReached(aired: set<EpisodeId>, history: seq<HistoryRow>) returns (e: EpisodeId)
    requires aired != {}
    ensures e in aired && Plays(history, e) == CompletePasses(aired, history)
  {
    assert CompletePasses(aired, history) in PlayCounts(aired, history);
    e :| e in aired && Plays(history, e) == CompletePasses(aired, history);
  }

  /** A season has a complete pass exactly when something has aired and all of it is watched. */
  lemma PassesPositive(aired: set<EpisodeId>, history: seq<HistoryRow>)
    ensures CompletePasses(aired, history) > 0
       <==> aired != {} && forall e :: e in aired ==> HasEpisode(history, e)
  {
    forall e | e in aired ensures CompletePasses(aired, history) <= Plays(history, e)
                                  && (Plays(history, e) > 0 <==> HasEpisode(history, e)) {
      PassesBound(aired, history, e);
      PlaysPositive(history, e);
    }
    if aired != {} {
      var e := PassesReached(aired, history);
      PlaysPositive(history, e);
    }
  }

  /** `rewatch_season` raises `complete_passes` by exactly one. */
  lemma RewatchAddsOnePass(
      aired: set<EpisodeId>, m: MediaId, ids: seq<EpisodeId>, now: Instant, member: Member)
    requires Distinct(ids) && Elements(ids) == aired
    requires HandleBulk(m, ids, true, now, member).Ok?
    ensures var after := HandleBulk(m, ids, true, now, member).value;
      CompletePasses(aired, after.history) == CompletePasses(aired, member.history) + 1
  {
    var before, after := member.history, HandleBulk(m, ids, true, now, member).value.history;
    forall e | e in aired ensures Plays(after, e) == Plays(before, e) + 1 {
      NewRowsPlays(before, m, ids, true, now, e);
      PlaysConcat(before, NewRows(before, m, ids, true, now), e);
    }
    assert ids[0] in Elements(ids);
    var low := PassesReached(aired, before);
    var low' := PassesReached(aired, after);
    PassesBound(aired, before, low');
    PassesBound(aired, after, low);
  }

  /** After `mark_season_watched` the season has at least one complete pass, and episodes that
      were already watched keep their count. */
  lemma MarkSeasonCompletesAPass(
      world: World, aired: set<EpisodeId>, m: MediaId, ids: seq<EpisodeId>, now: Instant, member: Member)
    requires Sound(world, member) && Distinct(ids) && Elements(ids) == aired
    requires forall e :: e in aired ==> world.cache.IsEpisodeOf(e, m)
    requires HandleBulk(m, ids, false, now, member).Ok?
    ensures var after := HandleBulk(m, ids, false, now, member).value;
      && CompletePasses(aired, after.history) >= 1
      && forall e :: Plays(after.history, e)
                  == if e in aired && Plays(member.history, e) == 0 then 1 else Plays(member.history, e)
  {
    var after := HandleBulk(m, ids, false, now, member).value;
    forall e ensures Plays(after.history, e)
                  == if e in aired && Plays(member.history, e) == 0 then 1 else Plays(member.history, e)
    {
      NewRowsPlays(member.history, m, ids, false, now, e);
      PlaysConcat(member.history, NewRows(member.history, m, ids, false, now), e);
      PlaysPositive(member.history, e);
      assert e in ids <==> e in Elements(ids);
      if e in aired { RowIsEpisode(world.cache, member.history, m, e); }
    }
    assert ids[0] in Elements(ids);
    var low := PassesReached(aired, after.history);
  }

  // ---- unmarking -----------------------------------------------------------------------

  function Without(history: seq<HistoryRow>, e: EpisodeId): seq<HistoryRow> {
    if history == [] then []
    else (if history[0].episode == Some(e) then [] else [history[0]]) + Without(history[1..], e)
  }

  lemma {:induction false} MatchingShape(history: seq<HistoryRow>, e: EpisodeId)
    ensures forall r :: r in Matching(history, e) ==> r.episode == Some(e)
    decreases |history|
  {
    if history != [] {
      MatchingShape(history[1..], e);
    }
  }

  /** Unmarking removes every play of the episode, and nothing else. */
  lemma {:induction false} UnmarkRemovesExactly(history: seq<HistoryRow>, e: EpisodeId)
    ensures Minus(history, multiset(Matching(history, e))) == Without(history, e)
    decreases |history|
  {
    if history != [] {
      UnmarkRemovesExactly(history[1..], e);
      MatchingShape(history, e);
      var first, rest := history[0], Matching(history[1..], e);
      if first.episode == Some(e) {
        assert Matching(history, e) == [first] + rest;
        assert multiset(Matching(history, e)) - multiset{first} == multiset(rest);
      } else {
        assert Matching(history, e) == rest;
        assert first !in rest;
      }
    }
  }

  lemma {:induction false} WithoutPlays(history: seq<HistoryRow>, e: EpisodeId, other: EpisodeId)
    ensures Plays(Without(history, e), other) == if other == e then 0 else Plays(history, other)
    decreases |history|
  {
    if history != [] {
      WithoutPlays(history[1..], e, other);
      var kept := if history[0].episode == Some(e) then [] else [history[0]];
      PlaysConcat(kept, Without(history[1..], e), other);
    }
  }

  /** Unmarking clears the episode and nothing else; it may be planned again afterwards. */
  lemma UnmarkClearsEpisode(world: World, e: EpisodeId, member: Member)
    requires e in world.cache.episodes
    ensures var after := HandleUnmark(world, e, member).value;
      && !HasEpisode(after.history, e)
      && (forall other :: other != e ==> Plays(after.history, other) == Plays(member.history, other))
      && after.plans == member.plans && after.tracked == member.tracked
  {
    UnmarkRemovesExactly(member.history, e);
    var after := HandleUnmark(world, e, member).value;
    forall other ensures Plays(after.history, other) == if other == e then 0 else Plays(member.history, other) {
      WithoutPlays(member.history, e, other);
    }
    PlaysPositive(after.history, e);
  }

  lemma {:induction false} WithoutNothing(history: seq<HistoryRow>, e: EpisodeId)
    requires !HasEpisode(history, e)
    ensures Without(history, e) == history
    decreases |history|
  {
    if history != [] {
      assert history[0] in history;
      assert !HasEpisode(history[1..], e);
      WithoutNothing(history[1..], e);
    }
  }

  lemma {:induction false} WithoutConcat(a: seq<HistoryRow>, b: seq<HistoryRow>, e: EpisodeId)
    ensures Without(a + b, e) == Without(a, e) + Without(b, e)
    decreases |a|
  {
    if a == [] {
      assert a + b == b;
    } else {
      WithoutConcat(a[1..], b, e);
      assert (a + b)[1..] == a[1..] + b;
    }
  }

  lemma OneRowComesOut(history: seq<HistoryRow>, row: HistoryRow, e: EpisodeId)
    requires !HasEpisode(history, e) && row.episode == Some(e)
    ensures Minus(history + [row], multiset(Matching(history + [row], e))) == history
  {
    UnmarkRemovesExactly(history + [row], e);
    WithoutConcat(history, [row], e);
    WithoutNothing(history, e);
    assert Without([row], e) == [];
  }

  lemma MarkInsertsRow(world: World, m: MediaId, e: EpisodeId, now: Instant, member: Member)
    requires !HasEpisode(member.history, e) && HandleMark(world, m, e, now, member).Ok?
    ensures var marked := HandleMark(world, m, e, now, member).value;
      && e in world.cache.episodes
      && marked.history == member.history + [HistoryRow(m, Some(e), now)]
      && marked.plans == member.plans - {e}
  {
    assert EpisodesOf([HistoryRow(m, Some(e), now)]) == {e};
  }

  /** Marking an unwatched episode and unmarking it again gives the old history back. */
  lemma UnmarkUndoesMark(world: World, m: MediaId, e: EpisodeId, now: Instant, member: Member)
    requires !HasEpisode(member.history, e) && HandleMark(world, m, e, now, member).Ok?
    ensures var marked := HandleMark(world, m, e, now, member).value;
      HandleUnmark(world, e, marked) == Ok(marked.(history := member.history)) && marked.plans == member.plans - {e}
  {
    MarkInsertsRow(world, m, e, now, member);
    OneRowComesOut(member.history, HistoryRow(m, Some(e), now), e);
  }
}
