/** `/calendar/upcoming`: episodes and regional or fallback film releases in one list, paged by
    (release_date, item_kind, sort_key). */
module UpcomingFeed {
  import opened Orders
  import opened Uuids
  import opened Catalogue
  import opened KeysetPaging

  // ---- the query string ----------------------------------------------------------------

  datatype Key = Key(date: Date, kind: string, sortKey: string)

  datatype BadRequest = InvalidCursor | CursorIncomplete

  predicate CursorByte(c: char) {
    '0' <= c <= '9' || 'a' <= c <= 'z' || 'A' <= c <= 'Z' || c == '-' || c == ':'
  }

  function ResolveCursor(
      date: Option<Date>, kind: Option<string>, key: Option<string>): Result<Option<Key>, BadRequest> {
    match (date, kind, key)
    case (Some(d), Some(k), Some(s)) =>
      if (k != "episode" && k != "movie") || |s| == 0 || |s| > 64 || exists c :: c in s && !CursorByte(c)
      then Err(InvalidCursor)
      else Ok(Some(Key(d, k, s)))
    case (None, None, None) => Ok(None)
    case _ => Err(CursorIncomplete)
  }

  // ---- the three branches --------------------------------------------------------------

  /** One row of `media_release_dates`; the type is TMDB's, one to six. */
  datatype Release = Release(media: MediaId, country: string, releaseType: nat, date: Date)

  datatype Item = Item(kind: string, id: Uuid, date: Date, releaseType: Option<nat>, sortKey: string)

  function KeyOf(item: Item): Key {
    Key(item.date, item.kind, item.sortKey)
  }

  datatype Window = Window(today: Date, cutoff: Date, country: string, specials: bool) {
    predicate Holds(date: Date) {
      today < date <= cutoff
    }
  }

  /** `release_type::text`, for the single digit the table's CHECK allows. */
  function TypeText(releaseType: nat): string
    requires 1 <= releaseType <= 6
  {
    ["0123456789"[releaseType]]
  }

  ghost predicate ValidReleases(releases: set<Release>) {
    forall r :: r in releases ==> 1 <= r.releaseType <= 6
  }

  ghost function EpisodeItems(cache: Cache, member: Member, w: Window): set<Item>
    requires cache.Valid()
  {
    set e | e in cache.episodes
         && member.Follows(cache.SeasonOf(e).media)
         && cache.media[cache.SeasonOf(e).media].kind == Tv
         && cache.episodes[e].airDate.Some? && w.Holds(cache.episodes[e].airDate.value)
         && (w.specials || cache.SeasonOf(e).number > 0) ::
      Item("episode", e, cache.episodes[e].airDate.value, None, Text(e))
  }

  ghost predicate PlannedFilm(cache: Cache, member: Member, m: MediaId) {
    m in member.tracked && member.tracked[m] == PlanToWatch && m in cache.media && cache.media[m].kind == Movie
  }

  predicate Earlier(a: Date, b: Date) { a < b }

  ghost function DatesOf(releases: set<Release>, w: Window, m: MediaId, releaseType: nat): set<Date> {
    set r | r in releases && r.media == m && r.country == w.country && r.releaseType == releaseType
        && w.Holds(r.date) :: r.date
  }

  /** `DISTINCT ON (media.id, release_type)` in date order: the first date of each type. */
  ghost function RegionalItems(cache: Cache, member: Member, releases: set<Release>, w: Window): set<Item>
    requires ValidReleases(releases)
  {
    set r | r in releases && r.country == w.country && w.Holds(r.date) && PlannedFilm(cache, member, r.media)
         && IsLeast(Earlier, DatesOf(releases, w, r.media, r.releaseType), r.date) ::
      Item("movie", r.media, r.date, Some(r.releaseType), Text(r.media) + ":" + TypeText(r.releaseType))
  }

  ghost function FallbackItems(cache: Cache, member: Member, releases: set<Release>, w: Window): set<Item> {
    set m | m in cache.media && PlannedFilm(cache, member, m)
         && cache.media[m].releaseDate.Some? && w.Holds(cache.media[m].releaseDate.value)
         && !(exists r :: r in releases && r.media == m && r.country == w.country) ::
      Item("movie", m, cache.media[m].releaseDate.value, None, Text(m) + ":fallback")
  }

  ghost function CalendarItems(cache: Cache, member: Member, releases: set<Release>, w: Window): set<Item>
    requires cache.Valid() && ValidReleases(releases)
  {
    EpisodeItems(cache, member, w) + RegionalItems(cache, member, releases, w)
    + FallbackItems(cache, member, releases, w)
  }

  // ---- paging --------------------------------------------------------------------------

  /** ORDER BY release_date, item_kind, sort_key; text compares by the database's collation. */
  function KeyOrder(textLess: (string, string) -> bool): (Key, Key) -> bool {
    (a: Key, b: Key) => KeyBefore(textLess, a, b)
  }

  predicate KeyBefore(textLess: (string, string) -> bool, a: Key, b: Key) {
    if a.date != b.date then a.date < b.date
    else if a.kind != b.kind then textLess(a.kind, b.kind)
    else textLess(a.sortKey, b.sortKey)
  }

  ghost function Keys(items: set<Item>, kind: string): set<Key> {
    set i | i in items && (kind == "all" || i.kind == kind) :: KeyOf(i)
  }

  /** A client walking the pages: each cursor goes out in a response, comes back in a query
      string and is resolved again; an unresolved cursor ends the walk unfinished. */
  ghost function FollowUpcoming(
      textLess: (string, string) -> bool, items: set<Item>, kind: string, limit: nat,
      date: Option<Date>, afterKind: Option<string>, afterKey: Option<string>, pages: nat): Walk<Key>
    requires StrictTotal(KeyOrder(textLess)) && limit > 0
    decreases pages
  {
    if pages == 0 then Walk([], false)
    else
      match ResolveCursor(date, afterKind, afterKey)
      case Err(_) => Walk([], false)
      case Ok(cursor) =>
        var page := PageOf(KeyOrder(textLess), After(KeyOrder(textLess), Keys(items, kind), cursor), limit);
        if page.next.None? then Walk(page.items, true)
        else
          var last := page.next.value;
          var rest := FollowUpcoming(textLess, items, kind, limit, Some(last.date), Some(last.kind),
              Some(last.sortKey), pages - 1);
          Walk(page.items + rest.items, rest.finished)
  }

  lemma KeyOrderTotal(textLess: (string, string) -> bool)
    requires StrictTotal(textLess)
    ensures StrictTotal(KeyOrder(textLess))
  {
  }

  /** Every cursor the endpoint emits is one its own query string accepts. */
  lemma EmittedCursorAccepted(cache: Cache, member: Member, releases: set<Release>, w: Window, item: Item)
    requires cache.Valid() && ValidReleases(releases)
    requires item in CalendarItems(cache, member, releases, w)
    ensures ResolveCursor(Some(item.date), Some(item.kind), Some(item.sortKey)) == Ok(Some(KeyOf(item)))
  {
    var tail, id := SplitKey(cache, member, releases, w, item);
    SortKeyBytes(tail, id);
  }

  lemma SortKeyBytes(tail: string, id: Uuid)
    requires IsTail(tail)
    ensures forall c :: c in Text(id) + tail ==> CursorByte(c)
  {
    forall c | c in Text(id) + tail ensures CursorByte(c) {
      if c in HEX_DIGITS { HexIsCursorByte(c); }
    }
  }

  predicate IsTail(tail: string) {
    || tail == "" || tail == ":fallback"
    || (|tail| == 2 && tail[0] == ':' && '0' <= tail[1] <= '9')
  }

  /** A sort key is a UUID's text followed by one of a few tails. */
  lemma SplitKey(cache: Cache, member: Member, releases: set<Release>, w: Window, item: Item)
      returns (tail: string, id: Uuid)
    requires cache.Valid() && ValidReleases(releases)
    requires item in CalendarItems(cache, member, releases, w)
    ensures IsTail(tail) && item.sortKey == Text(id) + tail
    ensures item.kind == "episode" || item.kind == "movie"
  {
    if item in EpisodeItems(cache, member, w) {
      tail, id := "", item.id;
    } else if item in RegionalItems(cache, member, releases, w) {
      tail, id := ":" + TypeText(item.releaseType.value), item.id;
    } else {
      tail, id := ":fallback", item.id;
    }
  }

  lemma HexIsCursorByte(c: char)
    requires c in HEX_DIGITS
    ensures CursorByte(c)
  {
  }

  /** (item_kind, sort_key) names one item across all three branches of the UNION ALL. */
  lemma KeysUnique(cache: Cache, member: Member, releases: set<Release>, w: Window, a: Item, b: Item)
    requires cache.Valid() && ValidReleases(releases)
    requires a in CalendarItems(cache, member, releases, w) && b in CalendarItems(cache, member, releases, w)
    requires a.kind == b.kind && a.sortKey == b.sortKey
    ensures a == b
  {
    SortKeyShape(cache, member, releases, w, a);
    SortKeyShape(cache, member, releases, w, b);
    assert Text(a.id) == a.sortKey[..36] == b.sortKey[..36] == Text(b.id);
    TextInjective(a.id, b.id);
  }

  /** What can be read off a sort key. */
  lemma SortKeyShape(cache: Cache, member: Member, releases: set<Release>, w: Window, a: Item)
    requires cache.Valid() && ValidReleases(releases)
    requires a in CalendarItems(cache, member, releases, w)
    ensures |a.sortKey| >= 36 && a.sortKey[..36] == Text(a.id)
    ensures a.kind == "episode" ==> a in EpisodeItems(cache, member, w)
    ensures a.kind == "movie" && |a.sortKey| == 38 ==>
      a in RegionalItems(cache, member, releases, w) && a.releaseType.Some?
      && 1 <= a.releaseType.value <= 6 && a.sortKey[37] == "0123456789"[a.releaseType.value]
    ensures a.kind == "movie" && |a.sortKey| != 38 ==> a in FallbackItems(cache, member, releases, w)
  {
  }

  /** Over unchanged data the pages concatenate to the full sorted list, each key once. */
  lemma UpcomingPagesConcatenate(
      textLess: (string, string) -> bool, cache: Cache, member: Member, releases: set<Release>, w: Window,
      kind: string, limit: nat, pages: nat)
    requires cache.Valid() && ValidReleases(releases) && StrictTotal(textLess) && limit > 0
    requires var items := CalendarItems(cache, member, releases, w); pages * limit > |Keys(items, kind)|
    ensures StrictTotal(KeyOrder(textLess))
    ensures var items := CalendarItems(cache, member, releases, w);
      FollowUpcoming(textLess, items, kind, limit, None, None, None, pages)
      == Walk(Listing(KeyOrder(textLess), Keys(items, kind)), true)
  {
    KeyOrderTotal(textLess);
    var items := CalendarItems(cache, member, releases, w);
    var lt, rows := KeyOrder(textLess), Keys(items, kind);
    var views := Same(rows, pages);
    forall i | i in items ensures ResolveCursor(Some(i.date), Some(i.kind), Some(i.sortKey)) == Ok(Some(KeyOf(i))) {
      EmittedCursorAccepted(cache, member, releases, w, i);
    }
    UpcomingIsKeyset(textLess, items, kind, limit, None, pages);
    FollowTerminates(lt, views, limit, None, rows);
    FollowFixed(lt, views, limit, rows);
  }

  lemma {:induction false} UpcomingIsKeyset(
      textLess: (string, string) -> bool, items: set<Item>, kind: string, limit: nat, cursor: Option<Key>, pages: nat)
    requires StrictTotal(KeyOrder(textLess)) && limit > 0
    requires AllAccepted(items)
    requires cursor.Some? ==> cursor.value in Keys(items, kind)
    ensures var d := if cursor.None? then None else Some(cursor.value.date);
      var k := if cursor.None? then None else Some(cursor.value.kind);
      var s := if cursor.None? then None else Some(cursor.value.sortKey);
      FollowUpcoming(textLess, items, kind, limit, d, k, s, pages)
      == Follow(KeyOrder(textLess), Same(Keys(items, kind), pages), limit, cursor)
    decreases pages
  {
    if pages > 0 {
      var lt, rows := KeyOrder(textLess), Keys(items, kind);
      var page := PageOf(lt, After(lt, rows, cursor), limit);
      assert Same(rows, pages)[1..] == Same(rows, pages - 1);
      if page.next.Some? {
        assert page.next.value in rows by { PageCuts(lt, After(lt, rows, cursor), limit); }
        UpcomingIsKeyset(textLess, items, kind, limit, page.next, pages - 1);
      }
    }
  }

  /** The same rows, `pages` times over. */
  ghost function Same(rows: set<Key>, pages: nat): (views: seq<set<Key>>)
    ensures |views| == pages && forall i :: 0 <= i < pages ==> views[i] == rows
  {
    seq(pages, _ => rows)
  }

  ghost predicate AllAccepted(items: set<Item>) {
    forall i :: i in items ==> ResolveCursor(Some(i.date), Some(i.kind), Some(i.sortKey)) == Ok(Some(KeyOf(i)))
  }
}
