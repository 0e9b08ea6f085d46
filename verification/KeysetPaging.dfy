/** Keyset paging: a page is the first `limit` rows after a cursor, one extra row is
    fetched to learn whether there is another page, and the cursor of the next page is
    the last row returned. The rows may change between two pages: `views[i]` is what
    the table shows when page `i` is read. */
module KeysetPaging {
  import opened Orders

  datatype Page<T> = Page(items: seq<T>, next: Option<T>)

  datatype Walk<T> = Walk(items: seq<T>, finished: bool)

  ghost function After<T(!new)>(lt: (T, T) -> bool, rows: set<T>, cursor: Option<T>): set<T> {
    set x | x in rows && (cursor.None? || lt(cursor.value, x))
  }

  /** `ORDER BY ... LIMIT limit + 1`, then truncate to `limit`. */
  ghost function PageOf<T(!new)>(lt: (T, T) -> bool, rows: set<T>, limit: nat): Page<T>
    requires StrictTotal(lt) && limit > 0
  {
    var listing := Listing(lt, rows);
    var fetched := if |listing| > limit + 1 then listing[..limit + 1] else listing;
    if |fetched| > limit then
      Page(fetched[..limit], Some(fetched[limit - 1]))
    else
      Page(fetched, None)
  }

  /** Follow the cursors until a page has none, or the reader stops after `|views|` pages. */
  ghost function Follow<T(!new)>(lt: (T, T) -> bool, views: seq<set<T>>, limit: nat, cursor: Option<T>): Walk<T>
    requires StrictTotal(lt) && limit > 0
    decreases |views|
  {
    if views == [] then Walk([], false)
    else
      var page := PageOf(lt, After(lt, views[0], cursor), limit);
      if page.next.None? then Walk(page.items, true)
      else
        var rest := Follow(lt, views[1..], limit, page.next);
        Walk(page.items + rest.items, rest.finished)
  }

  /** A page cuts its rows at the cursor it hands out: nothing falls between the two. It hands one out
      only when there is more to come. */
  lemma PageCuts<T(!new)>(lt: (T, T) -> bool, rows: set<T>, limit: nat)
    requires StrictTotal(lt) && limit > 0
    ensures var page := PageOf(lt, rows, limit);
      && Ascending(lt, page.items)
      && Elements(page.items) <= rows
      && (page.next.None? ==> Elements(page.items) == rows)
      && (page.next.Some? ==>
            && |page.items| == limit
            && page.next.value in rows
            && (forall x :: x in page.items ==> x == page.next.value || lt(x, page.next.value))
            && (forall x :: x in rows ==> x in page.items || lt(page.next.value, x))
            && (exists x :: x in rows && lt(page.next.value, x)))
  {
    var listing := Listing(lt, rows);
    var page := PageOf(lt, rows, limit);
    if page.next.Some? {
      assert page.items == listing[..limit];
      assert page.next.value == listing[limit - 1];
      forall x | x in rows ensures x in page.items || lt(page.next.value, x) {
        var j :| 0 <= j < |listing| && listing[j] == x;
        if j < limit { assert page.items[j] == x; }
      }
      forall x | x in page.items ensures x in rows && (x == page.next.value || lt(x, page.next.value)) {
        var j :| 0 <= j < limit && page.items[j] == x;
        assert listing[j] == x;
        assert x in Elements(listing);
      }
      assert listing[limit - 1] in Elements(listing) && listing[limit] in Elements(listing);
      assert lt(page.next.value, listing[limit]);
    } else {
      assert page.items == listing;
    }
  }

  /** Whatever happens to the table between pages, no row is returned twice, the rows come
      in order across all pages, and each of them was in some view. */
  lemma {:induction false} FollowAscends<T(!new)>(lt: (T, T) -> bool, views: seq<set<T>>, limit: nat, cursor: Option<T>)
    requires StrictTotal(lt) && limit > 0
    ensures var items := Follow(lt, views, limit, cursor).items;
      && Ascending(lt, items)
      && (forall x :: x in items ==> cursor.None? || lt(cursor.value, x))
      && (forall x :: x in items ==> exists i :: 0 <= i < |views| && x in views[i])
    decreases |views|
  {
    if views != [] {
      var rows := After(lt, views[0], cursor);
      PageCuts(lt, rows, limit);
      var page := PageOf(lt, rows, limit);
      forall x | x in page.items ensures x in views[0] && (cursor.None? || lt(cursor.value, x)) {
        assert x in Elements(page.items);
      }
      if page.next.Some? {
        FollowAscends(lt, views[1..], limit, page.next);
        var rest := Follow(lt, views[1..], limit, page.next).items;
        forall x | x in rest ensures exists i :: 0 <= i < |views| && x in views[i] {
          var i :| 0 <= i < |views[1..]| && x in views[1..][i];
          assert x in views[i + 1];
        }
        forall x, y | x in page.items && y in rest ensures lt(x, y) {
          assert lt(page.next.value, y);
        }
        assert Ascending(lt, page.items + rest);
      }
    }
  }

  /** A finished walk has returned every row that stayed visible throughout. */
  lemma {:induction false} FollowReturnsStable<T(!new)>(
      lt: (T, T) -> bool, views: seq<set<T>>, limit: nat, cursor: Option<T>, x: T)
    requires StrictTotal(lt) && limit > 0
    requires Follow(lt, views, limit, cursor).finished
    requires forall i :: 0 <= i < |views| ==> x in views[i]
    requires cursor.None? || lt(cursor.value, x)
    ensures x in Follow(lt, views, limit, cursor).items
    decreases |views|
  {
    var rows := After(lt, views[0], cursor);
    PageCuts(lt, rows, limit);
    var page := PageOf(lt, rows, limit);
    if page.next.None? {
      assert x in Elements(page.items);
    } else if x !in page.items {
      FollowReturnsStable(lt, views[1..], limit, page.next, x);
    }
  }

  /** A walk that has not finished has returned `limit` rows for every page read, so it
      finishes as soon as that exceeds the number of rows there are. */
  lemma {:induction false} FollowTerminates<T(!new)>(
      lt: (T, T) -> bool, views: seq<set<T>>, limit: nat, cursor: Option<T>, universe: set<T>)
    requires StrictTotal(lt) && limit > 0
    requires forall i :: 0 <= i < |views| ==> views[i] <= universe
    requires |views| * limit > |universe|
    ensures Follow(lt, views, limit, cursor).finished
  {
    var walk := Follow(lt, views, limit, cursor);
    if !walk.finished {
      UnfinishedLength(lt, views, limit, cursor);
      FollowAscends(lt, views, limit, cursor);
      assert Elements(walk.items) <= universe;
      SubsetSize(Elements(walk.items), universe);
      ListingUnique(lt, walk.items);
      ListingLength(lt, Elements(walk.items));
    }
  }

  lemma {:induction false} UnfinishedLength<T(!new)>(
      lt: (T, T) -> bool, views: seq<set<T>>, limit: nat, cursor: Option<T>)
    requires StrictTotal(lt) && limit > 0
    requires !Follow(lt, views, limit, cursor).finished
    ensures |Follow(lt, views, limit, cursor).items| == |views| * limit
    decreases |views|
  {
    if views != [] {
      var rows := After(lt, views[0], cursor);
      var page := PageOf(lt, rows, limit);
      assert |page.items| == limit by { PageCuts(lt, rows, limit); }
      UnfinishedLength(lt, views[1..], limit, page.next);
      OneMore(|views[1..]|, limit);
    }
  }

  lemma OneMore(n: nat, limit: nat)
    ensures (n + 1) * limit == n * limit + limit
  {
  }

  /** Over data that does not change, the pages concatenate to the full sorted list. */
  lemma FollowFixed<T(!new)>(lt: (T, T) -> bool, views: seq<set<T>>, limit: nat, rows: set<T>)
    requires StrictTotal(lt) && limit > 0
    requires forall i :: 0 <= i < |views| ==> views[i] == rows
    requires Follow(lt, views, limit, None).finished
    ensures Follow(lt, views, limit, None).items == Listing(lt, rows)
  {
    var items := Follow(lt, views, limit, None).items;
    FollowAscends(lt, views, limit, None);
    forall x ensures x in Elements(items) <==> x in rows {
      if x in rows {
        FollowReturnsStable(lt, views, limit, None, x);
      }
    }
    assert Elements(items) == rows;
    ListingUnique(lt, items);
  }
}
