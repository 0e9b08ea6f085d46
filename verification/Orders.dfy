/** Shared vocabulary: optional values, handler results, strict total orders, and the
    sorted listing of a finite set, which is what an SQL `ORDER BY` over a unique
    key produces. */
module Orders {

  datatype Option<+T> = None | Some(value: T)

  datatype Result<+T, +E> = Ok(value: T) | Err(error: E)

  ghost predicate StrictTotal<T(!new)>(lt: (T, T) -> bool) {
    && (forall x :: !lt(x, x))
    && (forall x, y, z :: lt(x, y) && lt(y, z) ==> lt(x, z))
    && (forall x, y :: x != y ==> lt(x, y) || lt(y, x))
  }

  ghost predicate Ascending<T>(lt: (T, T) -> bool, s: seq<T>) {
    forall i, j :: 0 <= i < j < |s| ==> lt(s[i], s[j])
  }

  ghost predicate IsLeast<T(!new)>(lt: (T, T) -> bool, s: set<T>, x: T) {
    x in s && forall y :: y in s && y != x ==> lt(x, y)
  }

  /** `DISTINCT ON` keeps the least row of a group; a non-empty finite group has one. */
  lemma {:induction false} LeastExists<T(!new)>(lt: (T, T) -> bool, s: set<T>)
    requires StrictTotal(lt) && s != {}
    ensures exists x :: IsLeast(lt, s, x)
    decreases |s|
  {
    var a :| a in s;
    var rest := s - {a};
    assert forall y :: y in s <==> y == a || y in rest;
    if rest == {} {
      assert IsLeast(lt, s, a);
    } else {
      LeastExists(lt, rest);
      var b :| IsLeast(lt, rest, b);
      if lt(a, b) {
        assert IsLeast(lt, s, a);
      } else {
        assert IsLeast(lt, s, b);
      }
    }
  }

  ghost function Least<T(!new)>(lt: (T, T) -> bool, s: set<T>): (x: T)
    requires StrictTotal(lt) && s != {}
    ensures IsLeast(lt, s, x)
  {
    LeastExists(lt, s);
    var x :| IsLeast(lt, s, x);
    x
  }

  function Elements<T>(s: seq<T>): set<T> {
    set x | x in s
  }

  ghost function Listing<T(!new)>(lt: (T, T) -> bool, s: set<T>): (r: seq<T>)
    requires StrictTotal(lt)
    ensures Ascending(lt, r) && Elements(r) == s
    decreases |s|
  {
    if s == {} then []
    else
      var x := Least(lt, s);
      var rest := Listing(lt, s - {x});
      assert forall y :: y in s <==> y == x || y in Elements(rest);
      [x] + rest
  }

  /** The listing is the only ascending sequence with these elements. */
  lemma {:induction false} ListingUnique<T(!new)>(lt: (T, T) -> bool, r: seq<T>)
    requires StrictTotal(lt) && Ascending(lt, r)
    ensures Listing(lt, Elements(r)) == r
    decreases |r|
  {
    if r != [] {
      var s := Elements(r);
      assert r[0] in s;
      forall y | y in s && y != r[0] ensures lt(r[0], y) {
        var j :| 0 <= j < |r| && r[j] == y;
      }
      assert IsLeast(lt, s, r[0]);
      var x := Least(lt, s);
      assert x == r[0];
      assert Elements(r[1..]) == s - {r[0]} by {
        forall y ensures y in Elements(r[1..]) <==> y in s - {r[0]} {
          if y in s - {r[0]} {
            var j :| 0 <= j < |r| && r[j] == y;
            assert r[1..][j - 1] == y;
          }
          if y in r[1..] {
            var j :| 0 <= j < |r[1..]| && r[1..][j] == y;
            assert r[j + 1] == y && lt(r[0], r[j + 1]);
          }
        }
      }
      ListingUnique(lt, r[1..]);
    }
  }

  lemma {:induction false} ListingLength<T(!new)>(lt: (T, T) -> bool, s: set<T>)
    requires StrictTotal(lt)
    ensures |Listing(lt, s)| == |s|
    decreases |s|
  {
    if s != {} {
      ListingLength(lt, s - {Least(lt, s)});
    }
  }

  /** What a limit cuts off an ascending list comes after all it keeps. */
  lemma PrefixComesFirst<T>(lt: (T, T) -> bool, all: seq<T>, n: nat, x: T)
    requires Ascending(lt, all) && n <= |all| && x in all && x !in all[..n]
    ensures forall y :: y in all[..n] ==> lt(y, x)
  {
    var j :| 0 <= j < |all| && all[j] == x;
    assert forall i :: 0 <= i < n ==> all[..n][i] == all[i] && all[..n][i] in all[..n];
    forall y | y in all[..n] ensures lt(y, x) {
      var i :| 0 <= i < n && all[..n][i] == y;
      assert all[i] == y;
    }
  }

  /** A set inside another and at least as large is the whole of it. */
  lemma SubsetBySize<T>(a: set<T>, b: set<T>)
    requires a <= b && |b| <= |a|
    ensures a == b
  {
    if x :| x in b && x !in a {
      SubsetSize(a + {x}, b);
    }
  }

  lemma {:induction false} SubsetSize<T>(a: set<T>, b: set<T>)
    requires a <= b
    ensures |a| <= |b|
    decreases |a|
  {
    if a != {} {
      var x :| x in a;
      SubsetSize(a - {x}, b - {x});
    }
  }

  /** An injective image has as many elements as its source. */
  lemma {:induction false} ImageSize<A, B>(s: set<A>, f: A -> B, image: set<B>)
    requires forall x, y :: x in s && y in s && f(x) == f(y) ==> x == y
    requires image == set x | x in s :: f(x)
    ensures |image| == |s|
    decreases |s|
  {
    if s != {} {
      var a :| a in s;
      var rest := s - {a};
      var smaller := set x | x in rest :: f(x);
      ImageSize(rest, f, smaller);
      assert image == smaller + {f(a)};
    }
  }
}
