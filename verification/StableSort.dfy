/**
 * `Array.prototype.sort` with a comparator, as ECMAScript specifies it (section
 * 23.1.3.30): stable, and determined by a comparator that is a consistent order.
 * Insertion is the reference; StableSortIsUnique shows that any stable algorithm
 * gives the same list.
 */
module StableSort {

  /** `le(a, b)` stands for `compare(a, b) <= 0`. */
  type Order<!T> = (T, T) -> bool

  /** A total order, ties aside, on the entries of one list. */
  ghost predicate ConsistentOn<T>(le: Order<T>, xs: seq<T>) {
    && (forall a, b :: a in xs && b in xs ==> le(a, b) || le(b, a))
    && (forall a, b, c :: a in xs && b in xs && c in xs && le(a, b) && le(b, c) ==> le(a, c))
  }

  ghost predicate Sorted<T>(xs: seq<T>, le: Order<T>) {
    forall i, j :: 0 <= i < j < |xs| ==> le(xs[i], xs[j])
  }

  function Insert<T>(x: T, xs: seq<T>, le: Order<T>): seq<T> {
    if xs == [] then [x]
    else if le(x, xs[0]) then [x] + xs
    else [xs[0]] + Insert(x, xs[1..], le)
  }

  function Sort<T>(xs: seq<T>, le: Order<T>): seq<T> {
    if xs == [] then [] else Insert(xs[0], Sort(xs[1..], le), le)
  }

  /** The entries equal to `x` for the comparator, in their order. */
  function Ties<T>(xs: seq<T>, x: T, le: Order<T>): seq<T> {
    if xs == [] then []
    else if le(x, xs[0]) && le(xs[0], x) then [xs[0]] + Ties(xs[1..], x, le)
    else Ties(xs[1..], x, le)
  }

  lemma {:induction false} InsertPermutes<T>(x: T, xs: seq<T>, le: Order<T>)
    ensures multiset(Insert(x, xs, le)) == multiset([x] + xs)
  {
    if xs != [] && !le(x, xs[0]) {
      InsertPermutes(x, xs[1..], le);
      assert xs == [xs[0]] + xs[1..];
    }
  }

  lemma InsertMember<T>(x: T, xs: seq<T>, le: Order<T>, y: T)
    ensures y in Insert(x, xs, le) <==> y == x || y in xs
  {
    InsertPermutes(x, xs, le);
    assert y in Insert(x, xs, le) <==> y in multiset(Insert(x, xs, le));
  }

  lemma {:induction false} SortPermutes<T>(xs: seq<T>, le: Order<T>)
    ensures multiset(Sort(xs, le)) == multiset(xs)
    ensures |Sort(xs, le)| == |xs|
  {
    if xs != [] {
      SortPermutes(xs[1..], le);
      InsertPermutes(xs[0], Sort(xs[1..], le), le);
      assert xs == [xs[0]] + xs[1..];
    }
    assert |multiset(Sort(xs, le))| == |multiset(xs)|;
  }

  lemma SortMember<T>(xs: seq<T>, le: Order<T>, y: T)
    ensures y in Sort(xs, le) <==> y in xs
  {
    SortPermutes(xs, le);
    assert y in Sort(xs, le) <==> y in multiset(Sort(xs, le));
  }

  lemma {:induction false} InsertSorts<T>(x: T, xs: seq<T>, le: Order<T>)
    requires ConsistentOn(le, [x] + xs) && Sorted(xs, le)
    ensures Sorted(Insert(x, xs, le), le)
  {
    assert x in [x] + xs && forall y :: y in xs ==> y in [x] + xs;
    if xs == [] {
    } else if le(x, xs[0]) {
      forall j | 0 <= j < |xs| ensures le(x, xs[j]) {
        assert xs[j] in [x] + xs && xs[0] in [x] + xs;
      }
    } else {
      assert xs[0] in [x] + xs && le(xs[0], x);
      assert forall y :: y in [x] + xs[1..] ==> y in [x] + xs;
      InsertSorts(x, xs[1..], le);
      var tail := Insert(x, xs[1..], le);
      forall j | 0 <= j < |tail| ensures le(xs[0], tail[j]) {
        InsertMember(x, xs[1..], le, tail[j]);
      }
    }
  }

  lemma {:induction false} SortSorts<T>(xs: seq<T>, le: Order<T>)
    requires ConsistentOn(le, xs)
    ensures Sorted(Sort(xs, le), le)
  {
    if xs != [] {
      SortSorts(xs[1..], le);
      var rest := Sort(xs[1..], le);
      forall j | 0 <= j < |rest| ensures rest[j] in xs {
        SortMember(xs[1..], le, rest[j]);
      }
      InsertSorts(xs[0], Sort(xs[1..], le), le);
    }
  }

  lemma {:induction false} InsertKeepsTies<T>(y: T, xs: seq<T>, le: Order<T>, x: T)
    requires ConsistentOn(le, [x, y] + xs)
    ensures Ties(Insert(y, xs, le), x, le) == Ties([y] + xs, x, le)
  {
    assert ([y] + xs)[1..] == xs;
    if xs != [] && !le(y, xs[0]) {
      var all := [x, y] + xs;
      assert x == all[0] && y == all[1] && xs[0] == all[2];
      forall z | z in [x, y] + xs[1..] ensures z in all {
      }
      InsertKeepsTies(y, xs[1..], le, x);
      assert ([y] + xs[1..])[1..] == xs[1..];
    }
  }

  /** The sort never reorders entries the comparator ties. */
  lemma {:induction false} SortKeepsTies<T>(xs: seq<T>, le: Order<T>, x: T)
    requires ConsistentOn(le, [x] + xs)
    ensures Ties(Sort(xs, le), x, le) == Ties(xs, x, le)
  {
    if xs != [] {
      var rest := Sort(xs[1..], le);
      forall z | z in [x] + xs[1..] ensures z in [x] + xs {
      }
      SortKeepsTies(xs[1..], le, x);
      forall z | z in [x, xs[0]] + rest ensures z in [x] + xs {
        SortMember(xs[1..], le, z);
      }
      InsertKeepsTies(xs[0], rest, le, x);
      assert ([xs[0]] + rest)[1..] == rest;
    }
  }

  lemma {:induction false} TiesMember<T>(xs: seq<T>, x: T, le: Order<T>, y: T)
    ensures y in Ties(xs, x, le) <==> y in xs && le(x, y) && le(y, x)
  {
    if xs != [] {
      TiesMember(xs[1..], x, le, y);
    }
  }

  /**
   * Two sorted lists that agree on the order of every group of ties are the same
   * list, so a stable sort is determined by its comparator.
   */
  lemma {:induction false} StableSortIsUnique<T(!new)>(xs: seq<T>, ys: seq<T>, le: Order<T>)
    requires Sorted(xs, le) && Sorted(ys, le)
    requires forall a :: a in xs || a in ys ==> le(a, a)
    requires forall a :: a in xs || a in ys ==> Ties(xs, a, le) == Ties(ys, a, le)
    ensures xs == ys
  {
    if xs == [] && ys == [] {
      return;
    }
    if xs == [] {
      TiesMember(ys, ys[0], le, ys[0]);
      TiesMember(xs, ys[0], le, ys[0]);
      assert false;
    } else {
      var a := xs[0];
      TiesMember(xs, a, le, a);
      TiesMember(ys, a, le, a);
      var b := ys[0];
      TiesMember(ys, b, le, b);
      TiesMember(xs, b, le, b);
      assert le(a, b) && le(b, a);
      assert Ties(xs, a, le)[0] == a && Ties(ys, a, le)[0] == b;
      forall c | c in xs[1..] || c in ys[1..]
        ensures Ties(xs[1..], c, le) == Ties(ys[1..], c, le)
      {
        assert Ties(xs, c, le) == Ties(ys, c, le);
        if le(c, a) && le(a, c) {
          assert Ties(xs, c, le) == [a] + Ties(xs[1..], c, le);
          assert Ties(ys, c, le) == [a] + Ties(ys[1..], c, le);
          assert Ties(xs[1..], c, le) == Ties(xs, c, le)[1..];
        }
      }
      StableSortIsUnique(xs[1..], ys[1..], le);
    }
  }

  /** Sorting a sorted list changes nothing. */
  lemma {:induction false} SortStays<T>(xs: seq<T>, le: Order<T>)
    requires Sorted(xs, le)
    ensures Sort(xs, le) == xs
  {
    if xs != [] {
      SortStays(xs[1..], le);
    }
  }

  lemma {:induction false} InsertAgrees<T>(x: T, xs: seq<T>, le: Order<T>, other: Order<T>)
    requires forall y :: y in xs ==> le(x, y) == other(x, y)
    ensures Insert(x, xs, le) == Insert(x, xs, other)
  {
    if xs != [] && !le(x, xs[0]) {
      InsertAgrees(x, xs[1..], le, other);
    }
  }

  /** Only how a comparator orders the list's own entries matters. */
  lemma {:induction false} SortAgrees<T>(xs: seq<T>, le: Order<T>, other: Order<T>)
    requires forall x, y :: x in xs && y in xs ==> le(x, y) == other(x, y)
    ensures Sort(xs, le) == Sort(xs, other)
  {
    if xs != [] {
      SortAgrees(xs[1..], le, other);
      forall y | y in Sort(xs[1..], le) ensures le(xs[0], y) == other(xs[0], y) {
        SortMember(xs[1..], le, y);
      }
      InsertAgrees(xs[0], Sort(xs[1..], le), le, other);
    }
  }
}
