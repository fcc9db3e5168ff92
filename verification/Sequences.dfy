/** Lists without duplicates, and the few list operations every module shares. */
module Sequences {

  ghost predicate NoDup<T>(s: seq<T>) {
    forall i, j :: 0 <= i < j < |s| ==> s[i] != s[j]
  }

  function Elements<T(==)>(s: seq<T>): set<T> {
    set x | x in s
  }

  /** The entries of `s` that are in `keep`, in their order. */
  function Restrict<T(==, !new)>(s: seq<T>, keep: set<T>): (r: seq<T>)
    ensures forall x :: x in r <==> x in s && x in keep
  {
    if s == [] then []
    else if s[0] in keep then [s[0]] + Restrict(s[1..], keep)
    else Restrict(s[1..], keep)
  }

  /** The entries of `s` that are not in `drop`, in their order. */
  function Exclude<T(==, !new)>(s: seq<T>, drop: set<T>): (r: seq<T>)
    ensures forall x :: x in r <==> x in s && x !in drop
  {
    if s == [] then []
    else if s[0] in drop then Exclude(s[1..], drop)
    else [s[0]] + Exclude(s[1..], drop)
  }

  /** `splice(at, 0, x)`. */
  function InsertAt<T>(s: seq<T>, at: nat, x: T): seq<T>
    requires at <= |s|
  {
    s[..at] + [x] + s[at..]
  }

  lemma NoDupTail<T>(s: seq<T>)
    requires NoDup(s) && s != []
    ensures NoDup(s[1..]) && s[0] !in s[1..]
  {
  }

  lemma NoDupCons<T>(x: T, s: seq<T>)
    requires NoDup(s) && x !in s
    ensures NoDup([x] + s)
  {
  }

  lemma NoDupAppend<T>(a: seq<T>, b: seq<T>)
    requires NoDup(a) && NoDup(b)
    requires forall x :: x in a ==> x !in b
    ensures NoDup(a + b)
  {
    forall i, j | 0 <= i < j < |a + b|
      ensures (a + b)[i] != (a + b)[j]
    {
      if i < |a| <= j {
        assert (a + b)[i] in a && (a + b)[j] in b;
      }
    }
  }

  lemma {:induction false} RestrictNoDup<T(!new)>(s: seq<T>, keep: set<T>)
    requires NoDup(s)
    ensures NoDup(Restrict(s, keep))
  {
    if s != [] {
      RestrictNoDup(s[1..], keep);
    }
  }

  lemma {:induction false} ExcludeNoDup<T(!new)>(s: seq<T>, drop: set<T>)
    requires NoDup(s)
    ensures NoDup(Exclude(s, drop))
  {
    if s != [] {
      ExcludeNoDup(s[1..], drop);
    }
  }

  lemma {:induction false} RestrictAppend<T(!new)>(a: seq<T>, b: seq<T>, keep: set<T>)
    ensures Restrict(a + b, keep) == Restrict(a, keep) + Restrict(b, keep)
  {
    if a == [] {
      assert a + b == b;
    } else {
      assert (a + b)[1..] == a[1..] + b;
      RestrictAppend(a[1..], b, keep);
    }
  }

  lemma {:induction false} ExcludeAppend<T(!new)>(a: seq<T>, b: seq<T>, drop: set<T>)
    ensures Exclude(a + b, drop) == Exclude(a, drop) + Exclude(b, drop)
  {
    if a == [] {
      assert a + b == b;
    } else {
      assert (a + b)[1..] == a[1..] + b;
      ExcludeAppend(a[1..], b, drop);
    }
  }

  lemma {:induction false} RestrictAll<T(!new)>(s: seq<T>, keep: set<T>)
    requires forall x :: x in s ==> x in keep
    ensures Restrict(s, keep) == s
  {
    if s != [] {
      RestrictAll(s[1..], keep);
    }
  }

  lemma {:induction false} ExcludeNone<T(!new)>(s: seq<T>, drop: set<T>)
    requires forall x :: x in s ==> x !in drop
    ensures Exclude(s, drop) == s
  {
    if s != [] {
      ExcludeNone(s[1..], drop);
    }
  }

  lemma {:induction false} ExcludeAll<T(!new)>(s: seq<T>, drop: set<T>)
    requires forall x :: x in s ==> x in drop
    ensures Exclude(s, drop) == []
  {
    if s != [] {
      ExcludeAll(s[1..], drop);
    }
  }

  lemma {:induction false} RestrictTwice<T(!new)>(s: seq<T>, keep: set<T>, again: set<T>)
    ensures Restrict(Restrict(s, keep), again) == Restrict(s, keep * again)
  {
    if s != [] {
      RestrictTwice(s[1..], keep, again);
      assert ([s[0]] + Restrict(s[1..], keep))[1..] == Restrict(s[1..], keep);
    }
  }

  /** Only membership of the list's own entries matters to a filter. */
  lemma {:induction false} RestrictSame<T(!new)>(s: seq<T>, keep: set<T>, other: set<T>)
    requires forall x :: x in s ==> (x in keep <==> x in other)
    ensures Restrict(s, keep) == Restrict(s, other)
  {
    if s != [] {
      RestrictSame(s[1..], keep, other);
    }
  }

  lemma SubsetSize<T>(a: set<T>, b: set<T>)
    requires a <= b
    ensures |a| <= |b| && (a != b ==> |a| < |b|)
  {
    assert b == a + (b - a);
  }

  lemma NoDupCardinality<T>(s: seq<T>)
    requires NoDup(s)
    ensures |Elements(s)| == |s|
  {
    if s != [] {
      NoDupTail(s);
      NoDupCardinality(s[1..]);
      assert Elements(s) == {s[0]} + Elements(s[1..]);
    }
  }

  /** Two lists without duplicates over the same entries are equally long. */
  lemma SameLength<T>(a: seq<T>, b: seq<T>)
    requires NoDup(a) && NoDup(b)
    requires forall x :: x in a <==> x in b
    ensures |a| == |b|
  {
    NoDupCardinality(a);
    NoDupCardinality(b);
    assert Elements(a) == Elements(b);
  }
}
