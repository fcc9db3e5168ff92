/**
 * The list algebra of a move: what a surface draws from a record (`byOrder`)
 * and the record a move on what it drew makes (`movedOrder`).
 */
module ProviderList {
  import opened Sequences
  import opened OrderRecord
  import opened StableSort

  // ------------------------------------------------------------- the drawing

  /** The rank `byOrder` looks up: a later duplicate wins, an unnamed code comes after all. */
  function Rank(providers: seq<Code>, code: Code): nat {
    if code in providers then LastIndex(providers, code) else |Elements(providers)|
  }

  function LastIndex(providers: seq<Code>, code: Code): (k: nat)
    requires code in providers
    ensures k < |providers| && providers[k] == code
    ensures forall j :: k < j < |providers| ==> providers[j] != code
  {
    var last := |providers| - 1;
    if providers[last] == code then last else LastIndex(providers[..last], code)
  }

  function ByRank(providers: seq<Code>): StableSort.Order<Code> {
    (left, right) => Rank(providers, left) <= Rank(providers, right)
  }

  /** The codes of `model` as a surface draws them from `order`. */
  function ByOrder(model: seq<Code>, order: OrderRecord.Order): seq<Code> {
    if order.mode != Custom then model else Sort(model, ByRank(order.providers))
  }

  lemma RankOfEntry(providers: seq<Code>, k: nat)
    requires NoDup(providers) && k < |providers|
    ensures Rank(providers, providers[k]) == k
  {
  }

  lemma {:induction false} InsertUnnamed(x: Code, named: seq<Code>, rest: seq<Code>, providers: seq<Code>)
    requires NoDup(providers) && x !in providers
    requires forall y :: y in named ==> y in providers
    requires forall y :: y in rest ==> y !in providers
    ensures Insert(x, named + rest, ByRank(providers)) == named + [x] + rest
  {
    NoDupCardinality(providers);
    if named == [] {
      assert named + rest == rest;
    } else {
      assert (named + rest)[1..] == named[1..] + rest;
      InsertUnnamed(x, named[1..], rest, providers);
    }
  }

  /** A named code goes in front of what is named after it and of what is not named. */
  lemma InsertHere(providers: seq<Code>, k: nat, keep: set<Code>, rest: seq<Code>)
    requires NoDup(providers) && k < |providers| && providers[k] !in keep
    requires forall y :: y in rest ==> y !in providers
    ensures Insert(providers[k], Restrict(providers[k + 1..], keep) + rest, ByRank(providers))
         == [providers[k]] + (Restrict(providers[k + 1..], keep) + rest)
  {
    NoDupCardinality(providers);
    var after := Restrict(providers[k + 1..], keep) + rest;
    if after != [] {
      var y := after[0];
      assert y in after;
      assert Rank(providers, providers[k]) <= Rank(providers, y);
    }
  }

  lemma RestrictFrom(providers: seq<Code>, j: nat, keep: set<Code>)
    requires j < |providers|
    ensures Restrict(providers[j..], keep)
         == (if providers[j] in keep then [providers[j]] + Restrict(providers[j + 1..], keep)
             else Restrict(providers[j + 1..], keep))
  {
    assert providers[j..][1..] == providers[j + 1..];
  }

  lemma {:induction false} InsertNamed(providers: seq<Code>, j: nat, k: nat, keep: set<Code>, rest: seq<Code>)
    requires NoDup(providers) && j <= k < |providers| && providers[k] !in keep
    requires forall y :: y in rest ==> y !in providers
    ensures Insert(providers[k], Restrict(providers[j..], keep) + rest, ByRank(providers))
         == Restrict(providers[j..], keep + {providers[k]}) + rest
    decreases k - j
  {
    var x := providers[k];
    RestrictFrom(providers, j, keep);
    RestrictFrom(providers, j, keep + {x});
    if j == k {
      InsertHere(providers, k, keep, rest);
      RestrictSame(providers[k + 1..], keep, keep + {x});
      JoinFirst(x, Restrict(providers[k + 1..], keep), rest);
    } else {
      InsertNamed(providers, j + 1, k, keep, rest);
      if providers[j] in keep {
        RankOfEntry(providers, j);
        RankOfEntry(providers, k);
        InsertPast(x, providers[j], Restrict(providers[j + 1..], keep) + rest, providers);
        JoinFirst(providers[j], Restrict(providers[j + 1..], keep), rest);
        JoinFirst(providers[j], Restrict(providers[j + 1..], keep + {x}), rest);
      }
    }
  }

  lemma JoinFirst(first: Code, named: seq<Code>, rest: seq<Code>)
    ensures ([first] + named) + rest == [first] + (named + rest)
  {
  }

  lemma InsertPast(x: Code, first: Code, tail: seq<Code>, providers: seq<Code>)
    requires Rank(providers, first) < Rank(providers, x)
    ensures Insert(x, [first] + tail, ByRank(providers)) == [first] + Insert(x, tail, ByRank(providers))
  {
    assert ([first] + tail)[1..] == tail;
  }

  /** The named codes in the list's order, then the others in the model's. */
  function NamedFirst(model: seq<Code>, providers: seq<Code>): seq<Code> {
    Restrict(providers, Elements(model)) + Exclude(model, Elements(providers))
  }

  lemma InsertKeepsNamedFirst(x: Code, rest: seq<Code>, providers: seq<Code>)
    requires NoDup(providers) && x !in rest
    ensures Insert(x, NamedFirst(rest, providers), ByRank(providers)) == NamedFirst([x] + rest, providers)
  {
    var named, others := Restrict(providers, Elements(rest)), Exclude(rest, Elements(providers));
    assert ([x] + rest)[1..] == rest;
    assert Elements([x] + rest) == Elements(rest) + {x};
    if x in providers {
      assert providers[0..] == providers;
      InsertNamed(providers, 0, LastIndex(providers, x), Elements(rest), others);
    } else {
      InsertUnnamed(x, named, others, providers);
      RestrictSame(providers, Elements(rest), Elements([x] + rest));
      assert named + [x] + others == named + ([x] + others);
    }
  }

  /**
   * Most used first is the model's own order. A person's own order is the codes
   * their list names, in the list's order, then the others, in the model's.
   */
  lemma {:induction false} ByOrderMeaning(model: seq<Code>, order: OrderRecord.Order)
    requires NoDup(model) && NoDup(order.providers)
    ensures ByOrder(model, order)
         == if order.mode == Usage then model
            else Restrict(order.providers, Elements(model)) + Exclude(model, Elements(order.providers))
  {
    if order.mode == Custom {
      if model == [] {
        RestrictNothing(order.providers);
      } else {
        NoDupTail(model);
        ByOrderMeaning(model[1..], order);
        InsertKeepsNamedFirst(model[0], model[1..], order.providers);
        assert [model[0]] + model[1..] == model;
      }
    }
  }

  /** Drawing what was drawn from a record changes nothing. */
  lemma ByOrderTwice(model: seq<Code>, order: OrderRecord.Order)
    ensures ByOrder(ByOrder(model, order), order) == ByOrder(model, order)
  {
    if order.mode == Custom {
      SortSorts(model, ByRank(order.providers));
      SortStays(Sort(model, ByRank(order.providers)), ByRank(order.providers));
    }
  }

  lemma {:induction false} RestrictNothing(s: seq<Code>)
    ensures Restrict(s, {}) == [] && Restrict(s, Elements<Code>([])) == []
  {
    assert Elements<Code>([]) == {};
    if s != [] {
      RestrictNothing(s[1..]);
    }
  }

  // ---------------------------------------------------------------- the move

  function Clamp(to: int, last: nat): nat {
    if to < 0 then 0 else if to > last then last else to
  }

  /** The shown list with `code` at position `to`, clamped to the list. */
  function Moved(shown: seq<Code>, code: Code, to: int): seq<Code> {
    var rest := Exclude(shown, {code});
    InsertAt(rest, Clamp(to, |rest|), code)
  }

  /** `stored` with its visible entries replaced, in turn, by those of `next`; what is left joins after. */
  function Fill(stored: seq<Code>, visible: set<Code>, next: seq<Code>): seq<Code>
    requires |Restrict(stored, visible)| <= |next|
  {
    if stored == [] then next
    else if stored[0] in visible then [next[0]] + Fill(stored[1..], visible, next[1..])
    else [stored[0]] + Fill(stored[1..], visible, next)
  }

  function MovedOrder(stored: seq<Code>, shown: seq<Code>, code: Code, to: int): seq<Code>
    requires NoDup(stored)
  {
    MoveFits(stored, shown, code, to);
    Fill(stored, Elements(shown), Moved(shown, code, to))
  }

  lemma MovedElements(shown: seq<Code>, code: Code, to: int)
    ensures Elements(Moved(shown, code, to)) == Elements(shown) + {code}
    ensures NoDup(shown) ==> NoDup(Moved(shown, code, to))
    ensures NoDup(shown) && code in shown ==> |Moved(shown, code, to)| == |shown|
  {
    var rest := Exclude(shown, {code});
    InsertedElements(rest, Clamp(to, |rest|), code);
    if NoDup(shown) {
      ExcludeNoDup(shown, {code});
      if code in shown {
        assert Elements(rest) + {code} == Elements(shown);
        assert forall x :: x in Moved(shown, code, to) <==> x in Elements(Moved(shown, code, to));
        SameLength(Moved(shown, code, to), shown);
      }
    }
  }

  lemma InsertedElements(rest: seq<Code>, at: nat, code: Code)
    requires at <= |rest| && code !in rest
    ensures Elements(InsertAt(rest, at, code)) == Elements(rest) + {code}
    ensures NoDup(rest) ==> NoDup(InsertAt(rest, at, code))
  {
    var r := InsertAt(rest, at, code);
    assert forall k :: 0 <= k < |r| ==> r[k] == if k < at then rest[k] else if k == at then code else rest[k - 1];
    forall x | x in rest ensures x in r {
      var k :| 0 <= k < |rest| && rest[k] == x;
      assert r[if k < at then k else k + 1] == x;
    }
    assert r[at] == code;
  }

  /** The replaced list never runs out while the stored one is filled. */
  lemma MoveFits(stored: seq<Code>, shown: seq<Code>, code: Code, to: int)
    requires NoDup(stored)
    ensures |Restrict(stored, Elements(shown))| <= |Moved(shown, code, to)|
  {
    var named, next := Restrict(stored, Elements(shown)), Moved(shown, code, to);
    RestrictNoDup(stored, Elements(shown));
    NoDupCardinality(named);
    MovedElements(shown, code, to);
    assert Elements(named) <= Elements(next);
    SubsetSize(Elements(named), Elements(next));
    ElementsSize(next);
  }

  lemma {:induction false} ElementsSize<T>(s: seq<T>)
    ensures |Elements(s)| <= |s|
  {
    if s != [] {
      ElementsSize(s[1..]);
      assert Elements(s) == {s[0]} + Elements(s[1..]);
    }
  }

  /** Hidden entries keep their places and the visible places take `next` in turn. */
  lemma {:induction false} FillShape(stored: seq<Code>, visible: set<Code>, next: seq<Code>)
    requires |Restrict(stored, visible)| <= |next|
    requires forall x :: x in next ==> x in visible
    ensures var r := Fill(stored, visible, next);
            && |r| == |stored| + |next| - |Restrict(stored, visible)|
            && Restrict(r, visible) == next
            && (forall k :: 0 <= k < |stored| && stored[k] !in visible ==> r[k] == stored[k])
            && (forall k :: 0 <= k < |r| && (k >= |stored| || stored[k] in visible) ==> r[k] in visible)
  {
    if stored == [] {
      RestrictAll(next, visible);
    } else if stored[0] in visible {
      FillShape(stored[1..], visible, next[1..]);
    } else {
      FillShape(stored[1..], visible, next);
    }
  }

  lemma {:induction false} FillElements(stored: seq<Code>, visible: set<Code>, next: seq<Code>)
    requires |Restrict(stored, visible)| <= |next|
    ensures forall x :: x in Fill(stored, visible, next) <==> x in next || (x in stored && x !in visible)
  {
    if stored == [] {
    } else if stored[0] in visible {
      FillElements(stored[1..], visible, next[1..]);
      assert next == [next[0]] + next[1..];
    } else {
      FillElements(stored[1..], visible, next);
    }
  }

  lemma {:induction false} FillNoDup(stored: seq<Code>, visible: set<Code>, next: seq<Code>)
    requires |Restrict(stored, visible)| <= |next|
    requires NoDup(stored) && NoDup(next) && forall x :: x in next ==> x in visible
    ensures NoDup(Fill(stored, visible, next))
  {
    if stored == [] {
    } else if stored[0] in visible {
      FillNoDup(stored[1..], visible, next[1..]);
      FillElements(stored[1..], visible, next[1..]);
      NoDupCons(next[0], Fill(stored[1..], visible, next[1..]));
    } else {
      FillNoDup(stored[1..], visible, next);
      FillElements(stored[1..], visible, next);
      NoDupCons(stored[0], Fill(stored[1..], visible, next));
    }
  }

  /** Filling twice is filling with the later list. */
  lemma {:induction false} FillFill(stored: seq<Code>, visible: set<Code>, first: seq<Code>, second: seq<Code>)
    requires |Restrict(stored, visible)| <= |first| == |second|
    requires forall x :: x in first ==> x in visible
    ensures |Restrict(Fill(stored, visible, first), visible)| <= |second|
    ensures Fill(Fill(stored, visible, first), visible, second) == Fill(stored, visible, second)
  {
    FillShape(stored, visible, first);
    if stored == [] {
      FillOver(first, visible, second);
    } else if stored[0] in visible {
      FillFill(stored[1..], visible, first[1..], second[1..]);
    } else {
      FillFill(stored[1..], visible, first, second);
    }
  }

  lemma {:induction false} FillOver(first: seq<Code>, visible: set<Code>, second: seq<Code>)
    requires |first| == |second| && forall x :: x in first ==> x in visible
    ensures |Restrict(first, visible)| <= |second| && Fill(first, visible, second) == second
  {
    RestrictAll(first, visible);
    if first != [] {
      FillOver(first[1..], visible, second[1..]);
    }
  }

  lemma {:induction false} FillBack(stored: seq<Code>, visible: set<Code>)
    ensures Fill(stored, visible, Restrict(stored, visible)) == stored
  {
    if stored != [] {
      FillBack(stored[1..], visible);
    }
  }

  // ------------------------------------------------------ what a move promises

  /** The codes of the record a move makes: those stored, those shown and the one moved. */
  lemma MovedOrderElements(stored: seq<Code>, shown: seq<Code>, code: Code, to: int)
    requires NoDup(stored) && code in shown
    ensures Elements(MovedOrder(stored, shown, code, to)) == Elements(stored) + Elements(shown)
    ensures NoDup(shown) ==> NoDup(MovedOrder(stored, shown, code, to))
  {
    MoveFits(stored, shown, code, to);
    MovedElements(shown, code, to);
    var next := Moved(shown, code, to);
    forall x ensures x in next <==> x in shown {
      assert x in next <==> x in Elements(next);
    }
    FillElements(stored, Elements(shown), next);
    if NoDup(shown) {
      FillNoDup(stored, Elements(shown), next);
    }
  }

  /**
   * Drawn over the shown blocks in any order they come in, the new record is the
   * shown list with the block at its (clamped) position; and every provider the
   * list names but the surface does not show keeps its index.
   */
  lemma MoveThenDraw(stored: seq<Code>, shown: seq<Code>, code: Code, to: int, model: seq<Code>, revision: nat)
    requires NoDup(stored) && NoDup(shown) && code in shown
    requires NoDup(model) && Elements(model) == Elements(shown)
    ensures var r := MovedOrder(stored, shown, code, to);
            && ByOrder(model, Order(Custom, r, revision)) == Moved(shown, code, to)
            && |stored| <= |r|
            && forall k :: 0 <= k < |stored| && stored[k] !in shown ==> r[k] == stored[k]
  {
    var next, r := Moved(shown, code, to), MovedOrder(stored, shown, code, to);
    MoveFits(stored, shown, code, to);
    MovedElements(shown, code, to);
    forall x | x in next ensures x in Elements(shown) {
      assert x in Elements(next);
    }
    FillShape(stored, Elements(shown), next);
    MovedOrderElements(stored, shown, code, to);
    ByOrderMeaning(model, Order(Custom, r, revision));
    forall x | x in model ensures x in Elements(r) {
      assert x in Elements(model);
    }
    ExcludeAll(model, Elements(r));
  }

  /** Of the new record the shown codes are the shown list with the block moved. */
  lemma MoveShown(stored: seq<Code>, shown: seq<Code>, code: Code, to: int)
    requires NoDup(stored) && code in shown
    ensures Restrict(MovedOrder(stored, shown, code, to), Elements(shown)) == Moved(shown, code, to)
  {
    var next := Moved(shown, code, to);
    MoveFits(stored, shown, code, to);
    MovedElements(shown, code, to);
    forall x | x in next ensures x in Elements(shown) {
      assert x in Elements(next);
    }
    FillShape(stored, Elements(shown), next);
  }

  /**
   * The new record drawn over a list that has changed since: the moved list without
   * the blocks that are gone, then the newcomers as they came, when the stored list
   * names none of those.
   */
  lemma MoveThenDrawOthers(stored: seq<Code>, shown: seq<Code>, code: Code, to: int, others: seq<Code>, revision: nat)
    requires NoDup(stored) && NoDup(shown) && code in shown && NoDup(others)
    requires forall x :: x in others && x in stored ==> x in shown
    ensures var kept := Restrict(Moved(shown, code, to), Elements(others)) + Exclude(others, Elements(shown));
            ByOrder(kept, Order(Custom, MovedOrder(stored, shown, code, to), revision)) == kept
  {
    var moved, list := Moved(shown, code, to), MovedOrder(stored, shown, code, to);
    var named, newcomers := Restrict(moved, Elements(others)), Exclude(others, Elements(shown));
    MovedElements(shown, code, to);
    MovedOrderElements(stored, shown, code, to);
    MoveShown(stored, shown, code, to);
    RestrictNoDup(moved, Elements(others));
    ExcludeNoDup(others, Elements(shown));
    MovedCodes(shown, code, to);
    NoDupAppend(named, newcomers);
    ByOrderMeaning(named + newcomers, Order(Custom, list, revision));
    RestrictTwice(list, Elements(shown), Elements(others));
    forall x | x in list ensures x in Elements(named + newcomers) <==> x in Elements(shown) * Elements(others) {
      assert x in Elements(stored) + Elements(shown);
    }
    RestrictSame(list, Elements(named + newcomers), Elements(shown) * Elements(others));
    ExcludeAppend(named, newcomers, Elements(list));
    forall x | x in named ensures x in Elements(list) {
      assert x in Elements(list) <==> x in Elements(stored) + Elements(shown);
    }
    ExcludeAll(named, Elements(list));
    forall x | x in newcomers ensures x !in Elements(list) {
      assert x in Elements(list) <==> x in Elements(stored) + Elements(shown);
    }
    ExcludeNone(newcomers, Elements(list));
    assert [] + newcomers == newcomers;
  }

  lemma MovedCodes(shown: seq<Code>, code: Code, to: int)
    requires code in shown
    ensures forall x :: x in Moved(shown, code, to) <==> x in shown
  {
    MovedElements(shown, code, to);
    forall x ensures x in Moved(shown, code, to) <==> x in shown {
      assert x in Moved(shown, code, to) <==> x in Elements(Moved(shown, code, to));
    }
  }

  lemma ExcludeInserted(rest: seq<Code>, at: nat, code: Code)
    requires at <= |rest| && code !in rest
    ensures Exclude(InsertAt(rest, at, code), {code}) == rest
  {
    var before, after := rest[..at], rest[at..];
    assert rest == before + after;
    assert InsertAt(rest, at, code) == before + ([code] + after);
    ExcludeAppend(before, [code] + after, {code});
    ExcludeNone(before, {code});
    ExcludeFirst(after, code);
  }

  lemma ExcludeFirst(after: seq<Code>, code: Code)
    requires code !in after
    ensures Exclude([code] + after, {code}) == after
  {
    assert ([code] + after)[1..] == after;
    ExcludeNone(after, {code});
  }

  /** Where the moved block stands: the others keep their order around it. */
  lemma MovedPlaces(shown: seq<Code>, code: Code, to: int)
    requires NoDup(shown) && code in shown
    ensures var r := Moved(shown, code, to);
            && |r| == |shown|
            && r[if to < 0 then 0 else if to >= |shown| then |shown| - 1 else to] == code
            && Exclude(r, {code}) == Exclude(shown, {code})
  {
    var rest := Exclude(shown, {code});
    MovedElements(shown, code, to);
    ExcludeInserted(rest, Clamp(to, |rest|), code);
  }

  lemma MoveBackShown(shown: seq<Code>, from: nat, to: int)
    requires NoDup(shown) && from < |shown|
    ensures Moved(Moved(shown, shown[from], to), shown[from], from) == shown
  {
    var code, rest := shown[from], shown[..from] + shown[from + 1..];
    MovedPlaces(shown, code, to);
    assert shown == InsertAt(rest, from, code);
    ExcludeInserted(rest, from, code);
  }

  /**
   * Moving a block and moving it back restores the whole stored list, the entries
   * the surface does not show included, when what is shown is the stored list.
   */
  lemma MoveAndMoveBack(stored: seq<Code>, shown: seq<Code>, from: nat, to: int)
    requires NoDup(stored) && from < |shown|
    requires shown == Restrict(stored, Elements(shown))
    ensures var r := MovedOrder(stored, shown, shown[from], to);
            && NoDup(r)
            && MovedOrder(r, Moved(shown, shown[from], to), shown[from], from) == stored
  {
    var code, visible := shown[from], Elements(shown);
    RestrictNoDup(stored, visible);
    var next, r := Moved(shown, code, to), MovedOrder(stored, shown, code, to);
    MoveFits(stored, shown, code, to);
    MovedElements(shown, code, to);
    MovedOrderElements(stored, shown, code, to);
    MoveBackShown(shown, from, to);
    MoveFits(r, next, code, from);
    assert Elements(next) == visible;
    forall x | x in next ensures x in visible {
      assert x in Elements(next);
    }
    FillFill(stored, visible, next, shown);
    FillBack(stored, visible);
  }

  /** Naming the newcomers at the end of the list moves no block: what is drawn stays as it is drawn. */
  lemma AppendMovesNothing(model: seq<Code>, stored: seq<Code>, revision: nat, next: nat)
    requires NoDup(model) && NoDup(stored)
    ensures var shown := ByOrder(model, Order(Custom, stored, revision));
            ByOrder(model, Order(Custom, stored + Exclude(shown, Elements(stored)), next)) == shown
  {
    var named, others := Restrict(stored, Elements(model)), Exclude(model, Elements(stored));
    ByOrderMeaning(model, Order(Custom, stored, revision));
    ExcludeAppend(named, others, Elements(stored));
    ExcludeAll(named, Elements(stored));
    ExcludeNone(others, Elements(stored));
    ExcludeNoDup(model, Elements(stored));
    NoDupAppend(stored, others);
    assert [] + others == others;
    ByOrderMeaning(model, Order(Custom, stored + others, next));
    RestrictAppend(stored, others, Elements(model));
    RestrictAll(others, Elements(model));
    ExcludeAll(model, Elements(stored + others));
  }

  // ----------------------------------------------------------- the shipped loop

  lemma FillNext(stored: seq<Code>, i: nat, visible: set<Code>, next: seq<Code>)
    requires i < |stored| && |Restrict(stored[i..], visible)| <= |next|
    ensures if stored[i] in visible
            then && next != [] && |Restrict(stored[i + 1..], visible)| <= |next[1..]|
                 && Fill(stored[i..], visible, next) == [next[0]] + Fill(stored[i + 1..], visible, next[1..])
            else && |Restrict(stored[i + 1..], visible)| <= |next|
                 && Fill(stored[i..], visible, next) == [stored[i]] + Fill(stored[i + 1..], visible, next)
  {
    assert stored[i..][1..] == stored[i + 1..];
  }

  lemma Regroup(r: seq<Code>, entry: Code, rest: seq<Code>)
    ensures r + ([entry] + rest) == (r + [entry]) + rest
  {
  }

  /** The shipped form: one pass over the stored list that consumes a local array. */
  method ComputeMovedOrder(stored: seq<Code>, shown: seq<Code>, code: Code, to: int) returns (r: seq<Code>)
    requires NoDup(stored)
    ensures r == MovedOrder(stored, shown, code, to)
  {
    var next := Exclude(shown, {code});
    var at := if to < |next| then to else |next|;
    at := if at > 0 then at else 0;
    next := next[..at] + [code] + next[at..];
    var visible := Elements(shown);
    MoveFits(stored, shown, code, to);
    ghost var whole := MovedOrder(stored, shown, code, to);
    assert next == Moved(shown, code, to) && stored[0..] == stored;
    r := [];
    for i := 0 to |stored|
      invariant |Restrict(stored[i..], visible)| <= |next|
      invariant r + Fill(stored[i..], visible, next) == whole
    {
      FillNext(stored, i, visible, next);
      if stored[i] in visible {
        Regroup(r, next[0], Fill(stored[i + 1..], visible, next[1..]));
        r := r + [next[0]];
        next := next[1..];
      } else {
        Regroup(r, stored[i], Fill(stored[i + 1..], visible, next));
        r := r + [stored[i]];
      }
    }
    assert Fill(stored[|stored|..], visible, next) == next;
    r := r + next;
  }
}
