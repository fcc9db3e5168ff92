/** Putting a list's blocks in order inside its mount, without taking the held one out of the document. */
module Arrange {
  import opened Sequences

  /** A child of the mount: a provider block, or anything else the list holds. */
  datatype Child = Block(code: string) | Other(id: nat)

  function Blocks(children: seq<Child>): seq<Child> {
    if children == [] then []
    else if children[0].Block? then [children[0]] + Blocks(children[1..])
    else Blocks(children[1..])
  }

  function Others(children: seq<Child>): seq<Child> {
    if children == [] then []
    else if children[0].Block? then Others(children[1..])
    else [children[0]] + Others(children[1..])
  }

  lemma {:induction false} BlocksAppend(a: seq<Child>, b: seq<Child>)
    ensures Blocks(a + b) == Blocks(a) + Blocks(b)
  {
    if a == [] {
      assert a + b == b;
    } else {
      assert (a + b)[0] == a[0] && (a + b)[1..] == a[1..] + b;
      BlocksAppend(a[1..], b);
    }
  }

  lemma {:induction false} OthersAppend(a: seq<Child>, b: seq<Child>)
    ensures Others(a + b) == Others(a) + Others(b)
  {
    if a == [] {
      assert a + b == b;
    } else {
      assert (a + b)[0] == a[0] && (a + b)[1..] == a[1..] + b;
      OthersAppend(a[1..], b);
    }
  }

  lemma SplitAppend(a: seq<Child>, b: seq<Child>)
    ensures Blocks(a + b) == Blocks(a) + Blocks(b) && Others(a + b) == Others(a) + Others(b)
  {
    BlocksAppend(a, b);
    OthersAppend(a, b);
  }

  lemma {:induction false} AllBlocks(s: seq<Child>)
    requires forall c :: c in s ==> c.Block?
    ensures Blocks(s) == s && Others(s) == []
  {
    if s != [] {
      AllBlocks(s[1..]);
    }
  }

  /** Leaving blocks out leaves the other children as they were. */
  lemma {:induction false} ExcludeSplits(s: seq<Child>, drop: set<Child>)
    requires forall c :: c in drop ==> c.Block?
    ensures Others(Exclude(s, drop)) == Others(s)
    ensures Blocks(Exclude(s, drop)) == Exclude(Blocks(s), drop)
  {
    if s != [] {
      ExcludeSplits(s[1..], drop);
    }
  }

  lemma {:induction false} ExcludeTwice(s: seq<Child>, a: set<Child>, b: set<Child>)
    ensures Exclude(Exclude(s, a), b) == Exclude(s, a + b)
  {
    if s != [] {
      ExcludeTwice(s[1..], a, b);
    }
  }

  lemma {:induction false} BlocksMember(s: seq<Child>)
    ensures forall c :: c in Blocks(s) <==> c in s && c.Block?
  {
    if s != [] {
      BlocksMember(s[1..]);
    }
  }

  /** The mount with `middle` where the pinned child stood, `drop` taken away around it and `last` at the end. */
  function Around(before: seq<Child>, middle: seq<Child>, after: seq<Child>, last: seq<Child>, drop: set<Child>)
    : seq<Child>
  {
    Exclude(before, drop) + middle + Exclude(after, drop) + last
  }

  function IndexOf<T(==)>(s: seq<T>, x: T): (k: nat)
    requires x in s
    ensures k < |s| && s[k] == x && forall j :: 0 <= j < k ==> s[j] != x
  {
    if s[0] == x then 0 else 1 + IndexOf(s[1..], x)
  }

  lemma {:induction false} IndexInMiddle<T>(a: seq<T>, x: T, b: seq<T>)
    requires x !in a
    ensures x in a + [x] + b && IndexOf(a + [x] + b, x) == |a|
  {
    assert (a + [x] + b)[|a|] == x;
    if a != [] {
      assert (a + [x] + b)[1..] == a[1..] + [x] + b;
      IndexInMiddle(a[1..], x, b);
    }
  }

  /** The blocks on screen that the list no longer shows. */
  function Stale(children: seq<Child>, groups: seq<Child>): set<Child> {
    set c | c in children && c.Block? && c !in groups
  }

  lemma {:induction false} RestrictKept(s: seq<Child>, drop: set<Child>, keep: set<Child>)
    requires drop !! keep
    ensures Restrict(Exclude(s, drop), keep) == Restrict(s, keep)
  {
    if s != [] {
      RestrictKept(s[1..], drop, keep);
    }
  }

  lemma {:induction false} RestrictIsBlocks(s: seq<Child>, keep: set<Child>)
    requires forall c :: c in s && c.Block? ==> c in keep
    requires forall c :: c in keep ==> c.Block?
    ensures Restrict(s, keep) == Blocks(s)
  {
    if s != [] {
      RestrictIsBlocks(s[1..], keep);
    }
  }

  /** Without the stale blocks the list's own are as they were, and the first held one is the same. */
  lemma DroppedStale(was: seq<Child>, groups: seq<Child>, held: set<Child>)
    requires NoDup(was) && forall c :: c in groups ==> c.Block?
    ensures var kept := Exclude(was, Stale(was, groups));
            && NoDup(kept) && Others(kept) == Others(was)
            && (forall c :: c in kept && c.Block? ==> c in groups)
            && Restrict(kept, Elements(groups)) == Blocks(kept)
            && Restrict(Restrict(kept, Elements(groups)), held) == Restrict(was, Elements(groups) * held)
            && (Blocks(was) == groups ==> Stale(was, groups) == {} && kept == was)
  {
    var kept := Exclude(was, Stale(was, groups));
    ExcludeNoDup(was, Stale(was, groups));
    ExcludeSplits(was, Stale(was, groups));
    RestrictIsBlocks(kept, Elements(groups));
    RestrictKept(was, Stale(was, groups), Elements(groups));
    RestrictTwice(was, Elements(groups), held);
    if Blocks(was) == groups {
      BlocksMember(was);
      ExcludeNone(was, Stale(was, groups));
    }
  }

  /** One more block leaves its place around the middle. */
  lemma AroundLess(before: seq<Child>, middle: seq<Child>, after: seq<Child>, last: seq<Child>, drop: set<Child>,
                   child: Child)
    requires child !in middle && child !in last
    ensures Exclude(Around(before, middle, after, last, drop), {child})
         == Around(before, middle, after, last, drop + {child})
  {
    var a, b := Exclude(before, drop), Exclude(after, drop);
    ExcludeAppend(a + middle + b, last, {child});
    ExcludeAppend(a + middle, b, {child});
    ExcludeAppend(a, middle, {child});
    ExcludeNone(middle, {child});
    ExcludeNone(last, {child});
    ExcludeTwice(before, drop, {child});
    ExcludeTwice(after, drop, {child});
  }

  /** What an emptied stretch of the mount keeps. */
  lemma Emptied(s: seq<Child>, drop: set<Child>)
    requires forall c :: c in drop ==> c.Block?
    requires forall c :: c in s && c.Block? ==> c in drop
    ensures Blocks(Exclude(s, drop)) == [] && Others(Exclude(s, drop)) == Others(s)
  {
    ExcludeSplits(s, drop);
    BlocksMember(s);
    ExcludeAll(Blocks(s), drop);
  }

  lemma OthersAround(before: seq<Child>, pinned: Child, after: seq<Child>)
    requires pinned.Block?
    ensures Others(before + [pinned] + after) == Others(before) + Others(after)
  {
    SplitAppend(before + [pinned], after);
    SplitAppend(before, [pinned]);
    AllBlocks([pinned]);
  }

  /** Children that are no blocks, and blocks behind them. */
  lemma SplitInFront(others: seq<Child>, blocks: seq<Child>)
    requires Blocks(others) == [] && forall c :: c in blocks ==> c.Block?
    ensures Blocks(others + blocks) == blocks && Others(others + blocks) == Others(others)
  {
    SplitAppend(others, blocks);
    AllBlocks(blocks);
  }

  lemma SplitEmptied(a: seq<Child>, middle: seq<Child>, b: seq<Child>, last: seq<Child>)
    requires Blocks(a) == [] && Blocks(b) == [] && forall c :: c in middle || c in last ==> c.Block?
    ensures Blocks(a + middle + b + last) == middle + last
    ensures Others(a + middle + b + last) == Others(a) + Others(b)
  {
    SplitInFront(a, middle);
    SplitInFront(b, last);
    SplitAppend(a + middle, b + last);
    FourInTwo(a, middle, b, last);
  }

  lemma FourInTwo(a: seq<Child>, middle: seq<Child>, b: seq<Child>, last: seq<Child>)
    ensures a + middle + b + last == (a + middle) + (b + last)
  {
  }

  /** Once every other block of the list has moved, the mount holds the list around the pinned block. */
  lemma AroundIsArranged(before: seq<Child>, pinned: Child, after: seq<Child>, middle: seq<Child>, last: seq<Child>,
                         drop: set<Child>)
    requires pinned.Block? && forall c :: c in drop || c in middle || c in last ==> c.Block?
    requires forall c :: (c in before || c in after) && c.Block? ==> c in drop
    ensures Blocks(Around(before, middle, after, last, drop)) == middle + last
    ensures Others(Around(before, middle, after, last, drop)) == Others(before + [pinned] + after)
  {
    Emptied(before, drop);
    Emptied(after, drop);
    SplitEmptied(Exclude(before, drop), middle, Exclude(after, drop), last);
    OthersAround(before, pinned, after);
  }

  lemma StaleGrows(was: seq<Child>, i: nat, groups: seq<Child>)
    requires i < |was|
    ensures Stale(was[..i + 1], groups)
         == if was[i].Block? && was[i] !in groups then Stale(was[..i], groups) + {was[i]} else Stale(was[..i], groups)
  {
    assert was[..i + 1] == was[..i] + [was[i]];
  }

  lemma StaleNext(was: seq<Child>, i: nat, groups: seq<Child>)
    requires i < |was| && was[i].Block? && was[i] !in groups
    ensures Exclude(Exclude(was, Stale(was[..i], groups)), {was[i]}) == Exclude(was, Stale(was[..i + 1], groups))
  {
    StaleGrows(was, i, groups);
    ExcludeTwice(was, Stale(was[..i], groups), {was[i]});
  }

  lemma AppendedNext(was: seq<Child>, groups: seq<Child>, i: nat)
    requires NoDup(groups) && i < |groups|
    ensures Elements(groups[..i + 1]) == Elements(groups[..i]) + {groups[i]}
    ensures Exclude(Exclude(was, Elements(groups[..i])) + groups[..i], {groups[i]}) + [groups[i]]
         == Exclude(was, Elements(groups[..i + 1])) + groups[..i + 1]
  {
    assert groups[..i + 1] == groups[..i] + [groups[i]];
    ExcludeAppend(Exclude(was, Elements(groups[..i])), groups[..i], {groups[i]});
    ExcludeTwice(was, Elements(groups[..i]), {groups[i]});
    ExcludeNone(groups[..i], {groups[i]});
  }

  lemma InsertedBefore(front: seq<Child>, pinned: Child, back: seq<Child>, child: Child)
    requires pinned !in front
    ensures pinned in front + [pinned] + back
    ensures InsertAt(front + [pinned] + back, IndexOf(front + [pinned] + back, pinned), child)
         == front + [child] + [pinned] + back
  {
    IndexInMiddle(front, pinned, back);
  }

  lemma Regroup(a: seq<Child>, first: seq<Child>, pinned: Child, b: seq<Child>, child: Child)
    ensures a + (first + [pinned]) + b + [] == (a + first) + [pinned] + b
    ensures a + (first + [child] + [pinned]) + b + [] == (a + first) + [child] + [pinned] + b
  {
  }

  /** One block of the list inserted in front of the pinned one. */
  lemma InsertedNext(before: seq<Child>, pinned: Child, after: seq<Child>, first: seq<Child>, child: Child,
                     drop: set<Child>)
    requires child !in first && pinned !in first && pinned != child && pinned !in before
    ensures var rest := Around(before, first + [pinned], after, [], drop + {child});
            && Exclude(Around(before, first + [pinned], after, [], drop), {child}) == rest
            && pinned in rest
            && InsertAt(rest, IndexOf(rest, pinned), child)
               == Around(before, first + [child] + [pinned], after, [], drop + {child})
  {
    AroundLess(before, first + [pinned], after, [], drop, child);
    var a, back := Exclude(before, drop + {child}), Exclude(after, drop + {child});
    Regroup(a, first, pinned, back, child);
    InsertedBefore(a + first, pinned, back, child);
  }

  lemma AroundHolds(before: seq<Child>, middle: seq<Child>, after: seq<Child>, last: seq<Child>, drop: set<Child>,
                    c: Child)
    requires c in middle
    ensures c in Around(before, middle, after, last, drop)
  {
  }

  lemma PrefixNext(s: seq<Child>, i: nat)
    requires i < |s|
    ensures s[..i + 1] == s[..i] + [s[i]] && Elements(s[..i + 1]) == Elements(s[..i]) + {s[i]}
  {
  }

  lemma InFrontStarts(before: seq<Child>, pinned: Child, after: seq<Child>, first: seq<Child>)
    ensures Elements(first[..0]) == {}
    ensures Around(before, first[..0] + [pinned], after, [], Elements(first[..0])) == before + [pinned] + after
  {
    ExcludeNone(before, {});
    ExcludeNone(after, {});
    assert first[..0] + [pinned] == [pinned];
  }

  /** The next block of the list inserted in front of the pinned one, the ones before it there already. */
  lemma InFrontNext(before: seq<Child>, pinned: Child, after: seq<Child>, first: seq<Child>, i: nat)
    requires pinned !in before && NoDup(first) && pinned !in first && i < |first|
    ensures Elements(first[..i + 1]) == Elements(first[..i]) + {first[i]}
    ensures var now := Around(before, first[..i] + [pinned], after, [], Elements(first[..i]));
            var rest := Exclude(now, {first[i]});
            && pinned in now && pinned in rest
            && InsertAt(rest, IndexOf(rest, pinned), first[i])
               == Around(before, first[..i + 1] + [pinned], after, [], Elements(first[..i + 1]))
  {
    PrefixNext(first, i);
    InsertedNext(before, pinned, after, first[..i], first[i], Elements(first[..i]));
    AroundHolds(before, first[..i] + [pinned], after, [], Elements(first[..i]), pinned);
  }

  lemma AroundMore(before: seq<Child>, middle: seq<Child>, after: seq<Child>, last: seq<Child>, drop: set<Child>,
                   c: Child)
    ensures Around(before, middle, after, last, drop) + [c] == Around(before, middle, after, last + [c], drop)
  {
  }

  /** The next block behind the pinned one put at the end. */
  lemma RestNext(before: seq<Child>, middle: seq<Child>, after: seq<Child>, last: seq<Child>, gone: set<Child>, i: nat)
    requires NoDup(last) && i < |last| && last[i] !in middle
    ensures Elements(last[..i + 1]) == Elements(last[..i]) + {last[i]}
    ensures var now := Around(before, middle, after, last[..i], gone + Elements(last[..i]));
            Exclude(now, {last[i]}) + [last[i]]
            == Around(before, middle, after, last[..i + 1], gone + Elements(last[..i + 1]))
  {
    PrefixNext(last, i);
    AroundLess(before, middle, after, last[..i], gone + Elements(last[..i]), last[i]);
    AroundMore(before, middle, after, last[..i], gone + Elements(last[..i]) + {last[i]}, last[i]);
    assert gone + Elements(last[..i]) + {last[i]} == gone + Elements(last[..i + 1]);
  }

  lemma AppendedIsArranged(kept: seq<Child>, groups: seq<Child>)
    requires forall c :: c in groups ==> c.Block?
    requires forall c :: c in kept && c.Block? ==> c in groups
    ensures Blocks(Exclude(kept, Elements(groups)) + groups) == groups
    ensures Others(Exclude(kept, Elements(groups)) + groups) == Others(kept)
  {
    Emptied(kept, Elements(groups));
    SplitAppend(Exclude(kept, Elements(groups)), groups);
    AllBlocks(groups);
  }

  /** A list, cut at its pinned block. */
  lemma CutAt(groups: seq<Child>, at: nat)
    requires NoDup(groups) && at < |groups|
    ensures groups == groups[..at] + [groups[at]] + groups[at + 1..]
    ensures Elements(groups[..at]) + Elements(groups[at + 1..]) == Elements(groups) - {groups[at]}
    ensures NoDup(groups[..at]) && NoDup(groups[at + 1..])
    ensures groups[at] !in groups[..at] && groups[at] !in groups[at + 1..]
    ensures forall c :: c in groups[at + 1..] ==> c !in groups[..at] + [groups[at]]
  {
    forall c ensures c in groups[..at] || c in groups[at + 1..] <==> c in groups && c != groups[at] {
      assert groups == groups[..at] + [groups[at]] + groups[at + 1..];
    }
  }

  /** The list cut at the pinned block, and the mount with those before it moved in front and the others behind. */
  lemma ListAround(kept: seq<Child>, k: nat, groups: seq<Child>, at: nat)
    requires NoDup(kept) && NoDup(groups) && k < |kept| && at < |groups| && kept[k] == groups[at]
    requires forall c :: c in groups ==> c.Block?
    requires forall c :: c in kept && c.Block? ==> c in groups
    ensures var first, last := groups[..at], groups[at + 1..];
            var end := Around(kept[..k], first + [groups[at]], kept[k + 1..], last, Elements(first) + Elements(last));
            Blocks(end) == groups && Others(end) == Others(kept)
  {
    CutAt(kept, k);
    CutAt(groups, at);
    var first, last := groups[..at], groups[at + 1..];
    AroundIsArranged(kept[..k], kept[k], kept[k + 1..], first + [groups[at]], last, Elements(first) + Elements(last));
  }

  class Mount {
    var children: seq<Child>
    /** Every child taken out of the document, to be put elsewhere or not. */
    ghost var detached: set<Child>

    constructor (children: seq<Child>)
      ensures this.children == children && detached == {}
    {
      this.children := children;
      detached := {};
    }

    method Remove(child: Child)
      modifies this
      ensures children == Exclude(old(children), {child})
      ensures detached == old(detached) + {child}
    {
      children := Exclude(children, {child});
      detached := detached + {child};
    }

    method Append(child: Child)
      modifies this
      ensures children == Exclude(old(children), {child}) + [child]
      ensures detached == old(detached) + {child}
    {
      children := Exclude(children, {child}) + [child];
      detached := detached + {child};
    }

    method InsertBefore(child: Child, reference: Child)
      requires reference in children && child != reference
      modifies this
      ensures var rest := Exclude(old(children), {child});
              reference in rest && children == InsertAt(rest, IndexOf(rest, reference), child)
      ensures detached == old(detached) + {child}
    {
      var rest := Exclude(children, {child});
      children := InsertAt(rest, IndexOf(rest, reference), child);
      detached := detached + {child};
    }

    /** First the blocks the list no longer shows go. */
    method DropStale(groups: seq<Child>)
      modifies this
      ensures children == Exclude(old(children), Stale(old(children), groups))
      ensures detached == old(detached) + Stale(old(children), groups)
    {
      var was := children;
      ghost var taken := detached;
      ExcludeNone(children, {});
      assert Stale(was[..0], groups) == {};
      for i := 0 to |was|
        invariant children == Exclude(was, Stale(was[..i], groups))
        invariant detached == taken + Stale(was[..i], groups)
      {
        StaleGrows(was, i, groups);
        if was[i].Block? && was[i] !in groups {
          StaleNext(was, i, groups);
          Remove(was[i]);
        }
      }
      assert was[..|was|] == was;
    }

    /** With nothing held every block is appended, in order. */
    method AppendAll(groups: seq<Child>)
      requires NoDup(groups)
      modifies this
      ensures children == Exclude(old(children), Elements(groups)) + groups
      ensures detached == old(detached) + Elements(groups)
    {
      ghost var was, taken := children, detached;
      ExcludeNone(children, {});
      assert Elements(groups[..0]) == {};
      for i := 0 to |groups|
        invariant children == Exclude(was, Elements(groups[..i])) + groups[..i]
        invariant detached == taken + Elements(groups[..i])
      {
        AppendedNext(was, groups, i);
        Append(groups[i]);
      }
      assert groups[..|groups|] == groups;
    }

    /** With a block held the others move around it: those before it in front, */
    method InsertInFront(first: seq<Child>, pinned: Child, ghost before: seq<Child>, ghost after: seq<Child>)
      requires children == before + [pinned] + after && pinned !in before
      requires NoDup(first) && pinned !in first
      modifies this
      ensures children == Around(before, first + [pinned], after, [], Elements(first))
      ensures detached == old(detached) + Elements(first)
    {
      ghost var taken := detached;
      InFrontStarts(before, pinned, after, first);
      for i := 0 to |first|
        invariant children == Around(before, first[..i] + [pinned], after, [], Elements(first[..i]))
        invariant detached == taken + Elements(first[..i])
      {
        InFrontNext(before, pinned, after, first, i);
        InsertBefore(first[i], pinned);
      }
      assert first[..|first|] == first;
    }

    /** and those after it at the end. */
    method AppendRest(last: seq<Child>, ghost before: seq<Child>, ghost middle: seq<Child>, ghost after: seq<Child>,
                      ghost gone: set<Child>)
      requires children == Around(before, middle, after, [], gone)
      requires NoDup(last) && forall c :: c in last ==> c !in middle
      modifies this
      ensures children == Around(before, middle, after, last, gone + Elements(last))
      ensures detached == old(detached) + Elements(last)
    {
      ghost var taken := detached;
      assert Elements(last[..0]) == {};
      assert gone + {} == gone;
      for i := 0 to |last|
        invariant children == Around(before, middle, after, last[..i], gone + Elements(last[..i]))
        invariant detached == taken + Elements(last[..i])
      {
        RestNext(before, middle, after, last, gone, i);
        Append(last[i]);
      }
      assert last[..|last|] == last;
    }

    /** The whole list is put around a held block, which stays where it is. */
    method MoveAround(groups: seq<Child>, pinned: Child)
      requires NoDup(children) && pinned in children && forall c :: c in children && c.Block? ==> c in groups
      requires NoDup(groups) && pinned in groups && forall c :: c in groups ==> c.Block?
      modifies this
      ensures Blocks(children) == groups && Others(children) == Others(old(children))
      ensures detached == old(detached) + (Elements(groups) - {pinned})
    {
      ghost var k, kept := IndexOf(children, pinned), children;
      var at := IndexOf(groups, pinned);
      CutAt(kept, k);
      CutAt(groups, at);
      var first, last := groups[..at], groups[at + 1..];
      InsertInFront(first, pinned, kept[..k], kept[k + 1..]);
      AppendRest(last, kept[..k], first + [pinned], kept[k + 1..], Elements(first));
      ListAround(kept, k, groups, at);
    }

    /**
     * Afterwards the mount's blocks are exactly `groups`, in order, whatever it
     * held; its other children keep their order; and the first block on screen
     * that is held (focused, or being dragged) was never taken out.
     */
    method Arrange(groups: seq<Child>, held: set<Child>)
      requires NoDup(children) && NoDup(groups) && forall c :: c in groups ==> c.Block?
      modifies this
      ensures Blocks(children) == groups
      ensures Others(children) == Others(old(children))
      ensures forall c :: c in detached && c !in old(detached) ==> c.Block?
      ensures Blocks(old(children)) == groups ==> detached == old(detached)
      ensures var placed := Restrict(old(children), Elements(groups) * held);
              placed != [] && placed[0] !in old(detached) ==> placed[0] !in detached
    {
      ghost var was, taken := children, detached;
      DropStale(groups);
      ghost var kept := children;
      var placed := Restrict(children, Elements(groups));
      DroppedStale(was, groups, held);
      if placed == groups {
        return;
      }
      var holding := Restrict(placed, held);
      if holding == [] {
        AppendAll(groups);
        AppendedIsArranged(kept, groups);
      } else {
        var pinned := holding[0];
        MoveAround(groups, pinned);
      }
    }
  }
}
