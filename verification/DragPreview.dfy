/**
 * The arithmetic of a drag: where the dragged block would drop, how far the others
 * slide aside and where the slot is drawn. Positions are exact numbers.
 */
module DragPreview {
  import opened Sequences
  import ProviderList

  datatype Item = Item(top: real, height: real)

  /** Blocks of positive height, one under the other, one uniform gap apart. */
  ghost predicate Laid(items: seq<Item>, gap: real) {
    && gap >= 0.0
    && (forall k :: 0 <= k < |items| ==> items[k].height > 0.0)
    && (forall k :: 0 < k < |items| ==> items[k].top == items[k - 1].top + items[k - 1].height + gap)
  }

  /** Where block `k` stands once these blocks are laid out from `origin`. */
  function LaidTop(items: seq<Item>, origin: real, gap: real, k: nat): real
    requires k < |items|
  {
    if k == 0 then origin else LaidTop(items, origin, gap, k - 1) + items[k - 1].height + gap
  }

  /** The list after the drop. */
  function Dropped<T>(items: seq<T>, from: nat, to: nat): seq<T>
    requires from < |items| && to < |items|
  {
    InsertAt(items[..from] + items[from + 1..], to, items[from])
  }

  /** Where block `k` is in that list. */
  function Place(from: nat, to: nat, k: nat): nat {
    if k == from then to
    else if from < k <= to then k - 1
    else if to <= k < from then k + 1
    else k
  }

  /** How far block `k` is slid aside while the block at `from` hovers over `to`. */
  function Offset(items: seq<Item>, gap: real, from: nat, to: nat, k: nat): real
    requires from < |items|
  {
    var shift := items[from].height + gap;
    if k == from then 0.0
    else if from < k <= to then -shift
    else if to <= k < from then shift
    else 0.0
  }

  /** Where the slot is drawn. */
  function Landing(items: seq<Item>, from: nat, to: nat): real
    requires from < |items| && to < |items|
  {
    if to > from then items[to].top + items[to].height - items[from].height else items[to].top
  }

  /** The list the drop gives, place by place. */
  lemma DroppedAt<T>(items: seq<T>, from: nat, to: nat, p: nat)
    requires from < |items| && to < |items| && p < |items|
    ensures var r := Dropped(items, from, to);
            && |r| == |items|
            && r[p] == (if p == to then items[from]
                        else if from <= p < to then items[p + 1]
                        else if to < p <= from then items[p - 1]
                        else items[p])
  {
    var rest := items[..from] + items[from + 1..];
    assert forall q :: 0 <= q < |rest| ==> rest[q] == if q < from then items[q] else items[q + 1];
  }

  /** And the tops that laying it out gives. */
  lemma {:induction false} DroppedTop(items: seq<Item>, gap: real, from: nat, to: nat, p: nat)
    requires Laid(items, gap) && from < |items| && to < |items| && p < |items|
    ensures |Dropped(items, from, to)| == |items|
    ensures var shift := items[from].height + gap;
            LaidTop(Dropped(items, from, to), items[0].top, gap, p)
            == (if p == to then Landing(items, from, to)
                else if from <= p < to then items[p + 1].top - shift
                else if to < p <= from then items[p - 1].top + shift
                else items[p].top)
  {
    DroppedAt(items, from, to, p);
    if p > 0 {
      DroppedAt(items, from, to, p - 1);
      DroppedTop(items, gap, from, to, p - 1);
    }
  }

  /**
   * What is seen during the drag is what the drop gives: every block, slid aside,
   * is drawn where laying out the moved list would put it, and so is the slot.
   */
  lemma PreviewIsDrop(items: seq<Item>, gap: real, from: nat, to: nat)
    requires Laid(items, gap) && from < |items| && to < |items|
    ensures var r := Dropped(items, from, to);
            && |r| == |items|
            && r[to] == items[from] && LaidTop(r, items[0].top, gap, to) == Landing(items, from, to)
            && forall k :: 0 <= k < |items| && k != from ==>
                 var p := Place(from, to, k);
                 && p < |r| && r[p] == items[k]
                 && LaidTop(r, items[0].top, gap, p) == items[k].top + Offset(items, gap, from, to, k)
  {
    DroppedAt(items, from, to, to);
    DroppedTop(items, gap, from, to, to);
    forall k | 0 <= k < |items| && k != from
      ensures var r, p := Dropped(items, from, to), Place(from, to, k);
              && p < |r| && r[p] == items[k]
              && LaidTop(r, items[0].top, gap, p) == items[k].top + Offset(items, gap, from, to, k)
    {
      DroppedAt(items, from, to, Place(from, to, k));
      DroppedTop(items, gap, from, to, Place(from, to, k));
    }
  }

  /** The drop saves the move of the list drawn: the codes, cut and joined as the blocks are. */
  lemma DropIsMove(codes: seq<string>, from: nat, to: nat)
    requires NoDup(codes) && from < |codes| && to < |codes|
    ensures Dropped(codes, from, to) == ProviderList.Moved(codes, codes[from], to)
  {
    var rest := codes[..from] + codes[from + 1..];
    assert codes == InsertAt(rest, from, codes[from]);
    ProviderList.ExcludeInserted(rest, from, codes[from]);
  }

  // ------------------------------------------------------------- the target place

  function Middle(item: Item): real {
    item.top + item.height / 2.0
  }

  function Min(a: real, b: real): real {
    if a < b then a else b
  }

  function Max(a: real, b: real): real {
    if a > b then a else b
  }

  /** How far the block is drawn from its place: with the pointer, its middle kept inside the list. */
  function Travel(items: seq<Item>, from: nat, pointer: real): real
    requires from < |items|
  {
    var last := items[|items| - 1];
    Min(Max(pointer, items[0].top - Middle(items[from])), last.top + last.height - Middle(items[from]))
  }

  /** How many of the first `n` blocks, the dragged one aside, have their middle above `center`. */
  function Passed(items: seq<Item>, from: nat, center: real, n: nat): (c: nat)
    requires n <= |items|
    ensures c <= n && (from < n ==> c < n)
  {
    if n == 0 then 0
    else Passed(items, from, center, n - 1) + if n - 1 != from && Middle(items[n - 1]) < center then 1 else 0
  }

  function Target(items: seq<Item>, from: nat, pointer: real): (to: nat)
    requires from < |items|
    ensures to < |items|
  {
    Passed(items, from, Middle(items[from]) + Travel(items, from, pointer), |items|)
  }

  /** The place of block `k` among the others. */
  function Among(from: nat, k: nat): nat
    requires k != from
  {
    if k < from then k else k - 1
  }

  lemma {:induction false} MiddlesDescend(items: seq<Item>, gap: real, i: nat, j: nat)
    requires Laid(items, gap) && i < j < |items|
    ensures Middle(items[i]) < Middle(items[j])
    decreases j
  {
    if i < j - 1 {
      MiddlesDescend(items, gap, i, j - 1);
    }
  }

  lemma {:induction false} PassedAre(items: seq<Item>, gap: real, from: nat, center: real, n: nat)
    requires Laid(items, gap) && n <= |items|
    ensures Passed(items, from, center, n) <= n - (if from < n then 1 else 0)
    ensures forall k :: 0 <= k < n && k != from ==>
              (Middle(items[k]) < center <==> Among(from, k) < Passed(items, from, center, n))
  {
    if n > 0 {
      PassedAre(items, gap, from, center, n - 1);
      var k := n - 1;
      if k != from && Middle(items[k]) < center {
        forall j | 0 <= j < k && j != from ensures Middle(items[j]) < center {
          MiddlesDescend(items, gap, j, k);
        }
        var others := k - (if from < k then 1 else 0);
        if others > 0 {
          var before := if k - 1 == from then k - 2 else k - 1;
          assert Among(from, before) == others - 1;
        }
        assert Passed(items, from, center, k) == others;
      }
    }
  }

  /**
   * The block follows the pointer as long as its middle stays between the top and
   * the bottom of the list, and otherwise stands with its middle at the end the
   * pointer has passed.
   */
  lemma TravelStaysInside(items: seq<Item>, gap: real, from: nat, pointer: real)
    requires Laid(items, gap) && from < |items|
    ensures var top, bottom := items[0].top, items[|items| - 1].top + items[|items| - 1].height;
            var middle, travel := items[from].top + items[from].height / 2.0, Travel(items, from, pointer);
            && top <= middle + travel <= bottom
            && (top <= middle + pointer <= bottom ==> travel == pointer)
            && (middle + pointer < top ==> middle + travel == top)
            && (middle + pointer > bottom ==> middle + travel == bottom)
  {
    TopsDescend(items, gap, |items| - 1);
  }

  /**
   * The place a drag would drop at is the one after exactly the blocks whose
   * middle its own middle has passed.
   */
  lemma TargetIsAfterThosePassed(items: seq<Item>, gap: real, from: nat, pointer: real)
    requires Laid(items, gap) && from < |items|
    ensures var to := Target(items, from, pointer);
            var center := items[from].top + items[from].height / 2.0 + Travel(items, from, pointer);
            forall k :: 0 <= k < |items| && k != from ==>
              (items[k].top + items[k].height / 2.0 < center <==> Place(from, to, k) < to)
  {
    PassedAre(items, gap, from, Middle(items[from]) + Travel(items, from, pointer), |items|);
  }

  lemma {:induction false} PassedGrows(items: seq<Item>, from: nat, low: real, high: real, n: nat)
    requires n <= |items| && low <= high
    ensures Passed(items, from, low, n) <= Passed(items, from, high, n)
  {
    if n > 0 {
      PassedGrows(items, from, low, high, n - 1);
    }
  }

  /** Moving the pointer down never moves the drop up. */
  lemma TargetFollowsPointer(items: seq<Item>, from: nat, low: real, high: real)
    requires from < |items| && low <= high
    ensures Target(items, from, low) <= Target(items, from, high)
  {
    PassedGrows(items, from, Middle(items[from]) + Travel(items, from, low),
                Middle(items[from]) + Travel(items, from, high), |items|);
  }

  lemma {:induction false} Inside(items: seq<Item>, gap: real, k: nat)
    requires Laid(items, gap) && k < |items|
    ensures var last := items[|items| - 1];
            items[0].top <= items[k].top && items[k].top + items[k].height <= last.top + last.height
    decreases |items|
  {
    if k > 0 {
      TopsDescend(items, gap, k);
    }
    if k < |items| - 1 {
      BottomsDescend(items, gap, k, |items| - 1);
    }
  }

  lemma {:induction false} TopsDescend(items: seq<Item>, gap: real, k: nat)
    requires Laid(items, gap) && k < |items|
    ensures items[0].top <= items[k].top
  {
    if k > 0 {
      TopsDescend(items, gap, k - 1);
    }
  }

  lemma {:induction false} BottomsDescend(items: seq<Item>, gap: real, i: nat, j: nat)
    requires Laid(items, gap) && i <= j < |items|
    ensures items[i].top + items[i].height <= items[j].top + items[j].height
    decreases j - i
  {
    if i < j {
      BottomsDescend(items, gap, i, j - 1);
    }
  }

  /** Every place, first and last included, is reached with the block's middle still inside the list. */
  lemma EveryPlaceIsReached(items: seq<Item>, gap: real, from: nat, to: nat) returns (pointer: real)
    requires Laid(items, gap) && from < |items| && to < |items|
    ensures Target(items, from, pointer) == to
    ensures Travel(items, from, pointer) == pointer
  {
    var n := |items|;
    var other := if to < from then to else to + 1;
    var center := if other < n then Middle(items[other]) else items[n - 1].top + items[n - 1].height;
    pointer := center - Middle(items[from]);
    Inside(items, gap, if other < n then other else n - 1);
    TopsDescend(items, gap, n - 1);
    PassedAre(items, gap, from, center, n);
    if other < n {
      assert Among(from, other) == to;
    }
    if to > 0 {
      var before := if to - 1 < from then to - 1 else to;
      assert Among(from, before) == to - 1;
      if other < n {
        MiddlesDescend(items, gap, before, other);
      } else {
        Inside(items, gap, before);
      }
    }
  }

  // ------------------------------------------------------------- the shipped drag

  /** A drag under way: the transforms on the blocks and the slot's place in the mount. */
  class Drag {
    const items: seq<Item>
    const from: nat
    const gap: real
    const origin: real
    var to: nat
    var transforms: seq<real>
    var slotTop: real

    ghost predicate Valid()
      reads this
    {
      && from < |items| && to < |items| && |transforms| == |items|
      && slotTop == Landing(items, from, to) - origin
      && forall k :: 0 <= k < |items| && k != from ==> transforms[k] == Offset(items, gap, from, to, k)
    }

    /** What a person sees is the moved list, laid out. */
    ghost predicate ShowsDrop()
      requires Valid()
      reads this
    {
      var r := Dropped(items, from, to);
      && |r| == |items|
      && slotTop + origin == LaidTop(r, items[0].top, gap, to)
      && forall k :: 0 <= k < |items| && k != from ==>
           var p := Place(from, to, k);
           p < |r| && r[p] == items[k] && items[k].top + transforms[k] == LaidTop(r, items[0].top, gap, p)
    }

    constructor (items: seq<Item>, from: nat, origin: real)
      requires from < |items|
      ensures Valid() && to == from
      ensures this.items == items && this.from == from && this.origin == origin
      ensures gap >= 0.0
      ensures forall g :: Laid(items, g) ==> Laid(items, gap)
    {
      this.items, this.from, this.origin := items, from, origin;
      gap := if |items| > 1 then Max(0.0, items[1].top - items[0].top - items[0].height) else 0.0;
      to := from;
      transforms := seq(|items|, _ => 0.0);
      slotTop := items[from].top - origin;
    }

    method Follow(pointer: real)
      requires Valid()
      modifies this
      ensures Valid() && to == Target(items, from, pointer)
      ensures transforms[from] == Travel(items, from, pointer)
      ensures Laid(items, gap) ==>
                var top, bottom := items[0].top, items[|items| - 1].top + items[|items| - 1].height;
                var middle := items[from].top + items[from].height / 2.0;
                && top <= middle + transforms[from] <= bottom
                && (top <= middle + pointer <= bottom ==> transforms[from] == pointer)
                && (middle + pointer < top ==> middle + transforms[from] == top)
                && (middle + pointer > bottom ==> middle + transforms[from] == bottom)
                && forall k :: 0 <= k < |items| && k != from ==>
                     (items[k].top + items[k].height / 2.0 < middle + transforms[from] <==> Place(from, to, k) < to)
    {
      if Laid(items, gap) {
        TravelStaysInside(items, gap, from, pointer);
        TargetIsAfterThosePassed(items, gap, from, pointer);
      }
      var middle, last := Middle(items[from]), items[|items| - 1];
      var dy := Min(Max(pointer, items[0].top - middle), last.top + last.height - middle);
      var count := CountPassed(middle + dy);
      transforms := transforms[from := dy];
      if count != to {
        to := count;
        SlideAside();
      }
    }

    method CountPassed(center: real) returns (count: nat)
      ensures count == Passed(items, from, center, |items|)
    {
      count := 0;
      for k := 0 to |items|
        invariant count == Passed(items, from, center, k)
      {
        if k != from && Middle(items[k]) < center {
          count := count + 1;
        }
      }
    }

    /** Whatever the pointer did, what is shown is the drop, laid out. */
    lemma ShowsTheDrop()
      requires Valid() && Laid(items, gap)
      ensures ShowsDrop()
    {
      PreviewIsDrop(items, gap, from, to);
    }

    /** The others slide aside for the block's new place, and the slot moves there. */
    method SlideAside()
      requires from < |items| && to < |items| && |transforms| == |items|
      modifies this`transforms, this`slotTop
      ensures Valid() && transforms[from] == old(transforms)[from]
    {
      var shift := items[from].height + gap;
      for k := 0 to |items|
        invariant |transforms| == |items| && transforms[from] == old(transforms)[from]
        invariant forall j :: 0 <= j < k && j != from ==> transforms[j] == Offset(items, gap, from, to, j)
      {
        if k != from {
          var slide := if k > from && k <= to then -shift else if k < from && k >= to then shift else 0.0;
          transforms := transforms[k := slide];
        }
      }
      var landing := if to > from then items[to].top + items[to].height - items[from].height else items[to].top;
      slotTop := landing - origin;
    }
  }
}
