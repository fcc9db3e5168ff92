/** What holds of a reorderable list over every run of its events. */
module ListRuns {
  import opened Sequences
  import opened Options
  import opened OrderRecord
  import opened ProviderList
  import opened OrderStores
  import opened ReorderList
  import opened ListInvariants

  // -------------------------------------------------------------------- the runs

  ghost function Next(w: World, e: Event): (r: World)
    requires Inv(w)
    ensures Inv(r)
  {
    if Enabled(w, e) then
      StepKeeps(w, e);
      Apply(w, e)
    else w
  }

  ghost function Run(w: World, events: seq<Event>): (r: World)
    requires Inv(w)
    ensures Inv(r)
    decreases |events|
  {
    if events == [] then w else Run(Next(w, events[0]), events[1..])
  }

  /** The list before its first draw, over any copy at all. */
  lemma EmptyListStarts(copy: Copy)
    ensures Inv(World(EMPTY, copy, [], {0}, true))
  {
  }

  /**
   * However the interactions ended, a list with none under way holds no model
   * back: the blocks on screen are those of the last model the surface drew.
   */
  lemma IdleHoldsNothingBack(copy: Copy, events: seq<Event>)
    ensures Inv(World(EMPTY, copy, [], {0}, true))
    ensures var end := Run(World(EMPTY, copy, [], {0}, true), events);
            Active(end.v).None? ==> end.v.latest.None? && Elements(end.v.blocks) == Elements(end.newest)
  {
    EmptyListStarts(copy);
  }

  /**
   * What may arrive while a block is held: redraws that still show it, changes to the
   * copy, the drag's own pointer moves, and what becomes of earlier moves.
   */
  ghost predicate Quiet(e: Event, code: Code) {
    || e.StoreChanges? || e.DragFollows? || e.Resolves? || e.Answers? || e.Notes?
    || (e.Redraw? && code in e.model)
  }

  /** Under that the interaction goes on over the same blocks, in the drag's own list. */
  ghost predicate SameHold(v: Listing, r: Listing) {
    && r.blocks == v.blocks && r.drawn == v.drawn && r.press == v.press && r.menu == v.menu
    && (r.drag.Some? <==> v.drag.Some?)
    && (r.drag.Some? ==> r.drag.value.code == v.drag.value.code && r.drag.value.before == v.drag.value.before)
    && (!v.shownRevision.After? ==> r.shownRevision == v.shownRevision)
  }

  lemma QuietHolds(w: World, e: Event, code: Code)
    requires Inv(w) && Active(w.v) == Some(code) && Quiet(e, code)
    ensures SameHold(w.v, Next(w, e).v)
  {
    if e.Redraw? && NoDup(e.model) {
      RedrawHolds(w, e.model);
    }
  }

  /**
   * No run of redraws, of changes to the copy and of answers to earlier moves moves
   * a block while an interaction lasts, nor what the list claimed before it.
   */
  lemma {:induction false} RedrawsHold(w: World, events: seq<Event>, code: Code)
    requires Inv(w) && Active(w.v) == Some(code)
    requires forall e :: e in events ==> Quiet(e, code)
    ensures SameHold(w.v, Run(w, events).v) && Active(Run(w, events).v) == Some(code)
    decreases |events|
  {
    if events != [] {
      assert Quiet(events[0], code);
      QuietHolds(w, events[0], code);
      RedrawsHold(Next(w, events[0]), events[1..], code);
    }
  }

  /**
   * Every revision a move is written from was the copy's when the list was drawn,
   * or an earlier move's landing, and the copy has reached it since.
   */
  lemma MovesAreWrittenFromBases(w: World, events: seq<Event>, id: nat, revision: nat)
    requires Inv(w)
    requires var v := Run(w, events).v; id < |v.moves| && v.moves[id].called == Some(Some(revision))
    ensures revision in Run(w, events).bases && revision <= Run(w, events).copy.state.revision
  {
    var v := Run(w, events).v;
    assert CallInv(v, id);
  }

  /** Nothing is written, and no move begun, from ROLLBACK until a model drawn at a known revision is shown. */
  lemma {:induction false} RollbackWritesNothing(w: World, events: seq<Event>)
    requires Inv(w) && w.v.shownRevision.Rollback?
    requires forall k :: 0 <= k < |events| ==> Run(w, events[..k]).v.shownRevision.Rollback?
    ensures Run(w, events).v.moves == w.v.moves
    decreases |events|
  {
    if events != [] {
      assert events[..0] == [];
      if Enabled(w, events[0]) {
        RollbackHolds(w, events[0]);
      }
      var next, rest := Next(w, events[0]), events[1..];
      forall k | 0 <= k < |rest| ensures Run(next, rest[..k]).v.shownRevision.Rollback? {
        assert events[..k + 1][0] == events[0] && events[..k + 1][1..] == rest[..k];
        assert Run(w, events[..k + 1]) == Run(next, rest[..k]);
      }
      if rest != [] {
        assert rest[..0] == [];
        assert Run(next, rest[..0]) == next;
        RollbackWritesNothing(next, rest);
      }
    }
  }

  // ---------------------------------------------------- what was held back is shown

  /**
   * The model held back shows in the copy's order. Of the order it was drawn from
   * nothing has been told since, the list claims that one; otherwise it does not know
   * which it shows, and claims what it did.
   */
  ghost predicate ShowsHeld(v: Listing, copy: Copy, r: Listing)
    requires v.latest.Some?
  {
    var Held(model, stamp) := v.latest.value;
    && r.blocks == r.drawn == ByOrder(model, copy.state) && r.latest.None? && r.moves == v.moves
    && (if stamp.generation == copy.generation
        then && r.drawnStamp == Some(stamp)
             && r.shownRevision == (if v.shownRevision.After? then v.shownRevision else At(stamp.revision))
        else r.drawnStamp == None && r.shownRevision == v.shownRevision)
  }

  lemma SettlingShowsHeld(v: Listing, copy: Copy)
    requires v.latest.Some?
    ensures if Active(v).None? then ShowsHeld(v, copy, Settle(v, copy)) else Settle(v, copy) == v
  {
    ByOrderTwice(v.latest.value.model, copy.state);
  }

  /** Events that end an interaction and move nothing. */
  ghost predicate Ends(e: Event) {
    e.PressEnds? || e.MenuCloses? || e == DragEnds(false) || e.Cancelled?
  }

  /** When the last interaction ends, moving nothing, what arrived during it shows. */
  lemma EndShowsHeld(w: World, e: Event)
    requires Enabled(w, e) && Ends(e) && w.v.latest.Some? && Active(w.v).Some?
    ensures var r := Apply(w, e).v;
            if Active(r).None? then ShowsHeld(w.v, w.copy, r)
            else r.blocks == w.v.blocks && r.latest == w.v.latest && r.shownRevision == w.v.shownRevision
  {
    var v, copy := w.v, w.copy;
    var a := Finish(v, copy, false);
    var b := Release(a, copy);
    SettlingShowsHeld(v.(drag := None), copy);
    SettlingShowsHeld(v.(press := None), copy);
    SettlingShowsHeld(v.(menu := None), copy);
    if e.Cancelled? {
      if a.latest.Some? {
        SettlingShowsHeld(a.(press := None), copy);
      }
      if b.latest.Some? {
        SettlingShowsHeld(b.(menu := None), copy);
      }
    }
  }

  // ------------------------------------------------------- a move, seen and saved

  lemma PlaceShows(v: Listing, codes: seq<Code>)
    requires NoDup(codes) && Elements(codes) == Elements(v.blocks)
    ensures Place(v, codes).blocks == codes
  {
    forall x | x in codes ensures x in Elements(v.blocks) {
      assert x in Elements(codes);
    }
    forall x | x in v.blocks ensures x in Elements(codes) {
      assert x in Elements(v.blocks);
    }
    RestrictAll(codes, Elements(v.blocks));
    ExcludeAll(v.blocks, Elements(codes));
  }

  /**
   * A move made on the order as it stands shows at once, the others keeping their
   * order around it, and the record it makes of any stored list is drawn as the
   * very blocks it shows.
   */
  lemma MoveShowsWhatItSaves(v: Listing, copy: Copy, before: seq<Code>, code: Code, to: int, base: Base,
                             stored: seq<Code>, revision: nat)
    requires NoDup(before) && code in before && Elements(before) == Elements(v.blocks)
    requires !base.Rollback? && (base.At? ==> base.revision == copy.state.revision)
    requires NoDup(stored)
    ensures var r := MoveBlock(v, copy, code, to, before, Moved(before, code, to), base);
            && r.blocks == Moved(before, code, to)
            && |r.blocks| == |before|
            && r.blocks[if to < 0 then 0 else if to >= |before| then |before| - 1 else to] == code
            && Exclude(r.blocks, {code}) == Exclude(before, {code})
            && ByOrder(r.blocks, Order(Custom, MovedOrder(stored, before, code, to), revision)) == r.blocks
            && r.shownRevision == After(|v.moves|)
            && r.moves == v.moves + [Moving(code, to, before, base, None, None)]
  {
    MovedElements(before, code, to);
    MovedPlaces(before, code, to);
    var after := Moved(before, code, to);
    assert Elements(before) + {code} == Elements(before);
    PlaceShows(v, after);
    MoveThenDraw(stored, before, code, to, after, revision);
  }

  /** The list a drop is placed in: what was held back has settled. */
  ghost function AtDrop(w: World): Listing {
    Settle(w.v.(drag := None), w.copy)
  }

  /**
   * What a drop shows, whatever was redrawn while the block was held: of the list
   * it was dragged in, moved, the blocks still there, then whatever came meanwhile
   * as the settled list has it; or just the settled list, when a newer order has
   * been heard of and the move is only submitted. It begins that one move.
   */
  lemma DropShows(w: World)
    requires Inv(w) && w.v.drag.Some? && !w.v.shownRevision.Rollback?
    requires w.v.drag.value.before[w.v.drag.value.to] != w.v.drag.value.code
    ensures var d, r, settled := w.v.drag.value, Finish(w.v, w.copy, true), AtDrop(w).blocks;
            && r.drag.None?
            && r.moves == w.v.moves + [Moving(d.code, d.to, d.before, w.v.shownRevision, None, None)]
            && NoDup(settled) && (w.v.menu.None? ==> Elements(settled) == Elements(w.newest))
            && r.blocks == if w.v.shownRevision.At? && w.v.shownRevision.revision != w.copy.state.revision then settled
                           else Restrict(Moved(d.before, d.code, d.to), Elements(settled))
                                + Exclude(settled, Elements(d.before))
  {
    var d := w.v.drag.value;
    SettleScreen(w.v.(drag := None), w.copy, w.newest);
    MovedElements(d.before, d.code, d.to);
    assert Elements(Moved(d.before, d.code, d.to)) == Elements(d.before);
  }

  /** A drop is a move to the place the pointer was last followed to, and none to the block's own. */
  lemma DropsWhereFollowed(w: World, to: nat)
    requires Inv(w) && w.v.drag.Some? && to < |w.v.drag.value.before| && !w.v.shownRevision.Rollback?
    ensures var d := w.v.drag.value;
            Next(Next(w, DragFollows(to)), DragEnds(true)).v.moves
            == if d.before[to] == d.code then w.v.moves
               else w.v.moves + [Moving(d.code, to, d.before, w.v.shownRevision, None, None)]
  {
    var followed := Next(w, DragFollows(to));
    MovesNameTheClaim(followed, DragEnds(true));
    OldMovesStay(followed, DragEnds(true));
  }

  /**
   * And the record the drop makes of any stored list is drawn as the very blocks it
   * shows, as long as that list names no block that came during the drag; when none
   * came or went they are the dragged list with its block at the place it was held
   * over, the others in their order around it.
   */
  lemma DropShowsWhatItSaves(w: World, stored: seq<Code>, revision: nat)
    requires Inv(w) && w.v.drag.Some? && !w.v.shownRevision.Rollback? && NoDup(stored)
    requires w.v.drag.value.before[w.v.drag.value.to] != w.v.drag.value.code
    requires w.v.shownRevision.At? ==> w.v.shownRevision.revision == w.copy.state.revision
    ensures var d, r, settled := w.v.drag.value, Finish(w.v, w.copy, true), AtDrop(w).blocks;
            && ((forall x :: x in settled && x in stored ==> x in d.before) ==>
                  ByOrder(r.blocks, Order(Custom, MovedOrder(stored, d.before, d.code, d.to), revision)) == r.blocks)
            && (Elements(settled) == Elements(d.before) ==>
                  && |r.blocks| == |d.before| && r.blocks[d.to] == d.code
                  && Exclude(r.blocks, {d.code}) == Exclude(d.before, {d.code}))
  {
    var d, settled := w.v.drag.value, AtDrop(w).blocks;
    DropShows(w);
    if forall x :: x in settled && x in stored ==> x in d.before {
      MoveThenDrawOthers(stored, d.before, d.code, d.to, settled, revision);
    }
    if Elements(settled) == Elements(d.before) {
      SameBlocksStand(d.before, d.code, d.to, settled);
    }
  }

  /** The list a choice in the menu is placed in: the menu closed, and what it held back settled. */
  ghost function AtChoice(w: World): Listing {
    Settle(w.v.(menu := None), w.copy)
  }

  /**
   * A choice in the menu moves its block exactly when it names another place of the
   * list: one move, in the list as it was shown and from what it claimed. It shows as
   * a drop does, the block where it was sent when no block came or went meanwhile.
   */
  lemma ChoiceShows(w: World, place: int)
    requires Inv(w) && w.v.menu.Some? && !w.v.shownRevision.Rollback?
    ensures var v, code := w.v, w.v.menu.value;
            var r, settled := Apply(w, MenuChooses(place)).v, AtChoice(w).blocks;
            var moves := code in v.blocks && 0 <= place < |v.blocks| && v.blocks[place] != code;
            && r.menu.None? && NoDup(settled)
            && r.moves == (if moves then v.moves + [Moving(code, place, v.blocks, v.shownRevision, None, None)]
                           else v.moves)
            && (!moves || (v.shownRevision.At? && v.shownRevision.revision != w.copy.state.revision) ==>
                  r.blocks == settled)
            && (moves && (v.shownRevision.At? ==> v.shownRevision.revision == w.copy.state.revision) ==>
                  && r.blocks == Restrict(Moved(v.blocks, code, place), Elements(settled))
                                 + Exclude(settled, Elements(v.blocks))
                  && (Elements(settled) == Elements(v.blocks) ==>
                        && |r.blocks| == |v.blocks| && r.blocks[place] == code
                        && Exclude(r.blocks, {code}) == Exclude(v.blocks, {code})))
  {
    var v, settled := w.v, AtChoice(w);
    SettleScreen(v.(menu := None), w.copy, w.newest);
    MovesNameTheClaim(w, MenuChooses(place));
    OldMovesStay(w, MenuChooses(place));
    if v.menu.value in v.blocks && 0 <= place < |v.blocks| && v.blocks[place] != v.menu.value {
      MovedElements(v.blocks, v.menu.value, place);
      assert Elements(Moved(v.blocks, v.menu.value, place)) == Elements(v.blocks);
      assert Apply(w, MenuChooses(place)).v.blocks
          == if v.shownRevision.At? && v.shownRevision.revision != w.copy.state.revision then settled.blocks
             else Place(settled, Moved(v.blocks, v.menu.value, place)).blocks;
      if Elements(settled.blocks) == Elements(v.blocks) {
        SameBlocksStand(v.blocks, v.menu.value, place, settled.blocks);
      }
    }
  }

  lemma SameBlocksStand(before: seq<Code>, code: Code, to: nat, settled: seq<Code>)
    requires NoDup(before) && code in before && to < |before| && Elements(settled) == Elements(before)
    ensures var r := Restrict(Moved(before, code, to), Elements(settled)) + Exclude(settled, Elements(before));
            |r| == |before| && r[to] == code && Exclude(r, {code}) == Exclude(before, {code})
  {
    var moved := Moved(before, code, to);
    MovedCodes(before, code, to);
    forall x | x in moved ensures x in Elements(settled) {
      assert x in Elements(before);
    }
    RestrictAll(moved, Elements(settled));
    forall x | x in settled ensures x in Elements(before) {
      assert x in Elements(settled);
    }
    ExcludeAll(settled, Elements(before));
    assert moved + [] == moved;
    MovedPlaces(before, code, to);
  }

  /**
   * When the move awaited is over, a list redrawn meanwhile claims the revision it
   * was drawn from, the copy's own once that is told; one not redrawn claims the
   * landing, or nothing when there was none.
   */
  lemma WhatTheListClaimsAfter(w: World, id: nat)
    requires Inv(w) && Enabled(w, Notes(id)) && w.v.shownRevision == After(id)
    ensures var claimed := Apply(w, Notes(id)).v.shownRevision;
            if w.v.drawnStamp.Some? && w.v.drawnStamp.value.generation == w.copy.generation
            then && claimed.At? && claimed.revision <= w.copy.state.revision
                 && (w.told ==> claimed.revision == w.copy.state.revision)
            else claimed == match w.v.moves[id].landed.value case Some(r) => At(r) case None => Rollback
    ensures forall k :: 0 <= k < |w.v.moves| ==> w.v.moves[k].landed.Some?
  {
    AllOver(w.v, id);
  }

  // --------------------------------------------------------------- moves in a queue

  lemma {:induction false} MovesStay(w: World, events: seq<Event>)
    requires Inv(w)
    ensures SameMoves(w.v, Run(w, events).v)
    decreases |events|
  {
    if events != [] {
      var next := Next(w, events[0]);
      if Enabled(w, events[0]) {
        MovesNameTheClaim(w, events[0]);
      }
      MovesStay(next, events[1..]);
      var end := Run(w, events).v;
      forall k | 0 <= k < |w.v.moves| ensures SameMove(w.v.moves[k], end.moves[k]) {
        assert SameMove(w.v.moves[k], next.v.moves[k]) && SameMove(next.v.moves[k], end.moves[k]);
      }
    }
  }

  /** A move made while one before it had not landed waits for the move just before it. */
  lemma MadeBehindWaits(v: Listing, earlier: nat, id: nat)
    requires ChainInv(v) && earlier < id < |v.moves| && v.moves[earlier].landed.None?
    ensures v.moves[id].base == After(id - 1)
  {
  }

  /**
   * A move made while an earlier one had not landed is written, if it ever is, only
   * from the revision the move before it landed as, in every run.
   */
  lemma QueuedMoveIsWrittenFromLanding(w: World, events: seq<Event>, earlier: nat, id: nat, revision: nat)
    requires Inv(w) && earlier < id < |w.v.moves| && w.v.moves[earlier].landed.None?
    requires |Run(w, events).v.moves| > id && Run(w, events).v.moves[id].called == Some(Some(revision))
    ensures Run(w, events).v.moves[id - 1].landed == Some(Some(revision))
  {
    var end := Run(w, events).v;
    MadeBehindWaits(w.v, earlier, id);
    MovesStay(w, events);
    assert SameMove(w.v.moves[id], end.moves[id]);
    WrittenFromLanding(end, id, revision);
  }

  /**
   * When an earlier move then does not land, every move made behind it, however
   * many, is over without a write, in every run.
   */
  lemma NothingWrittenBehindFailure(w: World, events: seq<Event>, failed: nat, id: nat)
    requires Inv(w) && failed < id < |w.v.moves| && w.v.moves[failed].landed.None?
    requires |Run(w, events).v.moves| > id && Run(w, events).v.moves[failed].landed == Some(None)
    ensures var m := Run(w, events).v.moves[id];
            (m.called.Some? ==> m.called == Some(None)) && (m.landed.Some? ==> m.landed == Some(None))
  {
    var end := Run(w, events).v;
    MovesStay(w, events);
    forall k | failed < k <= id ensures end.moves[k].base.After? {
      MadeBehindWaits(w.v, failed, k);
      assert SameMove(w.v.moves[k], end.moves[k]);
    }
    OverBehindFailure(end, failed, id);
  }

  /**
   * The queue goes on: the first move that is not over has its base known, or was
   * called and waits for its answer alone.
   */
  lemma QueueGoesOn(w: World, id: nat)
    requires Inv(w) && id < |w.v.moves| && w.v.moves[id].landed.None?
    requires forall k :: 0 <= k < id ==> w.v.moves[k].landed.Some?
    ensures if w.v.moves[id].called.None?
            then Enabled(w, Resolves(id)) && Apply(w, Resolves(id)).v.moves[id].called.Some?
            else Enabled(w, Answers(id, None)) && Apply(w, Answers(id, None)).v.moves[id].landed == Some(None)
  {
  }

  // ------------------------------------------------------ a drop names what was drawn

  /** A block just drawn and pressed: the list is the one drawn, at the revision it was drawn from. */
  lemma PressedAsDrawn(w: World, model: seq<Code>, code: Code)
    requires Inv(w) && Active(w.v).None? && !w.v.shownRevision.After? && NoDup(model) && code in model
    ensures var v := Next(Next(w, Redraw(model)), PressOn(code)).v;
            && v.press == Some(code) && v.drag.None? && v.menu.None?
            && v.blocks == ByOrder(model, w.copy.state) && code in v.blocks
            && v.shownRevision == At(w.copy.state.revision)
  {
    ByOrderPermutes(model, w.copy.state);
    assert code in Elements(ByOrder(model, w.copy.state));
  }

  /** The press becomes a drag over those very blocks. */
  lemma BegunAsPressed(w: World, code: Code)
    requires Inv(w) && w.v.press == Some(code) && w.v.drag.None? && w.v.menu.None?
    ensures var v := Next(w, DragBegins).v;
            && v.drag.Some? && v.drag.value.code == code && v.drag.value.before == w.v.blocks
            && v.shownRevision == w.v.shownRevision && Active(v) == Some(code)
  {
  }

  /**
   * A drop names the revision its order was drawn from, however many orders were
   * heard, redraws held and earlier moves answered meanwhile, and moves its block in
   * the list that was drawn; so once the disk is past that revision it is refused.
   * Dropped where it was it begins nothing.
   */
  lemma DropNamesDrawnRevision(w: World, model: seq<Code>, code: Code, pressed: seq<Event>, dragged: seq<Event>)
    requires Inv(w) && Active(w.v).None? && !w.v.shownRevision.After?
    requires NoDup(model) && code in model
    requires forall e :: e in pressed || e in dragged ==> Quiet(e, code)
    ensures var down := Next(Next(w, Redraw(model)), PressOn(code));
            var held := Run(Next(Run(down, pressed), DragBegins), dragged);
            var before := ByOrder(model, w.copy.state);
            && held.v.drag.Some? && held.v.drag.value.to < |before|
            && var to := held.v.drag.value.to;
               Next(held, DragEnds(true)).v.moves
               == if before[to] == code then held.v.moves
                  else held.v.moves + [Moving(code, to, before, At(w.copy.state.revision), None, None)]
  {
    var down := Next(Next(w, Redraw(model)), PressOn(code));
    PressedAsDrawn(w, model, code);
    RedrawsHold(down, pressed, code);
    var ready := Run(down, pressed);
    BegunAsPressed(ready, code);
    var begun := Next(ready, DragBegins);
    RedrawsHold(begun, dragged, code);
    var held := Run(begun, dragged);
    MovesNameTheClaim(held, DragEnds(true));
    OldMovesStay(held, DragEnds(true));
  }
}
