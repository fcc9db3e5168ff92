/**
 * The list as it ships: closure variables its handlers update in turn, over the
 * surface's store. Each handler is one event of the list's runs, and keeps what
 * those keep.
 */
module ReorderController {
  import opened Sequences
  import opened Options
  import opened OrderRecord
  import opened ProviderList
  import opened OrderStores
  import opened ReorderList
  import opened ListInvariants

  /** What a redraw leaves alone. */
  lemma RedrawKeeps(w: World, model: seq<Code>)
    requires Inv(w) && NoDup(model)
    ensures Inv(Apply(w, Redraw(model)))
    ensures var v, r := w.v, Apply(w, Redraw(model)).v;
            && r.moves == v.moves
            && (Active(v).Some? && Active(v).value in model ==>
                  r == v.(latest := Some(Held(model, Stamp(w.copy.state.revision, w.copy.generation)))))
            && (Active(v).None? ==>
                  && r.blocks == ByOrder(model, w.copy.state) && r.latest.None?
                  && r.drawnStamp == Some(Stamp(w.copy.state.revision, w.copy.generation))
                  && r.shownRevision == if v.shownRevision.After? then v.shownRevision
                                        else At(w.copy.state.revision))
            && (Active(v).Some? && Active(v).value !in model ==> Active(r).None? && r.latest.None?)
  {
    StepKeeps(w, Redraw(model));
    RedrawBeginsNothing(w.v, w.copy, model);
    if Active(w.v).Some? {
      RedrawHolds(w, model);
    }
  }

  /** What a drag begins with. */
  lemma BeginKeeps(w: World)
    requires Inv(w) && w.v.press.Some?
    ensures Inv(Apply(w, DragBegins))
    ensures var v, r := w.v, Apply(w, DragBegins).v;
            && r.moves == v.moves && r.press.None? && r.menu.None?
            && (r.drag.Some? <==> v.press.value in r.blocks)
            && (r.drag.Some? ==>
                  var d := r.drag.value;
                  d.before == r.blocks && d.code == v.press.value && r.blocks[d.to] == d.code)
            && (v.menu.None? ==> r.drag.Some? && r.blocks == v.blocks)
  {
    StepKeeps(w, DragBegins);
    var pressed := w.v.(press := None);
    ChainSame(w.v, pressed);
    CloseChain(pressed, w.copy);
  }

  /** What the menu's choice begins. */
  lemma ChooseKeeps(w: World, place: int)
    requires Inv(w) && w.v.menu.Some?
    ensures Inv(Apply(w, MenuChooses(place)))
    ensures var v, code, r := w.v, w.v.menu.value, Apply(w, MenuChooses(place)).v;
            && r.menu.None?
            && r.moves == if code in v.blocks && 0 <= place < |v.blocks| && v.blocks[place] != code
                             && !v.shownRevision.Rollback?
                          then v.moves + [Moving(code, place, v.blocks, v.shownRevision, None, None)]
                          else v.moves
  {
    StepKeeps(w, MenuChooses(place));
    OldMovesStay(w, MenuChooses(place));
  }

  /** The menu's items. */
  datatype MenuItem = MoveUp | MoveDown | MoveTop | MoveBottom

  function LandedAs(report: Report): Option<nat> {
    if report.outcome == Saved then Some(report.revision) else None
  }

  class Controller {
    const store: OrderStore
    var blocks: seq<Code>
    var drawn: seq<Code>
    var latest: Option<Held>
    var press: Option<Code>
    var drag: Option<Drag>
    var menu: Option<Code>
    var shownRevision: Base
    var drawnStamp: Option<Stamp>
    var moves: seq<Moving>
    /** The last model drawn, the revisions drawn or landed, and whether the store's record has been told of. */
    ghost var newest: seq<Code>
    ghost var bases: set<nat>
    ghost var told: bool

    ghost function View(): Listing
      reads this
    {
      Listing(blocks, drawn, latest, press, drag, menu, shownRevision, drawnStamp, moves)
    }

    ghost function Lists(): World
      reads this, store
    {
      World(View(), store.View(), newest, bases, told)
    }

    ghost predicate Valid()
      reads this, store
    {
      Inv(Lists())
    }

    constructor (store: OrderStore)
      ensures Valid() && View() == EMPTY && this.store == store && told
    {
      this.store := store;
      blocks, drawn, latest, press, drag, menu := [], [], None, None, None, None;
      shownRevision, drawnStamp, moves := At(0), None, [];
      newest, bases, told := [], {0}, true;
    }

    /** The store has moved on, by itself or for another list. */
    ghost method StoreMoved(before: Copy, told: bool)
      requires Inv(Lists().(copy := before)) && Enabled(Lists().(copy := before), StoreChanges(store.View(), told))
      modifies this`told
      ensures Valid() && Lists() == Apply(old(Lists()).(copy := before), StoreChanges(store.View(), told))
    {
      StepKeeps(Lists().(copy := before), StoreChanges(store.View(), told));
      this.told := told;
    }

    // ------------------------------------------------------------------- drawing

    /**
     * A redraw under an interaction moves no block and changes nothing the next move
     * names, unless the interaction's own block is gone; it never begins a move.
     */
    method Draw(model: seq<Code>)
      requires Valid() && NoDup(model)
      modifies this
      ensures Valid() && Lists() == Apply(old(Lists()), Redraw(model))
      ensures moves == old(moves)
      ensures old(Active(View()).Some? && Active(View()).value in model) ==>
                && blocks == old(blocks) && shownRevision == old(shownRevision) && Active(View()) == old(Active(View()))
                && latest == Some(Held(model, Stamp(store.state.revision, store.generation)))
      ensures old(drag.None? && menu.None? && press.None?) ==>
                && blocks == ByOrder(model, store.state) && latest.None?
                && drawnStamp == Some(Stamp(store.state.revision, store.generation))
                && shownRevision == if old(shownRevision).After? then old(shownRevision) else At(store.state.revision)
      ensures old(Active(View()).Some? && Active(View()).value !in model) ==> Active(View()).None? && latest.None?
    {
      ghost var was := Lists();
      RedrawKeeps(was, model);
      newest, bases := model, bases + {store.state.revision};
      Redrawn(model);
      assert Lists() == Apply(was, Redraw(model));
    }

    method Redrawn(model: seq<Code>)
      modifies this`drag, this`press, this`menu
      modifies this`blocks, this`drawn, this`drawnStamp, this`shownRevision, this`latest, this`moves
      ensures View() == ReorderList.Draw(old(View()), store.View(), model)
    {
      var stamp := Stamp(store.state.revision, store.generation);
      if drag.None? && menu.None? && press.None? {
        Show(model, Some(stamp));
        return;
      }
      latest := Some(Held(model, stamp));
      var code := if drag.Some? then drag.value.code else if menu.Some? then menu.value else press.value;
      if code !in model {
        EndAll();
        return;
      }
      blocks := drawn;
    }

    method Show(model: seq<Code>, stamp: Option<Stamp>)
      modifies this`blocks, this`drawn, this`drawnStamp, this`shownRevision
      ensures View() == ReorderList.Show(old(View()), store.View(), model, stamp)
    {
      var ordered := ByOrder(model, store.state);
      blocks := ordered;
      drawn := ordered;
      drawnStamp := stamp;
      if stamp.Some? && !shownRevision.After? {
        shownRevision := At(stamp.value.revision);
      }
    }

    method Settle()
      modifies this`blocks, this`drawn, this`drawnStamp, this`shownRevision, this`latest
      ensures View() == ReorderList.Settle(old(View()), store.View())
    {
      if latest.None? || drag.Some? || menu.Some? || press.Some? {
        return;
      }
      var held := latest.value;
      latest := None;
      if held.stamp.generation == store.generation {
        Show(held.model, Some(held.stamp));
      } else {
        Show(ByOrder(held.model, store.state), None);
      }
    }

    // ------------------------------------------------------------------- the moves

    /** The order is the asked one, then whatever else is on screen. */
    method Place(codes: seq<Code>)
      modifies this`blocks, this`drawn
      ensures View() == ReorderList.Place(old(View()), codes)
    {
      var order := Restrict(codes, Elements(blocks)) + Exclude(blocks, Elements(codes));
      blocks := order;
      drawn := Restrict(order, Elements(drawn));
    }

    method MoveBlock(code: Code, to: int, before: seq<Code>, after: seq<Code>, base: Base)
      modifies this`blocks, this`drawn, this`shownRevision, this`moves
      ensures View() == ReorderList.MoveBlock(old(View()), store.View(), code, to, before, after, base)
    {
      if base == Rollback {
        return;
      }
      if base.After? || base.revision == store.state.revision {
        Place(after);
      }
      shownRevision := After(|moves|);
      moves := moves + [Moving(code, to, before, base, None, None)];
    }

    /**
     * The save goes on once its base is known: which call of the store it makes. What
     * it writes from was drawn or landed, and the store has reached it.
     */
    method BaseResolved(id: nat) returns (base: Option<nat>)
      requires Valid() && BaseKnown(View(), id)
      modifies this`moves
      ensures Valid() && Lists() == Apply(old(Lists()), Resolves(id))
      ensures moves[id].called == Some(base)
      ensures base.Some? ==> base.value in bases && base.value <= store.state.revision
      ensures base.None? ==> id > 0 && moves[id - 1].landed == Some(None)
      ensures moves == old(moves)[id := old(moves)[id].(called := Some(base))]
    {
      ghost var was := Lists();
      StepKeeps(was, Resolves(id));
      assert CallInv(was.v, id);
      var move := moves[id];
      match move.base {
        case At(revision) => base := Some(revision);
        case After(earlier) => base := moves[earlier].landed.value;
        case Rollback => base := None;
      }
      moves := moves[id := move.(called := Some(base))];
    }

    /** The store's report on a move, and so what the move landed as. */
    method SaveReported(id: nat, report: Report)
      requires Valid()
      requires Enabled(Lists(), Answers(id, LandedAs(report)))
      modifies this
      ensures Valid() && Lists() == Apply(old(Lists()), Answers(id, LandedAs(report)))
      ensures report.outcome == Saved ==>
                moves == old(moves)[id := old(moves)[id].(landed := Some(Some(report.revision)))]
      ensures report.outcome != Saved ==> moves == old(moves)[id := old(moves)[id].(landed := Some(None))]
    {
      var landed := LandedAs(report);
      StepKeeps(Lists(), Answers(id, landed));
      moves := moves[id := moves[id].(landed := Some(landed))];
      bases := if landed.Some? then bases + {landed.value} else bases;
    }

    method SaveNoted(id: nat)
      requires Valid() && id < |moves| && moves[id].landed.Some?
      modifies this`shownRevision
      ensures Valid() && Lists() == Apply(old(Lists()), Notes(id))
      ensures shownRevision.At? && old(shownRevision) == After(id) ==> shownRevision.revision <= store.state.revision
      ensures old(shownRevision) != After(id) ==> shownRevision == old(shownRevision)
      ensures old(shownRevision) == After(id)
              && (drawnStamp.None? || drawnStamp.value.generation != store.generation) ==>
                if moves[id].landed.value.Some? then shownRevision == At(moves[id].landed.value.value)
                else shownRevision == Rollback
    {
      StepKeeps(Lists(), Notes(id));
      if shownRevision != After(id) {
        return;
      }
      if drawnStamp.Some? && drawnStamp.value.generation == store.generation {
        shownRevision := At(drawnStamp.value.revision);
      } else {
        var landed := moves[id].landed.value;
        shownRevision := if landed.Some? then At(landed.value) else Rollback;
      }
    }

    // -------------------------------------------------------------------- the menu

    method OpenMenu(code: Code)
      requires Valid()
      modifies this
      ensures Valid() && Lists() == Apply(old(Lists()), MenuOpens(code))
      ensures menu == Some(code) && moves == old(moves) && press == old(press) && drag == old(drag)
    {
      StepKeeps(Lists(), MenuOpens(code));
      EndMenu();
      menu := Some(code);
    }

    method EndMenu()
      modifies this`menu, this`blocks, this`drawn, this`drawnStamp, this`shownRevision, this`latest
      ensures View() == ReorderList.CloseMenu(old(View()), store.View())
    {
      if menu.None? {
        return;
      }
      menu := None;
      Settle();
    }

    method CloseMenu()
      requires Valid()
      modifies this
      ensures Valid() && Lists() == Apply(old(Lists()), MenuCloses)
      ensures menu.None? && moves == old(moves) && press == old(press) && drag == old(drag)
    {
      StepKeeps(Lists(), MenuCloses);
      EndMenu();
    }

    /** Where an item would move the menu's block: one place up or down, or to an end. */
    method PlaceFor(item: MenuItem) returns (place: int)
      requires menu.Some? && NoDup(blocks)
      ensures forall from :: 0 <= from < |blocks| && blocks[from] == menu.value ==>
                place == match item
                  case MoveUp => from - 1
                  case MoveDown => from + 1
                  case MoveTop => 0
                  case MoveBottom => |blocks| - 1
    {
      var from := if menu.value in blocks then LastIndex(blocks, menu.value) else -1;
      match item {
        case MoveUp => place := from - 1;
        case MoveDown => place := from + 1;
        case MoveTop => place := 0;
        case MoveBottom => place := |blocks| - 1;
      }
    }

    /**
     * A choice of another place of the list begins one move there: of the menu's
     * block, in the list as it was shown and from what it claimed. Any other begins
     * none, and the menu closes.
     */
    method Choose(place: int)
      requires Valid() && menu.Some?
      modifies this
      ensures Valid() && Lists() == Apply(old(Lists()), MenuChooses(place)) && menu.None?
      ensures moves == if old(menu.value) in old(blocks) && 0 <= place < |old(blocks)|
                          && old(blocks)[place] != old(menu.value) && old(shownRevision) != Rollback
                       then old(moves) + [Moving(old(menu.value), place, old(blocks), old(shownRevision), None, None)]
                       else old(moves)
    {
      ghost var was := Lists();
      ChooseKeeps(was, place);
      EndMenuAt(place);
      ghost var end := Apply(was, MenuChooses(place));
      assert Lists() == end;
    }

    method EndMenuAt(place: int)
      requires menu.Some?
      modifies this`menu, this`blocks, this`drawn, this`drawnStamp, this`shownRevision, this`latest, this`moves
      ensures View() == ReorderList.Choose(old(View()), store.View(), old(menu.value), place)
    {
      var code, revision, before := menu.value, shownRevision, blocks;
      EndMenu();
      if code in before && 0 <= place < |before| && before[place] != code {
        MoveBlock(code, place, before, Moved(before, code, place), revision);
      }
    }

    // -------------------------------------------------------------------- the drag

    method PressDown(code: Code)
      requires Valid()
      modifies this`press
      ensures Valid() && Lists() == Apply(old(Lists()), PressOn(code))
      ensures press == if drag.None? && old(press).None? && code in blocks then Some(code) else old(press)
    {
      StepKeeps(Lists(), PressOn(code));
      if drag.None? && press.None? && code in blocks {
        press := Some(code);
      }
    }

    method EndPress()
      modifies this`press, this`blocks, this`drawn, this`drawnStamp, this`shownRevision, this`latest
      ensures View() == ReorderList.Release(old(View()), store.View())
    {
      if press.Some? {
        press := None;
        Settle();
      }
    }

    method Release()
      requires Valid()
      modifies this
      ensures Valid() && Lists() == Apply(old(Lists()), PressEnds)
      ensures press.None? && moves == old(moves) && menu == old(menu) && drag == old(drag)
    {
      StepKeeps(Lists(), PressEnds);
      EndPress();
    }

    /** A drag is of a block on screen, over the blocks as they stand, and drops where it stands until it is moved. */
    method Begin()
      requires Valid() && press.Some?
      modifies this
      ensures Valid() && Lists() == Apply(old(Lists()), DragBegins) && moves == old(moves)
      ensures press.None? && menu.None? && (drag.Some? <==> old(press.value) in blocks)
      ensures drag.Some? ==>
                && drag.value.before == blocks && drag.value.code == old(press.value)
                && blocks[drag.value.to] == drag.value.code
      ensures old(menu).None? ==> drag.Some? && blocks == old(blocks)
    {
      BeginKeeps(Lists());
      var code := press.value;
      press := None;
      EndMenu();
      if code !in blocks {
        return;
      }
      drag := Some(Drag(code, blocks, LastIndex(blocks, code)));
    }

    /** The pointer's place in the list is where the block would drop. */
    method Follow(to: nat)
      requires Valid() && drag.Some? && to < |drag.value.before|
      modifies this`drag
      ensures Valid() && Lists() == Apply(old(Lists()), DragFollows(to))
      ensures drag == Some(Drag(old(drag.value.code), old(drag.value.before), to))
    {
      StepKeeps(Lists(), DragFollows(to));
      drag := Some(drag.value.(to := to));
    }

    method EndDrag(commitIt: bool)
      modifies this`drag, this`blocks, this`drawn, this`drawnStamp, this`shownRevision, this`latest, this`moves
      ensures View() == ReorderList.Finish(old(View()), store.View(), commitIt)
    {
      if drag.None? {
        return;
      }
      var revision, done := shownRevision, drag.value;
      drag := None;
      var moved := commitIt && done.to < |done.before| && done.before[done.to] != done.code;
      Settle();
      if moved {
        MoveBlock(done.code, done.to, done.before, Moved(done.before, done.code, done.to), revision);
      }
    }

    /**
     * A drop away from the block's own place begins one move: of its block, in the
     * list it was dragged in, from what the list claimed before anything held back
     * was settled. Any other, and a cancel, begins none.
     */
    method Finish(commitIt: bool)
      requires Valid() && drag.Some?
      modifies this
      ensures Valid() && Lists() == Apply(old(Lists()), DragEnds(commitIt)) && drag.None?
      ensures var d := old(drag.value);
              moves == if commitIt && d.before[d.to] != d.code && old(shownRevision) != Rollback
                       then old(moves) + [Moving(d.code, d.to, d.before, old(shownRevision), None, None)]
                       else old(moves)
    {
      StepKeeps(Lists(), DragEnds(commitIt));
      OldMovesStay(Lists(), DragEnds(commitIt));
      EndDrag(commitIt);
    }

    method EndAll()
      modifies this`drag, this`press, this`menu
      modifies this`blocks, this`drawn, this`drawnStamp, this`shownRevision, this`latest, this`moves
      ensures View() == ReorderList.Cancel(old(View()), store.View())
    {
      EndDrag(false);
      EndPress();
      EndMenu();
    }

    /** Whatever was under way is over, moving nothing, and what arrived meanwhile shows. */
    method Cancel()
      requires Valid()
      modifies this
      ensures Valid() && Lists() == Apply(old(Lists()), Cancelled) && moves == old(moves)
      ensures Active(View()).None? && latest.None? && Elements(blocks) == Elements(newest)
    {
      StepKeeps(Lists(), Cancelled);
      CancelChain(View(), store.View());
      CancelScreen(View(), store.View(), newest);
      EndAll();
    }
  }
}
