/**
 * One reorderable list: what a press, a drag, the menu and a redraw do to the
 * blocks on screen, and the chain of moves it saves. Each function is one handler,
 * or one stretch between two `await`s; `Listing` is all its variables.
 */
module ReorderList {
  import opened Sequences
  import opened Options
  import opened OrderRecord
  import opened ProviderList
  import opened OrderStores

  /** What a model was drawn from. */
  datatype Stamp = Stamp(revision: nat, generation: nat)

  /** What a move on the list as shown is saved from: a revision, an earlier move's landing, or nothing yet. */
  datatype Base = At(revision: nat) | After(move: nat) | Rollback

  datatype Held = Held(model: seq<Code>, stamp: Stamp)

  /** A drag: the blocks as they stood when it began, and where the block would drop. */
  datatype Drag = Drag(code: Code, before: seq<Code>, to: nat)

  /**
   * A move being saved. `called` is what the store was called with once the base
   * was known: a revision to write from, or none, for the record on disk.
   * `landed` is the revision it landed as, or none.
   */
  datatype Moving = Moving(code: Code, to: int, before: seq<Code>, base: Base,
                           called: Option<Option<nat>>, landed: Option<Option<nat>>)

  datatype Listing = Listing(
    blocks: seq<Code>,
    drawn: seq<Code>,
    latest: Option<Held>,
    press: Option<Code>,
    drag: Option<Drag>,
    menu: Option<Code>,
    shownRevision: Base,
    drawnStamp: Option<Stamp>,
    moves: seq<Moving>)

  const EMPTY := Listing([], [], None, None, None, None, At(0), None, [])

  /** The block an interaction is on: the dragged one, else the menu's, else the pressed one. */
  function Active(v: Listing): Option<Code> {
    if v.drag.Some? then Some(v.drag.value.code) else if v.menu.Some? then v.menu else v.press
  }

  function StampOf(copy: Copy): Stamp {
    Stamp(copy.state.revision, copy.generation)
  }

  // ---------------------------------------------------------------- drawing

  /** `render` draws through `arrange`, so the blocks are the model's codes, in its order. */
  function Show(v: Listing, copy: Copy, model: seq<Code>, stamp: Option<Stamp>): Listing {
    var ordered := ByOrder(model, copy.state);
    v.(blocks := ordered,
       drawn := ordered,
       drawnStamp := stamp,
       shownRevision := if stamp.Some? && !v.shownRevision.After? then At(stamp.value.revision) else v.shownRevision)
  }

  function Settle(v: Listing, copy: Copy): Listing {
    if v.latest.None? || Active(v).Some? then v
    else
      var Held(model, stamp) := v.latest.value;
      var idle := v.(latest := None);
      if stamp.generation == copy.generation then Show(idle, copy, model, Some(stamp))
      else Show(idle, copy, ByOrder(model, copy.state), None)
  }

  function Draw(v: Listing, copy: Copy, model: seq<Code>): Listing {
    match Active(v)
    case None => Show(v, copy, model, Some(StampOf(copy)))
    case Some(code) =>
      var holding := v.(latest := Some(Held(model, StampOf(copy))));
      if code !in model then Cancel(holding, copy) else holding.(blocks := v.drawn)
  }

  // ---------------------------------------------------------------- the moves

  function Place(v: Listing, codes: seq<Code>): Listing {
    var order := Restrict(codes, Elements(v.blocks)) + Exclude(v.blocks, Elements(codes));
    v.(blocks := order, drawn := Restrict(order, Elements(v.drawn)))
  }

  function MoveBlock(v: Listing, copy: Copy, code: Code, to: int, before: seq<Code>, after: seq<Code>, base: Base)
    : Listing
  {
    if base.Rollback? then v
    else
      var shown := if base.At? && base.revision != copy.state.revision then v else Place(v, after);
      shown.(moves := shown.moves + [Moving(code, to, before, base, None, None)], shownRevision := After(|v.moves|))
  }

  /** What a move is saved from is known: at once, or when the move before it is over. */
  predicate BaseKnown(v: Listing, id: nat) {
    && id < |v.moves| && v.moves[id].called.None?
    && (v.moves[id].base.After? ==> v.moves[id].base.move < |v.moves| && v.moves[v.moves[id].base.move].landed.Some?)
  }

  function Called(v: Listing, id: nat): Listing
    requires BaseKnown(v, id)
  {
    var move := v.moves[id];
    var base := match move.base
      case At(revision) => Some(revision)
      case After(earlier) => v.moves[earlier].landed.value
      case Rollback => None;
    v.(moves := v.moves[id := move.(called := Some(base))])
  }

  /** The store's answer; one called for the record on disk never lands. */
  function Landed(v: Listing, id: nat, landed: Option<nat>): Listing
    requires id < |v.moves|
  {
    v.(moves := v.moves[id := v.moves[id].(landed := Some(landed))])
  }

  /** What the list claims once a move it still waits for is over. */
  function Noted(v: Listing, copy: Copy, id: nat): Listing
    requires id < |v.moves| && v.moves[id].landed.Some?
  {
    if v.shownRevision != After(id) then v
    else if v.drawnStamp.Some? && v.drawnStamp.value.generation == copy.generation then
      v.(shownRevision := At(v.drawnStamp.value.revision))
    else
      v.(shownRevision := match v.moves[id].landed.value case Some(revision) => At(revision) case None => Rollback)
  }

  // ----------------------------------------------------------- the interactions

  function CloseMenu(v: Listing, copy: Copy): Listing {
    if v.menu.None? then v else Settle(v.(menu := None), copy)
  }

  function OpenMenu(v: Listing, copy: Copy, code: Code): Listing {
    CloseMenu(v, copy).(menu := Some(code))
  }

  function Choose(v: Listing, copy: Copy, code: Code, to: int): Listing {
    var closed := CloseMenu(v, copy);
    if code in v.blocks && 0 <= to < |v.blocks| && v.blocks[to] != code
    then MoveBlock(closed, copy, code, to, v.blocks, Moved(v.blocks, code, to), v.shownRevision)
    else closed
  }

  function Press(v: Listing, code: Code): Listing {
    if v.drag.Some? || v.press.Some? || code !in v.blocks then v else v.(press := Some(code))
  }

  function Release(v: Listing, copy: Copy): Listing {
    if v.press.None? then v else Settle(v.(press := None), copy)
  }

  function Begin(v: Listing, copy: Copy): Listing
    requires v.press.Some?
  {
    var code := v.press.value;
    var closed := CloseMenu(v.(press := None), copy);
    if code !in closed.blocks then closed
    else closed.(drag := Some(Drag(code, closed.blocks, LastIndex(closed.blocks, code))))
  }

  function Finish(v: Listing, copy: Copy, commitIt: bool): Listing {
    if v.drag.None? then v
    else
      var Drag(code, before, to) := v.drag.value;
      var settled := Settle(v.(drag := None), copy);
      if commitIt && to < |before| && before[to] != code
      then MoveBlock(settled, copy, code, to, before, Moved(before, code, to), v.shownRevision)
      else settled
  }

  function Cancel(v: Listing, copy: Copy): Listing {
    CloseMenu(Release(Finish(v, copy, false), copy), copy)
  }
}
