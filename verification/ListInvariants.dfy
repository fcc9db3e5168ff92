/** The events of a reorderable list, and what each of them keeps. */
module ListInvariants {
  import opened Sequences
  import opened Options
  import opened StableSort
  import opened OrderRecord
  import opened ProviderList
  import opened OrderStores
  import opened ReorderList

  datatype Event =
    | Redraw(model: seq<Code>)
    | PressOn(code: Code)
    | DragBegins
    | DragFollows(to: nat)
    | DragEnds(commitIt: bool)
    | PressEnds
    | MenuOpens(code: Code)
    | MenuCloses
    | MenuChooses(place: int)
    | Cancelled
    | Resolves(id: nat)
    | Answers(id: nat, landed: Option<nat>)
    | Notes(id: nat)
    | StoreChanges(copy: Copy, told: bool)

  /**
   * A list, the copy it draws from, the last model the surface drew and the
   * revisions a move may be written from: those drawn, and those a move landed as.
   * `told` is whether the copy's generation was changed for the record it holds; it
   * was not while a reload has changed the record and its redraw is still to come.
   */
  datatype World = World(v: Listing, copy: Copy, newest: seq<Code>, bases: set<nat>, told: bool)

  ghost predicate Enabled(w: World, e: Event) {
    match e
    case Redraw(model) => NoDup(model)
    case DragBegins => w.v.press.Some?
    case DragFollows(to) => w.v.drag.Some? && to < |w.v.drag.value.before|
    case MenuChooses(_) => w.v.menu.Some?
    case Resolves(id) => BaseKnown(w.v, id)
    case Answers(id, landed) =>
      && id < |w.v.moves| && w.v.moves[id].called.Some? && w.v.moves[id].landed.None?
      && (w.v.moves[id].called.value.None? ==> landed.None?)
      && (landed.Some? ==> landed.value <= w.copy.state.revision)
    case Notes(id) => id < |w.v.moves| && w.v.moves[id].landed.Some?
    case StoreChanges(copy, told) =>
      && copy.state.revision >= w.copy.state.revision && copy.generation >= w.copy.generation
      && (told && copy.generation == w.copy.generation ==> w.told && copy.state == w.copy.state)
    case _ => true
  }

  ghost function Apply(w: World, e: Event): World
    requires Enabled(w, e)
  {
    match e
    case Redraw(model) =>
      World(Draw(w.v, w.copy, model), w.copy, model, w.bases + {w.copy.state.revision}, w.told)
    case PressOn(code) => w.(v := Press(w.v, code))
    case DragBegins => w.(v := Begin(w.v, w.copy))
    case DragFollows(to) => w.(v := w.v.(drag := Some(w.v.drag.value.(to := to))))
    case DragEnds(commitIt) => w.(v := Finish(w.v, w.copy, commitIt))
    case PressEnds => w.(v := Release(w.v, w.copy))
    case MenuOpens(code) => w.(v := OpenMenu(w.v, w.copy, code))
    case MenuCloses => w.(v := CloseMenu(w.v, w.copy))
    case MenuChooses(place) => w.(v := Choose(w.v, w.copy, w.v.menu.value, place))
    case Cancelled => w.(v := Cancel(w.v, w.copy))
    case Resolves(id) => w.(v := Called(w.v, id))
    case Answers(id, landed) =>
      w.(v := Landed(w.v, id, landed), bases := if landed.Some? then w.bases + {landed.value} else w.bases)
    case Notes(id) => w.(v := Noted(w.v, w.copy, id))
    case StoreChanges(copy, told) => w.(copy := copy, told := told)
  }

  // -------------------------------------------------------------- the invariant

  /** What is on screen, what is being moved, and what is still held back. */
  ghost predicate Coherent(v: Listing, newest: seq<Code>) {
    && v.blocks == v.drawn && NoDup(v.blocks) && NoDup(newest)
    && (v.press.Some? ==> v.press.value in v.blocks && v.drag.None?)
    && (v.drag.Some? ==>
          var d := v.drag.value;
          NoDup(d.before) && Elements(d.before) == Elements(v.blocks) && d.code in d.before && d.to < |d.before|)
    && (v.latest.Some? ==> v.latest.value.model == newest)
    && (v.latest.None? ==> Elements(v.blocks) == Elements(newest))
  }

  /** Only an interaction holds a model back. */
  ghost predicate ScreenInv(v: Listing, newest: seq<Code>) {
    Coherent(v, newest) && (Active(v).None? ==> v.latest.None?)
  }

  /** The moves form a chain: each waits for the one before it, or all before it are over. */
  ghost predicate ChainInv(v: Listing) {
    && (forall k :: 0 <= k < |v.moves| ==>
          match v.moves[k].base
          case At(_) => forall q :: 0 <= q < k ==> v.moves[q].landed.Some?
          case After(move) => move + 1 == k
          case Rollback => false)
    && (forall k :: 0 <= k < |v.moves| ==> CallInv(v, k))
    && (v.shownRevision.After? ==> v.shownRevision.move + 1 == |v.moves|)
    && (!v.shownRevision.After? ==> forall k :: 0 <= k < |v.moves| ==> v.moves[k].landed.Some?)
  }

  ghost predicate CallInv(v: Listing, k: nat)
    requires k < |v.moves|
  {
    var m := v.moves[k];
    && (m.landed.Some? ==> m.called.Some?)
    && (m.landed.Some? && m.called == Some(None) ==> m.landed == Some(None))
    && (m.called.Some? && m.base.At? ==> m.called == Some(Some(m.base.revision)))
    && (m.called.Some? && m.base.After? && m.base.move < |v.moves| ==> v.moves[m.base.move].landed == m.called)
  }

  /** Every revision the list may write from was drawn or landed, and the copy has reached it. */
  ghost predicate BasesInv(v: Listing, copy: Copy, bases: set<nat>, told: bool) {
    && (forall r :: r in bases ==> r <= copy.state.revision)
    && (v.shownRevision.At? ==> v.shownRevision.revision in bases)
    && (v.drawnStamp.Some? ==> StampInv(v.drawnStamp.value, copy, bases, told))
    && (v.latest.Some? ==> StampInv(v.latest.value.stamp, copy, bases, told))
    && (forall k :: 0 <= k < |v.moves| ==>
          && (v.moves[k].base.At? ==> v.moves[k].base.revision in bases)
          && (v.moves[k].landed.Some? && v.moves[k].landed.value.Some? ==> v.moves[k].landed.value.value in bases))
  }

  /** A stamp of the copy's own generation names the copy's revision, once that is told. */
  ghost predicate StampInv(stamp: Stamp, copy: Copy, bases: set<nat>, told: bool) {
    && stamp.revision in bases && stamp.generation <= copy.generation
    && (told && stamp.generation == copy.generation ==> stamp.revision == copy.state.revision)
  }

  ghost predicate Inv(w: World) {
    ScreenInv(w.v, w.newest) && ChainInv(w.v) && MovesInv(w.v) && BasesInv(w.v, w.copy, w.bases, w.told)
  }

  // ------------------------------------------------------------------ the screen

  lemma ByOrderPermutes(model: seq<Code>, order: OrderRecord.Order)
    ensures Elements(ByOrder(model, order)) == Elements(model)
    ensures NoDup(model) ==> NoDup(ByOrder(model, order))
  {
    var r, le := ByOrder(model, order), ByRank(order.providers);
    if order.mode == Custom {
      SortPermutes(model, le);
      forall x ensures x in r <==> x in model {
        SortMember(model, le, x);
      }
      if NoDup(model) {
        NoDupCounts(model);
        CountsNoDup(r);
      }
    }
  }

  lemma {:induction false} NoDupCounts(s: seq<Code>)
    requires NoDup(s)
    ensures forall x :: multiset(s)[x] <= 1
  {
    if s != [] {
      NoDupTail(s);
      NoDupCounts(s[1..]);
      assert s == [s[0]] + s[1..];
      assert s[0] !in multiset(s[1..]);
    }
  }

  lemma CountsNoDup(s: seq<Code>)
    requires forall x :: multiset(s)[x] <= 1
    ensures NoDup(s)
  {
    forall i, j | 0 <= i < j < |s| ensures s[i] != s[j] {
      assert s == s[..j] + [s[j]] + s[j + 1..];
      assert multiset(s)[s[j]] >= multiset(s[..j])[s[j]] + 1;
      assert s[..j][i] in multiset(s[..j]);
    }
  }

  lemma ShowScreen(v: Listing, copy: Copy, model: seq<Code>, stamp: Option<Stamp>, newest: seq<Code>)
    requires NoDup(model) && Elements(model) == Elements(newest) && NoDup(newest)
    requires Active(v).None? && v.latest.None?
    ensures ScreenInv(Show(v, copy, model, stamp), newest)
  {
    ByOrderPermutes(model, copy.state);
  }

  lemma SettleScreen(v: Listing, copy: Copy, newest: seq<Code>)
    requires Coherent(v, newest)
    ensures ScreenInv(Settle(v, copy), newest)
  {
    if v.latest.Some? && Active(v).None? {
      var Held(model, stamp) := v.latest.value;
      ByOrderPermutes(model, copy.state);
      var idle := v.(latest := None);
      ShowScreen(idle, copy, model, Some(stamp), newest);
      ShowScreen(idle, copy, ByOrder(model, copy.state), None, newest);
    }
  }

  lemma PlaceScreen(v: Listing, codes: seq<Code>, newest: seq<Code>)
    requires ScreenInv(v, newest) && NoDup(codes)
    ensures ScreenInv(Place(v, codes), newest)
  {
    var named, others := Restrict(codes, Elements(v.blocks)), Exclude(v.blocks, Elements(codes));
    RestrictNoDup(codes, Elements(v.blocks));
    ExcludeNoDup(v.blocks, Elements(codes));
    NoDupAppend(named, others);
    RestrictAll(named + others, Elements(v.drawn));
    assert Elements(named + others) == Elements(v.blocks);
  }

  lemma MoveScreen(v: Listing, copy: Copy, code: Code, to: int, before: seq<Code>, base: Base, newest: seq<Code>)
    requires ScreenInv(v, newest) && NoDup(before)
    ensures ScreenInv(MoveBlock(v, copy, code, to, before, Moved(before, code, to), base), newest)
  {
    MovedElements(before, code, to);
    PlaceScreen(v, Moved(before, code, to), newest);
  }

  lemma CloseScreen(v: Listing, copy: Copy, newest: seq<Code>)
    requires ScreenInv(v, newest)
    ensures ScreenInv(CloseMenu(v, copy), newest)
  {
    if v.menu.Some? {
      SettleScreen(v.(menu := None), copy, newest);
    }
  }

  lemma ReleaseScreen(v: Listing, copy: Copy, newest: seq<Code>)
    requires ScreenInv(v, newest)
    ensures ScreenInv(Release(v, copy), newest)
  {
    if v.press.Some? {
      SettleScreen(v.(press := None), copy, newest);
    }
  }

  lemma FinishScreen(v: Listing, copy: Copy, commitIt: bool, newest: seq<Code>)
    requires ScreenInv(v, newest)
    ensures ScreenInv(Finish(v, copy, commitIt), newest)
  {
    if v.drag.Some? {
      var Drag(code, before, to) := v.drag.value;
      SettleScreen(v.(drag := None), copy, newest);
      MoveScreen(Settle(v.(drag := None), copy), copy, code, to, before, v.shownRevision, newest);
    }
  }

  lemma BeginScreen(v: Listing, copy: Copy, newest: seq<Code>)
    requires ScreenInv(v, newest) && v.press.Some?
    ensures ScreenInv(Begin(v, copy), newest)
  {
    var pressed := v.(press := None);
    if v.menu.Some? {
      SettleScreen(pressed.(menu := None), copy, newest);
    }
  }

  lemma CancelScreen(v: Listing, copy: Copy, newest: seq<Code>)
    requires ScreenInv(v, newest)
    ensures ScreenInv(Cancel(v, copy), newest) && Active(Cancel(v, copy)).None?
  {
    FinishScreen(v, copy, false, newest);
    ReleaseScreen(Finish(v, copy, false), copy, newest);
    CloseScreen(Release(Finish(v, copy, false), copy), copy, newest);
  }

  lemma DrawScreen(v: Listing, copy: Copy, model: seq<Code>, newest: seq<Code>)
    requires ScreenInv(v, newest) && NoDup(model)
    ensures ScreenInv(Draw(v, copy, model), model)
  {
    match Active(v)
    case None => ShowScreen(v, copy, model, Some(StampOf(copy)), model);
    case Some(code) =>
      var holding := v.(latest := Some(Held(model, StampOf(copy))));
      if code !in model {
        CancelScreen(holding, copy, model);
      }
  }

  lemma ChooseScreen(v: Listing, copy: Copy, code: Code, to: int, newest: seq<Code>)
    requires ScreenInv(v, newest)
    ensures ScreenInv(Choose(v, copy, code, to), newest)
  {
    CloseScreen(v, copy, newest);
    MoveScreen(CloseMenu(v, copy), copy, code, to, v.blocks, v.shownRevision, newest);
  }

  lemma StepScreen(w: World, e: Event)
    requires Enabled(w, e) && ScreenInv(w.v, w.newest)
    ensures ScreenInv(Apply(w, e).v, Apply(w, e).newest)
  {
    match e
    case Redraw(model) => DrawScreen(w.v, w.copy, model, w.newest);
    case DragBegins => BeginScreen(w.v, w.copy, w.newest);
    case DragEnds(commitIt) => FinishScreen(w.v, w.copy, commitIt, w.newest);
    case PressEnds => ReleaseScreen(w.v, w.copy, w.newest);
    case MenuOpens(_) => CloseScreen(w.v, w.copy, w.newest);
    case MenuCloses => CloseScreen(w.v, w.copy, w.newest);
    case MenuChooses(place) => ChooseScreen(w.v, w.copy, w.v.menu.value, place, w.newest);
    case Cancelled => CancelScreen(w.v, w.copy, w.newest);
    case _ =>
  }

  /**
   * A redraw during a press, a drag or the menu leaves every block where it is
   * and the interaction as it was, unless the block it is on is gone; then it
   * ends the interaction and shows what arrived.
   */
  lemma RedrawHolds(w: World, model: seq<Code>)
    requires ScreenInv(w.v, w.newest) && NoDup(model) && (w.v.drag.Some? || w.v.menu.Some? || w.v.press.Some?)
    ensures var v, r := w.v, Apply(w, Redraw(model)).v;
            var code := if v.drag.Some? then v.drag.value.code
                        else if v.menu.Some? then v.menu.value else v.press.value;
            if code in model
            then r == v.(latest := Some(Held(model, Stamp(w.copy.state.revision, w.copy.generation))))
            else r.drag.None? && r.menu.None? && r.press.None? && r.latest.None?
                 && Elements(r.blocks) == Elements(model)
  {
    if Active(w.v).value !in model {
      var holding := w.v.(latest := Some(Held(model, StampOf(w.copy))));
      CancelScreen(holding, w.copy, model);
    }
  }

  // ------------------------------------------------------------------- the chain

  /** The parts of a list the chain of moves depends on. */
  lemma ChainSame(v: Listing, r: Listing)
    requires ChainInv(v) && r.moves == v.moves
    requires r.shownRevision == v.shownRevision || (!v.shownRevision.After? && !r.shownRevision.After?)
    ensures ChainInv(r)
  {
    forall k | 0 <= k < |r.moves| ensures CallInv(r, k) {
      assert CallInv(v, k);
    }
  }

  lemma MoveChain(v: Listing, copy: Copy, code: Code, to: int, before: seq<Code>, after: seq<Code>, base: Base)
    requires ChainInv(v)
    requires base == v.shownRevision || (base.At? && v.shownRevision.At?) || (base.Rollback? && !v.shownRevision.After?)
    ensures ChainInv(MoveBlock(v, copy, code, to, before, after, base))
  {
    var r := MoveBlock(v, copy, code, to, before, after, base);
    forall k | 0 <= k < |r.moves| ensures CallInv(r, k) {
      if k < |v.moves| {
        assert CallInv(v, k);
      }
    }
  }

  /** Showing a model moves what the list claims only to a drawn revision. */
  lemma SettleChain(v: Listing, copy: Copy)
    requires ChainInv(v)
    ensures ChainInv(Settle(v, copy)) && Settle(v, copy).moves == v.moves
    ensures var s := Settle(v, copy).shownRevision;
            s == v.shownRevision || (!v.shownRevision.After? && s.At?)
  {
    ChainSame(v, Settle(v, copy));
  }

  lemma CancelChain(v: Listing, copy: Copy)
    requires ChainInv(v)
    ensures ChainInv(Cancel(v, copy)) && Cancel(v, copy).moves == v.moves
  {
    var a := Finish(v, copy, false);
    if v.drag.Some? {
      ChainSame(v, v.(drag := None));
      SettleChain(v.(drag := None), copy);
    }
    var b := Release(a, copy);
    if a.press.Some? {
      ChainSame(a, a.(press := None));
      SettleChain(a.(press := None), copy);
    }
    if b.menu.Some? {
      ChainSame(b, b.(menu := None));
      SettleChain(b.(menu := None), copy);
    }
  }

  lemma CloseChain(v: Listing, copy: Copy)
    requires ChainInv(v)
    ensures ChainInv(CloseMenu(v, copy)) && CloseMenu(v, copy).moves == v.moves
    ensures var s := CloseMenu(v, copy).shownRevision;
            s == v.shownRevision || (!v.shownRevision.After? && s.At?)
  {
    if v.menu.Some? {
      ChainSame(v, v.(menu := None));
      SettleChain(v.(menu := None), copy);
    }
  }

  lemma FinishChain(v: Listing, copy: Copy, commitIt: bool)
    requires ChainInv(v)
    ensures ChainInv(Finish(v, copy, commitIt))
  {
    if v.drag.Some? {
      var Drag(code, before, to) := v.drag.value;
      var settled := Settle(v.(drag := None), copy);
      ChainSame(v, v.(drag := None));
      SettleChain(v.(drag := None), copy);
      MoveChain(settled, copy, code, to, before, Moved(before, code, to), v.shownRevision);
    }
  }

  lemma CalledChain(v: Listing, id: nat)
    requires ChainInv(v) && BaseKnown(v, id)
    ensures ChainInv(Called(v, id))
  {
    var r := Called(v, id);
    forall k | 0 <= k < |r.moves| ensures CallInv(r, k) {
      assert CallInv(v, k);
    }
  }

  lemma LandedChain(v: Listing, id: nat, landed: Option<nat>)
    requires ChainInv(v) && id < |v.moves| && v.moves[id].called.Some? && v.moves[id].landed.None?
    requires v.moves[id].called.value.None? ==> landed.None?
    ensures ChainInv(Landed(v, id, landed))
  {
    var r := Landed(v, id, landed);
    forall k | 0 <= k < |r.moves| ensures CallInv(r, k) {
      assert CallInv(v, k);
    }
  }

  /** When the move awaited is over, so are all before it. */
  lemma {:induction false} AllOver(v: Listing, id: nat)
    requires ChainInv(v) && id < |v.moves| && v.moves[id].landed.Some?
    ensures forall k :: 0 <= k <= id ==> v.moves[k].landed.Some?
    decreases id
  {
    assert CallInv(v, id);
    if v.moves[id].base.After? {
      AllOver(v, id - 1);
    }
  }

  lemma NotedChain(v: Listing, copy: Copy, id: nat)
    requires ChainInv(v) && id < |v.moves| && v.moves[id].landed.Some?
    ensures ChainInv(Noted(v, copy, id))
  {
    var r := Noted(v, copy, id);
    AllOver(v, id);
    forall k | 0 <= k < |r.moves| ensures CallInv(r, k) {
      assert CallInv(v, k);
    }
  }

  lemma StepChain(w: World, e: Event)
    requires Enabled(w, e) && ChainInv(w.v)
    ensures ChainInv(Apply(w, e).v)
  {
    var v, copy := w.v, w.copy;
    match e
    case Redraw(model) =>
      if Active(v).None? {
        ChainSame(v, Draw(v, copy, model));
      } else {
        var holding := v.(latest := Some(Held(model, StampOf(copy))));
        ChainSame(v, holding);
        if Active(v).value in model {
          ChainSame(v, Draw(v, copy, model));
        } else {
          CancelChain(holding, copy);
        }
      }
    case DragBegins =>
      var pressed := v.(press := None);
      ChainSame(v, pressed);
      CloseChain(pressed, copy);
      ChainSame(CloseMenu(pressed, copy), Begin(v, copy));
    case DragEnds(commitIt) => FinishChain(v, copy, commitIt);
    case PressEnds =>
      ChainSame(v, v.(press := None));
      SettleChain(v.(press := None), copy);
    case MenuOpens(code) =>
      CloseChain(v, copy);
      ChainSame(CloseMenu(v, copy), OpenMenu(v, copy, code));
    case MenuCloses => CloseChain(v, copy);
    case MenuChooses(place) =>
      CloseChain(v, copy);
      var after := Moved(v.blocks, v.menu.value, place);
      MoveChain(CloseMenu(v, copy), copy, v.menu.value, place, v.blocks, after, v.shownRevision);
    case Cancelled => CancelChain(v, copy);
    case Resolves(id) => CalledChain(v, id);
    case Answers(id, landed) => LandedChain(v, id, landed);
    case Notes(id) => NotedChain(v, copy, id);
    case PressOn(code) => ChainSame(v, Press(v, code));
    case DragFollows(_) => ChainSame(v, Apply(w, e).v);
    case StoreChanges(_, _) =>
  }

  /** A move that waits for the one before it is written only from the revision that one landed as. */
  lemma WrittenFromLanding(v: Listing, id: nat, revision: nat)
    requires ChainInv(v) && id < |v.moves| && v.moves[id].base.After?
    requires v.moves[id].called == Some(Some(revision))
    ensures id > 0 && v.moves[id - 1].landed == Some(Some(revision))
  {
    assert CallInv(v, id);
  }

  /** Behind a move that did not land every move that waits is over without a write. */
  lemma {:induction false} OverBehindFailure(v: Listing, failed: nat, id: nat)
    requires ChainInv(v) && failed < id < |v.moves|
    requires v.moves[failed].landed == Some(None)
    requires forall k :: failed < k <= id ==> v.moves[k].base.After?
    ensures v.moves[id].called.Some? ==> v.moves[id].called == Some(None)
    ensures v.moves[id].landed.Some? ==> v.moves[id].landed == Some(None)
    decreases id
  {
    assert CallInv(v, id);
    if failed < id - 1 {
      OverBehindFailure(v, failed, id - 1);
    }
  }

  /** Still nothing to write from, or a model drawn at a known revision is shown. */
  ghost predicate StillWaiting(v: Listing, r: Listing) {
    && r.moves == v.moves
    && (r.shownRevision.Rollback? || (r.drawnStamp.Some? && r.shownRevision == At(r.drawnStamp.value.revision)))
  }

  lemma CancelWaits(v: Listing, copy: Copy)
    requires v.shownRevision.Rollback?
    ensures StillWaiting(v, Cancel(v, copy))
  {
    var a := Finish(v, copy, false);
    assert StillWaiting(v, a) && (a.shownRevision.Rollback? || a.latest.None?);
    var b := Release(a, copy);
    assert StillWaiting(v, b) && (b.shownRevision.Rollback? || b.latest.None?);
  }

  /**
   * While the list shows a move that did not land nothing it began is still to be
   * written, and no event begins a move: what it claims changes only when a model
   * drawn at a known revision is shown.
   */
  lemma RollbackHolds(w: World, e: Event)
    requires Inv(w) && Enabled(w, e) && w.v.shownRevision.Rollback?
    ensures forall k :: 0 <= k < |w.v.moves| ==> w.v.moves[k].landed.Some?
    ensures StillWaiting(w.v, Apply(w, e).v)
  {
    forall k | 0 <= k < |w.v.moves| ensures w.v.moves[k].called.Some? {
      assert CallInv(w.v, k);
    }
    match e
    case Redraw(model) => RedrawWaits(w.v, w.copy, model);
    case Cancelled => CancelWaits(w.v, w.copy);
    case DragEnds(commitIt) => FinishWaits(w.v, w.copy, commitIt);
    case MenuChooses(place) => EndingWaits(w.v, w.copy);
    case _ => OthersWait(w, e);
  }

  lemma EndingWaits(v: Listing, copy: Copy)
    requires v.shownRevision.Rollback?
    ensures StillWaiting(v, Release(v, copy)) && StillWaiting(v, CloseMenu(v, copy))
    ensures v.press.Some? ==> StillWaiting(v, Begin(v, copy))
  {
  }

  lemma OthersWait(w: World, e: Event)
    requires Enabled(w, e) && w.v.shownRevision.Rollback?
    requires !e.Redraw? && !e.Cancelled? && !e.DragEnds? && !e.MenuChooses?
    requires forall k :: 0 <= k < |w.v.moves| ==> w.v.moves[k].called.Some? && w.v.moves[k].landed.Some?
    ensures StillWaiting(w.v, Apply(w, e).v)
  {
    EndingWaits(w.v, w.copy);
  }

  lemma RedrawWaits(v: Listing, copy: Copy, model: seq<Code>)
    requires v.shownRevision.Rollback?
    ensures StillWaiting(v, Draw(v, copy, model))
  {
    CancelWaits(v.(latest := Some(Held(model, StampOf(copy)))), copy);
  }

  lemma FinishWaits(v: Listing, copy: Copy, commitIt: bool)
    requires v.shownRevision.Rollback?
    ensures StillWaiting(v, Finish(v, copy, commitIt))
  {
  }

  // ------------------------------------------------------------------- the bases

  lemma MoveBases(v: Listing, copy: Copy, bases: set<nat>, told: bool, code: Code, to: int, before: seq<Code>,
                  after: seq<Code>, base: Base)
    requires BasesInv(v, copy, bases, told) && (base.At? ==> base.revision in bases)
    ensures BasesInv(MoveBlock(v, copy, code, to, before, after, base), copy, bases, told)
  {
  }

  lemma CloseBases(v: Listing, copy: Copy, bases: set<nat>, told: bool)
    requires BasesInv(v, copy, bases, told)
    ensures BasesInv(CloseMenu(v, copy), copy, bases, told)
  {
  }

  lemma FinishBases(v: Listing, copy: Copy, bases: set<nat>, told: bool, commitIt: bool)
    requires BasesInv(v, copy, bases, told)
    ensures BasesInv(Finish(v, copy, commitIt), copy, bases, told)
  {
    if v.drag.Some? {
      var Drag(code, before, to) := v.drag.value;
      var settled := Settle(v.(drag := None), copy);
      assert BasesInv(settled, copy, bases, told);
      MoveBases(settled, copy, bases, told, code, to, before, Moved(before, code, to), v.shownRevision);
    }
  }

  lemma CancelBases(v: Listing, copy: Copy, bases: set<nat>, told: bool)
    requires BasesInv(v, copy, bases, told)
    ensures BasesInv(Cancel(v, copy), copy, bases, told)
  {
    FinishBases(v, copy, bases, told, false);
    var released := Release(Finish(v, copy, false), copy);
    assert BasesInv(released, copy, bases, told);
    CloseBases(released, copy, bases, told);
  }

  lemma RedrawBases(v: Listing, copy: Copy, bases: set<nat>, told: bool, model: seq<Code>)
    requires BasesInv(v, copy, bases, told)
    ensures BasesInv(Draw(v, copy, model), copy, bases + {copy.state.revision}, told)
  {
    var more := bases + {copy.state.revision};
    assert BasesInv(v, copy, more, told);
    if Active(v).Some? {
      var holding := v.(latest := Some(Held(model, StampOf(copy))));
      assert BasesInv(holding, copy, more, told);
      CancelBases(holding, copy, more, told);
    }
  }

  lemma ChooseBases(v: Listing, copy: Copy, bases: set<nat>, told: bool, code: Code, to: int)
    requires BasesInv(v, copy, bases, told)
    ensures BasesInv(Choose(v, copy, code, to), copy, bases, told)
  {
    CloseBases(v, copy, bases, told);
    MoveBases(CloseMenu(v, copy), copy, bases, told, code, to, v.blocks, Moved(v.blocks, code, to), v.shownRevision);
  }

  lemma BeginBases(v: Listing, copy: Copy, bases: set<nat>, told: bool)
    requires BasesInv(v, copy, bases, told) && v.press.Some?
    ensures BasesInv(Begin(v, copy), copy, bases, told)
  {
    CloseBases(v.(press := None), copy, bases, told);
  }

  lemma StepBases(w: World, e: Event)
    requires Enabled(w, e) && BasesInv(w.v, w.copy, w.bases, w.told)
    ensures BasesInv(Apply(w, e).v, Apply(w, e).copy, Apply(w, e).bases, Apply(w, e).told)
  {
    match e
    case Redraw(model) => RedrawBases(w.v, w.copy, w.bases, w.told, model);
    case DragBegins => BeginBases(w.v, w.copy, w.bases, w.told);
    case DragEnds(commitIt) => FinishBases(w.v, w.copy, w.bases, w.told, commitIt);
    case MenuOpens(_) => CloseBases(w.v, w.copy, w.bases, w.told);
    case MenuCloses => CloseBases(w.v, w.copy, w.bases, w.told);
    case MenuChooses(place) => ChooseBases(w.v, w.copy, w.bases, w.told, w.v.menu.value, place);
    case Cancelled => CancelBases(w.v, w.copy, w.bases, w.told);
    case _ =>
  }

  // ------------------------------------------- a move names what it was made on

  /** A move stays what it was made as; once the store was called, or has answered, that stays too. */
  ghost predicate SameMove(a: Moving, b: Moving) {
    && b == a.(called := b.called, landed := b.landed)
    && (a.called.Some? ==> b.called == a.called) && (a.landed.Some? ==> b.landed == a.landed)
  }

  ghost predicate SameMoves(v: Listing, r: Listing) {
    |v.moves| <= |r.moves| && forall k :: 0 <= k < |v.moves| ==> SameMove(v.moves[k], r.moves[k])
  }

  /**
   * When an event begins a move: a drop away from the block's own place, or a choice
   * of another place of the list in the menu; never while ROLLBACK stands.
   */
  ghost predicate Begins(v: Listing, e: Event) {
    && !v.shownRevision.Rollback?
    && match e
       case DragEnds(commitIt) =>
         && commitIt && v.drag.Some? && v.drag.value.to < |v.drag.value.before|
         && v.drag.value.before[v.drag.value.to] != v.drag.value.code
       case MenuChooses(place) =>
         v.menu.Some? && v.menu.value in v.blocks && 0 <= place < |v.blocks| && v.blocks[place] != v.menu.value
       case _ => false
  }

  /** The move it begins: in the list as it was shown, from what that list claimed. */
  ghost function BegunBy(v: Listing, e: Event): Moving
    requires Begins(v, e)
  {
    if e.DragEnds? then
      Moving(v.drag.value.code, v.drag.value.to, v.drag.value.before, v.shownRevision, None, None)
    else Moving(v.menu.value, e.place, v.blocks, v.shownRevision, None, None)
  }

  ghost predicate NamesTheClaim(v: Listing, e: Event, r: Listing) {
    if Begins(v, e) then r.moves == v.moves + [BegunBy(v, e)] && r.shownRevision == After(|v.moves|)
    else |r.moves| == |v.moves|
  }

  lemma ChoiceNamesTheClaim(v: Listing, copy: Copy, e: Event)
    requires ChainInv(v) && e.MenuChooses? && v.menu.Some?
    ensures var r := Choose(v, copy, v.menu.value, e.place);
            NamesTheClaim(v, e, r) && SameMoves(v, r)
  {
    CloseChain(v, copy);
  }

  lemma FinishNamesTheClaim(v: Listing, copy: Copy, newest: seq<Code>, e: Event)
    requires e.DragEnds? && Coherent(v, newest)
    ensures NamesTheClaim(v, e, Finish(v, copy, e.commitIt)) && SameMoves(v, Finish(v, copy, e.commitIt))
  {
  }

  lemma RedrawBeginsNothing(v: Listing, copy: Copy, model: seq<Code>)
    requires ChainInv(v)
    ensures Draw(v, copy, model).moves == v.moves
  {
    var holding := v.(latest := Some(Held(model, StampOf(copy))));
    ChainSame(v, holding);
    CancelChain(holding, copy);
  }

  lemma MovesNameTheClaim(w: World, e: Event)
    requires Inv(w) && Enabled(w, e)
    ensures NamesTheClaim(w.v, e, Apply(w, e).v) && SameMoves(w.v, Apply(w, e).v)
  {
    match e
    case Redraw(model) => RedrawBeginsNothing(w.v, w.copy, model);
    case Cancelled => CancelChain(w.v, w.copy);
    case MenuChooses(_) => ChoiceNamesTheClaim(w.v, w.copy, e);
    case DragEnds(_) => FinishNamesTheClaim(w.v, w.copy, w.newest, e);
    case _ => OthersBeginNothing(w, e);
  }

  lemma OthersBeginNothing(w: World, e: Event)
    requires Enabled(w, e) && !e.Redraw? && !e.Cancelled? && !e.MenuChooses? && !e.DragEnds?
    ensures |Apply(w, e).v.moves| == |w.v.moves| && SameMoves(w.v, Apply(w, e).v)
  {
    if e.Resolves? || e.Answers? {
    } else {
      EndingBeginsNothing(w.v, w.copy);
    }
  }

  lemma EndingBeginsNothing(v: Listing, copy: Copy)
    ensures Release(v, copy).moves == v.moves && CloseMenu(v, copy).moves == v.moves
    ensures v.press.Some? ==> Begin(v, copy).moves == v.moves
  {
    assert Settle(v.(press := None), copy).moves == v.moves && Settle(v.(menu := None), copy).moves == v.moves;
  }

  /** Every move is of a block in a list without duplicates. */
  ghost predicate MovesInv(v: Listing) {
    forall k :: 0 <= k < |v.moves| ==> NoDup(v.moves[k].before) && v.moves[k].code in v.moves[k].before
  }

  lemma StepMoves(w: World, e: Event)
    requires Inv(w) && Enabled(w, e)
    ensures MovesInv(Apply(w, e).v)
  {
    var r := Apply(w, e).v;
    MovesNameTheClaim(w, e);
    forall k | 0 <= k < |r.moves| ensures NoDup(r.moves[k].before) && r.moves[k].code in r.moves[k].before {
      if k < |w.v.moves| {
        assert SameMove(w.v.moves[k], r.moves[k]);
      }
    }
  }

  /** But for the two that are about one, an event leaves the moves there are as they are. */
  lemma OldMovesStay(w: World, e: Event)
    requires Inv(w) && Enabled(w, e) && !e.Resolves? && !e.Answers?
    ensures var v, r := w.v, Apply(w, e).v;
            && |v.moves| <= |r.moves| && r.moves[..|v.moves|] == v.moves
            && forall k :: |v.moves| <= k < |r.moves| ==> r.moves[k].called.None? && r.moves[k].landed.None?
  {
    match e
    case Redraw(model) => RedrawBeginsNothing(w.v, w.copy, model);
    case Cancelled => CancelChain(w.v, w.copy);
    case MenuChooses(_) => CloseChain(w.v, w.copy);
    case DragEnds(_) =>
    case _ => EndingBeginsNothing(w.v, w.copy);
  }

  /** What one event of a list keeps. */
  lemma StepKeeps(w: World, e: Event)
    requires Inv(w) && Enabled(w, e)
    ensures Inv(Apply(w, e)) && NamesTheClaim(w.v, e, Apply(w, e).v) && SameMoves(w.v, Apply(w, e).v)
  {
    StepScreen(w, e);
    StepChain(w, e);
    StepBases(w, e);
    StepMoves(w, e);
    MovesNameTheClaim(w, e);
  }
}
