/** What a reorderable list claims, against the order its blocks were last drawn in. */
module ListDrawings {
  import opened Sequences
  import opened Options
  import opened OrderRecord
  import opened ProviderList
  import opened OrderStores
  import opened ReorderList
  import opened ListInvariants
  import opened ListRuns

  /**
   * The model and the record the blocks were drawn from, as long as what the list
   * claims rests on that: a move begun since, or the landing of one, ends it. `told`
   * is whether the copy's generation had been changed for that record.
   */
  datatype Drawing = Drawing(model: seq<Code>, order: OrderRecord.Order, told: bool)

  /** The list is redrawn at once, or shows what was held back. */
  ghost predicate Renders(w: World, e: Event)
    requires Enabled(w, e)
  {
    || (e.Redraw? && Active(w.v).None?)
    || ((e.Redraw? || w.v.latest.Some?) && Apply(w, e).v.latest.None?)
  }

  /** The claim comes from a move: one is begun, or what the list claims becomes its landing. */
  ghost predicate Moves(w: World, e: Event)
    requires Enabled(w, e)
  {
    var r := Apply(w, e).v;
    || |r.moves| > |w.v.moves|
    || (e.Notes? && r.shownRevision != w.v.shownRevision
        && !(w.v.drawnStamp.Some? && w.v.drawnStamp.value.generation == w.copy.generation))
  }

  ghost function DrawnAfter(w: World, e: Event, drawing: Option<Drawing>): Option<Drawing> {
    if !Enabled(w, e) then drawing
    else if Moves(w, e) then None
    else if Renders(w, e) then Some(Drawing(Apply(w, e).newest, w.copy.state, w.told || Active(w.v).None?))
    else drawing
  }

  ghost function DrawnBy(w: World, events: seq<Event>, drawing: Option<Drawing>): Option<Drawing>
    requires Inv(w)
    decreases |events|
  {
    if events == [] then drawing else DrawnBy(Next(w, events[0]), events[1..], DrawnAfter(w, events[0], drawing))
  }

  /** The blocks are drawn in an order, and what the list claims is not newer than it. */
  ghost predicate ShowsAtLeast(v: Listing, copy: Copy, d: Drawing) {
    && v.blocks == ByOrder(d.model, d.order) && d.order.revision <= copy.state.revision
    && (v.shownRevision.At? ==> v.shownRevision.revision <= d.order.revision)
    && (v.drawnStamp.Some? ==>
          && v.drawnStamp.value.revision <= d.order.revision
          && (d.told ==> v.drawnStamp.value.revision == d.order.revision)
          && (v.shownRevision.At? ==> v.shownRevision.revision == v.drawnStamp.value.revision))
  }

  ghost predicate Shows(w: World, drawing: Option<Drawing>) {
    drawing.Some? ==> ShowsAtLeast(w.v, w.copy, drawing.value)
  }

  // ------------------------------------------------------------------ one handler

  /** Nothing was drawn: the same blocks, claim and stamp, and a model held back or not as before. */
  ghost predicate Undrawn(v: Listing, r: Listing) {
    && r.blocks == v.blocks && r.shownRevision == v.shownRevision && r.drawnStamp == v.drawnStamp
    && r.latest == v.latest && |r.moves| == |v.moves|
  }

  /** `newest` was drawn in the copy's order. */
  ghost predicate DrawnAs(v: Listing, r: Listing, copy: Copy, newest: seq<Code>, told: bool) {
    && r.blocks == ByOrder(newest, copy.state) && r.latest.None? && |r.moves| == |v.moves|
    && (r.drawnStamp.None? ==> r.shownRevision == v.shownRevision)
    && (r.drawnStamp.Some? ==>
          && r.drawnStamp.value.revision <= copy.state.revision
          && (told ==> r.drawnStamp.value.revision == copy.state.revision)
          && (r.shownRevision.At? ==> r.shownRevision.revision == r.drawnStamp.value.revision))
  }

  /** One or the other, the first only of a list that held something back. */
  ghost predicate DrawnOrNot(v: Listing, r: Listing, copy: Copy, newest: seq<Code>, told: bool) {
    Undrawn(v, r) || (v.latest.Some? && DrawnAs(v, r, copy, newest, told))
  }

  /** What is held back is the newest model, stamped no later than the copy. */
  ghost predicate HeldIsNewest(v: Listing, copy: Copy, newest: seq<Code>, told: bool) {
    v.latest.Some? ==>
      && v.latest.value.model == newest
      && v.latest.value.stamp.revision <= copy.state.revision
      && (told && v.latest.value.stamp.generation == copy.generation ==>
            v.latest.value.stamp.revision == copy.state.revision)
  }

  lemma SettleDraws(v: Listing, copy: Copy, newest: seq<Code>, told: bool)
    requires HeldIsNewest(v, copy, newest, told)
    ensures DrawnOrNot(v, Settle(v, copy), copy, newest, told)
  {
    if v.latest.Some? && Active(v).None? {
      ByOrderTwice(newest, copy.state);
    }
  }

  lemma EndingsDraw(v: Listing, copy: Copy, newest: seq<Code>, told: bool)
    requires HeldIsNewest(v, copy, newest, told)
    ensures DrawnOrNot(v, Release(v, copy), copy, newest, told)
    ensures DrawnOrNot(v, CloseMenu(v, copy), copy, newest, told)
    ensures DrawnOrNot(v, Finish(v, copy, false), copy, newest, told)
  {
    SettleDraws(v.(press := None), copy, newest, told);
    SettleDraws(v.(menu := None), copy, newest, told);
    SettleDraws(v.(drag := None), copy, newest, told);
  }

  lemma Together(v: Listing, a: Listing, b: Listing, copy: Copy, newest: seq<Code>, told: bool)
    requires DrawnOrNot(v, a, copy, newest, told) && DrawnOrNot(a, b, copy, newest, told)
    ensures DrawnOrNot(v, b, copy, newest, told)
  {
  }

  lemma CancelDraws(v: Listing, copy: Copy, newest: seq<Code>, told: bool)
    requires HeldIsNewest(v, copy, newest, told)
    ensures DrawnOrNot(v, Cancel(v, copy), copy, newest, told)
  {
    var a := Finish(v, copy, false);
    EndingsDraw(v, copy, newest, told);
    var b := Release(a, copy);
    EndingsDraw(a, copy, newest, told);
    Together(v, a, b, copy, newest, told);
    EndingsDraw(b, copy, newest, told);
    Together(v, b, CloseMenu(b, copy), copy, newest, told);
  }

  lemma BeginDraws(v: Listing, copy: Copy, newest: seq<Code>, told: bool)
    requires HeldIsNewest(v, copy, newest, told) && v.press.Some?
    ensures DrawnOrNot(v, Begin(v, copy), copy, newest, told)
  {
    EndingsDraw(v.(press := None), copy, newest, told);
  }

  /** A drop or a choice that begins no move only ends its interaction. */
  lemma MoveDraws(v: Listing, copy: Copy, newest: seq<Code>, told: bool, commitIt: bool, place: int)
    requires HeldIsNewest(v, copy, newest, told)
    ensures |Finish(v, copy, commitIt).moves| == |v.moves| ==>
              DrawnOrNot(v, Finish(v, copy, commitIt), copy, newest, told)
    ensures v.menu.Some? && |Choose(v, copy, v.menu.value, place).moves| == |v.moves| ==>
              DrawnOrNot(v, Choose(v, copy, v.menu.value, place), copy, newest, told)
  {
    EndingsDraw(v, copy, newest, told);
  }

  /** A redraw draws at once, or holds its model back, or ends an interaction whose block is gone and draws. */
  lemma RedrawDraws(w: World, model: seq<Code>)
    requires Inv(w) && NoDup(model)
    ensures var r := Apply(w, Redraw(model)).v;
            if Active(w.v).None? then DrawnAs(w.v, r, w.copy, model, true)
            else if r.latest.None? then DrawnAs(w.v, r, w.copy, model, w.told)
            else r == w.v.(latest := r.latest)
  {
    if Active(w.v).Some? {
      RedrawHolds(w, model);
      var holding := w.v.(latest := Some(Held(model, StampOf(w.copy))));
      CancelDraws(holding, w.copy, model, w.told);
    }
  }

  // --------------------------------------------------------------------- the runs

  lemma DrawnShows(w: World, r: Listing, newest: seq<Code>, told: bool)
    requires Inv(w) && DrawnAs(w.v, r, w.copy, newest, told)
    ensures ShowsAtLeast(r, w.copy, Drawing(newest, w.copy.state, told))
  {
  }

  lemma UndrawnShows(w: World, r: Listing, drawing: Option<Drawing>)
    requires Shows(w, drawing) && Undrawn(w.v, r)
    ensures drawing.Some? ==> ShowsAtLeast(r, w.copy, drawing.value)
  {
  }

  lemma RedrawShows(w: World, model: seq<Code>, drawing: Option<Drawing>)
    requires Inv(w) && NoDup(model) && Shows(w, drawing)
    ensures Shows(Apply(w, Redraw(model)), DrawnAfter(w, Redraw(model), drawing))
  {
    RedrawDraws(w, model);
    RedrawBeginsNothing(w.v, w.copy, model);
    var r := Apply(w, Redraw(model)).v;
    if Active(w.v).None? {
      DrawnShows(w, r, model, true);
    } else if r.latest.None? {
      DrawnShows(w, r, model, w.told);
    }
  }

  /** The events that may show what was held back. */
  ghost predicate Ends(e: Event) {
    e.DragBegins? || e.DragEnds? || e.PressEnds? || e.MenuOpens? || e.MenuCloses? || e.MenuChooses? || e.Cancelled?
  }

  lemma EndsDraw(w: World, e: Event)
    requires Inv(w) && Enabled(w, e) && Ends(e) && |Apply(w, e).v.moves| == |w.v.moves|
    ensures DrawnOrNot(w.v, Apply(w, e).v, w.copy, w.newest, w.told)
  {
    match e
    case DragBegins => BeginDraws(w.v, w.copy, w.newest, w.told);
    case DragEnds(commitIt) => MoveDraws(w.v, w.copy, w.newest, w.told, commitIt, 0);
    case MenuChooses(place) => MoveDraws(w.v, w.copy, w.newest, w.told, false, place);
    case Cancelled => CancelDraws(w.v, w.copy, w.newest, w.told);
    case _ => EndingsDraw(w.v, w.copy, w.newest, w.told);
  }

  lemma EndsShow(w: World, e: Event, drawing: Option<Drawing>)
    requires Inv(w) && Enabled(w, e) && Ends(e) && Shows(w, drawing)
    ensures Shows(Apply(w, e), DrawnAfter(w, e, drawing))
  {
    MovesNameTheClaim(w, e);
    var r := Apply(w, e).v;
    if |r.moves| == |w.v.moves| {
      EndsDraw(w, e);
      if DrawnAs(w.v, r, w.copy, w.newest, w.told) && w.v.latest.Some? {
        DrawnShows(w, r, w.newest, w.told);
      } else {
        UndrawnShows(w, r, drawing);
      }
    }
  }

  lemma StepShows(w: World, e: Event, drawing: Option<Drawing>)
    requires Inv(w) && Shows(w, drawing)
    ensures Shows(Next(w, e), DrawnAfter(w, e, drawing))
  {
    if Enabled(w, e) {
      if e.Redraw? {
        RedrawShows(w, e.model, drawing);
      } else if Ends(e) {
        EndsShow(w, e, drawing);
      }
    }
  }

  lemma {:induction false} RunShows(w: World, events: seq<Event>, drawing: Option<Drawing>)
    requires Inv(w) && Shows(w, drawing)
    ensures Shows(Run(w, events), DrawnBy(w, events, drawing))
    decreases |events|
  {
    if events != [] {
      StepShows(w, events[0], drawing);
      RunShows(Next(w, events[0]), events[1..], DrawnAfter(w, events[0], drawing));
    }
  }

  /**
   * In every run a list whose claim rests on a drawing shows exactly the order that
   * was drawn, and never claims a revision newer than it: so a move made on an order
   * another surface has replaced names a revision the disk has left. With a model
   * drawn at a known revision the claim is that revision.
   */
  lemma StampedShowIsCurrent(copy: Copy, events: seq<Event>)
    ensures Inv(World(EMPTY, copy, [], {0}, true))
    ensures var start := World(EMPTY, copy, [], {0}, true);
            var end, drawing := Run(start, events), DrawnBy(start, events, None);
            drawing.Some? ==> ShowsAtLeast(end.v, end.copy, drawing.value)
  {
    EmptyListStarts(copy);
    RunShows(World(EMPTY, copy, [], {0}, true), events, None);
  }
}
