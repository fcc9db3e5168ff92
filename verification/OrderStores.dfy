/**
 * A surface's copy of the order. Each function is what one uninterrupted stretch
 * of the store's code does to its variables, from one `await` to the next; the
 * class is the store itself.
 */
module OrderStores {
  import opened Sequences
  import opened Options
  import opened OrderRecord

  datatype Outcome = Saved | Stale | Failed

  /** What a save answers its caller. */
  datatype Report = Report(outcome: Outcome, revision: nat)

  datatype Copy = Copy(state: Order, generation: nat, saving: nat, adoptFailures: nat)

  /** Storage failures a newcomer append is retried through. */
  const ADOPT_ATTEMPTS := 3

  /** Before the first read. */
  const UNREAD := Copy(USAGE, 0, 0, 0)

  function Notify(c: Copy): Copy {
    c.(generation := c.generation + 1)
  }

  function SetTo(c: Copy, next: Order): Copy {
    if c.state == next then c else Notify(c.(state := next))
  }

  /** A record read or heard is used only when it is a valid one. */
  function Usable(read: Option<Order>): Option<Order> {
    if read.Some? && ValidOrder(read.value) then read else None
  }

  function Load(c: Copy, read: Option<Order>): Copy {
    match Usable(read)
    case Some(order) => SetTo(c, order)
    case None => c
  }

  function Hear(c: Copy, next: Order): Copy {
    if ValidOrder(next) && next.revision > c.state.revision then SetTo(c, next) else c
  }

  /** A save up to its write: counted, and shown when it was made on this copy's revision. */
  function SaveStarts(c: Copy, input: Order): Copy {
    var counted := c.(saving := c.saving + 1);
    if input.revision == c.state.revision then SetTo(counted, input) else counted
  }

  /** A save whose write was answered with a record; `None` sends it to the disk. */
  function SaveAnswered(c: Copy, answer: Option<Order>): Copy
    requires c.saving > 0
  {
    var counted := c.(saving := c.saving - 1);
    match Usable(answer)
    case Some(order) => if order.revision >= c.state.revision then SetTo(counted, order) else counted
    case None => counted
  }

  /** The reload: it changes the record, and not yet the generation. */
  function FromDisk(c: Copy, before: Order, read: Option<Order>): Copy {
    match Usable(read)
    case Some(order) =>
      if order.revision >= c.state.revision then c.(state := order)
      else if c.state.revision == before.revision then c.(state := before)
      else c
    case None => if c.state.revision == before.revision then c.(state := before) else c
  }

  function OutcomeOf(c: Copy, revision: nat): Outcome {
    if c.state.revision == revision then Failed else Stale
  }

  /** The end of a save that did not land: a failed append is counted, then every list redraws. */
  function SaveTold(c: Copy, revision: nat, appending: bool): Copy {
    Notify(if appending && OutcomeOf(c, revision) == Failed then c.(adoptFailures := c.adoptFailures + 1) else c)
  }

  predicate MayAppend(c: Copy, shown: seq<Code>) {
    && c.state.mode == Custom && c.saving == 0 && c.adoptFailures < ADOPT_ATTEMPTS
    && Exclude(shown, Elements(c.state.providers)) != []
  }

  /** The record a newcomer append writes: the list, then the shown codes it does not name. */
  function Appended(c: Copy, shown: seq<Code>): Order {
    Order(Custom, c.state.providers + Exclude(shown, Elements(c.state.providers)), c.state.revision)
  }

  // --------------------------------------------------------------- the shipped form

  /** The store, with the variables it closes over. */
  class OrderStore {
    var state: Order
    var generation: nat
    var saving: nat
    var adoptFailures: nat

    ghost function View(): Copy
      reads this
    {
      Copy(state, generation, saving, adoptFailures)
    }

    /** Every change of the record changes the generation, once; nothing else does. */
    twostate predicate Redrawn()
      reads this
    {
      generation == old(generation) + (if state == old(state) then 0 else 1)
    }

    constructor ()
      ensures View() == UNREAD
    {
      state, generation, saving, adoptFailures := USAGE, 0, 0, 0;
    }

    method Set(next: Order)
      modifies this`state, this`generation
      ensures View() == SetTo(old(View()), next)
      ensures state == next && Redrawn()
    {
      if state == next {
        return;
      }
      state := next;
      generation := generation + 1;
    }

    /** A first read shows whatever it read, an older record too; one that failed or reads as none changes nothing. */
    method LoadAnswered(read: Option<Order>)
      modifies this`state, this`generation
      ensures View() == Load(old(View()), read)
      ensures state == (if read.Some? && ValidOrder(read.value) then read.value else old(state)) && Redrawn()
    {
      if read.Some? && ValidOrder(read.value) {
        Set(read.value);
      }
    }

    /** An event shows a newer record, and no other. */
    method EventHeard(next: Order)
      modifies this`state, this`generation
      ensures View() == Hear(old(View()), next)
      ensures state == (if ValidOrder(next) && next.revision > old(state.revision) then next else old(state))
      ensures Redrawn()
    {
      if ValidOrder(next) && next.revision > state.revision {
        Set(next);
      }
    }

    /** A save shows at once when it was made on the revision this copy holds. */
    method SaveBegun(mode: Mode, providers: seq<Code>, revision: nat) returns (before: Order)
      modifies this`state, this`generation, this`saving
      ensures before == old(state) && saving == old(saving) + 1
      ensures View() == SaveStarts(old(View()), Order(mode, providers, revision))
      ensures state == (if revision == before.revision then Order(mode, providers, revision) else before) && Redrawn()
    {
      before := state;
      saving := saving + 1;
      if revision == state.revision {
        Set(Order(mode, providers, revision));
      }
    }

    /** A landed write shows unless the copy has moved past it, and is reported; any other goes on to its reload. */
    method WriteAnswered(answer: Option<Order>) returns (report: Option<Report>)
      requires saving > 0
      modifies this`state, this`generation, this`saving
      ensures View() == SaveAnswered(old(View()), answer) && saving == old(saving) - 1
      ensures report.Some? <==> answer.Some? && ValidOrder(answer.value)
      ensures report.Some? ==> report == Some(Report(Saved, answer.value.revision))
      ensures state == if report.Some? && answer.value.revision >= old(state.revision) then answer.value else old(state)
      ensures Redrawn()
    {
      saving := saving - 1;
      if answer.Some? && ValidOrder(answer.value) {
        if answer.value.revision >= state.revision {
          Set(answer.value);
        }
        return Some(Report(Saved, answer.value.revision));
      }
      return None;
    }

    /**
     * The reload takes the disk's record unless this copy is past it; failing that it
     * takes the save back, when the copy still holds the revision it was made on.
     */
    method ReadFromDisk(before: Order, read: Option<Order>)
      modifies this`state
      ensures View() == FromDisk(old(View()), before, read)
      ensures state == if read.Some? && ValidOrder(read.value) && read.value.revision >= old(state.revision)
                       then read.value
                       else if before.revision == old(state.revision) then before else old(state)
    {
      if read.Some? && ValidOrder(read.value) && read.value.revision >= state.revision {
        state := read.value;
      } else if state.revision == before.revision {
        state := before;
      }
    }

    /**
     * A save that did not land failed, and counts against the appends if it was one,
     * when the copy still holds the revision it was written from; otherwise another
     * surface wrote first.
     */
    method SaveEnded(revision: nat, appending: bool) returns (report: Report)
      modifies this`generation, this`adoptFailures
      ensures View() == SaveTold(old(View()), revision, appending)
      ensures report == Report(if state.revision == revision then Failed else Stale, state.revision)
      ensures generation == old(generation) + 1
      ensures adoptFailures == old(adoptFailures) + (if appending && report.outcome == Failed then 1 else 0)
    {
      var outcome := if state.revision == revision then Failed else Stale;
      if appending && outcome == Failed {
        adoptFailures := adoptFailures + 1;
      }
      generation := generation + 1;
      return Report(outcome, state.revision);
    }

    method RestoreEnded() returns (report: Report)
      modifies this`generation
      ensures View() == Notify(old(View())) && report == Report(Failed, state.revision)
      ensures generation == old(generation) + 1
    {
      generation := generation + 1;
      return Report(Failed, state.revision);
    }

    /**
     * A newcomer append begins exactly when the order is the person's own, nothing is
     * being written, fewer than three appends failed and some shown code is not in the
     * list. It writes that order on, from the revision it shows: the list as it is,
     * then the newcomers in the order they are shown.
     */
    method Adopt(shown: seq<Code>) returns (begun: bool, before: Order, input: Order)
      modifies this`state, this`generation, this`saving
      ensures begun <==> && old(state.mode) == Custom && old(saving) == 0 && adoptFailures < 3
                         && exists code :: code in shown && code !in old(state.providers)
      ensures !begun ==> View() == old(View())
      ensures begun ==> before == old(state) && state == input && saving == 1 && Redrawn()
                        && View() == SaveStarts(old(View()), Appended(old(View()), shown))
      ensures begun ==> && input.mode == Custom && input.revision == before.revision
                        && input.providers == before.providers + Exclude(shown, Elements(before.providers))
    {
      before, input := state, state;
      var newcomers := Exclude(shown, Elements(state.providers));
      begun := state.mode == Custom && saving == 0 && adoptFailures < ADOPT_ATTEMPTS && newcomers != [];
      if begun {
        input := Order(Custom, state.providers + newcomers, state.revision);
        assert newcomers[0] in newcomers;
        before := SaveBegun(Custom, state.providers + newcomers, state.revision);
      }
    }
  }
}
