/**
 * The edge panel's reader: one read at a time, requests made during it served by
 * one more, and a timer while the panel is shown.
 */
module PanelReader {

  /** A caller waiting for a read; `asked` is how many reads had started when it asked. */
  datatype Request = Request(id: nat, asked: nat)

  /** How a caller was answered: by which read, none once the panel is gone, and whether it read the cache. */
  datatype Answer = Answer(request: Request, number: nat, read: bool) | CutOff(id: nat)

  datatype Panel = Panel(
    stopped: bool, pending: bool, again: bool, shown: bool,
    waiting: seq<Request>, served: seq<Request>,
    started: nat, results: seq<bool>,
    timers: set<nat>, timer: nat,
    answers: seq<Answer>)

  /** Before the first read; a panel with no event channel counts as shown. */
  function Fresh(shown: bool): Panel {
    Panel(false, false, false, shown, [], [], 0, [], {}, 0, [])
  }

  function Cancel(p: Panel): Panel {
    p.(timers := p.timers - {p.timer})
  }

  function Refreshed(p: Panel): Panel {
    if p.stopped then p
    else if p.pending then p.(again := true)
    else Cancel(p).(pending := true, again := false, served := p.waiting, waiting := [], started := p.started + 1)
  }

  function AnswerAll(served: seq<Request>, number: nat, read: bool): (r: seq<Answer>)
    ensures |r| == |served| && forall k :: 0 <= k < |r| ==> r[k] == Answer(served[k], number, read)
  {
    seq(|served|, k requires 0 <= k < |served| => Answer(served[k], number, read))
  }

  /** The read under way ends, however it ends. */
  function Land(p: Panel, read: bool): Panel {
    var idle := p.(pending := false, served := [], results := p.results + [read],
                   answers := p.answers + AnswerAll(p.served, p.started, read));
    if !p.stopped && p.again then Refreshed(idle)
    else if !p.stopped && p.shown then idle.(timer := p.timer + 1, timers := p.timers + {p.timer + 1})
    else idle
  }

  function Asked(p: Panel, id: nat): Panel {
    if p.stopped then p.(answers := p.answers + [CutOff(id)])
    else Refreshed(p.(waiting := p.waiting + [Request(id, p.started)]))
  }

  function OnShown(p: Panel, shown: bool): Panel {
    var heard := Cancel(p.(shown := shown));
    if shown then Refreshed(heard) else heard
  }

  function Fires(p: Panel, timer: nat): Panel {
    Refreshed(p.(timers := p.timers - {timer}))
  }

  function Dispose(p: Panel): Panel {
    Cancel(p.(stopped := true))
  }

  datatype Event = Asks | Rereads(id: nat) | Shows(shown: bool) | Lands(read: bool) | Ticks(timer: nat) | Disposes

  ghost predicate Enabled(p: Panel, e: Event) {
    match e
    case Lands(_) => p.pending
    case Ticks(timer) => timer in p.timers
    case _ => true
  }

  function Apply(p: Panel, e: Event): Panel {
    match e
    case Asks => Refreshed(p)
    case Rereads(id) => Asked(p, id)
    case Shows(shown) => OnShown(p, shown)
    case Lands(read) => Land(p, read)
    case Ticks(timer) => Fires(p, timer)
    case Disposes => Dispose(p)
  }

  ghost function Next(p: Panel, e: Event): Panel {
    if Enabled(p, e) then Apply(p, e) else p
  }

  ghost function Run(p: Panel, events: seq<Event>): Panel
    decreases |events|
  {
    if events == [] then p else Run(Next(p, events[0]), events[1..])
  }

  // -------------------------------------------------------------- the invariant

  ghost predicate Inv(p: Panel) {
    && p.started == |p.results| + (if p.pending then 1 else 0)
    && p.timers == (if p.shown && !p.pending && !p.stopped then {p.timer} else {})
    && (p.waiting != [] && !p.stopped ==> p.pending && p.again)
    && (p.served != [] ==> p.pending)
    && (forall k :: 0 <= k < |p.waiting| ==> p.waiting[k].asked == p.started)
    && (forall k :: 0 <= k < |p.served| ==> p.served[k].asked < p.started)
    && (forall k :: 0 <= k < |p.answers| && p.answers[k].Answer? ==>
          && p.answers[k].request.asked < p.answers[k].number <= |p.results|
          && p.answers[k].read == p.results[p.answers[k].number - 1])
  }

  lemma RefreshKeepsInv(p: Panel)
    requires Inv(p.(waiting := [])) && (forall k :: 0 <= k < |p.waiting| ==> p.waiting[k].asked == p.started)
    ensures Inv(Refreshed(p))
  {
  }

  lemma LandKeepsInv(p: Panel, read: bool)
    requires Inv(p) && p.pending
    ensures Inv(Land(p, read))
  {
    var idle := p.(pending := false, served := [], results := p.results + [read],
                   answers := p.answers + AnswerAll(p.served, p.started, read));
    forall k | 0 <= k < |idle.answers| && idle.answers[k].Answer?
      ensures idle.answers[k].request.asked < idle.answers[k].number <= |idle.results|
      ensures idle.answers[k].read == idle.results[idle.answers[k].number - 1]
    {
      if k < |p.answers| {
        assert idle.answers[k] == p.answers[k];
      } else {
        assert idle.answers[k] == Answer(p.served[k - |p.answers|], p.started, read);
      }
    }
  }

  lemma AskedKeepsInv(p: Panel, id: nat)
    requires Inv(p)
    ensures Inv(Asked(p, id))
  {
    if p.stopped {
      assert forall k :: 0 <= k < |p.answers| ==> Asked(p, id).answers[k] == p.answers[k];
    } else {
      RefreshKeepsInv(p.(waiting := p.waiting + [Request(id, p.started)]));
    }
  }

  lemma ShownKeepsInv(p: Panel, shown: bool)
    requires Inv(p)
    ensures Inv(OnShown(p, shown))
  {
  }

  lemma TickKeepsInv(p: Panel, timer: nat)
    requires Inv(p) && timer in p.timers
    ensures Inv(Fires(p, timer))
  {
  }

  lemma StepKeepsInv(p: Panel, e: Event)
    requires Inv(p)
    ensures Inv(Next(p, e))
  {
    if Enabled(p, e) {
      match e
      case Asks => RefreshKeepsInv(p);
      case Rereads(id) => AskedKeepsInv(p, id);
      case Shows(shown) => ShownKeepsInv(p, shown);
      case Lands(read) => LandKeepsInv(p, read);
      case Ticks(timer) => TickKeepsInv(p, timer);
      case Disposes =>
    }
  }

  lemma {:induction false} RunKeepsInv(p: Panel, events: seq<Event>)
    requires Inv(p)
    ensures Inv(Run(p, events))
    decreases |events|
  {
    if events != [] {
      StepKeepsInv(p, events[0]);
      RunKeepsInv(Next(p, events[0]), events[1..]);
    }
  }

  /**
   * In every run of a started panel: at most one read is under way; the one timer
   * is armed exactly while the panel is shown, idle and not gone; and every caller
   * answered by a read was answered by one that started after it asked, with what
   * that read came to.
   */
  lemma PanelIsSingleFlight(shown: bool, events: seq<Event>)
    ensures var p := Run(Refreshed(Fresh(shown)), events);
            && |p.results| <= p.started <= |p.results| + 1
            && p.timers == (if p.shown && !p.pending && !p.stopped then {p.timer} else {})
            && forall k :: 0 <= k < |p.answers| && p.answers[k].Answer? ==>
                 && p.answers[k].request.asked < p.answers[k].number <= |p.results|
                 && p.answers[k].read == p.results[p.answers[k].number - 1]
  {
    RunKeepsInv(Refreshed(Fresh(shown)), events);
  }

  /** Something asks for a read: a collector pass or an order written, the panel shown, its timer. */
  ghost predicate AsksNow(p: Panel, e: Event) {
    e.Asks? || e == Shows(true) || (e.Ticks? && e.timer in p.timers)
  }

  /**
   * Whatever asks for a read of a panel that is not gone starts one at once, with no
   * timer left armed, or has one more made after the read under way; hiding it starts
   * none and leaves no timer.
   */
  lemma AskingReads(p: Panel, e: Event)
    requires Inv(p) && !p.stopped && (AsksNow(p, e) || e == Shows(false))
    ensures var r := Next(p, e);
            && r.pending == (p.pending || e != Shows(false)) && r.timers == {}
            && r.started == p.started + (if p.pending || e == Shows(false) then 0 else 1)
            && (p.pending && e != Shows(false) ==> r.again && r.results == p.results)
            && r.shown == (if e.Shows? then e.shown else p.shown)
  {
  }

  /** So a panel that is shown polls on: when its read lands the timer is armed, and when that fires it reads again. */
  lemma PollsOn(p: Panel, read: bool)
    requires Inv(p) && p.pending && p.shown && !p.stopped && !p.again
    ensures var landed := Next(p, Lands(read));
            && !landed.pending && landed.timers == {landed.timer}
            && var polled := Next(landed, Ticks(landed.timer));
               polled.pending && polled.started == p.started + 1 && polled.results == p.results + [read]
  {
    LandKeepsInv(p, read);
  }

  // ---------------------------------------------------------------- the requests

  ghost predicate IsAnswered(p: Panel, r: Request) {
    exists k :: 0 <= k < |p.answers| && p.answers[k].Answer? && p.answers[k].request == r
  }

  /** How many more reads have to land before `r` is answered. */
  ghost predicate Within(p: Panel, r: Request, left: nat) {
    || IsAnswered(p, r)
    || (left >= 1 && p.pending && r in p.served)
    || (left >= 2 && !p.stopped && p.pending && p.again && r in p.waiting)
  }

  /** The panel is gone and the request was still waiting for a read to begin. */
  ghost predicate Lost(p: Panel, r: Request) {
    p.stopped && r in p.waiting
  }

  /** Disposal comes while the request is still waiting for a read to begin. */
  ghost predicate CutOffIn(p: Panel, events: seq<Event>, r: Request)
    decreases |events|
  {
    events != [] && ((events[0].Disposes? && r in p.waiting) || CutOffIn(Next(p, events[0]), events[1..], r))
  }

  ghost function Landings(p: Panel, events: seq<Event>): nat
    decreases |events|
  {
    if events == [] then 0
    else (if events[0].Lands? && p.pending then 1 else 0) + Landings(Next(p, events[0]), events[1..])
  }

  lemma StillAnswered(p: Panel, e: Event, r: Request)
    requires IsAnswered(p, r)
    ensures IsAnswered(Next(p, e), r)
  {
    var k :| 0 <= k < |p.answers| && p.answers[k].Answer? && p.answers[k].request == r;
    assert Next(p, e).answers[k] == p.answers[k];
  }

  /** Whoever waits has not been answered, nor is being served. */
  lemma WaitingIsUnanswered(p: Panel, r: Request)
    requires Inv(p) && r in p.waiting
    ensures !IsAnswered(p, r) && r !in p.served
  {
  }

  lemma StepComesCloser(p: Panel, e: Event, r: Request, left: nat)
    requires Within(p, r, left) && !(e.Disposes? && r in p.waiting)
    ensures Within(Next(p, e), r, if e.Lands? && p.pending && left > 0 then left - 1 else left)
  {
    if IsAnswered(p, r) {
      StillAnswered(p, e, r);
    } else if e.Lands? && r in p.served {
      var k :| 0 <= k < |p.served| && p.served[k] == r;
      var next := Next(p, e);
      assert next.answers[|p.answers| + k] == Answer(r, p.started, e.read);
    }
  }

  /** A request that no disposal cuts off comes closer to its answer with every landing. */
  lemma {:induction false} RunComesCloser(p: Panel, events: seq<Event>, r: Request, left: nat)
    requires Within(p, r, left) && !CutOffIn(p, events, r)
    ensures var landed := Landings(p, events); Within(Run(p, events), r, if landed < left then left - landed else 0)
    decreases |events|
  {
    if events != [] {
      StepComesCloser(p, events[0], r, left);
      RunComesCloser(Next(p, events[0]), events[1..], r,
                     if events[0].Lands? && p.pending && left > 0 then left - 1 else left);
    }
  }

  lemma {:induction false} StaysLost(p: Panel, events: seq<Event>, r: Request)
    requires Lost(p, r)
    ensures Lost(Run(p, events), r)
    decreases |events|
  {
    if events != [] {
      StaysLost(Next(p, events[0]), events[1..], r);
    }
  }

  lemma {:induction false} CutOffIsLost(p: Panel, events: seq<Event>, r: Request)
    requires CutOffIn(p, events, r)
    ensures Lost(Run(p, events), r)
    decreases |events|
  {
    if events[0].Disposes? && r in p.waiting {
      StaysLost(Next(p, events[0]), events[1..], r);
    } else {
      CutOffIsLost(Next(p, events[0]), events[1..], r);
    }
  }

  /**
   * In every run, disposal included, a reread is answered by the time two reads have
   * landed, and once none is under way, exactly when the panel was not disposed of
   * while the reread was still waiting for a read to begin; then it never is.
   */
  lemma RereadIsAnswered(p: Panel, id: nat, events: seq<Event>)
    requires Inv(p) && !p.stopped
    ensures var q, r := Asked(p, id), Request(id, p.started);
            var end, cut := Run(q, events), CutOffIn(q, events, r);
            && (cut ==> !IsAnswered(end, r))
            && (Landings(q, events) >= 2 || !end.pending ==> (IsAnswered(end, r) <==> !cut))
  {
    var q, r := Asked(p, id), Request(id, p.started);
    AskedKeepsInv(p, id);
    RunKeepsInv(q, events);
    if CutOffIn(q, events, r) {
      CutOffIsLost(q, events, r);
      WaitingIsUnanswered(Run(q, events), r);
    } else {
      RunComesCloser(q, events, r, 2);
    }
  }

  ghost predicate Requests(e: Event) {
    e.Asks? || e.Rereads? || e == Shows(true)
  }

  /** Requests made during a read start none of their own. */
  lemma {:induction false} RequestsWait(p: Panel, requests: seq<Event>)
    requires p.pending && !p.stopped && forall e :: e in requests ==> Requests(e)
    ensures var q := Run(p, requests);
            && q.pending && !q.stopped && q.started == p.started && q.results == p.results
            && (requests != [] || p.again ==> q.again)
    decreases |requests|
  {
    if requests != [] {
      assert Requests(requests[0]);
      RequestsWait(Next(p, requests[0]), requests[1..]);
    }
  }

  /** Any number of requests during one read cause exactly one more read. */
  lemma OneMoreRead(p: Panel, requests: seq<Event>, first: bool, second: bool)
    requires Inv(p) && p.pending && !p.stopped
    requires requests != [] && forall e :: e in requests ==> Requests(e)
    ensures var after := Land(Run(p, requests), first);
            && after.pending && after.started == p.started + 1
            && !Land(after, second).pending && Land(after, second).started == p.started + 1
  {
    RequestsWait(p, requests);
  }

  // --------------------------------------------------------------- the shipped form

  class Reader {
    var stopped: bool
    var pending: bool
    var again: bool
    var shown: bool
    var waiting: seq<Request>
    var served: seq<Request>
    var timer: nat
    /** The timers armed outside, and what has been done so far. */
    var timers: set<nat>
    var started: nat
    ghost var results: seq<bool>
    ghost var answers: seq<Answer>

    ghost function View(): Panel
      reads this
    {
      Panel(stopped, pending, again, shown, waiting, served, started, results, timers, timer, answers)
    }

    ghost predicate Valid()
      reads this
    {
      Inv(View())
    }

    constructor (channel: bool)
      ensures Valid() && View() == Refreshed(Fresh(!channel))
      ensures pending && started == 1 && !stopped && shown == !channel
    {
      stopped, pending, again, shown := false, false, false, !channel;
      waiting, served, timer, timers := [], [], 0, {};
      started, results, answers := 0, [], [];
      new;
      Refresh();
    }

    method CancelTimer()
      modifies this`timers
      ensures View() == Cancel(old(View()))
    {
      timers := timers - {timer};
    }

    method Schedule()
      modifies this`timers, this`timer
      ensures View() == old(View()).(timer := old(timer) + 1, timers := old(timers) + {old(timer) + 1})
    {
      timer := timer + 1;
      timers := timers + {timer};
    }

    /** A read for all who wait, or one more after the one under way. */
    method Refresh()
      modifies this`again, this`timers, this`pending, this`served, this`waiting, this`started
      ensures View() == Refreshed(old(View())) && (old(Valid()) ==> Valid())
    {
      ghost var was := View();
      if stopped {
        return;
      }
      if pending {
        again := true;
        return;
      }
      CancelTimer();
      pending := true;
      again := false;
      served := waiting;
      waiting := [];
      started := started + 1;
      if Inv(was) {
        RefreshKeepsInv(was);
      }
    }

    /**
     * The end of a read, however it ends: everyone it served is told what it came to,
     * then it reads again for those who asked meanwhile, or arms the timer.
     */
    method Landed(read: bool)
      requires Valid() && pending
      modifies this
      ensures Valid() && View() == Next(old(View()), Lands(read))
      ensures forall r :: r in old(served) ==> Answer(r, old(started), read) in answers
      ensures pending <==> !stopped && old(again)
      ensures timers == if shown && !pending && !stopped then {timer} else {}
    {
      StepKeepsInv(View(), Lands(read));
      pending := false;
      ghost var told := AnswerAll(served, started, read);
      forall r | r in served ensures Answer(r, started, read) in told {
        var k :| 0 <= k < |served| && served[k] == r;
        assert told[k] == Answer(r, started, read);
      }
      answers := answers + told;
      served := [];
      results := results + [read];
      if !stopped && again {
        Refresh();
      } else if !stopped && shown {
        Schedule();
      }
    }

    /** The caller waits for a read that has still to start, or is told that the panel is gone. */
    method Reread(id: nat)
      requires Valid()
      modifies this
      ensures Valid() && View() == Next(old(View()), Rereads(id))
      ensures if stopped then CutOff(id) in answers
              else Within(View(), Request(id, old(started)), if old(pending) then 2 else 1)
    {
      StepKeepsInv(View(), Rereads(id));
      if stopped {
        answers := answers + [CutOff(id)];
        return;
      }
      waiting := waiting + [Request(id, started)];
      Refresh();
    }

    method ShownHeard(show: bool)
      requires Valid()
      modifies this
      ensures Valid() && View() == Next(old(View()), Shows(show))
      ensures shown == show && (!stopped ==> timers == {})
      ensures show && !stopped ==> pending && started == old(started) + (if old(pending) then 0 else 1)
      ensures show && !stopped && old(pending) ==> again
      ensures !show ==> pending == old(pending) && started == old(started) && again == old(again)
    {
      StepKeepsInv(View(), Shows(show));
      shown := show;
      CancelTimer();
      if shown {
        Refresh();
      }
    }

    method TimerFired(fired: nat)
      requires Valid() && fired in timers
      modifies this
      ensures Valid() && View() == Next(old(View()), Ticks(fired))
      ensures pending && started == old(started) + 1 && timers == {} && served == old(waiting) && waiting == []
    {
      StepKeepsInv(View(), Ticks(fired));
      timers := timers - {fired};
      Refresh();
    }

    method Disposed()
      requires Valid()
      modifies this
      ensures Valid() && View() == Next(old(View()), Disposes) && stopped && timers == {}
    {
      StepKeepsInv(View(), Disposes);
      stopped := true;
      CancelTimer();
    }
  }
}
