/**
 * The first run's scans: run one at a time in the order they were asked for, and
 * committed only while nothing newer has been asked for.
 */
module DetectionLoader {
  import opened Options

  /** What a scan read, or none when it could not run. */
  type Scan = Option<string>

  /** One asked for scan: chained after the one before it, under way, or answered. */
  datatype Task = Chained | Scanning | Answered(scan: Scan)

  datatype Value = Value(scan: Scan, generation: nat)

  /** What `load` hands back: the promise of a scan, or a value at once. */
  datatype Reply = Promise(generation: nat) | Now(value: Value)

  /** `tasks[g - 1]` is the scan asked for as generation g. */
  datatype Loader = Loader(generation: nat, tasks: seq<Task>, committed: Option<Scan>, active: Option<nat>)

  const IDLE := Loader(0, [], None, None)

  function LoadOf(l: Loader, force: bool): (Loader, Reply) {
    if !force && l.active.Some? then (l, Promise(l.active.value))
    else if !force && l.committed.Some? then (l, Now(Value(l.committed.value, l.generation)))
    else
      var requested := l.generation + 1;
      (Loader(requested, l.tasks + [Chained], l.committed, Some(requested)), Promise(requested))
  }

  /** A scan may start once the promise it was chained after has settled. */
  predicate MayStart(l: Loader, g: nat) {
    1 <= g <= |l.tasks| && l.tasks[g - 1].Chained? && (g > 1 ==> l.tasks[g - 2].Answered?)
  }

  function Start(l: Loader, g: nat): Loader
    requires MayStart(l, g)
  {
    l.(tasks := l.tasks[g - 1 := Scanning])
  }

  predicate Running(l: Loader, g: nat) {
    1 <= g <= |l.tasks| && l.tasks[g - 1].Scanning?
  }

  function Finish(l: Loader, g: nat, scan: Scan): Loader
    requires Running(l, g)
  {
    l.(tasks := l.tasks[g - 1 := Answered(scan)],
       committed := if g == l.generation then Some(scan) else l.committed)
  }

  predicate Settled(l: Loader, g: nat) {
    1 <= g <= |l.tasks| && l.tasks[g - 1].Answered?
  }

  /** The reaction to a settled scan, some time after it. */
  function Clear(l: Loader, g: nat): Loader {
    if l.active == Some(g) then l.(active := None) else l
  }

  datatype Event = Loads(force: bool) | Starts(g: nat) | Finishes(g: nat, scan: Scan) | Clears(g: nat)

  ghost predicate Enabled(l: Loader, e: Event) {
    match e
    case Loads(_) => true
    case Starts(g) => MayStart(l, g)
    case Finishes(g, _) => Running(l, g)
    case Clears(g) => Settled(l, g)
  }

  ghost function Next(l: Loader, e: Event): Loader {
    if !Enabled(l, e) then l
    else
      match e
      case Loads(force) => LoadOf(l, force).0
      case Starts(g) => Start(l, g)
      case Finishes(g, scan) => Finish(l, g, scan)
      case Clears(g) => Clear(l, g)
  }

  ghost function Run(l: Loader, events: seq<Event>): Loader
    decreases |events|
  {
    if events == [] then l else Run(Next(l, events[0]), events[1..])
  }

  /** Answered scans first, then at most one under way, then those still chained. */
  ghost predicate InOrder(tasks: seq<Task>) {
    forall i, j :: 0 <= i < j < |tasks| && !tasks[j].Chained? ==> tasks[i].Answered?
  }

  ghost predicate Inv(l: Loader) {
    && l.generation == |l.tasks|
    && InOrder(l.tasks)
    && (l.active.Some? ==> l.active.value == l.generation > 0)
    && (l.active.None? && l.generation > 0 ==> l.tasks[l.generation - 1].Answered?)
    && (l.generation > 0 && l.tasks[l.generation - 1].Answered? ==> l.committed == Some(l.tasks[l.generation - 1].scan))
    && (l.committed.Some? ==> Answered(l.committed.value) in l.tasks)
  }

  lemma StepKeepsInv(l: Loader, e: Event)
    requires Inv(l)
    ensures Inv(Next(l, e))
  {
    if Enabled(l, e) && e.Finishes? {
      assert Next(l, e).tasks[e.g - 1] == Answered(e.scan);
    }
    if l.committed.Some? {
      var k :| 0 <= k < |l.tasks| && l.tasks[k] == Answered(l.committed.value);
      assert Next(l, e).tasks[k] == l.tasks[k];
    }
  }

  lemma {:induction false} RunKeepsInv(l: Loader, events: seq<Event>)
    requires Inv(l)
    ensures Inv(Run(l, events))
    decreases |events|
  {
    if events != [] {
      StepKeepsInv(l, events[0]);
      RunKeepsInv(Next(l, events[0]), events[1..]);
    }
  }

  /**
   * In every run scans never overlap and are answered in the order they were asked
   * for, and whatever `load` hands back at once, labelled with the newest
   * generation, is that generation's own scan.
   */
  lemma LoadsAreSerialAndLabelled(events: seq<Event>, g: nat, h: nat)
    requires var l := Run(IDLE, events); Running(l, g) && 1 <= h <= |l.tasks| && h != g
    ensures var l := Run(IDLE, events);
            if h < g then l.tasks[h - 1].Answered? else l.tasks[h - 1].Chained?
  {
    RunKeepsInv(IDLE, events);
  }

  lemma ValueIsItsGenerations(events: seq<Event>, force: bool)
    requires LoadOf(Run(IDLE, events), force).1.Now?
    ensures var l, value := Run(IDLE, events), LoadOf(Run(IDLE, events), force).1.value;
            && !force && value.generation == l.generation == |l.tasks| > 0
            && l.tasks[value.generation - 1] == Answered(value.scan)
  {
    RunKeepsInv(IDLE, events);
  }

  /** With none in flight, what is committed is the newest request's answer. */
  lemma IdleCommitsNewest(events: seq<Event>)
    ensures var l := Run(IDLE, events);
            && l.generation == |l.tasks|
            && (l.generation > 0 && (forall k :: 0 <= k < |l.tasks| ==> l.tasks[k].Answered?) ==>
                  l.committed == Some(l.tasks[l.generation - 1].scan))
            && (l.active.None? ==> forall k :: 0 <= k < |l.tasks| ==> l.tasks[k].Answered?)
  {
    RunKeepsInv(IDLE, events);
    var l := Run(IDLE, events);
    forall k | 0 <= k < |l.tasks| && l.active.None? ensures l.tasks[k].Answered? {
      if k < |l.tasks| - 1 {
        assert !l.tasks[|l.tasks| - 1].Chained?;
      }
    }
  }

  /**
   * In every run: a forced load asks for one more scan, behind all others; an unforced
   * one only when none was ever asked for. While a scan is in flight it shares the
   * newest, and else it is answered at once with what the newest read.
   */
  lemma AsksExactlyWhen(events: seq<Event>, force: bool)
    ensures var l := Run(IDLE, events);
            var (r, reply) := LoadOf(l, force);
            if force || l.tasks == [] then
              && r.tasks == l.tasks + [Chained] && r.committed == l.committed
              && reply == Promise(|r.tasks|) && r.generation == |r.tasks| && r.active == Some(|r.tasks|)
            else
              && r == l
              && (if l.active.Some? then reply == Promise(|l.tasks|)
                  else l.tasks[|l.tasks| - 1].Answered?
                       && reply == Now(Value(l.tasks[|l.tasks| - 1].scan, |l.tasks|)))
              && ((exists k :: 0 <= k < |l.tasks| && !l.tasks[k].Answered?) ==> l.active.Some?)
  {
    RunKeepsInv(IDLE, events);
    IdleCommitsNewest(events);
  }

  /**
   * Scans go on: in front of one still open, or that one itself, one is under way and
   * may end, or is chained and may start.
   */
  lemma ScansGoOn(events: seq<Event>, k: nat)
    requires var l := Run(IDLE, events); k < |l.tasks| && !l.tasks[k].Answered?
    ensures var l := Run(IDLE, events);
            exists g: nat :: 1 <= g <= k + 1 &&
              if l.tasks[g - 1].Scanning? then Enabled(l, Finishes(g, None))
              else Enabled(l, Starts(g)) && Next(l, Starts(g)).tasks[g - 1].Scanning?
  {
    RunKeepsInv(IDLE, events);
    var l := Run(IDLE, events);
    var g := FirstOpen(l.tasks, k);
    assert 1 <= g + 1 <= k + 1;
    assert if l.tasks[g].Scanning? then Enabled(l, Finishes(g + 1, None)) else Enabled(l, Starts(g + 1));
  }

  lemma FirstOpen(tasks: seq<Task>, k: nat) returns (g: nat)
    requires k < |tasks| && !tasks[k].Answered?
    ensures g <= k && !tasks[g].Answered? && forall j :: 0 <= j < g ==> tasks[j].Answered?
  {
    g := 0;
    while tasks[g].Answered?
      invariant g <= k && forall j :: 0 <= j < g ==> tasks[j].Answered?
      decreases k - g
    {
      g := g + 1;
    }
  }

  /** What is committed is what it was, or what a scan asked for as generation `h` or later answered. */
  ghost predicate NoOlderThan(was: Option<Scan>, l: Loader, h: nat) {
    l.committed == was || exists g :: h <= g && Settled(l, g) && l.committed == Some(l.tasks[g - 1].scan)
  }

  lemma StepCommitsNoOlder(was: Option<Scan>, l: Loader, e: Event, h: nat)
    requires Inv(l) && h <= l.generation && NoOlderThan(was, l, h)
    ensures NoOlderThan(was, Next(l, e), h) && l.generation <= Next(l, e).generation
  {
    var next := Next(l, e);
    if l.committed != was && next.committed == l.committed {
      var g :| h <= g && Settled(l, g) && l.committed == Some(l.tasks[g - 1].scan);
      assert Settled(next, g) && next.tasks[g - 1] == l.tasks[g - 1];
    } else if next.committed != l.committed {
      assert Settled(next, e.g) && next.committed == Some(next.tasks[e.g - 1].scan);
    }
  }

  lemma {:induction false} RunCommitsNoOlder(was: Option<Scan>, l: Loader, events: seq<Event>, h: nat)
    requires Inv(l) && h <= l.generation && NoOlderThan(was, l, h)
    ensures NoOlderThan(was, Run(l, events), h)
    decreases |events|
  {
    if events != [] {
      StepKeepsInv(l, events[0]);
      StepCommitsNoOlder(was, l, events[0], h);
      RunCommitsNoOlder(was, Next(l, events[0]), events[1..], h);
    }
  }

  /**
   * Once a generation has been requested, no answer to an earlier one ever becomes
   * what is committed, whatever happens after: that stays what it was until a scan
   * asked for as that generation or a later one answers.
   */
  lemma OlderAnswerCommitsNothing(before: seq<Event>, after: seq<Event>)
    ensures var l := Run(IDLE, before);
            NoOlderThan(l.committed, Run(l, after), l.generation)
  {
    RunKeepsInv(IDLE, before);
    var l := Run(IDLE, before);
    RunCommitsNoOlder(l.committed, l, after, l.generation);
  }

  // --------------------------------------------------------------- the shipped form

  class Detections {
    var generation: nat
    var committed: Option<Scan>
    var active: Option<nat>
    /** The promise chain `queue` is the end of. */
    var tasks: seq<Task>

    ghost function View(): Loader
      reads this
    {
      Loader(generation, tasks, committed, active)
    }

    ghost predicate Valid()
      reads this
    {
      Inv(View())
    }

    constructor ()
      ensures Valid() && View() == IDLE
    {
      generation, committed, active, tasks := 0, None, None, [];
    }

    /**
     * A value at once is the newest generation's own answer; otherwise the promise is
     * that of the scan in flight or, asked for now, of a new one behind all others.
     */
    method Load(force: bool) returns (reply: Reply)
      requires Valid()
      modifies this
      ensures Valid() && (View(), reply) == LoadOf(old(View()), force)
      ensures reply.Now? ==> !force && reply.value.generation == generation == |tasks| > 0
                             && tasks[generation - 1] == Answered(reply.value.scan)
      ensures reply.Promise? ==> reply.generation == generation == |tasks| && active == Some(generation)
      ensures tasks == old(tasks) + (if force || old(tasks) == [] then [Chained] else [])
      ensures committed == old(committed) && (old(active).Some? && !force ==> reply == Promise(old(active).value))
    {
      StepKeepsInv(View(), Loads(force));
      if !force && active.Some? {
        return Promise(active.value);
      }
      if !force && committed.Some? {
        return Now(Value(committed.value, generation));
      }
      generation := generation + 1;
      tasks := tasks + [Chained];
      active := Some(generation);
      return Promise(generation);
    }

    method ScanStarted(g: nat)
      requires Valid() && MayStart(View(), g)
      modifies this`tasks
      ensures Valid() && View() == Start(old(View()), g) && tasks == old(tasks)[g - 1 := Scanning]
    {
      StepKeepsInv(View(), Starts(g));
      tasks := tasks[g - 1 := Scanning];
    }

    /** An answer carries its own generation, and is committed only while that is the newest. */
    method ScanAnswered(g: nat, scan: Scan) returns (value: Value)
      requires Valid() && Running(View(), g)
      modifies this
      ensures Valid() && View() == Finish(old(View()), g, scan)
      ensures value == Value(scan, g) && tasks[g - 1] == Answered(scan)
      ensures committed == if g == |tasks| then Some(scan) else old(committed)
    {
      StepKeepsInv(View(), Finishes(g, scan));
      tasks := tasks[g - 1 := Answered(scan)];
      value := Value(scan, g);
      if g == generation {
        committed := Some(scan);
      }
    }

    method ScanSettled(g: nat)
      requires Valid() && Settled(View(), g)
      modifies this`active
      ensures Valid() && View() == Clear(old(View()), g)
      ensures g == |tasks| ==> active.None?
      ensures g < |tasks| ==> active == old(active)
    {
      StepKeepsInv(View(), Clears(g));
      if active == Some(g) {
        active := None;
      }
    }
  }
}
