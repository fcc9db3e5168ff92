/** From a call of a surface's store to the record on disk: what lands is what was asked for. */
module OrderCalls {
  import opened Sequences
  import opened OrderRecord
  import opened ProviderList
  import opened OrderProtocol
  import opened OrderRuns
  import opened OrderConvergence

  /** The call that began each task: by surface and number. */
  type Calls = map<(nat, nat), Step>

  ghost function CallsAfter(sys: System, steps: seq<Step>, calls: Calls): Calls
    requires Shape(sys)
    decreases |steps|
  {
    if steps == [] then calls
    else CallsAfter(Next(sys, steps[0]), steps[1..], CallsWith(sys, steps[0], calls))
  }

  ghost function CallsWith(sys: System, step: Step, calls: Calls): Calls {
    if BeginsSave(step) && Enabled(sys, step) then calls[(step.i, step.id) := step] else calls
  }

  /**
   * What a call writes, over the copy `was`, from the revision `from`: a move makes
   * the order the person's own and moves one code of the list, a switch changes
   * only the mode, an append changes only the end of a person's own list.
   */
  ghost predicate Writes(call: Step, was: Order, input: Order) {
    match call
    case Move(_, _, shown, code, to, base) =>
      && NoDup(was.providers) && NoDup(shown) && code in shown
      && input == Order(Custom, MovedOrder(was.providers, shown, code, to), base)
    case SwitchMode(_, _, mode) =>
      mode != was.mode && input == Order(mode, was.providers, was.revision)
    case Append(_, _, shown) =>
      && was.mode == Custom && (exists code :: code in shown && code !in was.providers)
      && input == Order(Custom, was.providers + Exclude(shown, Elements(was.providers)), was.revision)
    case _ => false
  }

  /** The task does what the call asks, on the copy it was made on. */
  ghost predicate Does(t: Task, call: Step) {
    if call.GiveUp? then t.job.Restore?
    else t.job.Save? && t.job.appending == call.Append? && Writes(call, t.before, t.job.input)
  }

  lemma CallIsDone(sys: System, step: Step)
    requires Shape(sys) && Enabled(sys, step) && BeginsSave(step)
    ensures UnderWay(Apply(sys, step), step.i, step.id)
    ensures Does(Apply(sys, step).surfaces[step.i].tasks[step.id], step)
  {
    if step.Append? {
      var newcomers := Exclude(step.shown, Elements(sys.surfaces[step.i].copy.state.providers));
      assert newcomers[0] in newcomers;
    }
  }

  /** Every task under way does what the call that began it asks. */
  ghost predicate AllDone(sys: System, calls: Calls) {
    forall i: nat, id: nat :: UnderWay(sys, i, id) ==> IsDone(sys, calls, i, id)
  }

  ghost predicate IsDone(sys: System, calls: Calls, i: nat, id: nat)
    requires UnderWay(sys, i, id)
  {
    && (i, id) in calls && BeginsSave(calls[(i, id)])
    && Does(sys.surfaces[i].tasks[id], calls[(i, id)])
  }

  lemma StepKeepsDone(sys: System, step: Step, calls: Calls)
    requires Shape(sys) && AllDone(sys, calls)
    ensures AllDone(Next(sys, step), CallsWith(sys, step, calls))
  {
    if Enabled(sys, step) {
      forall i: nat, id: nat | UnderWay(Next(sys, step), i, id)
        ensures IsDone(Next(sys, step), CallsWith(sys, step, calls), i, id)
      {
        TaskIsDone(sys, step, calls, i, id);
      }
    }
  }

  lemma TaskIsDone(sys: System, step: Step, calls: Calls, i: nat, id: nat)
    requires Shape(sys) && AllDone(sys, calls) && Enabled(sys, step) && UnderWay(Apply(sys, step), i, id)
    ensures IsDone(Apply(sys, step), CallsWith(sys, step, calls), i, id)
  {
    TasksStay(sys, step, i, id);
    if BeginsSave(step) && i == step.i && id == step.id {
      CallIsDone(sys, step);
    } else {
      assert IsDone(sys, calls, i, id);
    }
  }

  lemma {:induction false} RunKeepsDone(sys: System, steps: seq<Step>, calls: Calls)
    requires Shape(sys) && AllDone(sys, calls)
    ensures AllDone(Run(sys, steps), CallsAfter(sys, steps, calls))
    decreases |steps|
  {
    if steps != [] {
      StepKeepsDone(sys, steps[0], calls);
      RunKeepsDone(Next(sys, steps[0]), steps[1..], CallsWith(sys, steps[0], calls));
    }
  }

  /** The disk after a write that it took: what the call asked for, over the copy it was made on. */
  ghost predicate Lands(call: Step, was: Order, disk: Order, next: Order) {
    next.revision == disk.revision + 1 && Writes(call, was, next.(revision := disk.revision))
  }

  /**
   * Over every run from a record on disk and no surface open, however calls overlap
   * and whatever fails or comes late: each record the disk takes is what some call
   * of a surface asked for, on the copy that call was made on.
   */
  lemma LandedIsAsked(disk: Order, steps: seq<Step>, i: nat, id: nat, stored: bool, answered: bool)
    requires OnDisk(disk) && Enabled(Run(Start(disk), steps), WriteReaches(i, id, stored, answered))
    ensures var end, calls := Run(Start(disk), steps), CallsAfter(Start(disk), steps, map[]);
            var next := Apply(end, WriteReaches(i, id, stored, answered));
            && (i, id) in calls
            && (next.log == end.log
                || Lands(calls[(i, id)], end.surfaces[i].tasks[id].before, Disk(end), Disk(next)))
  {
    RunKeepsDone(Start(disk), steps, map[]);
    var end := Run(Start(disk), steps);
    assert IsDone(end, CallsAfter(Start(disk), steps, map[]), i, id);
  }

  /**
   * So the order on disk stops being the person's own only by a switch to most used
   * first: never by a move or a newcomer append, which make it or leave it theirs.
   */
  lemma OnlyASwitchMakesItUsage(disk: Order, steps: seq<Step>, step: Step)
    requires OnDisk(disk) && Disk(Next(Run(Start(disk), steps), step)) != Disk(Run(Start(disk), steps))
    ensures var end, calls := Run(Start(disk), steps), CallsAfter(Start(disk), steps, map[]);
            && step.WriteReaches? && (step.i, step.id) in calls
            && (Disk(Next(end, step)).mode == Usage
                <==> calls[(step.i, step.id)] == SwitchMode(step.i, step.id, Usage))
  {
    var end := Run(Start(disk), steps);
    NextGrows(end, step);
    LandedIsAsked(disk, steps, step.i, step.id, step.stored, step.answered);
    CallsAreTheirs(Start(disk), steps, map[]);
    assert Theirs(CallsAfter(Start(disk), steps, map[]));
  }

  /** A call is kept under its own surface and number. */
  ghost predicate Theirs(calls: Calls) {
    forall at :: at in calls ==> BeginsSave(calls[at]) && (calls[at].i, calls[at].id) == at
  }

  lemma {:induction false} CallsAreTheirs(sys: System, steps: seq<Step>, calls: Calls)
    requires Shape(sys) && Theirs(calls)
    ensures Theirs(CallsAfter(sys, steps, calls))
    decreases |steps|
  {
    if steps != [] {
      assert Theirs(CallsWith(sys, steps[0], calls));
      CallsAreTheirs(Next(sys, steps[0]), steps[1..], CallsWith(sys, steps[0], calls));
    }
  }

  /**
   * With one call at a time on a surface and its first read in time, a call that
   * lands changes the record it replaces by what was asked and nothing else: a
   * switch keeps the whole list, so that switching back brings it back, and an
   * append keeps it and adds the newcomers behind it.
   */
  lemma LandedChangesTheDisk(disk: Order, steps: seq<Step>, i: nat, id: nat, stored: bool, answered: bool)
    requires OnDisk(disk) && InTimeRun(Start(disk), steps, i) && OneAtATime(Start(disk), steps, i)
    requires Enabled(Run(Start(disk), steps), WriteReaches(i, id, stored, answered))
    ensures var end, calls := Run(Start(disk), steps), CallsAfter(Start(disk), steps, map[]);
            var next := Apply(end, WriteReaches(i, id, stored, answered));
            && (i, id) in calls
            && (next.log == end.log || Lands(calls[(i, id)], Disk(end), Disk(end), Disk(next)))
  {
    LandedIsAsked(disk, steps, i, id, stored, answered);
    RunKeepsInv(Start(disk), steps, i);
    NextGrows(Run(Start(disk), steps), WriteReaches(i, id, stored, answered));
    AcceptedReplacesWhatItSaw(disk, steps, i, id, stored, answered);
  }

  // ------------------------------------------------------------- every call ends

  /** What a call under way waits for next: the disk, its answer, or its own redraw. */
  ghost function Awaited(sys: System, i: nat, id: nat): Step
    requires UnderWay(sys, i, id)
  {
    match sys.surfaces[i].tasks[id].stage
    case Writing => WriteReaches(i, id, true, true)
    case Answering(_) => WriteReturns(i, id)
    case Reading => ReadReaches(i, id, true)
    case Reloading(_) => ReadReturns(i, id)
    case Telling => Tells(i, id)
  }

  ghost function Stages(stage: Stage): nat {
    match stage
    case Writing => 5
    case Answering(_) => 4
    case Reading => 3
    case Reloading(_) => 2
    case Telling => 1
  }

  lemma CallGoesOn(sys: System, i: nat, id: nat)
    requires Shape(sys) && UnderWay(sys, i, id)
    ensures var step := Awaited(sys, i, id);
            && Enabled(sys, step)
            && (UnderWay(Apply(sys, step), i, id) ==>
                  Stages(Apply(sys, step).surfaces[i].tasks[id].stage) < Stages(sys.surfaces[i].tasks[id].stage))
  {
    var s := sys.surfaces[i];
    if s.tasks[id].stage.Writing? {
      assert id in Counted(s.tasks);
    }
  }

  /** Nothing holds a call up for good: whatever it waits for can come, and at most five such steps end it. */
  lemma EveryCallEnds(sys: System, i: nat, id: nat) returns (steps: seq<Step>)
    requires Shape(sys) && UnderWay(sys, i, id)
    ensures |steps| <= Stages(sys.surfaces[i].tasks[id].stage) <= 5
    ensures !UnderWay(Run(sys, steps), i, id)
    decreases Stages(sys.surfaces[i].tasks[id].stage)
  {
    var step := Awaited(sys, i, id);
    CallGoesOn(sys, i, id);
    var next := Next(sys, step);
    steps := [step];
    assert steps[1..] == [] && Run(sys, steps) == Run(next, []);
    if UnderWay(next, i, id) {
      var rest := EveryCallEnds(next, i, id);
      steps := [step] + rest;
      assert steps[1..] == rest;
    }
  }
}
