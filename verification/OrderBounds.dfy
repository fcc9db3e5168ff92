/** Copies go forward, every change of one is redrawn, and newcomer appends come to an end. */
module OrderBounds {
  import opened Sequences
  import opened OrderRecord
  import opened OrderStores
  import opened OrderProtocol
  import opened OrderSafety
  import opened OrderRuns
  import opened OrderCalls

  // --------------------------------------------------------- copies go forward

  lemma LocalGoesForward(sys: System, step: Step)
    requires Shape(sys) && Enabled(sys, step)
    requires step.Draw? || step.Deliver? || step.LoadReaches?
    ensures var s, r := sys.surfaces[step.i], Apply(sys, step).surfaces[step.i];
            && r.tasks == s.tasks && r.copy.adoptFailures == s.copy.adoptFailures
            && r.copy.state.revision >= s.copy.state.revision
  {
  }

  lemma BeginningStays(sys: System, step: Step)
    requires Shape(sys) && Enabled(sys, step) && BeginsSave(step)
    ensures Apply(sys, step).surfaces[step.i].copy.state.revision == sys.surfaces[step.i].copy.state.revision
  {
  }

  lemma ReturnGoesForward(sys: System, step: Step)
    requires Shape(sys) && Enabled(sys, step) && (step.WriteReturns? || step.ReadReturns? || step.Tells?)
    requires Ordered(sys.surfaces[step.i])
    ensures Apply(sys, step).surfaces[step.i].copy.state.revision >= sys.surfaces[step.i].copy.state.revision
  {
    if step.WriteReturns? {
      AnsweredOrdered(sys.surfaces[step.i], step.id);
    } else {
      ReloadedOrdered(sys.surfaces[step.i], step.id);
    }
  }

  lemma LoadGoesForward(sys: System, i: nat)
    requires Safe(sys) && Enabled(sys, LoadReturns(i))
    ensures var s, r := sys.surfaces[i], Apply(sys, LoadReturns(i)).surfaces[i];
            && r.tasks == s.tasks && r.copy.adoptFailures == s.copy.adoptFailures
            && (r.copy.state.revision >= s.copy.state.revision <==> InTime(sys, LoadReturns(i), i))
  {
    assert SurfaceSafe(sys.log, sys.surfaces[i]);
    if sys.surfaces[i].first.order.Some? {
      LogCovers(sys.log, sys.surfaces[i].first.order.value);
    }
  }

  /** Of all the steps there are, only a first read answered after something newer takes a copy back. */
  lemma GoesBackExactlyWhenLate(sys: System, step: Step, i: nat)
    requires Inv(sys, i) && i < |sys.surfaces|
    ensures i < |Next(sys, step).surfaces|
    ensures Next(sys, step).surfaces[i].copy.state.revision < sys.surfaces[i].copy.state.revision
            <==> !InTime(sys, step, i)
  {
    if !Enabled(sys, step) {
    } else if step.Open? || step.i != i {
      ElsewhereStays(sys, step, i);
    } else if step.LoadReturns? {
      LoadGoesForward(sys, i);
    } else if step.WriteReaches? {
      WritingStays(sys, step);
    } else if step.ReadReaches? {
      ReadingStays(sys, step);
    } else if step.WriteReturns? || step.ReadReturns? || step.Tells? {
      ReturnGoesForward(sys, step);
    } else if BeginsSave(step) {
      BeginningStays(sys, step);
    } else {
      LocalGoesForward(sys, step);
    }
  }

  /** So no surface's copy ever goes back, and nothing its lists may write from is ahead of it. */
  lemma {:induction false} CopiesNeverGoBack(sys: System, steps: seq<Step>, i: nat)
    requires Inv(sys, i) && InTimeRun(sys, steps, i) && i < |sys.surfaces|
    ensures i < |Run(sys, steps).surfaces|
    ensures Run(sys, steps).surfaces[i].copy.state.revision >= sys.surfaces[i].copy.state.revision
    ensures forall base :: base in Run(sys, steps).surfaces[i].bases ==>
              base <= Run(sys, steps).surfaces[i].copy.state.revision
    decreases |steps|
  {
    if steps != [] {
      NextKeepsInv(sys, steps[0], i);
      GoesBackExactlyWhenLate(sys, steps[0], i);
      CopiesNeverGoBack(Next(sys, steps[0]), steps[1..], i);
    }
  }

  // ------------------------------------------------------- every change is redrawn

  /** A reload has changed the record, and its redraw is still to come. */
  ghost predicate Untold(s: Surface) {
    exists id :: id in s.tasks && s.tasks[id].stage.Telling?
  }

  /** A surface that keys its drawing on the generation will redraw, has redrawn, or has nothing to. */
  ghost predicate WillRedraw(generation: nat, state: Order, s: Surface) {
    && s.copy.generation >= generation
    && (s.copy.state == state || s.copy.generation > generation || Untold(s))
  }

  lemma ToldRedraws(s: Surface, id: nat, generation: nat, state: Order)
    requires WillRedraw(generation, state, s) && id in s.tasks
    ensures WillRedraw(generation, state, Told(s, id))
    ensures s.tasks[id].stage.Reloading? ==> WillRedraw(generation, state, Reloaded(s, id))
  {
    if s.tasks[id].stage.Reloading? {
      assert Reloaded(s, id).tasks[id].stage.Telling?;
    }
  }

  /** A step that ends no redraw and changes the record only with the generation. */
  lemma KeepsRedraw(s: Surface, r: Surface, generation: nat, state: Order)
    requires WillRedraw(generation, state, s)
    requires r.copy.generation >= s.copy.generation
    requires r.copy.state != s.copy.state ==> r.copy.generation > s.copy.generation
    requires forall k :: k in s.tasks && s.tasks[k].stage.Telling? ==> k in r.tasks && r.tasks[k].stage.Telling?
    ensures WillRedraw(generation, state, r)
  {
    if k :| k in s.tasks && s.tasks[k].stage.Telling? {
      assert r.tasks[k].stage.Telling?;
    }
  }

  lemma ReachRedraws(sys: System, step: Step, generation: nat, state: Order)
    requires Shape(sys) && Enabled(sys, step) && (step.WriteReaches? || step.ReadReaches?)
    requires WillRedraw(generation, state, sys.surfaces[step.i])
    ensures WillRedraw(generation, state, Apply(sys, step).surfaces[step.i])
  {
    KeepsRedraw(sys.surfaces[step.i], Apply(sys, step).surfaces[step.i], generation, state);
  }

  lemma OwnRedraws(sys: System, step: Step, generation: nat, state: Order)
    requires Shape(sys) && Enabled(sys, step) && !step.Open? && !step.WriteReaches? && !step.ReadReaches?
    requires !step.Tells? && !step.ReadReturns?
    requires WillRedraw(generation, state, sys.surfaces[step.i])
    ensures WillRedraw(generation, state, Apply(sys, step).surfaces[step.i])
  {
    KeepsRedraw(sys.surfaces[step.i], Apply(sys, step).surfaces[step.i], generation, state);
  }

  /**
   * The generation changes with every change of the copy, and with every save that
   * did not land: over any run, a surface that shows another record than it did
   * has another generation too, or a reload whose redraw is the next thing to come.
   */
  lemma {:induction false} ChangesAreRedrawn(sys: System, steps: seq<Step>, i: nat, generation: nat, state: Order)
    requires Shape(sys) && i < |sys.surfaces| && WillRedraw(generation, state, sys.surfaces[i])
    ensures i < |Run(sys, steps).surfaces| && WillRedraw(generation, state, Run(sys, steps).surfaces[i])
    decreases |steps|
  {
    if steps != [] {
      var step := steps[0];
      NextGrows(sys, step);
      if Enabled(sys, step) {
        if step.Open? || step.i != i {
          ElsewhereStays(sys, step, i);
        } else if step.WriteReaches? || step.ReadReaches? {
          ReachRedraws(sys, step, generation, state);
        } else if step.Tells? || step.ReadReturns? {
          ToldRedraws(sys.surfaces[i], step.id, generation, state);
        } else {
          OwnRedraws(sys, step, generation, state);
        }
      }
      ChangesAreRedrawn(Next(sys, step), steps[1..], i, generation, state);
    }
  }

  // ------------------------------------------------------------ newcomer appends

  ghost predicate AppendsOn(sys: System, step: Step, i: nat) {
    step.Append? && step.i == i && Enabled(sys, step)
  }

  ghost predicate Appending(t: Task) {
    t.job.Save? && t.job.appending
  }

  /** A newcomer append of this surface is under way, its reload included. */
  ghost predicate AppendUnderWay(s: Surface) {
    exists id :: id in s.tasks && Appending(s.tasks[id])
  }

  /** How many newcomer appends surface `i` begins. */
  ghost function Attempts(sys: System, steps: seq<Step>, i: nat): nat
    requires Shape(sys)
    decreases |steps|
  {
    if steps == [] then 0
    else (if AppendsOn(sys, steps[0], i) then 1 else 0) + Attempts(Next(sys, steps[0]), steps[1..], i)
  }

  /** How many of them a draw begins inside the reload of another. */
  ghost function Inside(sys: System, steps: seq<Step>, i: nat): (r: nat)
    requires Shape(sys)
    ensures r <= Attempts(sys, steps, i)
    decreases |steps|
  {
    if steps == [] then 0
    else
      var inside := AppendsOn(sys, steps[0], i) && AppendUnderWay(sys.surfaces[i]);
      (if inside then 1 else 0) + Inside(Next(sys, steps[0]), steps[1..], i)
  }

  function Min(a: nat, b: nat): nat {
    if a < b then a else b
  }

  /** Each append so far was paid for by one of the failures that count, or by a newer record. */
  ghost predicate Paid(s: Surface, attempts: nat, start: nat) {
    attempts + start <= Min(s.copy.adoptFailures, ADOPT_ATTEMPTS) + s.copy.state.revision
  }

  /** The append `id` still has to be, by its own failure or by a record newer than it was made on. */
  ghost predicate Owed(s: Surface, attempts: nat, start: nat, id: nat) {
    && id in s.tasks && Appending(s.tasks[id])
    && attempts + start <= Min(s.copy.adoptFailures, ADOPT_ATTEMPTS - 1) + s.tasks[id].job.input.revision + 1
  }

  ghost predicate Paced(s: Surface, attempts: nat, start: nat) {
    Paid(s, attempts, start) || exists id :: Owed(s, attempts, start, id)
  }

  /** One more attempt when it is one begun apart. */
  ghost function Apart(sys: System, step: Step, i: nat): nat
    requires i < |sys.surfaces|
  {
    if AppendsOn(sys, step, i) && !AppendUnderWay(sys.surfaces[i]) then 1 else 0
  }

  /** An append begun with none under way is owed; any other call begun changes nothing. */
  lemma BegunPaced(sys: System, step: Step, attempts: nat, start: nat) returns (more: nat)
    requires Shape(sys) && BeginsSave(step) && Enabled(sys, step) && Paced(sys.surfaces[step.i], attempts, start)
    ensures more == attempts + Apart(sys, step, step.i) && Paced(Apply(sys, step).surfaces[step.i], more, start)
  {
    var s, r := sys.surfaces[step.i], Apply(sys, step).surfaces[step.i];
    more := attempts;
    if step.Append? && !AppendUnderWay(s) {
      more := attempts + 1;
      assert Owed(r, more, start, step.id);
    } else {
      KeptPaced(s, r, attempts, start);
    }
  }

  /** What is owed stays so while its append does; failures and the copy only go up. */
  lemma KeptPaced(s: Surface, r: Surface, attempts: nat, start: nat)
    requires Paced(s, attempts, start)
    requires r.copy.adoptFailures >= s.copy.adoptFailures && r.copy.state.revision >= s.copy.state.revision
    requires forall id :: id in s.tasks && Appending(s.tasks[id]) ==>
               id in r.tasks && r.tasks[id].job == s.tasks[id].job
    ensures Paced(r, attempts, start)
  {
    if !Paid(s, attempts, start) {
      var id :| Owed(s, attempts, start, id);
      assert Owed(r, attempts, start, id);
    }
  }

  /** The end of task `ended`: owed for it, it is paid now; anything else goes on. */
  lemma EndedPaced(s: Surface, r: Surface, attempts: nat, start: nat, ended: nat)
    requires Paced(s, attempts, start) && ended in s.tasks
    requires r.copy.adoptFailures >= s.copy.adoptFailures && r.copy.state.revision >= s.copy.state.revision
    requires r.tasks == s.tasks - {ended}
    requires Appending(s.tasks[ended]) ==>
               || r.copy.state.revision > s.tasks[ended].job.input.revision
               || (r.copy.adoptFailures > s.copy.adoptFailures
                   && r.copy.state.revision == s.tasks[ended].job.input.revision)
    ensures Paced(r, attempts, start)
  {
    if !Paid(s, attempts, start) {
      var id :| Owed(s, attempts, start, id);
      if id == ended {
        assert Paid(r, attempts, start);
      } else {
        assert Owed(r, attempts, start, id);
      }
    }
  }

  lemma AnsweredPaced(log: seq<Order>, s: Surface, id: nat, attempts: nat, start: nat)
    requires LogInv(log) && SurfaceSafe(log, s) && Shaped(s) && Ordered(s) && Paced(s, attempts, start)
    requires id in s.tasks && s.tasks[id].stage.Answering?
    ensures Paced(Answered(s, id), attempts, start)
  {
    var r, t := Answered(s, id), s.tasks[id];
    assert TaskSafe(log, t) && TaskOrdered(t);
    CountsTask(s, id);
    if t.stage.answer.Some? {
      LogCovers(log, t.stage.answer.value);
      EndedPaced(s, r, attempts, start, id);
    } else {
      KeptPaced(s, r, attempts, start);
    }
  }

  lemma ToldPaced(s: Surface, id: nat, attempts: nat, start: nat)
    requires Ordered(s) && Paced(s, attempts, start)
    requires id in s.tasks && s.tasks[id].stage.Telling?
    ensures Paced(Told(s, id), attempts, start)
  {
    assert TaskOrdered(s.tasks[id]);
    EndedPaced(s, Told(s, id), attempts, start, id);
  }

  lemma ReturnPaced(sys: System, step: Step, attempts: nat, start: nat)
    requires Safe(sys) && Enabled(sys, step) && (step.WriteReturns? || step.ReadReturns? || step.Tells?)
    requires Ordered(sys.surfaces[step.i]) && Paced(sys.surfaces[step.i], attempts, start)
    ensures Paced(Apply(sys, step).surfaces[step.i], attempts, start)
  {
    var s := sys.surfaces[step.i];
    assert SurfaceSafe(sys.log, s);
    if step.WriteReturns? {
      AnsweredPaced(sys.log, s, step.id, attempts, start);
    } else if step.Tells? {
      ToldPaced(s, step.id, attempts, start);
    } else {
      ReloadedOrdered(s, step.id);
      KeptPaced(s, Reloaded(s, step.id), attempts, start);
    }
  }

  lemma StepPaced(sys: System, step: Step, i: nat, attempts: nat, start: nat) returns (more: nat)
    requires Inv(sys, i) && InTime(sys, step, i) && i < |sys.surfaces| && Paced(sys.surfaces[i], attempts, start)
    ensures i < |Next(sys, step).surfaces|
    ensures more == attempts + Apart(sys, step, i) && Paced(Next(sys, step).surfaces[i], more, start)
  {
    more := attempts;
    if Enabled(sys, step) {
      if step.Open? || step.i != i {
        ElsewhereStays(sys, step, i);
        KeptPaced(sys.surfaces[i], Apply(sys, step).surfaces[i], attempts, start);
      } else if BeginsSave(step) {
        more := BegunPaced(sys, step, attempts, start);
      } else if step.WriteReturns? || step.ReadReturns? || step.Tells? {
        ReturnPaced(sys, step, attempts, start);
      } else {
        RestPaced(sys, step, attempts, start);
      }
    }
  }

  lemma RestPaced(sys: System, step: Step, attempts: nat, start: nat)
    requires Safe(sys) && Enabled(sys, step)
    requires !step.Open? && !BeginsSave(step) && !step.WriteReturns? && !step.ReadReturns? && !step.Tells?
    requires InTime(sys, step, step.i) && Paced(sys.surfaces[step.i], attempts, start)
    ensures Paced(Apply(sys, step).surfaces[step.i], attempts, start)
  {
    if step.WriteReaches? {
      WritingStays(sys, step);
    } else if step.ReadReaches? {
      ReadingStays(sys, step);
    } else if step.LoadReturns? {
      LoadGoesForward(sys, step.i);
    } else {
      LocalGoesForward(sys, step);
    }
    KeptPaced(sys.surfaces[step.i], Apply(sys, step).surfaces[step.i], attempts, start);
  }

  lemma {:induction false} RunPaced(sys: System, steps: seq<Step>, i: nat, attempts: nat, start: nat) returns (n: nat)
    requires Inv(sys, i) && InTimeRun(sys, steps, i) && i < |sys.surfaces| && Paced(sys.surfaces[i], attempts, start)
    ensures i < |Run(sys, steps).surfaces|
    ensures n == attempts + Attempts(sys, steps, i) - Inside(sys, steps, i)
    ensures Paced(Run(sys, steps).surfaces[i], n, start)
    decreases |steps|
  {
    if steps == [] {
      n := attempts;
    } else {
      var next := Next(sys, steps[0]);
      NextKeepsInv(sys, steps[0], i);
      var more := StepPaced(sys, steps[0], i, attempts, start);
      OneMoreAttempt(sys, steps, i);
      n := RunPaced(next, steps[1..], i, more, start);
    }
  }

  lemma OneMoreAttempt(sys: System, steps: seq<Step>, i: nat)
    requires Shape(sys) && i < |sys.surfaces| && steps != []
    ensures var next, rest := Next(sys, steps[0]), steps[1..];
            Attempts(sys, steps, i) - Inside(sys, steps, i)
            == Apart(sys, steps[0], i) + Attempts(next, rest, i) - Inside(next, rest, i)
  {
  }

  /** Every append is paid for: by a counted failure, or by a record its surface's copy had not reached. */
  lemma AppendsArePaidFor(sys: System, steps: seq<Step>, i: nat)
    requires Inv(sys, i) && InTimeRun(sys, steps, i) && i < |sys.surfaces|
    ensures Attempts(sys, steps, i)
            <= Inside(sys, steps, i) + ADOPT_ATTEMPTS
               + (Disk(Run(sys, steps)).revision - sys.surfaces[i].copy.state.revision)
  {
    var start := sys.surfaces[i].copy.state.revision;
    var n := RunPaced(sys, steps, i, 0, start);
    RunKeepsInv(sys, steps, i);
    var end := Run(sys, steps);
    assert SurfaceSafe(end.log, end.surfaces[i]);
    PacedIsFew(end.log, end.surfaces[i], n, start);
  }

  lemma PacedIsFew(log: seq<Order>, s: Surface, attempts: nat, start: nat)
    requires LogInv(log) && SurfaceSafe(log, s) && Paced(s, attempts, start)
    ensures attempts + start <= ADOPT_ATTEMPTS + Newest(log).revision
  {
    if !Paid(s, attempts, start) {
      var id :| Owed(s, attempts, start, id);
      assert TaskSafe(log, s.tasks[id]);
    }
  }

  /**
   * This step is the end of a newcomer append that the disk did not take although no
   * other surface had written first: the copy still holds the revision it was
   * written from.
   */
  ghost predicate FailsAppend(sys: System, step: Step, i: nat)
    requires Shape(sys)
  {
    && step.Tells? && step.i == i && Enabled(sys, step)
    && var t := sys.surfaces[i].tasks[step.id];
       t.job.Save? && t.job.appending && sys.surfaces[i].copy.state.revision == t.job.input.revision
  }

  ghost function FailedAppends(sys: System, steps: seq<Step>, i: nat): nat
    requires Shape(sys)
    decreases |steps|
  {
    if steps == [] then 0
    else (if FailsAppend(sys, steps[0], i) then 1 else 0) + FailedAppends(Next(sys, steps[0]), steps[1..], i)
  }

  lemma StepCountsFailures(sys: System, step: Step, i: nat)
    requires Shape(sys) && i < |sys.surfaces|
    ensures i < |Next(sys, step).surfaces|
    ensures Next(sys, step).surfaces[i].copy.adoptFailures
            == sys.surfaces[i].copy.adoptFailures + (if FailsAppend(sys, step, i) then 1 else 0)
  {
    NextGrows(sys, step);
    if Enabled(sys, step) {
      if step.Open? || step.i != i {
        ElsewhereStays(sys, step, i);
      } else if step.WriteReaches? {
        WritingStays(sys, step);
      } else if step.ReadReaches? {
        ReadingStays(sys, step);
      }
    }
  }

  lemma {:induction false} FailuresAreCounted(sys: System, steps: seq<Step>, i: nat)
    requires Shape(sys) && i < |sys.surfaces|
    ensures i < |Run(sys, steps).surfaces|
    ensures Run(sys, steps).surfaces[i].copy.adoptFailures
            == sys.surfaces[i].copy.adoptFailures + FailedAppends(sys, steps, i)
    decreases |steps|
  {
    if steps != [] {
      StepCountsFailures(sys, steps[0], i);
      FailuresAreCounted(Next(sys, steps[0]), steps[1..], i);
    }
  }

  /**
   * A surface tries a newcomer append on whenever the order is the person's own, it
   * has nothing being written and something new is shown, until three of its appends
   * have failed: one refused because another surface wrote first does not count.
   */
  lemma AppendsUntilThreeFailed(sys: System, steps: seq<Step>, i: nat, id: nat, shown: seq<Code>)
    requires Shape(sys) && i < |sys.surfaces| && sys.surfaces[i] == OPENED
    requires i < |Run(sys, steps).surfaces| && id !in Run(sys, steps).surfaces[i].tasks && NoDup(shown)
    ensures var s := Run(sys, steps).surfaces[i];
            Enabled(Run(sys, steps), Append(i, id, shown))
            <==> && s.copy.state.mode == Custom && FailedAppends(sys, steps, i) < 3
                 && (forall k :: k in s.tasks ==> !s.tasks[k].stage.Writing? && !s.tasks[k].stage.Answering?)
                 && exists code :: code in shown && code !in s.copy.state.providers
  {
    FailuresAreCounted(sys, steps, i);
    var s := Run(sys, steps).surfaces[i];
    var newcomers := Exclude(shown, Elements(s.copy.state.providers));
    if newcomers != [] {
      assert newcomers[0] in newcomers;
    }
    NothingWritten(s.tasks);
  }

  lemma NothingWritten(tasks: map<nat, Task>)
    ensures |Counted(tasks)| == 0
            <==> forall k :: k in tasks ==> !tasks[k].stage.Writing? && !tasks[k].stage.Answering?
  {
    if |Counted(tasks)| == 0 {
      forall k | k in tasks ensures !tasks[k].stage.Writing? && !tasks[k].stage.Answering? {
        assert k !in Counted(tasks);
      }
    }
  }

  // ------------------------------------------------- appends that land use newcomers up

  /** Every append surface `i` begins is for codes among these. */
  ghost predicate AppendsWithin(sys: System, steps: seq<Step>, i: nat, codes: set<Code>)
    requires Shape(sys)
    decreases |steps|
  {
    steps == [] ||
    (&& (AppendsOn(sys, steps[0], i) ==> Elements(steps[0].shown) <= codes)
     && AppendsWithin(Next(sys, steps[0]), steps[1..], i, codes))
  }

  ghost predicate LandsAppend(sys: System, step: Step, i: nat)
    requires Shape(sys)
  {
    && step.WriteReaches? && step.i == i && Enabled(sys, step) && Appending(sys.surfaces[i].tasks[step.id])
    && |Next(sys, step).log| > |sys.log|
  }

  /** The records the disk takes that are surface `i`'s own appends, and the others. */
  ghost function Taken(sys: System, steps: seq<Step>, i: nat): (nat, nat)
    requires Shape(sys)
    decreases |steps|
  {
    if steps == [] then (0, 0)
    else
      var (own, others) := Taken(Next(sys, steps[0]), steps[1..], i);
      if |Next(sys, steps[0]).log| == |sys.log| then (own, others)
      else if LandsAppend(sys, steps[0], i) then (own + 1, others)
      else (own, others + 1)
  }

  /** What is written names a newcomer the copy it was made on did not. */
  ghost predicate ForNewcomers(t: Task, codes: set<Code>) {
    Appending(t) ==>
      && t.before.revision == t.job.input.revision
      && exists code :: code in codes && code in t.job.input.providers && code !in t.before.providers
  }

  ghost predicate AllForNewcomers(s: Surface, codes: set<Code>) {
    forall id :: id in s.tasks ==> ForNewcomers(s.tasks[id], codes)
  }

  lemma AppendIsForNewcomers(t: Task, call: Step, codes: set<Code>)
    requires Does(t, call) && (call.Append? ==> Elements(call.shown) <= codes)
    ensures ForNewcomers(t, codes)
  {
    if call.Append? {
      var code :| code in call.shown && code !in t.before.providers;
      assert code in Elements(call.shown) && code in Exclude(call.shown, Elements(t.before.providers));
    }
  }

  lemma StepForNewcomers(sys: System, step: Step, i: nat, codes: set<Code>)
    requires Shape(sys) && i < |sys.surfaces| && AllForNewcomers(sys.surfaces[i], codes)
    requires AppendsOn(sys, step, i) ==> Elements(step.shown) <= codes
    ensures i < |Next(sys, step).surfaces| && AllForNewcomers(Next(sys, step).surfaces[i], codes)
  {
    NextGrows(sys, step);
    if Enabled(sys, step) {
      var r := Apply(sys, step).surfaces[i];
      forall id | id in r.tasks ensures ForNewcomers(r.tasks[id], codes) {
        TasksStay(sys, step, i, id);
        if BeginsSave(step) && step.i == i && step.id == id {
          CallIsDone(sys, step);
          AppendIsForNewcomers(r.tasks[id], step, codes);
        }
      }
    }
  }

  /** The codes of `codes` the disk does not name yet. */
  ghost function Unnamed(sys: System, codes: set<Code>): set<Code>
    requires sys.log != []
  {
    codes - Elements(Disk(sys).providers)
  }

  /** An append that lands names one more of them. */
  lemma LandedNamesOne(sys: System, step: Step, i: nat, codes: set<Code>)
    requires Inv(sys, i) && i < |sys.surfaces| && AllForNewcomers(sys.surfaces[i], codes) && LandsAppend(sys, step, i)
    ensures |Unnamed(Next(sys, step), codes)| < |Unnamed(sys, codes)|
  {
    var t := sys.surfaces[i].tasks[step.id];
    assert ForNewcomers(t, codes) && TaskSafe(sys.log, t);
    NoBlindOverwrite(sys, i, step.id, step.stored, step.answered);
    var code :| code in codes && code in t.job.input.providers && code !in t.before.providers;
    assert Covers(sys.log, t.before);
    LogCovers(sys.log, Disk(sys));
    assert code !in Elements(Disk(sys).providers) && code in Elements(Disk(Next(sys, step)).providers);
    SubsetSize(Unnamed(Next(sys, step), codes), Unnamed(sys, codes));
  }

  lemma StepNames(sys: System, step: Step, codes: set<Code>)
    requires Safe(sys) && SafeStep(sys, step)
    ensures |Unnamed(Next(sys, step), codes)| <= |Unnamed(sys, codes)|
    ensures Disk(Next(sys, step)).revision == Disk(sys).revision + (|Next(sys, step).log| - |sys.log|)
  {
    assert [step][1..] == [] && Run(Next(sys, step), []) == Next(sys, step);
    assert Run(sys, [step]) == Next(sys, step);
    assert SafeRun(Next(sys, step), []);
    ProvidersOnlyGrow(sys, [step]);
    SubsetSize(Unnamed(Next(sys, step), codes), Unnamed(sys, codes));
  }

  lemma {:induction false} LandedAppendsAreFew(sys: System, steps: seq<Step>, i: nat, codes: set<Code>)
    requires Inv(sys, i) && InTimeRun(sys, steps, i) && i < |sys.surfaces| && AllForNewcomers(sys.surfaces[i], codes)
    requires AppendsWithin(sys, steps, i, codes)
    ensures var end, (own, others) := Run(sys, steps), Taken(sys, steps, i);
            && own + |Unnamed(end, codes)| <= |Unnamed(sys, codes)|
            && Disk(end).revision == Disk(sys).revision + own + others
    decreases |steps|
  {
    if steps != [] {
      NextGrows(sys, steps[0]);
      NextKeepsInv(sys, steps[0], i);
      StepForNewcomers(sys, steps[0], i, codes);
      StepNames(sys, steps[0], codes);
      if LandsAppend(sys, steps[0], i) {
        LandedNamesOne(sys, steps[0], i, codes);
      }
      LandedAppendsAreFew(Next(sys, steps[0]), steps[1..], i, codes);
    }
  }

  /**
   * The draw, append, failed save, redraw loop comes to an end, whether appends
   * fail or land, among whatever else the surface saves: for newcomers among `codes`
   * it begins at most three appends, one more for each of them the disk does not
   * name, one more for each record it had not reached that anything but its own
   * appends wrote, and those that draws begin inside the reload of another append.
   */
  lemma AppendsAreBounded(sys: System, steps: seq<Step>, i: nat, codes: set<Code>)
    requires Inv(sys, i) && InTimeRun(sys, steps, i) && i < |sys.surfaces|
    requires AllForNewcomers(sys.surfaces[i], codes) && AppendsWithin(sys, steps, i, codes)
    ensures Attempts(sys, steps, i)
            <= Inside(sys, steps, i) + ADOPT_ATTEMPTS + |codes - Elements(Disk(sys).providers)|
               + (Disk(sys).revision - sys.surfaces[i].copy.state.revision) + Taken(sys, steps, i).1
  {
    AppendsArePaidFor(sys, steps, i);
    LandedAppendsAreFew(sys, steps, i, codes);
  }

  /**
   * Once the record at some revision names every code shown, no copy that has
   * reached it appends any of them again, in any run.
   */
  lemma NamedIsNeverAppended(sys: System, steps: seq<Step>, i: nat, k: nat, shown: seq<Code>)
    requires Inv(sys, i) && InTimeRun(sys, steps, i) && i < |sys.surfaces| && k < |sys.log|
    requires Elements(shown) <= Elements(sys.log[k].providers)
    requires sys.surfaces[i].copy.state.revision >= sys.log[k].revision
    ensures i < |Run(sys, steps).surfaces| && !MayAppend(Run(sys, steps).surfaces[i].copy, shown)
  {
    CopiesNeverGoBack(sys, steps, i);
    RunKeepsInv(sys, steps, i);
    LogOnlyGrows(sys, steps);
    var end := Run(sys, steps);
    var state := end.surfaces[i].copy.state;
    assert SurfaceSafe(end.log, end.surfaces[i]);
    var at := state.revision - end.log[0].revision;
    assert end.log[k] == sys.log[k] && k <= at;
    assert Named(end.log, k) <= Named(end.log, at) <= Elements(state.providers);
    forall code | code in shown ensures code in Elements(state.providers) {
      assert code in Elements(shown);
    }
    ExcludeAll(shown, Elements(state.providers));
  }
}
