/** The runs in which the order protocol does not keep what it promises. */
module OrderFailures {
  import opened Sequences
  import opened Options
  import opened OrderRecord
  import opened ProviderList
  import opened OrderStores
  import opened OrderProtocol
  import opened OrderSafety
  import opened OrderRuns
  import opened OrderConvergence

  lemma {:induction false} RunThen(sys: System, steps: seq<Step>, more: seq<Step>)
    requires Shape(sys)
    ensures Run(sys, steps + more) == Run(Run(sys, steps), more)
    decreases |steps|
  {
    if steps == [] {
      assert steps + more == more;
    } else {
      assert (steps + more)[1..] == steps[1..] + more;
      RunThen(Next(sys, steps[0]), steps[1..], more);
    }
  }

  lemma RunOne(sys: System, step: Step)
    requires Shape(sys)
    ensures Run(sys, [step]) == Next(sys, step)
  {
    assert [step][1..] == [];
    assert Run(Next(sys, step), []) == Next(sys, step);
  }

  // ---------------------------------------------------- a first read answered late

  const THEIRS := Order(Custom, ["CLAUDE"], 1)

  /** Two surfaces open on an empty record; the first has read it and not been answered. */
  lemma OneHasRead() returns (steps: seq<Step>)
    ensures forall e :: e in steps ==> !e.LoadReturns?
    ensures Run(Start(USAGE), steps) == System([USAGE], [OPENED.(first := Read(Some(USAGE))), OPENED])
  {
    var one, two := System([USAGE], [OPENED]), System([USAGE], [OPENED, OPENED]);
    RunOne(Start(USAGE), Open);
    assert Next(Start(USAGE), Open) == one;
    RunOne(one, Open);
    assert Next(one, Open) == two;
    RunOne(two, LoadReaches(0, true));
    RunThen(Start(USAGE), [Open], [Open]);
    RunThen(Start(USAGE), [Open] + [Open], [LoadReaches(0, true)]);
    steps := [Open] + [Open] + [LoadReaches(0, true)];
  }

  /** The second names a provider, and the first is told. */
  lemma OtherWrites(sys: System) returns (steps: seq<Step>)
    requires sys == System([USAGE], [OPENED.(first := Read(Some(USAGE))), OPENED])
    ensures forall e :: e in steps ==> !e.LoadReturns?
    ensures Shape(sys)
    ensures var end := Run(sys, steps);
            && end.log == [USAGE, THEIRS] && |end.surfaces| == 2
            && end.surfaces[0] == sys.surfaces[0].(heard := multiset{THEIRS})
  {
    assert Shape(sys) by {
      assert Counted(map[]) == {};
    }
    var move, write := Move(1, 0, ["CLAUDE"], "CLAUDE", 0, 0), WriteReaches(1, 0, true, true);
    assert MovedOrder([], ["CLAUDE"], "CLAUDE", 0) == ["CLAUDE"] by {
      MovedIsAlone("CLAUDE");
    }
    assert ValidCode("CLAUDE");
    var moved := Next(sys, move);
    assert moved.surfaces[1].tasks[0].job.input == Order(Custom, ["CLAUDE"], 0);
    assert Write(Disk(moved), moved.surfaces[1].tasks[0].job.input, true) == Written(THEIRS);
    RunOne(sys, move);
    RunOne(moved, write);
    RunThen(sys, [move], [write]);
    steps := [move] + [write];
  }

  lemma MovedIsAlone(code: Code)
    ensures MovedOrder([], [code], code, 0) == [code]
  {
    assert [code][1..] == [];
    assert Exclude([code], {code}) == [];
    assert Moved([code], code, 0) == [code];
  }

  /** Heard and drawn: its list may now write from what the disk holds. */
  lemma OneDraws(sys: System) returns (steps: seq<Step>)
    requires Shape(sys) && sys.log == [USAGE, THEIRS] && |sys.surfaces| == 2
    requires sys.surfaces[0] == OPENED.(first := Read(Some(USAGE)), heard := multiset{THEIRS})
    ensures forall e :: e in steps ==> !e.LoadReturns?
    ensures var end := Run(sys, steps);
            && end.log == sys.log && Enabled(end, LoadReturns(0)) && !LoadIsSafe(end, 0)
            && |end.surfaces| == 2 && end.surfaces[0].first == Read(Some(USAGE)) && end.surfaces[0].copy.state == THEIRS
            && Settled(end.surfaces[0]) && end.surfaces[0].heard == multiset{}
  {
    var heard := Next(sys, Deliver(0, THEIRS));
    assert heard.surfaces[0].copy.state == THEIRS && heard.surfaces[0].heard == multiset{};
    var drawn := Next(heard, Draw(0));
    assert 1 in drawn.surfaces[0].bases && Disk(drawn) == THEIRS;
    assert "CLAUDE" in Elements(THEIRS.providers) && "CLAUDE" !in Elements(USAGE.providers);
    RunOne(sys, Deliver(0, THEIRS));
    RunOne(heard, Draw(0));
    RunThen(sys, [Deliver(0, THEIRS)], [Draw(0)]);
    steps := [Deliver(0, THEIRS)] + [Draw(0)];
  }

  /** Without an answer to a first read every run is in time. */
  lemma {:induction false} UnansweredIsInTime(sys: System, steps: seq<Step>, i: nat)
    requires Shape(sys) && forall e :: e in steps ==> !e.LoadReturns?
    ensures InTimeRun(sys, steps, i)
    decreases |steps|
  {
    if steps != [] {
      assert !steps[0].LoadReturns?;
      UnansweredIsInTime(Next(sys, steps[0]), steps[1..], i);
    }
  }

  lemma LateRun() returns (steps: seq<Step>)
    ensures InTimeRun(Start(USAGE), steps, 0)
    ensures var sys := Run(Start(USAGE), steps);
            && Inv(sys, 0) && sys.log == [USAGE, THEIRS] && |sys.surfaces| == 2
            && Enabled(sys, LoadReturns(0)) && !LoadIsSafe(sys, 0) && !InTime(sys, LoadReturns(0), 0)
            && sys.surfaces[0].first == Read(Some(USAGE)) && Settled(sys.surfaces[0])
            && sys.surfaces[0].heard == multiset{}
  {
    var first := OneHasRead();
    var second := OtherWrites(Run(Start(USAGE), first));
    RunThen(Start(USAGE), first, second);
    var third := OneDraws(Run(Start(USAGE), first + second));
    RunThen(Start(USAGE), first + second, third);
    steps := first + second + third;
    UnansweredIsInTime(Start(USAGE), steps, 0);
    RunKeepsInv(Start(USAGE), steps, 0);
  }

  /**
   * A first read answered after an event takes the copy back to an older record,
   * and a move on the list already drawn is then accepted although it drops a
   * provider the disk named.
   */
  lemma LateLoadLosesProvider() returns (steps: seq<Step>)
    ensures var end := Run(Start(USAGE), steps);
            [USAGE, THEIRS] <= end.log && "CLAUDE" in THEIRS.providers && "CLAUDE" !in Disk(end).providers
  {
    var before := LateRun();
    var sys := Run(Start(USAGE), before);
    var after := UnsafeLoadLoses(sys, 0);
    var late := Next(sys, LoadReturns(0));
    RunOne(sys, LoadReturns(0));
    RunThen(Start(USAGE), before, [LoadReturns(0)]);
    RunThen(Start(USAGE), before + [LoadReturns(0)], after);
    steps := before + [LoadReturns(0)] + after;
    LogOnlyGrows(Start(USAGE), steps);
    NextGrows(sys, LoadReturns(0));
    LogOnlyGrows(late, after);
    assert forall x :: x in Elements(THEIRS.providers) ==> x == "CLAUDE";
  }

  /**
   * And before anything else is saved that surface shows the empty record although
   * the disk has moved on: nothing is under way on it, and nothing is to be heard.
   */
  lemma LateLoadShowsOld() returns (steps: seq<Step>)
    ensures var end := Run(Start(USAGE), steps);
            && |end.surfaces| == 2 && Settled(end.surfaces[0]) && end.surfaces[0].heard == multiset{}
            && end.surfaces[0].first.Over? && end.surfaces[0].copy.state == USAGE && Disk(end) == THEIRS
  {
    var before := LateRun();
    var sys := Run(Start(USAGE), before);
    RunOne(sys, LoadReturns(0));
    RunThen(Start(USAGE), before, [LoadReturns(0)]);
    assert Next(sys, LoadReturns(0)).surfaces[0] == Loaded(sys.surfaces[0]);
    steps := before + [LoadReturns(0)];
  }

  // ------------------------------------------- two calls that overlap and both fail

  const DISK := Order(Custom, ["CLAUDE"], 1)
  const TENTATIVE := Order(Usage, ["CLAUDE"], 1)

  /** One surface on that record, its first read over. */
  ghost function On(copy: Copy, tasks: map<nat, Task>): System {
    System([DISK], [Surface(copy, tasks, multiset{}, {0}, Over)])
  }

  ghost function Switch(from: Order, to: Order, stage: Stage): Task {
    Task(Save(to, false), from, stage)
  }

  /** The surface opens and reads the record. */
  lemma Opens() returns (steps: seq<Step>)
    ensures Run(Start(DISK), steps) == On(Copy(DISK, 1, 0, 0), map[])
    ensures InTimeRun(Start(DISK), steps, 0)
  {
    var ready := System([DISK], [OPENED]);
    var read := System([DISK], [OPENED.(first := Read(Some(DISK)))]);
    RunOne(Start(DISK), Open);
    assert Next(Start(DISK), Open) == ready;
    RunOne(ready, LoadReaches(0, true));
    assert Next(ready, LoadReaches(0, true)) == read;
    RunOne(read, LoadReturns(0));
    assert Next(read, LoadReturns(0)) == On(Copy(DISK, 1, 0, 0), map[]);
    RunThen(Start(DISK), [Open], [LoadReaches(0, true)]);
    RunThen(Start(DISK), [Open] + [LoadReaches(0, true)], [LoadReturns(0)]);
    steps := [Open] + [LoadReaches(0, true)] + [LoadReturns(0)];
    assert steps[1..] == [LoadReaches(0, true), LoadReturns(0)] && steps[1..][1..] == [LoadReturns(0)];
    assert [LoadReturns(0)][1..] == [];
    assert InTimeRun(read, [LoadReturns(0)], 0);
    assert InTimeRun(ready, steps[1..], 0);
  }

  /**
   * A first read that fails leaves the surface with the empty record, whatever is on
   * disk: no call has been made, nothing is under way, and nothing is to be heard.
   */
  lemma FailedFirstReadShowsNothing() returns (steps: seq<Step>)
    ensures InTimeRun(Start(DISK), steps, 0) && OneAtATime(Start(DISK), steps, 0)
    ensures var end := Run(Start(DISK), steps);
            && |end.surfaces| == 1 && Settled(end.surfaces[0]) && end.surfaces[0].heard == multiset{}
            && end.surfaces[0].first.Over? && end.surfaces[0].copy.state == USAGE && Disk(end) == DISK != USAGE
  {
    var ready, failed := System([DISK], [OPENED]), System([DISK], [OPENED.(first := Read(None))]);
    steps := [Open, LoadReaches(0, false), LoadReturns(0)];
    assert steps[1..] == [LoadReaches(0, false), LoadReturns(0)] && steps[1..][1..] == [LoadReturns(0)];
    RunOne(failed, LoadReturns(0));
    assert Next(Start(DISK), Open) == ready && Next(ready, LoadReaches(0, false)) == failed;
    assert Next(failed, LoadReturns(0)) == System([DISK], [OPENED.(first := Over)]);
    assert Run(ready, steps[1..]) == Run(failed, [LoadReturns(0)]);
    assert [LoadReturns(0)][1..] == [];
    assert InTimeRun(failed, [LoadReturns(0)], 0) && InTimeRun(ready, steps[1..], 0);
    assert OneAtATime(failed, [LoadReturns(0)], 0) && OneAtATime(ready, steps[1..], 0);
  }

  /** A mode switch begins: shown at once. */
  lemma Switches(copy: Copy, tasks: map<nat, Task>, id: nat, to: Order)
    requires Shape(On(copy, tasks)) && id !in tasks
    requires to == copy.state.(mode := to.mode) && to != copy.state
    ensures Next(On(copy, tasks), SwitchMode(0, id, to.mode))
         == On(SaveStarts(copy, to), tasks[id := Switch(copy.state, to, Writing)])
  {
  }

  /** Its write fails, and so does its reread. */
  lemma Fails(copy: Copy, tasks: map<nat, Task>, id: nat) returns (steps: seq<Step>)
    requires Shape(On(copy, tasks)) && copy.saving > 0
    requires id in tasks && tasks[id].job.Save? && tasks[id].stage.Writing?
    ensures Run(On(copy, tasks), steps)
         == On(copy.(saving := copy.saving - 1), tasks[id := tasks[id].(stage := Reloading(None))])
    ensures forall e :: e in steps ==> !e.LoadReturns?
  {
    var write, back, read := WriteReaches(0, id, false, false), WriteReturns(0, id), ReadReaches(0, id, false);
    var refused := On(copy, tasks[id := tasks[id].(stage := Answering(None))]);
    assert Next(On(copy, tasks), write) == refused;
    var told := On(copy.(saving := copy.saving - 1), tasks[id := tasks[id].(stage := Reading)]);
    assert Next(refused, back) == told by {
      assert tasks[id := tasks[id].(stage := Answering(None))][id := tasks[id].(stage := Reading)]
          == tasks[id := tasks[id].(stage := Reading)];
    }
    assert tasks[id := tasks[id].(stage := Reading)][id := tasks[id].(stage := Reloading(None))]
        == tasks[id := tasks[id].(stage := Reloading(None))];
    RunOne(On(copy, tasks), write);
    RunOne(refused, back);
    RunOne(told, read);
    RunThen(On(copy, tasks), [write], [back]);
    RunThen(On(copy, tasks), [write] + [back], [read]);
    steps := [write] + [back] + [read];
  }

  /** It puts back the copy it was made on, and every list redraws. */
  lemma Ends(copy: Copy, tasks: map<nat, Task>, id: nat) returns (steps: seq<Step>)
    requires Shape(On(copy, tasks)) && id in tasks && tasks[id].stage == Reloading(None)
    requires tasks[id].job.Save? && !tasks[id].job.appending
    ensures Run(On(copy, tasks), steps) == On(Notify(FromDisk(copy, tasks[id].before, None)), tasks - {id})
    ensures forall e :: e in steps ==> !e.LoadReturns?
  {
    var back, tell := ReadReturns(0, id), Tells(0, id);
    var reread := On(FromDisk(copy, tasks[id].before, None), tasks[id := tasks[id].(stage := Telling)]);
    assert Next(On(copy, tasks), back) == reread;
    assert tasks[id := tasks[id].(stage := Telling)] - {id} == tasks - {id};
    RunOne(On(copy, tasks), back);
    RunOne(reread, tell);
    RunThen(On(copy, tasks), [back], [tell]);
    steps := [back] + [tell];
  }

  /** Both switches under way on the surface, the second made on the first one's record. */
  lemma BothBegin() returns (steps: seq<Step>)
    ensures Shape(On(Copy(DISK, 1, 0, 0), map[]))
    ensures Run(On(Copy(DISK, 1, 0, 0), map[]), steps)
         == On(Copy(DISK, 3, 2, 0), map[0 := Switch(DISK, TENTATIVE, Writing), 1 := Switch(TENTATIVE, DISK, Writing)])
    ensures forall e :: e in steps ==> !e.LoadReturns?
  {
    var none, one := Copy(DISK, 1, 0, 0), Copy(TENTATIVE, 2, 1, 0);
    var tasks := map[0 := Switch(DISK, TENTATIVE, Writing)];
    assert Counted(map[]) == {};
    Switches(none, map[], 0, TENTATIVE);
    assert map[][0 := Switch(DISK, TENTATIVE, Writing)] == tasks;
    Switches(one, tasks, 1, DISK);
    assert tasks[1 := Switch(TENTATIVE, DISK, Writing)]
        == map[0 := Switch(DISK, TENTATIVE, Writing), 1 := Switch(TENTATIVE, DISK, Writing)];
    RunOne(On(none, map[]), SwitchMode(0, 0, Usage));
    RunOne(On(one, tasks), SwitchMode(0, 1, Custom));
    RunThen(On(none, map[]), [SwitchMode(0, 0, Usage)], [SwitchMode(0, 1, Custom)]);
    steps := [SwitchMode(0, 0, Usage)] + [SwitchMode(0, 1, Custom)];
  }

  /** Both fail, and each puts back what it was made on. */
  lemma BothFail(sys: System) returns (steps: seq<Step>)
    requires sys == On(Copy(DISK, 3, 2, 0),
                       map[0 := Switch(DISK, TENTATIVE, Writing), 1 := Switch(TENTATIVE, DISK, Writing)])
    requires Shape(sys)
    ensures Run(sys, steps) == On(Copy(TENTATIVE, 5, 0, 0), map[])
    ensures forall e :: e in steps ==> !e.LoadReturns?
  {
    var first, second := Switch(DISK, TENTATIVE, Reloading(None)), Switch(TENTATIVE, DISK, Reloading(None));
    var failed := Fails(Copy(DISK, 3, 2, 0), sys.surfaces[0].tasks, 0);
    var both := map[0 := first, 1 := Switch(TENTATIVE, DISK, Writing)];
    assert sys.surfaces[0].tasks[0 := first] == both;
    var again := Fails(Copy(DISK, 3, 1, 0), both, 1);
    assert both[1 := second] == map[0 := first, 1 := second];
    var ended := Ends(Copy(DISK, 3, 0, 0), map[0 := first, 1 := second], 0);
    assert map[0 := first, 1 := second] - {0} == map[1 := second];
    var last := Ends(Copy(DISK, 4, 0, 0), map[1 := second], 1);
    assert map[1 := second] - {1} == map[];
    RunThen(sys, failed, again);
    RunThen(sys, failed + again, ended);
    RunThen(sys, failed + again + ended, last);
    steps := failed + again + ended + last;
  }

  lemma {:induction false} InTimeTogether(sys: System, steps: seq<Step>, more: seq<Step>, i: nat)
    requires Shape(sys)
    ensures InTimeRun(sys, steps + more, i) <==> InTimeRun(sys, steps, i) && InTimeRun(Run(sys, steps), more, i)
    decreases |steps|
  {
    if steps == [] {
      assert steps + more == more;
    } else {
      assert (steps + more)[1..] == steps[1..] + more;
      InTimeTogether(Next(sys, steps[0]), steps[1..], more, i);
    }
  }

  /** One run after another, the second without an answer to a first read. */
  lemma ThenUnanswered(sys: System, first: seq<Step>, second: seq<Step>, a: System, i: nat)
    requires Shape(sys) && InTimeRun(sys, first, i) && Run(sys, first) == a
    requires forall e :: e in second ==> !e.LoadReturns?
    ensures InTimeRun(sys, first + second, i) && Run(sys, first + second) == Run(a, second)
  {
    RunThen(sys, first, second);
    UnansweredIsInTime(a, second, i);
    InTimeTogether(sys, first, second, i);
  }

  lemma OverlapRun() returns (steps: seq<Step>)
    ensures InTimeRun(Start(DISK), steps, 0)
    ensures Run(Start(DISK), steps) == On(Copy(TENTATIVE, 5, 0, 0), map[])
  {
    var first := Opens();
    var second := BothBegin();
    var begun := Run(On(Copy(DISK, 1, 0, 0), map[]), second);
    var third := BothFail(begun);
    ThenUnanswered(Start(DISK), first, second, On(Copy(DISK, 1, 0, 0), map[]), 0);
    ThenUnanswered(Start(DISK), first + second, third, begun, 0);
    steps := first + second + third;
  }

  /**
   * Two mode switches begun together on one surface, both refused by the file and
   * both rereads failed, leave a record the disk never held: nothing is under way
   * on the surface any more, nothing is to be heard, and it stays.
   */
  lemma TentativeOutlivesOverlap() returns (steps: seq<Step>)
    ensures InTimeRun(Start(DISK), steps, 0) && !SoundRun(Start(DISK), steps, 0)
    ensures var end := Run(Start(DISK), steps);
            && |end.surfaces| == 1 && Settled(end.surfaces[0]) && end.surfaces[0].heard == multiset{}
            && end.surfaces[0].copy.state !in end.log && end.surfaces[0].copy.state.revision == Disk(end).revision
  {
    steps := OverlapRun();
    var end := Run(Start(DISK), steps);
    assert !Genuine(end.log, end.surfaces[0].copy.state);
    if SoundRun(Start(DISK), steps, 0) {
      RealExactlyWhenSound(Start(DISK), steps, 0);
      assert false;
    }
  }
}
