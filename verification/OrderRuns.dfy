/** What holds over whole runs of the order protocol: no provider is lost, and no write is blind. */
module OrderRuns {
  import opened Sequences
  import opened OrderRecord
  import opened ProviderList
  import opened OrderProtocol
  import opened OrderSafety

  /** One step; one that cannot happen now changes nothing. */
  ghost function Next(sys: System, step: Step): (r: System)
    requires Shape(sys)
    ensures Shape(r)
  {
    if Enabled(sys, step) then
      StepKeepsShape(sys, step);
      Apply(sys, step)
    else sys
  }

  ghost function Run(sys: System, steps: seq<Step>): (r: System)
    requires Shape(sys)
    ensures Shape(r)
    decreases |steps|
  {
    if steps == [] then sys else Run(Next(sys, steps[0]), steps[1..])
  }

  /** A record on disk, and no surface open yet. */
  ghost function Start(disk: Order): (r: System)
    requires OnDisk(disk)
    ensures Safe(r) && r.surfaces == []
  {
    System([disk], [])
  }

  /** A first read that is answered brings all the disk names while a list may write from the disk's revision. */
  ghost predicate SafeStep(sys: System, step: Step)
    requires sys.log != []
  {
    step.LoadReturns? && Enabled(sys, step) ==> LoadIsSafe(sys, step.i)
  }

  ghost predicate SafeRun(sys: System, steps: seq<Step>)
    requires Shape(sys)
    decreases |steps|
  {
    steps == [] || (SafeStep(sys, steps[0]) && SafeRun(Next(sys, steps[0]), steps[1..]))
  }

  /** Surface `i`'s own first read is answered before anything newer than it was taken over. */
  ghost predicate InTime(sys: System, step: Step, i: nat) {
    step.LoadReturns? && step.i == i && Enabled(sys, step) ==>
      var s := sys.surfaces[i];
      s.first.order.Some? ==> s.copy.state.revision <= s.first.order.value.revision
  }

  /** Every first read is answered safely, and surface `i`'s own in time. */
  ghost predicate InTimeRun(sys: System, steps: seq<Step>, i: nat)
    requires Shape(sys)
    decreases |steps|
  {
    steps == [] ||
    (SafeStep(sys, steps[0]) && InTime(sys, steps[0], i) && InTimeRun(Next(sys, steps[0]), steps[1..], i))
  }

  // ------------------------------------------------------- what a step leaves alone

  lemma NextGrows(sys: System, step: Step)
    requires Shape(sys)
    ensures sys.log <= Next(sys, step).log && |Next(sys, step).log| <= |sys.log| + 1
    ensures |sys.surfaces| <= |Next(sys, step).surfaces|
    ensures |Next(sys, step).log| > |sys.log| ==> step.WriteReaches?
  {
  }

  /** A step on another surface only adds to what this one has still to hear. */
  lemma ElsewhereStays(sys: System, step: Step, i: nat)
    requires Shape(sys) && Enabled(sys, step) && i < |sys.surfaces| && (step.Open? || step.i != i)
    ensures i < |Apply(sys, step).surfaces|
    ensures var s, r := sys.surfaces[i], Apply(sys, step).surfaces[i];
            && r == s.(heard := r.heard)
            && (if Apply(sys, step).log == sys.log then r.heard == s.heard
                else r.heard == s.heard + multiset{Disk(Apply(sys, step))})
    ensures !step.WriteReaches? ==> Apply(sys, step).log == sys.log && Apply(sys, step).surfaces[i] == sys.surfaces[i]
  {
  }

  /** How far a task has come, and what is still to be heard, aside. */
  ghost predicate SameTasks(s: Surface, r: Surface) {
    && r.copy == s.copy && r.bases == s.bases && r.first == s.first && r.tasks.Keys == s.tasks.Keys
    && forall id :: id in s.tasks ==> r.tasks[id].job == s.tasks[id].job && r.tasks[id].before == s.tasks[id].before
  }

  /** Reaching the disk changes how far a task has come, not the copy nor what the task is for. */
  lemma WritingStays(sys: System, step: Step)
    requires Shape(sys) && Enabled(sys, step) && step.WriteReaches?
    ensures SameTasks(sys.surfaces[step.i], Apply(sys, step).surfaces[step.i])
    ensures var s, r := sys.surfaces[step.i], Apply(sys, step).surfaces[step.i];
            if Apply(sys, step).log == sys.log then r.heard == s.heard
            else r.heard == s.heard + multiset{Disk(Apply(sys, step))}
  {
  }

  lemma ReadingStays(sys: System, step: Step)
    requires Shape(sys) && Enabled(sys, step) && step.ReadReaches?
    ensures SameTasks(sys.surfaces[step.i], Apply(sys, step).surfaces[step.i])
    ensures Apply(sys, step).surfaces[step.i].heard == sys.surfaces[step.i].heard
  {
  }

  /** A step leaves alone what each call under way is for and was made on; only a call adds another. */
  lemma TasksStay(sys: System, step: Step, i: nat, id: nat)
    requires Shape(sys) && Enabled(sys, step) && UnderWay(Apply(sys, step), i, id)
    ensures var t := Apply(sys, step).surfaces[i].tasks[id];
            || (UnderWay(sys, i, id) && t.job == sys.surfaces[i].tasks[id].job
                && t.before == sys.surfaces[i].tasks[id].before)
            || (BeginsSave(step) && i == step.i && id == step.id && t.before == sys.surfaces[i].copy.state)
  {
    if step.Open? || step.i != i {
      if i < |sys.surfaces| {
        ElsewhereStays(sys, step, i);
      }
    } else if step.WriteReaches? {
      WritingStays(sys, step);
    } else if step.ReadReaches? {
      ReadingStays(sys, step);
    }
  }

  lemma {:induction false} LogOnlyGrows(sys: System, steps: seq<Step>)
    requires Shape(sys)
    ensures sys.log <= Run(sys, steps).log
    decreases |steps|
  {
    if steps != [] {
      NextGrows(sys, steps[0]);
      LogOnlyGrows(Next(sys, steps[0]), steps[1..]);
    }
  }

  // ---------------------------------------------------------- nothing is lost

  lemma {:induction false} RunKeepsSafe(sys: System, steps: seq<Step>)
    requires Safe(sys) && SafeRun(sys, steps)
    ensures Safe(Run(sys, steps))
    decreases |steps|
  {
    if steps != [] {
      if Enabled(sys, steps[0]) {
        StepKeepsSafe(sys, steps[0]);
      }
      RunKeepsSafe(Next(sys, steps[0]), steps[1..]);
    }
  }

  /**
   * Over every run of any surfaces, first reads that fail or come late included,
   * the record on disk keeps every provider it ever named, its list stays one the
   * disk can hold, and its history is only added to; first reads are safe.
   */
  lemma ProvidersOnlyGrow(sys: System, steps: seq<Step>)
    requires Safe(sys) && SafeRun(sys, steps)
    ensures var end := Run(sys, steps);
            && Safe(end)
            && sys.log <= end.log && OnDisk(Disk(end))
            && Elements(Disk(sys).providers) <= Elements(Disk(end).providers)
            && Disk(end).revision == Disk(sys).revision + (|end.log| - |sys.log|)
  {
    LogOnlyGrows(sys, steps);
    RunKeepsSafe(sys, steps);
    var end := Run(sys, steps);
    assert end.log[|sys.log| - 1] == Disk(sys);
    assert Named(end.log, |sys.log| - 1) <= Named(end.log, |end.log| - 1);
  }

  /** What a list can write once the copy has gone back to `order`: a list without `lost`. */
  lemma WritesWithout(order: Order, lost: Code) returns (code: Code)
    requires OnDisk(order) && lost !in order.providers
    ensures NoDup(order.providers)
    ensures var providers := MovedOrder(order.providers, [code], code, 0);
            ValidList(providers) && lost !in providers
  {
    code := if order.providers != [] then order.providers[0] else if lost == "CODEX" then "CLAUDE" else "CODEX";
    var known := if order.providers != [] then order.providers else [code];
    MovedOrderElements(order.providers, [code], code, 0);
    assert ValidCode("CODEX") && ValidCode("CLAUDE");
    var providers := MovedOrder(order.providers, [code], code, 0);
    assert Elements(providers) == Elements(known);
    forall x ensures x in providers <==> x in known {
      assert x in Elements(providers) <==> x in Elements(known);
    }
    SameListValid(providers, known);
  }

  lemma SameListValid(providers: seq<Code>, known: seq<Code>)
    requires NoDup(providers) && ValidList(known) && forall x :: x in providers <==> x in known
    ensures ValidList(providers)
  {
    SameLength(providers, known);
    forall i | 0 <= i < |providers| ensures ValidCode(providers[i]) {
      assert providers[i] in known;
    }
  }

  /** A move from the disk's revision, with nothing in between, is accepted. */
  lemma MoveIsAccepted(sys: System, i: nat, id: nat, code: Code) returns (steps: seq<Step>)
    requires Shape(sys) && Enabled(sys, Move(i, id, [code], code, 0, Disk(sys).revision))
    requires Disk(sys).revision < MAX_REVISION
    requires ValidList(MovedOrder(sys.surfaces[i].copy.state.providers, [code], code, 0))
    ensures Disk(Run(sys, steps)).providers == MovedOrder(sys.surfaces[i].copy.state.providers, [code], code, 0)
    ensures SafeRun(sys, steps)
  {
    var move, write := Move(i, id, [code], code, 0, Disk(sys).revision), WriteReaches(i, id, true, true);
    var moved := Next(sys, move);
    var input := moved.surfaces[i].tasks[id].job.input;
    assert Write(Disk(moved), input, true) == Written(input.(revision := Disk(sys).revision + 1));
    var written := Next(moved, write);
    assert Disk(written).providers == input.providers;
    steps := [move, write];
    assert steps[1..] == [write] && [write][1..] == [];
    assert Run(moved, [write]) == Run(written, []) && Run(sys, steps) == Run(moved, [write]);
    assert SafeRun(moved, [write]);
  }

  /** Answered with less than the disk names, while a list may write from the disk's revision, a move then loses it. */
  lemma UnsafeLoadLoses(sys: System, i: nat) returns (steps: seq<Step>)
    requires Safe(sys) && Enabled(sys, LoadReturns(i)) && !LoadIsSafe(sys, i)
    requires Disk(sys).revision < MAX_REVISION
    ensures var late := Next(sys, LoadReturns(i));
            SafeRun(late, steps) && !(Elements(Disk(sys).providers) <= Elements(Disk(Run(late, steps)).providers))
  {
    var s, disk := sys.surfaces[i], Disk(sys);
    var order := s.first.order.value;
    var lost :| lost in disk.providers && lost !in order.providers;
    var id := FreshId(s.tasks.Keys);
    var code := WritesWithout(order, lost);
    var late := Next(sys, LoadReturns(i));
    assert late.surfaces[i] == Loaded(s) && late.surfaces[i].copy.state == order;
    steps := MoveIsAccepted(late, i, id, code);
    assert lost in Elements(disk.providers) && lost !in Elements(Disk(Run(late, steps)).providers);
  }

  lemma FreshId(used: set<nat>) returns (id: nat)
    ensures forall x :: x in used ==> x < id
  {
    id := 0;
    if used != {} {
      var x :| x in used;
      var above := FreshId(used - {x});
      id := if above <= x then x + 1 else above;
      forall y | y in used ensures y < id {
        assert y == x || y in used - {x};
      }
    }
  }

  /**
   * When the answer to a first read may be taken over: a later run can lose a
   * provider exactly when some list may write from the disk's revision and the
   * answer does not name all the disk does.
   */
  lemma LoadIsSafeExactlyWhen(sys: System, i: nat)
    requires Safe(sys) && Enabled(sys, LoadReturns(i)) && Disk(sys).revision < MAX_REVISION
    ensures LoadIsSafe(sys, i)
            <==> forall steps :: SafeRun(Next(sys, LoadReturns(i)), steps) ==>
                   Elements(Disk(sys).providers) <= Elements(Disk(Run(Next(sys, LoadReturns(i)), steps)).providers)
  {
    var late := Next(sys, LoadReturns(i));
    if LoadIsSafe(sys, i) {
      LoadSafe(sys, i);
      forall steps | SafeRun(late, steps)
        ensures Elements(Disk(sys).providers) <= Elements(Disk(Run(late, steps)).providers)
      {
        ProvidersOnlyGrow(late, steps);
      }
    } else {
      var steps := UnsafeLoadLoses(sys, i);
    }
  }

  // -------------------------------------------------------------- no blind write

  lemma NextKeepsInv(sys: System, step: Step, i: nat)
    requires Inv(sys, i) && SafeStep(sys, step) && InTime(sys, step, i)
    ensures Inv(Next(sys, step), i)
  {
    if Enabled(sys, step) {
      StepKeepsInv(sys, step, i);
    }
  }

  lemma {:induction false} RunKeepsInv(sys: System, steps: seq<Step>, i: nat)
    requires Inv(sys, i) && InTimeRun(sys, steps, i)
    ensures Inv(Run(sys, steps), i) && SafeRun(sys, steps)
    decreases |steps|
  {
    if steps != [] {
      NextKeepsInv(sys, steps[0], i);
      RunKeepsInv(Next(sys, steps[0]), steps[1..], i);
    }
  }

  lemma RevisionOrder(log: seq<Order>, a: Order, b: Order)
    requires LogInv(log) && a in log && b in log && a.revision == b.revision
    ensures a == b
  {
  }

  /**
   * A write the disk accepts replaces exactly the revision of the copy it was
   * computed from: nothing another surface wrote in between is overwritten, and
   * when the copy was a record of the disk it was this one.
   */
  lemma NoBlindOverwrite(sys: System, i: nat, id: nat, stored: bool, answered: bool)
    requires Inv(sys, i) && Enabled(sys, WriteReaches(i, id, stored, answered))
    ensures var t, end := sys.surfaces[i].tasks[id], Apply(sys, WriteReaches(i, id, stored, answered));
            end.log == sys.log
            || (&& t.before.revision == Disk(sys).revision
                && (t.before in sys.log ==> t.before == Disk(sys))
                && Disk(end) == t.job.input.(revision := Disk(sys).revision + 1)
                && Elements(Disk(sys).providers) <= Elements(t.job.input.providers))
  {
    var t := sys.surfaces[i].tasks[id];
    assert TaskSafe(sys.log, t);
    if t.before in sys.log && t.before.revision == Disk(sys).revision {
      RevisionOrder(sys.log, t.before, Disk(sys));
    }
  }

  /** The writes made from revision `r` that the disk accepts. */
  ghost function Accepted(sys: System, steps: seq<Step>, r: nat): nat
    requires Shape(sys)
    decreases |steps|
  {
    if steps == [] then 0
    else
      var next := Next(sys, steps[0]);
      (if |next.log| > |sys.log| && sys.surfaces[steps[0].i].tasks[steps[0].id].job.input.revision == r then 1 else 0)
      + Accepted(next, steps[1..], r)
  }

  /** In any run one write is accepted from each revision the disk leaves, and none from any other. */
  lemma {:induction false} OneWinner(sys: System, steps: seq<Step>, r: nat)
    requires Shape(sys)
    ensures Accepted(sys, steps, r) == if Disk(sys).revision <= r < Disk(Run(sys, steps)).revision then 1 else 0
    ensures Disk(sys).revision <= Disk(Run(sys, steps)).revision
    decreases |steps|
  {
    if steps != [] {
      NextGrows(sys, steps[0]);
      OneWinner(Next(sys, steps[0]), steps[1..], r);
    }
  }

  /** A write is refused as invalid only for its length or the spelling of a code, never for a duplicate. */
  lemma NoDuplicateIsEverSent(sys: System, i: nat, id: nat, stored: bool)
    requires Safe(sys) && UnderWay(sys, i, id) && sys.surfaces[i].tasks[id].job.Save?
    requires Write(Disk(sys), sys.surfaces[i].tasks[id].job.input, stored) == Refused(InvalidInput)
    ensures var providers := sys.surfaces[i].tasks[id].job.input.providers;
            |providers| > MAX_PROVIDERS || exists code :: code in providers && !ValidCode(code)
  {
    var providers := sys.surfaces[i].tasks[id].job.input.providers;
    assert TaskSafe(sys.log, sys.surfaces[i].tasks[id]);
    if forall code :: code in providers ==> ValidCode(code) {
      assert forall k :: 0 <= k < |providers| ==> ValidCode(providers[k]);
    }
  }
}
