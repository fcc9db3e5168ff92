/** Every surface comes to show the record on disk: when, and what it takes. */
module OrderConvergence {
  import opened Options
  import opened OrderRecord
  import opened OrderStores
  import opened OrderProtocol
  import opened OrderSafety
  import opened OrderRuns

  // ------------------------------------------------- nothing tentative outlives its save

  /** A save under way, its reload not over, made the record shown. */
  ghost predicate Tentative(s: Surface, id: nat) {
    id in s.tasks && Makes(s.tasks[id], s.copy.state)
  }

  /** A record of the disk, or the empty one a surface opens with. */
  ghost predicate Genuine(log: seq<Order>, o: Order) {
    o in log || o == USAGE
  }

  ghost predicate Real(log: seq<Order>, s: Surface) {
    Genuine(log, s.copy.state) || exists id :: Tentative(s, id)
  }

  /** Surface `i`, once it is open, shows such a record. */
  ghost predicate ShowsReal(sys: System, i: nat) {
    i < |sys.surfaces| ==> Real(sys.log, sys.surfaces[i])
  }

  /** The record another save under way made. */
  ghost predicate MadeByAnother(s: Surface, id: nat, o: Order) {
    exists k :: k in s.tasks && k != id && Makes(s.tasks[k], o)
  }

  ghost predicate Makes(t: Task, o: Order) {
    t.job.Save? && !t.stage.Telling? && t.job.input == o
  }

  /** A reload of surface `i` that fails puts back a record of the disk, or one whose save is still under way. */
  ghost predicate SoundStep(sys: System, step: Step, i: nat) {
    step.ReadReturns? && step.i == i && Enabled(sys, step) ==>
      var s := sys.surfaces[i];
      var t := s.tasks[step.id];
      t.stage.read.None? && s.copy.state.revision == t.before.revision ==>
        Genuine(sys.log, t.before) || MadeByAnother(s, step.id, t.before)
  }

  ghost predicate SoundRun(sys: System, steps: seq<Step>, i: nat)
    requires Shape(sys)
    decreases |steps|
  {
    steps == [] || (SoundStep(sys, steps[0], i) && SoundRun(Next(sys, steps[0]), steps[1..], i))
  }

  lemma BegunReal(log: seq<Order>, s: Surface, id: nat, input: Order, appending: bool)
    requires Real(log, s) && id !in s.tasks
    ensures Real(log, Begun(s, id, input, appending))
  {
    var r := Begun(s, id, input, appending);
    if r.copy.state != s.copy.state {
      assert Tentative(r, id);
    } else if k :| Tentative(s, k) {
      assert Tentative(r, k);
    }
  }

  lemma AnsweredReal(log: seq<Order>, s: Surface, id: nat)
    requires LogInv(log) && SurfaceSafe(log, s) && Shaped(s) && Ordered(s) && Real(log, s)
    requires id in s.tasks && s.tasks[id].stage.Answering?
    ensures Real(log, Answered(s, id))
  {
    CountsTask(s, id);
    var r, answer := Answered(s, id), s.tasks[id].stage.answer;
    assert TaskSafe(log, s.tasks[id]);
    if answer.Some? && answer.value.revision >= s.copy.state.revision {
      LogCovers(log, answer.value);
    } else if k :| Tentative(s, k) {
      assert Tentative(r, k);
    }
  }

  /** A reload leaves the copy a record of the disk, or of a save still under way, exactly when it is sound. */
  lemma ReloadedReal(log: seq<Order>, s: Surface, id: nat)
    requires LogInv(log) && SurfaceSafe(log, s) && Ordered(s) && Real(log, s)
    requires id in s.tasks && s.tasks[id].stage.Reloading?
    ensures var t := s.tasks[id];
            Real(log, Reloaded(s, id))
            <==> (t.stage.read.None? && s.copy.state.revision == t.before.revision ==>
                    Genuine(log, t.before) || MadeByAnother(s, id, t.before))
  {
    var r, t := Reloaded(s, id), s.tasks[id];
    assert TaskSafe(log, t);
    if t.stage.read.None? && s.copy.state.revision == t.before.revision {
      assert r.copy.state == t.before;
      if k :| Tentative(r, k) {
        assert k != id;
      }
      if MadeByAnother(s, id, t.before) {
        var k :| k in s.tasks && k != id && Makes(s.tasks[k], t.before);
        assert Tentative(r, k);
      }
    } else if r.copy.state == s.copy.state {
      if k :| Tentative(s, k) {
        assert Tentative(r, k) || t.stage.read.Some?;
      }
    }
    if t.stage.read.Some? {
      LogCovers(log, t.stage.read.value);
    }
  }

  /** Changing neither the copy nor what any save is for changes nothing about that. */
  lemma StaysReal(log: seq<Order>, more: seq<Order>, s: Surface, r: Surface)
    requires Real(log, s) && log <= more && r.copy.state == s.copy.state
    requires forall k :: k in s.tasks && !s.tasks[k].stage.Telling? ==>
               k in r.tasks && r.tasks[k].job == s.tasks[k].job && !r.tasks[k].stage.Telling?
    ensures Real(more, r)
  {
    if k :| Tentative(s, k) {
      assert Tentative(r, k);
    }
    if s.copy.state in log {
      assert s.copy.state in more;
    }
  }

  lemma WrittenReal(sys: System, step: Step, i: nat)
    requires Shape(sys) && Enabled(sys, step) && step.WriteReaches?
    requires i < |sys.surfaces| && Real(sys.log, sys.surfaces[i])
    ensures Real(Apply(sys, step).log, Apply(sys, step).surfaces[i])
  {
    var r := Apply(sys, step);
    NextGrows(sys, step);
    if i == step.i {
      WritingStays(sys, step);
      StagesOnly(sys, step);
    } else {
      ElsewhereStays(sys, step, i);
    }
    StaysReal(sys.log, r.log, sys.surfaces[i], r.surfaces[i]);
  }

  /** A step that reaches the disk ends no reload. */
  lemma StagesOnly(sys: System, step: Step)
    requires Shape(sys) && Enabled(sys, step) && (step.WriteReaches? || step.ReadReaches?)
    ensures forall k :: k in sys.surfaces[step.i].tasks && !sys.surfaces[step.i].tasks[k].stage.Telling? ==>
              k in Apply(sys, step).surfaces[step.i].tasks && !Apply(sys, step).surfaces[step.i].tasks[k].stage.Telling?
  {
  }

  lemma LocalReal(sys: System, step: Step)
    requires Shape(sys) && Enabled(sys, step)
    requires step.Draw? || step.GiveUp? || step.ReadReaches? || step.Tells? || step.LoadReaches?
    requires Real(sys.log, sys.surfaces[step.i])
    ensures Real(sys.log, Apply(sys, step).surfaces[step.i])
  {
    var s, r := sys.surfaces[step.i], Apply(sys, step).surfaces[step.i];
    if step.ReadReaches? {
      StagesOnly(sys, step);
    }
    StaysReal(sys.log, sys.log, s, r);
  }

  lemma BroughtReal(sys: System, step: Step)
    requires Safe(sys) && Enabled(sys, step) && (step.Deliver? || step.LoadReturns?)
    requires Real(sys.log, sys.surfaces[step.i])
    ensures Real(sys.log, Apply(sys, step).surfaces[step.i])
  {
    var s, r := sys.surfaces[step.i], Apply(sys, step).surfaces[step.i];
    assert SurfaceSafe(sys.log, s);
    if r.copy.state == s.copy.state {
      StaysReal(sys.log, sys.log, s, r);
    }
  }

  lemma OwnReal(sys: System, step: Step, i: nat)
    requires Inv(sys, i) && Enabled(sys, step) && !step.Open? && !step.WriteReaches? && !step.ReadReturns?
    requires step.i == i && Real(sys.log, sys.surfaces[i])
    ensures Real(sys.log, Apply(sys, step).surfaces[i])
  {
    var s := sys.surfaces[i];
    assert SurfaceSafe(sys.log, s);
    if step.WriteReturns? {
      AnsweredReal(sys.log, s, step.id);
    } else if step.Move? || step.SwitchMode? || step.Append? {
      BegunReal(sys.log, s, step.id, InputOf(s, step), step.Append?);
    } else if step.Deliver? || step.LoadReturns? {
      BroughtReal(sys, step);
    } else {
      LocalReal(sys, step);
    }
  }

  /** Each step keeps what a surface shows real exactly when it is sound for it. */
  lemma StepReal(sys: System, step: Step, i: nat)
    requires Inv(sys, i) && ShowsReal(sys, i)
    ensures ShowsReal(Next(sys, step), i) <==> SoundStep(sys, step, i)
  {
    if Enabled(sys, step) {
      if i >= |sys.surfaces| {
        OpenedReal(sys, step, i);
      } else if step.WriteReaches? {
        WrittenReal(sys, step, i);
      } else if step.Open? || step.i != i {
        ElsewhereStays(sys, step, i);
      } else if step.ReadReturns? {
        assert SurfaceSafe(sys.log, sys.surfaces[i]);
        ReloadedReal(sys.log, sys.surfaces[i], step.id);
      } else {
        LogStays(sys, step);
        OwnReal(sys, step, i);
      }
    }
  }

  lemma OpenedReal(sys: System, step: Step, i: nat)
    requires Shape(sys) && i >= |sys.surfaces|
    ensures ShowsReal(Next(sys, step), i)
  {
    if i < |Next(sys, step).surfaces| {
      assert step.Open? && Next(sys, step).surfaces[i] == OPENED;
    }
  }

  lemma LogStays(sys: System, step: Step)
    requires Shape(sys) && Enabled(sys, step) && !step.WriteReaches?
    ensures Apply(sys, step).log == sys.log && |Apply(sys, step).surfaces| >= |sys.surfaces|
  {
  }

  ghost predicate RealThroughout(sys: System, steps: seq<Step>, i: nat)
    requires Shape(sys)
    decreases |steps|
  {
    ShowsReal(sys, i) && (steps == [] || RealThroughout(Next(sys, steps[0]), steps[1..], i))
  }

  /**
   * Over a whole run a surface shows a record of the disk, or one whose save is
   * still under way, at every moment, exactly when none of its failed reloads puts
   * back a record that another call made and that never landed.
   */
  lemma {:induction false} RealExactlyWhenSound(sys: System, steps: seq<Step>, i: nat)
    requires Inv(sys, i) && ShowsReal(sys, i) && InTimeRun(sys, steps, i)
    ensures RealThroughout(sys, steps, i) <==> SoundRun(sys, steps, i)
    ensures SoundRun(sys, steps, i) ==> ShowsReal(Run(sys, steps), i)
    decreases |steps|
  {
    if steps != [] {
      StepReal(sys, steps[0], i);
      NextKeepsInv(sys, steps[0], i);
      if SoundStep(sys, steps[0], i) {
        RealExactlyWhenSound(Next(sys, steps[0]), steps[1..], i);
      }
    }
  }

  // ----------------------------------------------------------- the newest is on its way

  /** The newest record is the one shown, or still to be heard. */
  ghost predicate OnItsWay(log: seq<Order>, s: Surface)
    requires log != []
  {
    s.copy.state.revision == Newest(log).revision || Newest(log) in s.heard
  }

  /** An answer on its way to a surface that has had none yet is the newest record, or that is still to be heard. */
  ghost predicate AnswersLate(log: seq<Order>, s: Surface, answer: Option<Order>)
    requires log != []
  {
    answer.Some? && answer.value != Newest(log) ==> Newest(log) in s.heard
  }

  /** `informed` is whether any record has come to the surface since it opened. */
  ghost predicate UpToDate(log: seq<Order>, s: Surface, informed: bool)
    requires log != []
  {
    if informed then log[0].revision <= s.copy.state.revision && OnItsWay(log, s)
    else
      && s.copy.state.revision == 0
      && (s.heard != multiset{} ==> Newest(log) in s.heard)
      && (s.first.Read? ==> AnswersLate(log, s, s.first.order))
      && forall id :: id in s.tasks ==> TaskLate(log, s, s.tasks[id])
  }

  ghost predicate TaskLate(log: seq<Order>, s: Surface, t: Task)
    requires log != []
  {
    && (t.stage.Answering? ==> AnswersLate(log, s, t.stage.answer))
    && (t.stage.Reloading? ==> AnswersLate(log, s, t.stage.read))
  }

  /** A record comes to surface `i`: its first read, an event, a write's answer or a reload. */
  ghost predicate Brings(sys: System, step: Step, i: nat) {
    && Enabled(sys, step) && !step.Open? && step.i == i
    && (|| step.Deliver?
        || (step.LoadReturns? && sys.surfaces[i].first.order.Some?)
        || (step.WriteReturns? && sys.surfaces[i].tasks[step.id].stage.answer.Some?)
        || (step.ReadReturns? && sys.surfaces[i].tasks[step.id].stage.read.Some?))
  }

  ghost predicate EverInformed(sys: System, steps: seq<Step>, i: nat)
    requires Shape(sys)
    decreases |steps|
  {
    steps != [] && (Brings(sys, steps[0], i) || EverInformed(Next(sys, steps[0]), steps[1..], i))
  }

  lemma ToldUpToDate(log: seq<Order>, s: Surface, r: Surface, order: Order, informed: bool)
    requires log != [] && UpToDate(log, s, informed) && r.copy == s.copy && r.heard == s.heard + multiset{order}
    ensures UpToDate(log + [order], r, informed)
  {
    assert Newest(log + [order]) == order && order in r.heard;
  }

  /** The same surface, its tasks further on or fewer but none with an answer it did not have. */
  lemma KeptUpToDate(log: seq<Order>, s: Surface, r: Surface, informed: bool)
    requires log != [] && UpToDate(log, s, informed)
    requires r.copy.state.revision == s.copy.state.revision && r.heard == s.heard
    requires r.first.Read? ==> r.first == s.first || r.first.order.None? || r.first.order.value == Newest(log)
    requires forall id :: id in r.tasks ==>
               (id in s.tasks && r.tasks[id] == s.tasks[id]) || TaskLate(log, r, r.tasks[id])
    ensures UpToDate(log, r, informed)
  {
    if !informed {
      forall id | id in r.tasks ensures TaskLate(log, r, r.tasks[id]) {
        if id in s.tasks && r.tasks[id] == s.tasks[id] {
          assert TaskLate(log, s, s.tasks[id]);
        }
      }
    }
  }

  /** A record of the disk that has come: what was on its way still is, and a first one starts it. */
  lemma BroughtUpToDate(log: seq<Order>, s: Surface, r: Surface, order: Order, informed: bool)
    requires LogInv(log) && order in log && Covers(log, r.copy.state) && UpToDate(log, s, informed)
    requires r.copy.state.revision >= order.revision && r.copy.state.revision >= s.copy.state.revision
    requires r.heard == s.heard || (order in s.heard && r.heard == s.heard - multiset{order})
    requires !informed ==> order == Newest(log) || Newest(log) in s.heard
    ensures UpToDate(log, r, true)
  {
    LogCovers(log, order);
  }

  lemma AnsweredUpToDate(log: seq<Order>, s: Surface, id: nat, informed: bool)
    requires LogInv(log) && SurfaceSafe(log, s) && Shaped(s) && UpToDate(log, s, informed)
    requires id in s.tasks && s.tasks[id].stage.Answering?
    ensures UpToDate(log, Answered(s, id), informed || s.tasks[id].stage.answer.Some?)
  {
    CountsTask(s, id);
    AnsweredSafe(log, s, id);
    var r, answer := Answered(s, id), s.tasks[id].stage.answer;
    assert TaskSafe(log, s.tasks[id]);
    if answer.Some? {
      LogCovers(log, answer.value);
      assert !informed ==> TaskLate(log, s, s.tasks[id]);
      BroughtUpToDate(log, s, r, answer.value, informed);
    } else {
      KeptUpToDate(log, s, r, informed);
    }
  }

  lemma ReloadedUpToDate(log: seq<Order>, s: Surface, id: nat, informed: bool)
    requires LogInv(log) && SurfaceSafe(log, s) && UpToDate(log, s, informed)
    requires id in s.tasks && s.tasks[id].stage.Reloading?
    ensures UpToDate(log, Reloaded(s, id), informed || s.tasks[id].stage.read.Some?)
  {
    ReloadedSafe(log, s, id);
    var r, read := Reloaded(s, id), s.tasks[id].stage.read;
    assert TaskSafe(log, s.tasks[id]);
    if read.Some? {
      LogCovers(log, read.value);
      assert !informed ==> TaskLate(log, s, s.tasks[id]);
      BroughtUpToDate(log, s, r, read.value, informed);
    } else {
      KeptUpToDate(log, s, r, informed);
    }
  }

  lemma HeardUpToDate(log: seq<Order>, s: Surface, order: Order, informed: bool)
    requires LogInv(log) && SurfaceSafe(log, s) && UpToDate(log, s, informed) && order in s.heard
    ensures UpToDate(log, s.(copy := Hear(s.copy, order), heard := s.heard - multiset{order}), true)
  {
    LogCovers(log, order);
    BroughtUpToDate(log, s, s.(copy := Hear(s.copy, order), heard := s.heard - multiset{order}), order, informed);
  }

  lemma LoadedUpToDate(log: seq<Order>, s: Surface, informed: bool)
    requires LogInv(log) && SurfaceSafe(log, s) && UpToDate(log, s, informed) && s.first.Read?
    requires s.first.order.Some? ==> s.copy.state.revision <= s.first.order.value.revision
    ensures UpToDate(log, Loaded(s), informed || s.first.order.Some?)
  {
    if s.first.order.Some? {
      LogCovers(log, s.first.order.value);
      BroughtUpToDate(log, s, Loaded(s), s.first.order.value, informed);
    } else {
      KeptUpToDate(log, s, Loaded(s), informed);
    }
  }

  /**
   * A first read answered late leaves a surface behind exactly when the newest
   * record is no longer to be heard: nothing is left to correct it.
   */
  lemma LateLoadLeavesBehind(sys: System, i: nat)
    requires Inv(sys, i) && Enabled(sys, LoadReturns(i)) && UpToDate(sys.log, sys.surfaces[i], true)
    ensures UpToDate(sys.log, Apply(sys, LoadReturns(i)).surfaces[i], true)
            <==> InTime(sys, LoadReturns(i), i) || Disk(sys) in sys.surfaces[i].heard
  {
    var s := sys.surfaces[i];
    assert SurfaceSafe(sys.log, s) && Apply(sys, LoadReturns(i)).surfaces[i] == Loaded(s);
    LogCovers(sys.log, Disk(sys));
    if s.first.order.Some? {
      LogCovers(sys.log, s.first.order.value);
    }
  }

  lemma BeganUpToDate(sys: System, step: Step, informed: bool)
    requires Shape(sys) && Enabled(sys, step) && BeginsSave(step)
    requires UpToDate(sys.log, sys.surfaces[step.i], informed)
    ensures UpToDate(sys.log, Apply(sys, step).surfaces[step.i], informed)
  {
    var s, r := sys.surfaces[step.i], Apply(sys, step).surfaces[step.i];
    assert r.tasks[step.id].stage.Writing? || r.tasks[step.id].stage.Reading?;
    KeptUpToDate(sys.log, s, r, informed);
  }

  lemma RestUpToDate(sys: System, step: Step, informed: bool)
    requires Shape(sys) && Enabled(sys, step)
    requires step.Draw? || step.LoadReaches? || step.ReadReaches? || step.Tells?
    requires UpToDate(sys.log, sys.surfaces[step.i], informed)
    ensures UpToDate(sys.log, Apply(sys, step).surfaces[step.i], informed)
  {
    KeptUpToDate(sys.log, sys.surfaces[step.i], Apply(sys, step).surfaces[step.i], informed);
  }

  lemma BroughtByStep(sys: System, step: Step, informed: bool)
    requires Safe(sys) && Enabled(sys, step)
    requires step.WriteReturns? || step.ReadReturns? || step.LoadReturns? || step.Deliver?
    requires InTime(sys, step, step.i) && UpToDate(sys.log, sys.surfaces[step.i], informed)
    ensures UpToDate(sys.log, Apply(sys, step).surfaces[step.i], informed || Brings(sys, step, step.i))
  {
    if step.WriteReturns? || step.ReadReturns? {
      AnsweredByStep(sys, step, informed);
    } else {
      HeardByStep(sys, step, informed);
    }
  }

  lemma AnsweredByStep(sys: System, step: Step, informed: bool)
    requires Safe(sys) && Enabled(sys, step) && (step.WriteReturns? || step.ReadReturns?)
    requires UpToDate(sys.log, sys.surfaces[step.i], informed)
    ensures UpToDate(sys.log, Apply(sys, step).surfaces[step.i], informed || Brings(sys, step, step.i))
  {
    var s := sys.surfaces[step.i];
    assert SurfaceSafe(sys.log, s);
    if step.WriteReturns? {
      AnsweredUpToDate(sys.log, s, step.id, informed);
    } else {
      ReloadedUpToDate(sys.log, s, step.id, informed);
    }
  }

  lemma HeardByStep(sys: System, step: Step, informed: bool)
    requires Safe(sys) && Enabled(sys, step) && (step.LoadReturns? || step.Deliver?)
    requires InTime(sys, step, step.i) && UpToDate(sys.log, sys.surfaces[step.i], informed)
    ensures UpToDate(sys.log, Apply(sys, step).surfaces[step.i], informed || Brings(sys, step, step.i))
  {
    var s := sys.surfaces[step.i];
    assert SurfaceSafe(sys.log, s);
    if step.LoadReturns? {
      LoadedUpToDate(sys.log, s, informed);
    } else {
      HeardUpToDate(sys.log, s, step.order, informed);
    }
  }

  lemma OwnUpToDate(sys: System, step: Step, informed: bool)
    requires Safe(sys) && Enabled(sys, step) && !step.Open? && !step.WriteReaches?
    requires InTime(sys, step, step.i) && UpToDate(sys.log, sys.surfaces[step.i], informed)
    ensures UpToDate(sys.log, Apply(sys, step).surfaces[step.i], informed || Brings(sys, step, step.i))
  {
    if step.WriteReturns? || step.ReadReturns? || step.LoadReturns? || step.Deliver? {
      BroughtByStep(sys, step, informed);
    } else if BeginsSave(step) {
      BeganUpToDate(sys, step, informed);
    } else {
      RestUpToDate(sys, step, informed);
    }
  }

  lemma WrittenUpToDate(sys: System, step: Step, i: nat, informed: bool)
    requires Shape(sys) && Enabled(sys, step) && step.WriteReaches? && i < |sys.surfaces|
    requires UpToDate(sys.log, sys.surfaces[i], informed)
    ensures UpToDate(Apply(sys, step).log, Apply(sys, step).surfaces[i], informed)
  {
    var s := sys.surfaces[i];
    match Write(Disk(sys), sys.surfaces[step.i].tasks[step.id].job.input, step.stored)
    case Refused(_) =>
      if i == step.i {
        StagedUpToDate(sys.log, s, step.id, None, informed);
      }
    case Written(order) =>
      var told := s.(heard := s.heard + multiset{order});
      ToldUpToDate(sys.log, s, told, order, informed);
      if i == step.i {
        StagedUpToDate(sys.log + [order], told, step.id, if step.answered then Some(order) else None, informed);
      }
  }

  lemma StagedUpToDate(log: seq<Order>, s: Surface, id: nat, answer: Option<Order>, informed: bool)
    requires log != [] && UpToDate(log, s, informed) && id in s.tasks
    requires answer.Some? ==> answer.value == Newest(log)
    ensures UpToDate(log, Staged(s, id, Answering(answer)), informed)
  {
    KeptUpToDate(log, s, Staged(s, id, Answering(answer)), informed);
  }

  lemma StepUpToDate(sys: System, step: Step, i: nat, informed: bool)
    requires Safe(sys) && InTime(sys, step, i) && i < |sys.surfaces| && UpToDate(sys.log, sys.surfaces[i], informed)
    ensures i < |Next(sys, step).surfaces|
    ensures UpToDate(Next(sys, step).log, Next(sys, step).surfaces[i], informed || Brings(sys, step, i))
  {
    if Enabled(sys, step) {
      if step.WriteReaches? {
        assert !Brings(sys, step, i);
        WrittenUpToDate(sys, step, i, informed);
      } else if step.Open? || step.i != i {
        assert !Brings(sys, step, i);
        ElsewhereStays(sys, step, i);
      } else {
        LogStays(sys, step);
        OwnUpToDate(sys, step, informed);
      }
    }
  }

  lemma {:induction false} RunUpToDate(sys: System, steps: seq<Step>, i: nat, informed: bool)
    requires Inv(sys, i) && InTimeRun(sys, steps, i)
    requires StandsUpToDate(sys, i, informed)
    ensures StandsUpToDate(Run(sys, steps), i, informed || EverInformed(sys, steps, i))
    decreases |steps|
  {
    if steps != [] {
      NextKeepsInv(sys, steps[0], i);
      if i < |sys.surfaces| {
        StepUpToDate(sys, steps[0], i, informed);
      } else {
        OpenedUpToDate(sys, steps[0], i);
      }
      RunUpToDate(Next(sys, steps[0]), steps[1..], i, informed || Brings(sys, steps[0], i));
    }
  }

  /** Surface `i` is up to date, or not open yet. */
  ghost predicate StandsUpToDate(sys: System, i: nat, informed: bool)
    requires sys.log != []
  {
    if i < |sys.surfaces| then UpToDate(sys.log, sys.surfaces[i], informed) else !informed
  }

  lemma OpenedUpToDate(sys: System, step: Step, i: nat)
    requires Shape(sys) && i >= |sys.surfaces|
    ensures !Brings(sys, step, i) && StandsUpToDate(Next(sys, step), i, false)
  {
    var next := Next(sys, step);
    if i < |next.surfaces| {
      assert step.Open? && next.surfaces[i] == OPENED;
    }
  }

  // -------------------------------------------------------------------- convergence

  /** Nothing under way on a surface: no save, no reload. */
  ghost predicate Settled(s: Surface) {
    s.tasks == map[]
  }

  /** What a settled surface shows: a record of the disk once any has come to it, until then the empty one. */
  ghost predicate Converged(sys: System, i: nat, informed: bool)
    requires sys.log != [] && i < |sys.surfaces|
  {
    var s := sys.surfaces[i];
    && (if informed then s.copy.state in sys.log else s.copy.state == USAGE)
    && (s.heard == multiset{} ==> (s.copy.state == Disk(sys) <==> informed || Disk(sys) == USAGE))
  }

  /**
   * A surface whose calls have settled never shows a tentative record; once its
   * events are delivered too it shows the newest one exactly when some record has
   * come to it at all (its first read, an event, a write's answer or a reload), or
   * the disk still holds none.
   */
  lemma Convergence(disk: Order, steps: seq<Step>, i: nat)
    requires OnDisk(disk) && InTimeRun(Start(disk), steps, i) && SoundRun(Start(disk), steps, i)
    requires i < |Run(Start(disk), steps).surfaces| && Settled(Run(Start(disk), steps).surfaces[i])
    ensures Converged(Run(Start(disk), steps), i, EverInformed(Start(disk), steps, i))
  {
    var end := Run(Start(disk), steps);
    var state := end.surfaces[i].copy.state;
    RealExactlyWhenSound(Start(disk), steps, i);
    RunKeepsInv(Start(disk), steps, i);
    RunUpToDate(Start(disk), steps, i, false);
    assert Real(end.log, end.surfaces[i]) && SurfaceSafe(end.log, end.surfaces[i]);
    assert end.log[0] in end.log && Newest(end.log) in end.log;
    LogCovers(end.log, Newest(end.log));
    if state in end.log && state.revision == Disk(end).revision {
      RevisionOrder(end.log, state, Disk(end));
    }
  }

  // ------------------------------------------------ one save at a time is sound

  /** Surface `i` begins a call of the store only with none under way, reload included. */
  ghost predicate OneAtATime(sys: System, steps: seq<Step>, i: nat)
    requires Shape(sys)
    decreases |steps|
  {
    steps == [] ||
    (&& (BeginsSave(steps[0]) && steps[0].i == i && Enabled(sys, steps[0]) ==> Settled(sys.surfaces[i]))
     && OneAtATime(Next(sys, steps[0]), steps[1..], i))
  }

  ghost predicate BeforesKnown(sys: System, i: nat) {
    i < |sys.surfaces| ==>
      forall id :: id in sys.surfaces[i].tasks ==> Genuine(sys.log, sys.surfaces[i].tasks[id].before)
  }

  lemma StepKeepsBefores(sys: System, step: Step, i: nat)
    requires Shape(sys) && ShowsReal(sys, i) && BeforesKnown(sys, i)
    requires BeginsSave(step) && step.i == i && Enabled(sys, step) ==> Settled(sys.surfaces[i])
    ensures SoundStep(sys, step, i) && BeforesKnown(Next(sys, step), i)
  {
    if Enabled(sys, step) && i < |Next(sys, step).surfaces| {
      var next := Next(sys, step);
      NextGrows(sys, step);
      forall id | id in next.surfaces[i].tasks ensures Genuine(next.log, next.surfaces[i].tasks[id].before) {
        TasksStay(sys, step, i, id);
      }
    }
  }

  /** With one call at a time on a surface every reload of it is sound. */
  lemma {:induction false} OneAtATimeIsSound(sys: System, steps: seq<Step>, i: nat)
    requires Inv(sys, i) && ShowsReal(sys, i) && BeforesKnown(sys, i)
    requires InTimeRun(sys, steps, i) && OneAtATime(sys, steps, i)
    ensures SoundRun(sys, steps, i) && BeforesKnown(Run(sys, steps), i)
    decreases |steps|
  {
    if steps != [] {
      StepKeepsBefores(sys, steps[0], i);
      StepReal(sys, steps[0], i);
      NextKeepsInv(sys, steps[0], i);
      OneAtATimeIsSound(Next(sys, steps[0]), steps[1..], i);
    }
  }

  /**
   * With one call at a time on a surface, whatever the other surfaces do, whatever
   * fails, first reads included, and however it all interleaves: with nothing under
   * way it shows a record of the disk once any has come to it, and when it has heard
   * every event, the record that stands.
   */
  lemma OneAtATimeConverges(disk: Order, steps: seq<Step>, i: nat)
    requires OnDisk(disk) && InTimeRun(Start(disk), steps, i) && OneAtATime(Start(disk), steps, i)
    requires i < |Run(Start(disk), steps).surfaces| && Settled(Run(Start(disk), steps).surfaces[i])
    ensures Converged(Run(Start(disk), steps), i, EverInformed(Start(disk), steps, i))
  {
    OneAtATimeIsSound(Start(disk), steps, i);
    Convergence(disk, steps, i);
  }

  /**
   * And a write of it that the disk accepts was computed from the very record it
   * replaces: what another surface wrote in between is never written over.
   */
  lemma AcceptedReplacesWhatItSaw(disk: Order, steps: seq<Step>, i: nat, id: nat, stored: bool, answered: bool)
    requires OnDisk(disk) && InTimeRun(Start(disk), steps, i) && OneAtATime(Start(disk), steps, i)
    requires Enabled(Run(Start(disk), steps), WriteReaches(i, id, stored, answered))
    ensures var end := Run(Start(disk), steps);
            |Apply(end, WriteReaches(i, id, stored, answered)).log| > |end.log|
            ==> end.surfaces[i].tasks[id].before == Disk(end)
  {
    var end := Run(Start(disk), steps);
    OneAtATimeIsSound(Start(disk), steps, i);
    RunKeepsInv(Start(disk), steps, i);
    NoBlindOverwrite(end, i, id, stored, answered);
    assert Genuine(end.log, end.surfaces[i].tasks[id].before) && Disk(end) in end.log;
  }
}
