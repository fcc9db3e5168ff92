/**
 * A list over its surface's store, over the record every surface shares: what the
 * list asks the store for is a step of the protocol, what the protocol does to the
 * store is an event of the list, and what a move landed as is what its own save was
 * answered with.
 */
module OrderLists {
  import opened Sequences
  import opened Options
  import opened OrderRecord
  import opened ProviderList
  import opened OrderStores
  import opened OrderProtocol
  import opened OrderSafety
  import opened OrderRuns
  import opened OrderConvergence
  import opened OrderBounds
  import ReorderList
  import L = ListInvariants

  /**
   * A system, and one list of its surface number `i`: the call each move began, and
   * what each call of the surface that is over came to, the record it landed as or
   * none.
   */
  datatype Joint = Joint(sys: System, w: L.World, calls: map<nat, nat>, reports: map<nat, Option<Order>>)

  /**
   * The list's own events, the calls its moves make, the reports of those that are
   * over, and every other step of the system.
   */
  datatype Act = Listed(e: L.Event) | Called(id: nat, task: nat) | Reported(id: nat) | Stepped(step: Step)

  /** What a move asks of the store once its base is known. */
  ghost function CallOf(w: L.World, i: nat, id: nat, task: nat): Step
    requires ReorderList.BaseKnown(w.v, id)
  {
    var m := w.v.moves[id];
    match ReorderList.Called(w.v, id).moves[id].called.value
    case Some(revision) => Move(i, task, m.before, m.code, m.to, revision)
    case None => GiveUp(i, task)
  }

  /** The call of surface `i` a step ends, and what it came to. */
  ghost function EndedBy(sys: System, step: Step, i: nat): map<nat, Option<Order>> {
    if !Enabled(sys, step) || step.Open? || step.i != i then map[]
    else if step.WriteReturns? && sys.surfaces[i].tasks[step.id].stage.answer.Some?
    then map[step.id := sys.surfaces[i].tasks[step.id].stage.answer]
    else if step.Tells? then map[step.id := None]
    else map[]
  }

  function RevisionOf(report: Option<Order>): Option<nat> {
    if report.Some? then Some(report.value.revision) else None
  }

  /** The list after its surface's store has moved on. */
  ghost function Heard(w: L.World, s: Surface): L.World {
    w.(copy := s.copy, told := !Untold(s))
  }

  ghost predicate CanAct(j: Joint, i: nat, act: Act)
    requires Shape(j.sys) && i < |j.sys.surfaces|
  {
    match act
    case Listed(e) => L.Enabled(j.w, e) && !e.Resolves? && !e.StoreChanges? && !e.Answers?
    case Called(id, task) =>
      ReorderList.BaseKnown(j.w.v, id) && task !in j.sys.surfaces[i].tasks && task !in j.reports
    case Reported(id) =>
      id in j.calls && j.calls[id] in j.reports && L.Enabled(j.w, L.Answers(id, RevisionOf(j.reports[j.calls[id]])))
    case Stepped(step) =>
      && SafeStep(j.sys, step) && InTime(j.sys, step, i)
      && !((step.Move? || step.GiveUp? || step.Draw?) && step.i == i)
      && (BeginsSave(step) && step.i == i ==> step.id !in j.reports)
  }

  /** A redraw of the list is a draw of its surface; a move that is resolved is a call of the store. */
  ghost function NextOf(j: Joint, i: nat, act: Act): (r: Joint)
    requires Shape(j.sys) && i < |j.sys.surfaces|
    ensures Shape(r.sys) && i < |r.sys.surfaces|
  {
    if !CanAct(j, i, act) then j
    else
      match act
      case Listed(e) => j.(sys := if e.Redraw? then Next(j.sys, Draw(i)) else j.sys, w := L.Apply(j.w, e))
      case Called(id, task) =>
        var sys := Next(j.sys, CallOf(j.w, i, id, task));
        NextGrows(j.sys, CallOf(j.w, i, id, task));
        var w := L.Apply(j.w, L.Resolves(id));
        Joint(sys, Heard(w, sys.surfaces[i]), j.calls[id := task], j.reports)
      case Reported(id) =>
        j.(w := L.Apply(j.w, L.Answers(id, RevisionOf(j.reports[j.calls[id]]))))
      case Stepped(step) =>
        var sys := Next(j.sys, step);
        NextGrows(j.sys, step);
        Joint(sys, Heard(j.w, sys.surfaces[i]), j.calls, j.reports + EndedBy(j.sys, step, i))
  }

  ghost function RunOf(j: Joint, i: nat, acts: seq<Act>): (r: Joint)
    requires Shape(j.sys) && i < |j.sys.surfaces|
    ensures Shape(r.sys) && i < |r.sys.surfaces|
    decreases |acts|
  {
    if acts == [] then j else RunOf(NextOf(j, i, acts[0]), i, acts[1..])
  }

  // -------------------------------------------------------------- the invariant

  /** A task of the surface is the call this move began. */
  ghost predicate IsCallOf(t: Task, m: ReorderList.Moving)
    requires m.called.Some?
  {
    match m.called.value
    case Some(revision) =>
      && t.job.Save? && !t.job.appending && NoDup(t.before.providers)
      && t.job.input == Order(Custom, MovedOrder(t.before.providers, m.before, m.code, m.to), revision)
    case None => t.job.Restore?
  }

  /** What a move was told it landed as is what its own call came to: a record it wrote, from the revision it named. */
  ghost predicate Linked(j: Joint, i: nat, id: nat)
    requires id in j.calls && i < |j.sys.surfaces|
  {
    var s, t := j.sys.surfaces[i], j.calls[id];
    && id < |j.w.v.moves| && j.w.v.moves[id].called.Some?
    && var m := j.w.v.moves[id];
       && (if t in s.tasks then IsCallOf(s.tasks[t], m) else t in j.reports)
       && (t in j.reports && j.reports[t].Some? ==>
             m.called.value.Some? && j.reports[t].value.revision == m.called.value.value + 1)
       && (m.landed.Some? ==> t in j.reports && m.landed.value == RevisionOf(j.reports[t]))
  }

  /** What a call came to is a record of the disk its surface may write from, and the call is over. */
  ghost predicate ReportsInv(j: Joint, i: nat)
    requires i < |j.sys.surfaces|
  {
    forall t :: t in j.reports ==>
      && t !in j.sys.surfaces[i].tasks
      && (j.reports[t].Some? ==>
            j.reports[t].value in j.sys.log && j.reports[t].value.revision in j.sys.surfaces[i].bases)
  }

  ghost predicate CallsInv(j: Joint, i: nat)
    requires i < |j.sys.surfaces|
  {
    && (forall id :: id in j.calls ==> Linked(j, i, id))
    && forall id :: 0 <= id < |j.w.v.moves| && j.w.v.moves[id].called.Some? ==> id in j.calls
  }

  /** The list's copy is the store's, and what it may write from the surface may. */
  ghost predicate Synced(j: Joint, i: nat) {
    && Inv(j.sys, i) && L.Inv(j.w) && i < |j.sys.surfaces|
    && j.w.copy == j.sys.surfaces[i].copy && j.w.bases <= j.sys.surfaces[i].bases
    && j.w.told == !Untold(j.sys.surfaces[i])
  }

  ghost predicate Joined(j: Joint, i: nat) {
    Synced(j, i) && ReportsInv(j, i) && CallsInv(j, i)
  }

  // ----------------------------------------------------- what a step does to a surface

  /** A surface's lists never lose a revision they may write from. */
  lemma BasesStay(sys: System, step: Step, i: nat)
    requires Shape(sys) && i < |sys.surfaces|
    ensures i < |Next(sys, step).surfaces| && sys.surfaces[i].bases <= Next(sys, step).surfaces[i].bases
  {
  }

  /** A redraw that is due stays due until it comes. */
  lemma UntoldStays(sys: System, step: Step, i: nat)
    requires Shape(sys) && i < |sys.surfaces| && Untold(sys.surfaces[i])
    ensures i < |Next(sys, step).surfaces|
    ensures var s, r := sys.surfaces[i], Next(sys, step).surfaces[i];
            Untold(r) || r.copy.generation > s.copy.generation
  {
    NextGrows(sys, step);
    if Enabled(sys, step) {
      if step.Open? || step.i != i {
        ElsewhereStays(sys, step, i);
      } else if !step.Tells? {
        var s := sys.surfaces[i];
        var k :| k in s.tasks && s.tasks[k].stage.Telling?;
        if step.WriteReaches? {
          StageWrites(sys, step, k);
        } else {
          StageStays(sys, step, k);
        }
      }
    }
  }

  lemma StageWrites(sys: System, step: Step, k: nat)
    requires Shape(sys) && Enabled(sys, step) && step.WriteReaches?
    requires k in sys.surfaces[step.i].tasks && sys.surfaces[step.i].tasks[k].stage.Telling?
    ensures var r := Apply(sys, step).surfaces[step.i]; k in r.tasks && r.tasks[k].stage.Telling?
  {
  }

  lemma StageStays(sys: System, step: Step, k: nat)
    requires Shape(sys) && Enabled(sys, step) && !step.Open? && !step.WriteReaches? && !step.Tells?
    requires k in sys.surfaces[step.i].tasks && sys.surfaces[step.i].tasks[k].stage.Telling?
    ensures var r := Apply(sys, step).surfaces[step.i]; k in r.tasks && r.tasks[k].stage.Telling?
  {
  }

  /** The calls under way go on as what they are, but for the one that ends; one more may have begun. */
  ghost predicate GoOn(s: Surface, r: Surface, ended: map<nat, Option<Order>>, begun: set<nat>) {
    && (forall t :: t in s.tasks ==>
          if t in ended then t !in r.tasks
          else t in r.tasks && r.tasks[t].job == s.tasks[t].job && r.tasks[t].before == s.tasks[t].before)
    && (forall t :: t in ended ==> t in s.tasks)
    && (forall t :: t in r.tasks ==> t in s.tasks || t in begun)
  }

  ghost function BegunBy(step: Step, i: nat): set<nat> {
    if BeginsSave(step) && step.i == i then {step.id} else {}
  }

  lemma OwnGoOn(sys: System, step: Step)
    requires Safe(sys) && Enabled(sys, step) && !step.Open? && !step.WriteReaches? && !step.ReadReaches?
    ensures GoOn(sys.surfaces[step.i], Apply(sys, step).surfaces[step.i],
                 EndedBy(sys, step, step.i), BegunBy(step, step.i))
  {
    if step.WriteReturns? {
      AnsweredGoOn(sys, step);
    } else if step.ReadReturns? || step.Tells? {
      ReloadedGoOn(sys, step);
    }
  }

  lemma ReloadedGoOn(sys: System, step: Step)
    requires Shape(sys) && Enabled(sys, step) && (step.ReadReturns? || step.Tells?)
    ensures GoOn(sys.surfaces[step.i], Apply(sys, step).surfaces[step.i], EndedBy(sys, step, step.i), {})
  {
  }

  lemma AnsweredGoOn(sys: System, step: Step)
    requires Safe(sys) && Enabled(sys, step) && step.WriteReturns?
    ensures GoOn(sys.surfaces[step.i], Apply(sys, step).surfaces[step.i], EndedBy(sys, step, step.i), {})
  {
    var s := sys.surfaces[step.i];
    assert SurfaceSafe(sys.log, s) && TaskSafe(sys.log, s.tasks[step.id]);
    if s.tasks[step.id].stage.answer.Some? {
      LogCovers(sys.log, s.tasks[step.id].stage.answer.value);
    }
  }

  lemma TasksGoOn(sys: System, step: Step, i: nat)
    requires Safe(sys) && i < |sys.surfaces|
    ensures i < |Next(sys, step).surfaces|
    ensures GoOn(sys.surfaces[i], Next(sys, step).surfaces[i], EndedBy(sys, step, i), BegunBy(step, i))
  {
    NextGrows(sys, step);
    if Enabled(sys, step) {
      if step.Open? || step.i != i {
        ElsewhereStays(sys, step, i);
        assert EndedBy(sys, step, i) == map[];
      } else if step.WriteReaches? || step.ReadReaches? {
        ReachingGoOn(sys, step);
      } else {
        OwnGoOn(sys, step);
      }
    }
  }

  lemma ReachingGoOn(sys: System, step: Step)
    requires Shape(sys) && Enabled(sys, step) && (step.WriteReaches? || step.ReadReaches?)
    ensures GoOn(sys.surfaces[step.i], Apply(sys, step).surfaces[step.i], EndedBy(sys, step, step.i), {})
  {
    if step.WriteReaches? {
      WritingStays(sys, step);
    } else {
      ReadingStays(sys, step);
    }
  }

  /** A call that ends with a record ends with one of the disk, one revision on from what it was written from. */
  lemma EndedWith(sys: System, step: Step, i: nat, t: nat)
    requires Inv(sys, i) && i < |sys.surfaces| && t in EndedBy(sys, step, i) && EndedBy(sys, step, i)[t].Some?
    ensures var s, o := sys.surfaces[i], EndedBy(sys, step, i)[t].value;
            && o in sys.log && t in s.tasks && s.tasks[t].job.Save? && o.revision == s.tasks[t].job.input.revision + 1
            && i < |Next(sys, step).surfaces| && o.revision in Next(sys, step).surfaces[i].bases
  {
    var s := sys.surfaces[i];
    assert SurfaceSafe(sys.log, s) && TaskSafe(sys.log, s.tasks[t]) && TaskOrdered(s.tasks[t]);
    LogCovers(sys.log, EndedBy(sys, step, i)[t].value);
  }

  // ---------------------------------------------------------------- what acts keep

  /** Every step of the system is, for the list, its store moving on. */
  lemma StepIsHeard(j: Joint, i: nat, step: Step)
    requires Synced(j, i) && SafeStep(j.sys, step) && InTime(j.sys, step, i)
    ensures var sys := Next(j.sys, step);
            && i < |sys.surfaces|
            && L.Enabled(j.w, L.StoreChanges(sys.surfaces[i].copy, !Untold(sys.surfaces[i])))
            && Synced(j.(sys := sys, w := Heard(j.w, sys.surfaces[i])), i)
  {
    var sys := Next(j.sys, step);
    var s := j.sys.surfaces[i];
    GoesBackExactlyWhenLate(j.sys, step, i);
    BasesStay(j.sys, step, i);
    NextKeepsInv(j.sys, step, i);
    assert [step][1..] == [] && Run(Next(j.sys, step), []) == sys;
    assert Run(j.sys, [step]) == sys;
    ChangesAreRedrawn(j.sys, [step], i, s.copy.generation, s.copy.state);
    if Untold(s) {
      UntoldStays(j.sys, step, i);
    }
    L.StepKeeps(j.w, L.StoreChanges(sys.surfaces[i].copy, !Untold(sys.surfaces[i])));
  }

  /** What the calls came to is kept by a step, and what it ends is added. */
  lemma ReportsKept(j: Joint, i: nat, step: Step)
    requires Synced(j, i) && ReportsInv(j, i)
    requires BegunBy(step, i) !! j.reports.Keys
    ensures var sys := Next(j.sys, step);
            i < |sys.surfaces| && ReportsInv(j.(sys := sys, reports := j.reports + EndedBy(j.sys, step, i)), i)
  {
    var sys, ended := Next(j.sys, step), EndedBy(j.sys, step, i);
    var reports := j.reports + ended;
    NextGrows(j.sys, step);
    TasksGoOn(j.sys, step, i);
    BasesStay(j.sys, step, i);
    forall t | t in reports
      ensures t !in sys.surfaces[i].tasks
      ensures reports[t].Some? ==> reports[t].value in sys.log && reports[t].value.revision in sys.surfaces[i].bases
    {
      if t in ended && ended[t].Some? {
        EndedWith(j.sys, step, i, t);
      }
    }
  }

  /** A move stays linked to its call as the surface goes on. */
  lemma LinkKept(j: Joint, i: nat, step: Step, id: nat)
    requires Synced(j, i) && ReportsInv(j, i) && id in j.calls && Linked(j, i, id)
    requires BegunBy(step, i) !! j.reports.Keys
    ensures var sys := Next(j.sys, step);
            i < |sys.surfaces| && Linked(j.(sys := sys, reports := j.reports + EndedBy(j.sys, step, i)), i, id)
  {
    var sys, ended, t := Next(j.sys, step), EndedBy(j.sys, step, i), j.calls[id];
    TasksGoOn(j.sys, step, i);
    if t in ended && ended[t].Some? {
      EndedWith(j.sys, step, i, t);
    }
  }

  lemma StepKeepsJoined(j: Joint, i: nat, step: Step)
    requires Joined(j, i) && SafeStep(j.sys, step) && InTime(j.sys, step, i)
    requires BegunBy(step, i) !! j.reports.Keys
    ensures var sys := Next(j.sys, step);
            && i < |sys.surfaces|
            && Joined(Joint(sys, Heard(j.w, sys.surfaces[i]), j.calls, j.reports + EndedBy(j.sys, step, i)), i)
  {
    var sys := Next(j.sys, step);
    StepIsHeard(j, i, step);
    ReportsKept(j, i, step);
    var r := Joint(sys, Heard(j.w, sys.surfaces[i]), j.calls, j.reports + EndedBy(j.sys, step, i));
    forall id | id in r.calls ensures Linked(r, i, id) {
      LinkKept(j, i, step, id);
    }
  }

  /**
   * What a move asks for is a step the protocol allows, whatever has happened in
   * between: the revision it names is one its surface may write from.
   */
  lemma CallIsAStep(j: Joint, i: nat, id: nat, task: nat)
    requires Synced(j, i) && ReorderList.BaseKnown(j.w.v, id) && task !in j.sys.surfaces[i].tasks
    ensures Enabled(j.sys, CallOf(j.w, i, id, task))
  {
    var m := j.w.v.moves[id];
    assert SurfaceSafe(j.sys.log, j.sys.surfaces[i]);
    L.StepKeeps(j.w, L.Resolves(id));
    assert L.CallInv(j.w.v, id);
    assert NoDup(m.before) && m.code in m.before;
  }

  /** And the task it begins is the move's. */
  lemma CallBegins(j: Joint, i: nat, id: nat, task: nat)
    requires Synced(j, i) && ReorderList.BaseKnown(j.w.v, id) && task !in j.sys.surfaces[i].tasks
    ensures var sys, m := Next(j.sys, CallOf(j.w, i, id, task)), ReorderList.Called(j.w.v, id).moves[id];
            && i < |sys.surfaces| && task in sys.surfaces[i].tasks && m.called.Some?
            && IsCallOf(sys.surfaces[i].tasks[task], m)
  {
    CallIsAStep(j, i, id, task);
    assert SurfaceSafe(j.sys.log, j.sys.surfaces[i]);
  }

  /** A call of a move: the step of the surface first, then the move taken as called. */
  lemma CalledKeepsJoined(j: Joint, i: nat, id: nat, task: nat)
    requires Joined(j, i) && CanAct(j, i, Called(id, task))
    ensures Joined(NextOf(j, i, Called(id, task)), i)
  {
    var step := CallOf(j.w, i, id, task);
    CalledIs(j, i, id, task);
    CallBegins(j, i, id, task);
    StepKeepsJoined(j, i, step);
    var sys := Next(j.sys, step);
    ResolvedKeepsJoined(Joint(sys, Heard(j.w, sys.surfaces[i]), j.calls, j.reports), i, id, task);
  }

  lemma CalledIs(j: Joint, i: nat, id: nat, task: nat)
    requires Shape(j.sys) && i < |j.sys.surfaces| && CanAct(j, i, Called(id, task))
    ensures var step := CallOf(j.w, i, id, task);
            var sys := Next(j.sys, step);
            && BegunBy(step, i) == {task} && j.reports + EndedBy(j.sys, step, i) == j.reports
            && SafeStep(j.sys, step) && InTime(j.sys, step, i) && i < |sys.surfaces|
            && NextOf(j, i, Called(id, task))
               == Joint(sys, L.Apply(Heard(j.w, sys.surfaces[i]), L.Resolves(id)), j.calls[id := task], j.reports)
  {
  }

  lemma ResolvedKeepsJoined(j: Joint, i: nat, id: nat, task: nat)
    requires Joined(j, i) && ReorderList.BaseKnown(j.w.v, id)
    requires task in j.sys.surfaces[i].tasks && task !in j.reports
    requires IsCallOf(j.sys.surfaces[i].tasks[task], ReorderList.Called(j.w.v, id).moves[id])
    ensures Joined(j.(w := L.Apply(j.w, L.Resolves(id)), calls := j.calls[id := task]), i)
  {
    L.StepKeeps(j.w, L.Resolves(id));
    ResolvedLinks(j, i, id, task);
  }

  lemma ResolvedLinks(j: Joint, i: nat, id: nat, task: nat)
    requires i < |j.sys.surfaces| && CallsInv(j, i) && L.Inv(j.w) && ReorderList.BaseKnown(j.w.v, id)
    requires task in j.sys.surfaces[i].tasks && task !in j.reports
    requires IsCallOf(j.sys.surfaces[i].tasks[task], ReorderList.Called(j.w.v, id).moves[id])
    ensures CallsInv(j.(w := L.Apply(j.w, L.Resolves(id)), calls := j.calls[id := task]), i)
  {
    var r := j.(w := L.Apply(j.w, L.Resolves(id)), calls := j.calls[id := task]);
    assert L.CallInv(j.w.v, id);
    forall k | k in r.calls ensures Linked(r, i, k) {
      if k != id {
        assert Linked(j, i, k) && r.w.v.moves[k] == j.w.v.moves[k];
      }
    }
  }

  /** What a call came to is an answer its move can take. */
  lemma ReportIsAnAnswer(j: Joint, i: nat, id: nat)
    requires Joined(j, i) && id in j.calls && j.calls[id] in j.reports && id < |j.w.v.moves|
    requires j.w.v.moves[id].landed.None?
    ensures L.Enabled(j.w, L.Answers(id, RevisionOf(j.reports[j.calls[id]])))
  {
    assert Linked(j, i, id);
  }

  lemma ReportedKeepsJoined(j: Joint, i: nat, id: nat)
    requires Joined(j, i) && CanAct(j, i, Reported(id))
    ensures Joined(NextOf(j, i, Reported(id)), i)
  {
    L.StepKeeps(j.w, L.Answers(id, RevisionOf(j.reports[j.calls[id]])));
    ReportedLinks(j, i, id);
  }

  lemma ReportedLinks(j: Joint, i: nat, id: nat)
    requires Shape(j.sys) && i < |j.sys.surfaces| && CallsInv(j, i) && CanAct(j, i, Reported(id))
    ensures CallsInv(NextOf(j, i, Reported(id)), i)
  {
    var r := NextOf(j, i, Reported(id));
    forall k | k in r.calls ensures Linked(r, i, k) {
      assert Linked(j, i, k);
      if k == id {
        assert r.w.v.moves[k] == j.w.v.moves[k].(landed := r.w.v.moves[k].landed);
      }
    }
  }

  lemma ListedKeepsJoined(j: Joint, i: nat, e: L.Event)
    requires Joined(j, i) && CanAct(j, i, Listed(e))
    ensures Joined(NextOf(j, i, Listed(e)), i)
  {
    L.StepKeeps(j.w, e);
    L.OldMovesStay(j.w, e);
    if e.Redraw? {
      StepIsHeard(j, i, Draw(i));
      DrawAddsBase(j.sys, i);
    }
    ListedLinks(j, NextOf(j, i, Listed(e)), i);
  }

  /** Calls stay linked while the surface's calls and the moves there are stay as they are. */
  lemma ListedLinks(j: Joint, r: Joint, i: nat)
    requires i < |j.sys.surfaces| && i < |r.sys.surfaces| && CallsInv(j, i)
    requires r.calls == j.calls && r.reports == j.reports && r.sys.surfaces[i].tasks == j.sys.surfaces[i].tasks
    requires |j.w.v.moves| <= |r.w.v.moves| && r.w.v.moves[..|j.w.v.moves|] == j.w.v.moves
    requires forall k :: |j.w.v.moves| <= k < |r.w.v.moves| ==> r.w.v.moves[k].called.None?
    ensures CallsInv(r, i)
  {
    forall k | 0 <= k < |j.w.v.moves| ensures r.w.v.moves[k] == j.w.v.moves[k] {
      assert r.w.v.moves[..|j.w.v.moves|][k] == j.w.v.moves[k];
    }
    forall k | k in r.calls ensures Linked(r, i, k) {
      assert Linked(j, i, k);
    }
  }

  lemma DrawAddsBase(sys: System, i: nat)
    requires Shape(sys) && i < |sys.surfaces|
    ensures i < |Next(sys, Draw(i)).surfaces| && Next(sys, Draw(i)).log == sys.log
    ensures var s := sys.surfaces[i];
            Next(sys, Draw(i)).surfaces[i] == s.(bases := s.bases + {s.copy.state.revision})
  {
  }

  lemma ActKeepsJoined(j: Joint, i: nat, act: Act)
    requires Joined(j, i)
    ensures Joined(NextOf(j, i, act), i)
  {
    if CanAct(j, i, act) {
      match act
      case Listed(e) => ListedKeepsJoined(j, i, e);
      case Called(id, task) => CalledKeepsJoined(j, i, id, task);
      case Reported(id) => ReportedKeepsJoined(j, i, id);
      case Stepped(step) => StepKeepsJoined(j, i, step);
    }
  }

  lemma {:induction false} RunKeepsJoined(j: Joint, i: nat, acts: seq<Act>)
    requires Joined(j, i)
    ensures Joined(RunOf(j, i, acts), i)
    decreases |acts|
  {
    if acts != [] {
      ActKeepsJoined(j, i, acts[0]);
      RunKeepsJoined(NextOf(j, i, acts[0]), i, acts[1..]);
    }
  }

  // ----------------------------------------------------------------------- the runs

  /** A surface that has just opened as number `|sys.surfaces|`, and its list before its first draw. */
  ghost function Opened(sys: System): (r: Joint)
    requires Safe(sys)
    ensures Joined(r, |sys.surfaces|)
  {
    NextKeepsInv(sys, Open, |sys.surfaces|);
    Joint(Next(sys, Open), L.World(ReorderList.EMPTY, UNREAD, [], {0}, true), map[], map[])
  }

  /**
   * In every run of a list from the moment its surface opens, however it interleaves
   * with every other surface: the list's copy is the store's, what the list may
   * write from is what the protocol lets its surface write from, each call a move
   * makes is a step of the protocol, and its report an answer the move can take.
   */
  lemma ListsRunOnTheProtocol(sys: System, acts: seq<Act>, id: nat, task: nat)
    requires Safe(sys)
    ensures var i := |sys.surfaces|;
            var end := RunOf(Opened(sys), i, acts);
            && Joined(end, i)
            && (ReorderList.BaseKnown(end.w.v, id) && task !in end.sys.surfaces[i].tasks ==>
                  Enabled(end.sys, CallOf(end.w, i, id, task)))
            && (id in end.calls && end.calls[id] in end.reports && end.w.v.moves[id].landed.None? ==>
                  L.Enabled(end.w, L.Answers(id, RevisionOf(end.reports[end.calls[id]]))))
  {
    var i := |sys.surfaces|;
    RunKeepsJoined(Opened(sys), i, acts);
    var end := RunOf(Opened(sys), i, acts);
    if ReorderList.BaseKnown(end.w.v, id) && task !in end.sys.surfaces[i].tasks {
      CallIsAStep(end, i, id, task);
    }
    if id in end.calls {
      assert Linked(end, i, id);
      if end.calls[id] in end.reports && end.w.v.moves[id].landed.None? {
        ReportIsAnAnswer(end, i, id);
      }
    }
  }

  /**
   * From the list to the disk: a write of a list's move that the disk accepts writes
   * the move of the list as it was shown, over a copy at the disk's own revision, and
   * replaces the revision the list named for it: one it was drawn from or that landed,
   * and, for a move made while another was saving, the very record that one's save
   * was answered with.
   */
  lemma AcceptedMoveReplacesWhatItNamed(sys: System, acts: seq<Act>, id: nat, stored: bool, answered: bool)
    requires Safe(sys)
    requires var end := RunOf(Opened(sys), |sys.surfaces|, acts);
             id in end.calls && Enabled(end.sys, WriteReaches(|sys.surfaces|, end.calls[id], stored, answered))
    ensures var i := |sys.surfaces|;
            var end := RunOf(Opened(sys), i, acts);
            var next := Apply(end.sys, WriteReaches(i, end.calls[id], stored, answered));
            |next.log| > |end.sys.log| ==>
              ReplacesWhatItNamed(end, id, end.sys.surfaces[i].tasks[end.calls[id]], Disk(next))
  {
    var i := |sys.surfaces|;
    RunKeepsJoined(Opened(sys), i, acts);
    var end := RunOf(Opened(sys), i, acts);
    AcceptedFrom(end.sys, i, end.calls[id], stored, answered);
    if |Apply(end.sys, WriteReaches(i, end.calls[id], stored, answered)).log| > |end.sys.log| {
      LinkedReplaces(end, i, id, end.sys.surfaces[i].tasks[end.calls[id]]);
    }
  }

  lemma AcceptedFrom(sys: System, i: nat, id: nat, stored: bool, answered: bool)
    requires Inv(sys, i) && Enabled(sys, WriteReaches(i, id, stored, answered))
    ensures var t, next := sys.surfaces[i].tasks[id], Apply(sys, WriteReaches(i, id, stored, answered));
            && t.job.Save?
            && (|next.log| > |sys.log| ==>
                  && t.before.revision == Disk(sys).revision && t.job.input.revision == Disk(sys).revision
                  && Disk(next) == t.job.input.(revision := Disk(sys).revision + 1))
  {
    NoBlindOverwrite(sys, i, id, stored, answered);
  }

  /** The move's base stands for the disk's revision, and a move before it landed as the disk's very record. */
  ghost predicate NamesDisk(j: Joint, id: nat)
    requires j.sys.log != [] && id < |j.w.v.moves|
  {
    match j.w.v.moves[id].base
    case At(revision) => revision == Disk(j.sys).revision && revision in j.w.bases
    case After(k) =>
      k + 1 == id && k in j.calls && j.calls[k] in j.reports && j.reports[j.calls[k]] == Some(Disk(j.sys))
    case Rollback => false
  }

  ghost predicate ReplacesWhatItNamed(j: Joint, id: nat, t: Task, written: Order)
    requires j.sys.log != []
  {
    id < |j.w.v.moves| &&
    var m, disk := j.w.v.moves[id], Disk(j.sys);
    && m.called == Some(Some(disk.revision)) && t.before.revision == disk.revision && NoDup(t.before.providers)
    && written == Order(Custom, MovedOrder(t.before.providers, m.before, m.code, m.to), disk.revision + 1)
    && NamesDisk(j, id)
  }

  lemma LinkedReplaces(j: Joint, i: nat, id: nat, t: Task)
    requires Joined(j, i) && id in j.calls && j.calls[id] in j.sys.surfaces[i].tasks
    requires t == j.sys.surfaces[i].tasks[j.calls[id]] && t.job.Save?
    requires t.before.revision == Disk(j.sys).revision && t.job.input.revision == Disk(j.sys).revision
    ensures ReplacesWhatItNamed(j, id, t, t.job.input.(revision := Disk(j.sys).revision + 1))
  {
    assert Linked(j, i, id);
    NamesTheDisk(j, i, id);
  }

  /** What a move was called with, when it is the disk's revision, is what it names. */
  lemma NamesTheDisk(j: Joint, i: nat, id: nat)
    requires Joined(j, i) && id in j.calls && id < |j.w.v.moves|
    requires j.w.v.moves[id].called == Some(Some(Disk(j.sys).revision))
    ensures NamesDisk(j, id)
  {
    var v := j.w.v;
    assert L.CallInv(v, id);
    if v.moves[id].base.After? {
      var k := v.moves[id].base.move;
      assert L.CallInv(v, k);
      assert v.moves[k].landed == Some(Some(Disk(j.sys).revision)) && k in j.calls;
      assert Linked(j, i, k);
      RevisionOrder(j.sys.log, j.reports[j.calls[k]].value, Disk(j.sys));
    }
  }
}
