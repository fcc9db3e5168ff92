/**
 * Any number of surfaces, each with its copy of the order, against the one record
 * on disk. A step is what happens between two `await`s: a change begun on a
 * surface, a write or a read reaching the disk, its answer coming back, an event
 * delivered. The steps of all surfaces interleave freely, answers and events take
 * as long as they like, and writes, answers and reads may fail.
 */
module OrderProtocol {
  import opened Sequences
  import opened Options
  import opened OrderRecord
  import opened ProviderList
  import opened OrderStores

  datatype Stage =
    | Writing
    | Answering(answer: Option<Order>)
    | Reading
    | Reloading(read: Option<Order>)
    | Telling

  /** A record being written, or a move that cannot be: the reload alone. */
  datatype Job = Save(input: Order, appending: bool) | Restore

  /** A call of the store under way; `before` is the copy it was made on. */
  datatype Task = Task(job: Job, before: Order, stage: Stage)

  /** A surface's first read: asked for when it opens, answered some time later, or failed. */
  datatype First = Asked | Read(order: Option<Order>) | Over

  /** `bases` are the revisions this surface's lists may write a move from: drawn ones and landed ones. */
  datatype Surface = Surface(copy: Copy, tasks: map<nat, Task>, heard: multiset<Order>, bases: set<nat>, first: First)

  /** `log` is every record the disk has held, the one it holds now last. */
  datatype System = System(log: seq<Order>, surfaces: seq<Surface>)

  datatype Step =
    | Open
    | LoadReaches(i: nat, readable: bool)
    | LoadReturns(i: nat)
    | Draw(i: nat)
    | Move(i: nat, id: nat, shown: seq<Code>, code: Code, to: int, base: nat)
    | SwitchMode(i: nat, id: nat, mode: Mode)
    | Append(i: nat, id: nat, shown: seq<Code>)
    | GiveUp(i: nat, id: nat)
    | WriteReaches(i: nat, id: nat, stored: bool, answered: bool)
    | WriteReturns(i: nat, id: nat)
    | ReadReaches(i: nat, id: nat, readable: bool)
    | ReadReturns(i: nat, id: nat)
    | Tells(i: nat, id: nat)
    | Deliver(i: nat, order: Order)

  const OPENED := Surface(UNREAD, map[], multiset{}, {0}, Asked)

  ghost function Disk(sys: System): Order
    requires sys.log != []
  {
    sys.log[|sys.log| - 1]
  }

  /** The saves whose write has still to be answered. */
  ghost function Counted(tasks: map<nat, Task>): set<nat> {
    set id | id in tasks && (tasks[id].stage.Writing? || tasks[id].stage.Answering?)
  }

  /** The counter counts those, and a move that cannot be written never is. */
  ghost predicate Shaped(s: Surface) {
    && s.copy.saving == |Counted(s.tasks)|
    && forall id :: id in s.tasks && s.tasks[id].job.Restore? ==>
         !s.tasks[id].stage.Writing? && !s.tasks[id].stage.Answering?
  }

  ghost predicate Shape(sys: System) {
    sys.log != [] && forall i :: 0 <= i < |sys.surfaces| ==> Shaped(sys.surfaces[i])
  }

  // ------------------------------------------------------------------ the steps

  ghost predicate BeginsOn(sys: System, i: nat, id: nat) {
    i < |sys.surfaces| && id !in sys.surfaces[i].tasks
  }

  ghost predicate UnderWay(sys: System, i: nat, id: nat) {
    i < |sys.surfaces| && id in sys.surfaces[i].tasks
  }

  ghost predicate Enabled(sys: System, step: Step) {
    match step
    case Open => true
    case LoadReaches(i, _) => i < |sys.surfaces| && sys.surfaces[i].first.Asked?
    case LoadReturns(i) => i < |sys.surfaces| && sys.surfaces[i].first.Read?
    case Draw(i) => i < |sys.surfaces|
    case Move(i, id, shown, code, to, base) =>
      && BeginsOn(sys, i, id) && base in sys.surfaces[i].bases && NoDup(shown) && code in shown
      && NoDup(sys.surfaces[i].copy.state.providers)
    case SwitchMode(i, id, mode) => BeginsOn(sys, i, id) && mode != sys.surfaces[i].copy.state.mode
    case Append(i, id, shown) => BeginsOn(sys, i, id) && NoDup(shown) && MayAppend(sys.surfaces[i].copy, shown)
    case GiveUp(i, id) => BeginsOn(sys, i, id)
    case WriteReaches(i, id, _, _) => UnderWay(sys, i, id) && sys.surfaces[i].tasks[id].stage.Writing?
    case WriteReturns(i, id) => UnderWay(sys, i, id) && sys.surfaces[i].tasks[id].stage.Answering?
    case ReadReaches(i, id, _) => UnderWay(sys, i, id) && sys.surfaces[i].tasks[id].stage.Reading?
    case ReadReturns(i, id) => UnderWay(sys, i, id) && sys.surfaces[i].tasks[id].stage.Reloading?
    case Tells(i, id) => UnderWay(sys, i, id) && sys.surfaces[i].tasks[id].stage.Telling?
    case Deliver(i, order) => i < |sys.surfaces| && order in sys.surfaces[i].heard
  }

  /** A call of the store: what the surface's lists, Settings and its draws ask for. */
  ghost predicate BeginsSave(step: Step) {
    step.Move? || step.SwitchMode? || step.Append? || step.GiveUp?
  }

  ghost function Put(sys: System, i: nat, s: Surface): System
    requires i < |sys.surfaces|
  {
    sys.(surfaces := sys.surfaces[i := s])
  }

  ghost function Begun(s: Surface, id: nat, input: Order, appending: bool): Surface {
    s.(copy := SaveStarts(s.copy, input),
       tasks := s.tasks[id := Task(Save(input, appending), s.copy.state, Writing)])
  }

  ghost function Staged(s: Surface, id: nat, stage: Stage): Surface
    requires id in s.tasks
  {
    s.(tasks := s.tasks[id := s.tasks[id].(stage := stage)])
  }

  /** The write's answer: the save is over, or it goes on to its reload. */
  ghost function Answered(s: Surface, id: nat): Surface
    requires Shaped(s) && id in s.tasks && s.tasks[id].stage.Answering?
  {
    CountsTask(s, id);
    var answer := s.tasks[id].stage.answer;
    var copy := SaveAnswered(s.copy, answer);
    match Usable(answer)
    case Some(order) => s.(copy := copy, tasks := s.tasks - {id}, bases := s.bases + {order.revision})
    case None => Staged(s, id, Reading).(copy := copy)
  }

  ghost function Reloaded(s: Surface, id: nat): Surface
    requires id in s.tasks && s.tasks[id].stage.Reloading?
  {
    var t := s.tasks[id];
    Staged(s, id, Telling).(copy := FromDisk(s.copy, t.before, t.stage.read))
  }

  /** The end of a call that wrote nothing: every list redraws. */
  ghost function Told(s: Surface, id: nat): Surface
    requires id in s.tasks
  {
    var copy := match s.tasks[id].job
      case Save(input, appending) => SaveTold(s.copy, input.revision, appending)
      case Restore => Notify(s.copy);
    s.(copy := copy, tasks := s.tasks - {id})
  }

  ghost function Loaded(s: Surface): Surface
    requires s.first.Read?
  {
    s.(copy := Load(s.copy, s.first.order), first := Over)
  }

  ghost function TellAll(surfaces: seq<Surface>, order: Order): (r: seq<Surface>)
    ensures |r| == |surfaces|
    ensures forall i :: 0 <= i < |r| ==> r[i] == surfaces[i].(heard := surfaces[i].heard + multiset{order})
  {
    seq(|surfaces|, i requires 0 <= i < |surfaces| => surfaces[i].(heard := surfaces[i].heard + multiset{order}))
  }

  /** The disk answers a write and tells every surface, this one included, when it lands. */
  ghost function WrittenBy(sys: System, i: nat, id: nat, stored: bool, answered: bool): System
    requires sys.log != [] && UnderWay(sys, i, id) && sys.surfaces[i].tasks[id].job.Save?
  {
    match Write(Disk(sys), sys.surfaces[i].tasks[id].job.input, stored)
    case Written(order) =>
      var told := System(sys.log + [order], TellAll(sys.surfaces, order));
      Put(told, i, Staged(told.surfaces[i], id, Answering(if answered then Some(order) else None)))
    case Refused(_) => Put(sys, i, Staged(sys.surfaces[i], id, Answering(None)))
  }

  /** What a call of the store writes, when it writes. */
  ghost function InputOf(s: Surface, step: Step): Order
    requires step.Move? || step.SwitchMode? || step.Append?
    requires step.Move? ==> NoDup(s.copy.state.providers)
  {
    var state := s.copy.state;
    match step
    case Move(_, _, shown, code, to, base) => Order(Custom, MovedOrder(state.providers, shown, code, to), base)
    case SwitchMode(_, _, mode) => state.(mode := mode)
    case Append(_, _, shown) => Appended(s.copy, shown)
  }

  ghost function Apply(sys: System, step: Step): System
    requires Shape(sys) && Enabled(sys, step)
  {
    match step
    case Open => sys.(surfaces := sys.surfaces + [OPENED])
    case LoadReaches(i, readable) =>
      Put(sys, i, sys.surfaces[i].(first := Read(if readable then Some(Disk(sys)) else None)))
    case LoadReturns(i) => Put(sys, i, Loaded(sys.surfaces[i]))
    case Draw(i) =>
      var s := sys.surfaces[i];
      Put(sys, i, s.(bases := s.bases + {s.copy.state.revision}))
    case Move(i, id, _, _, _, _) => Put(sys, i, Begun(sys.surfaces[i], id, InputOf(sys.surfaces[i], step), false))
    case SwitchMode(i, id, _) => Put(sys, i, Begun(sys.surfaces[i], id, InputOf(sys.surfaces[i], step), false))
    case Append(i, id, _) => Put(sys, i, Begun(sys.surfaces[i], id, InputOf(sys.surfaces[i], step), true))
    case GiveUp(i, id) =>
      var s := sys.surfaces[i];
      Put(sys, i, s.(tasks := s.tasks[id := Task(Restore, s.copy.state, Reading)]))
    case WriteReaches(i, id, stored, answered) => WrittenBy(sys, i, id, stored, answered)
    case WriteReturns(i, id) => Put(sys, i, Answered(sys.surfaces[i], id))
    case ReadReaches(i, id, readable) =>
      Put(sys, i, Staged(sys.surfaces[i], id, Reloading(if readable then Some(Disk(sys)) else None)))
    case ReadReturns(i, id) => Put(sys, i, Reloaded(sys.surfaces[i], id))
    case Tells(i, id) => Put(sys, i, Told(sys.surfaces[i], id))
    case Deliver(i, order) =>
      var s := sys.surfaces[i];
      Put(sys, i, s.(copy := Hear(s.copy, order), heard := s.heard - multiset{order}))
  }

  /** The save counter at least counts each save the disk has still to answer. */
  lemma CountsTask(s: Surface, id: nat)
    requires Shaped(s) && id in s.tasks && s.tasks[id].stage.Answering?
    ensures s.copy.saving > 0
  {
    assert id in Counted(s.tasks);
  }

  lemma BegunShaped(s: Surface, id: nat, input: Order, appending: bool)
    requires Shaped(s) && id !in s.tasks
    ensures Shaped(Begun(s, id, input, appending))
  {
    assert Counted(Begun(s, id, input, appending).tasks) == Counted(s.tasks) + {id};
  }

  lemma StagedShaped(s: Surface, id: nat, stage: Stage)
    requires Shaped(s) && id in s.tasks
    requires (stage.Writing? || stage.Answering?) == (id in Counted(s.tasks))
    ensures Shaped(Staged(s, id, stage))
  {
    assert Counted(Staged(s, id, stage).tasks) == Counted(s.tasks);
  }

  lemma AnsweredShaped(s: Surface, id: nat)
    requires Shaped(s) && id in s.tasks && s.tasks[id].stage.Answering?
    ensures Shaped(Answered(s, id))
  {
    CountsTask(s, id);
    assert Counted(Answered(s, id).tasks) == Counted(s.tasks) - {id};
  }

  lemma ReloadedShaped(s: Surface, id: nat)
    requires Shaped(s) && id in s.tasks
    ensures s.tasks[id].stage.Reloading? ==> Shaped(Reloaded(s, id))
    ensures s.tasks[id].stage.Telling? ==> Shaped(Told(s, id))
  {
    if s.tasks[id].stage.Reloading? {
      assert Counted(Reloaded(s, id).tasks) == Counted(s.tasks);
    } else if s.tasks[id].stage.Telling? {
      assert Counted(Told(s, id).tasks) == Counted(s.tasks);
    }
  }

  lemma WrittenShaped(sys: System, i: nat, id: nat, stored: bool, answered: bool)
    requires Shape(sys) && Enabled(sys, WriteReaches(i, id, stored, answered))
    ensures Shape(WrittenBy(sys, i, id, stored, answered))
  {
    var s := sys.surfaces[i];
    assert id in Counted(s.tasks);
    match Write(Disk(sys), s.tasks[id].job.input, stored)
    case Refused(_) => StagedShaped(s, id, Answering(None));
    case Written(order) =>
      var told := TellAll(sys.surfaces, order);
      StagedShaped(told[i], id, Answering(if answered then Some(order) else None));
  }

  lemma StepKeepsShape(sys: System, step: Step)
    requires Shape(sys) && Enabled(sys, step)
    ensures Shape(Apply(sys, step))
  {
    match step
    case Open => assert Counted(map[]) == {};
    case Move(_, _, _, _, _, _) => CallShaped(sys, step);
    case SwitchMode(_, _, _) => CallShaped(sys, step);
    case Append(_, _, _) => CallShaped(sys, step);
    case GiveUp(_, _) => CallShaped(sys, step);
    case WriteReaches(i, id, stored, answered) => WrittenShaped(sys, i, id, stored, answered);
    case WriteReturns(i, id) => AnsweredShaped(sys.surfaces[i], id);
    case ReadReaches(i, id, readable) =>
      StagedShaped(sys.surfaces[i], id, Reloading(if readable then Some(Disk(sys)) else None));
    case ReadReturns(i, id) => ReloadedShaped(sys.surfaces[i], id);
    case Tells(i, id) => ReloadedShaped(sys.surfaces[i], id);
    case _ =>
  }

  lemma CallShaped(sys: System, step: Step)
    requires Shape(sys) && Enabled(sys, step) && BeginsSave(step)
    ensures Shape(Apply(sys, step))
  {
    var s := sys.surfaces[step.i];
    if step.GiveUp? {
      assert Counted(Apply(sys, step).surfaces[step.i].tasks) == Counted(s.tasks);
    } else {
      BegunShaped(s, step.id, InputOf(s, step), step.Append?);
    }
  }
}
