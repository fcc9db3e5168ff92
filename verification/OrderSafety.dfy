/**
 * What every step of the order protocol keeps. Two invariants: no copy and no write
 * can lose a provider, whatever order things happen in; and revisions only go
 * forward, which a first read answered late can break.
 */
module OrderSafety {
  import opened Sequences
  import opened Options
  import opened OrderRecord
  import opened ProviderList
  import opened OrderStores
  import opened OrderProtocol

  // ------------------------------------------------------------------ what is kept

  /** Each record follows the one before, is one the disk can hold, and no provider is ever lost. */
  ghost predicate LogInv(log: seq<Order>) {
    && log != []
    && (forall k :: 0 <= k < |log| ==> log[k].revision == log[0].revision + k && OnDisk(log[k]))
    && (forall a, b :: 0 <= a <= b < |log| ==> Named(log, a) <= Named(log, b))
  }

  /** The providers the disk's record number `k` names. */
  ghost function Named(log: seq<Order>, k: nat): set<Code>
    requires k < |log|
  {
    Elements(log[k].providers)
  }

  ghost function Newest(log: seq<Order>): Order
    requires log != []
  {
    log[|log| - 1]
  }

  /** A record some surface holds names every provider of the disk's record at its revision. */
  ghost predicate Covers(log: seq<Order>, o: Order)
    requires LogInv(log)
  {
    && NoDup(o.providers)
    && o.revision <= Newest(log).revision
    && (o.revision >= log[0].revision ==> Named(log, o.revision - log[0].revision) <= Elements(o.providers))
  }

  /** A record being written names every provider of the disk's, when the disk would accept it. */
  ghost predicate Hits(log: seq<Order>, input: Order)
    requires LogInv(log)
  {
    && NoDup(input.providers)
    && input.revision <= Newest(log).revision
    && (input.revision == Newest(log).revision ==> Elements(Newest(log).providers) <= Elements(input.providers))
  }

  /** A list that may write from the disk's own revision does so on a copy that names all the disk does. */
  ghost predicate BasesSafe(log: seq<Order>, s: Surface)
    requires LogInv(log)
  {
    && (forall base :: base in s.bases ==> base <= Newest(log).revision)
    && (Newest(log).revision in s.bases ==> Reaches(log, s.copy.state.revision))
  }

  /** The record at this revision already named every provider the disk's names now. */
  ghost predicate Reaches(log: seq<Order>, revision: nat)
    requires LogInv(log)
  {
    && log[0].revision <= revision <= Newest(log).revision
    && Elements(Newest(log).providers) <= Named(log, revision - log[0].revision)
  }

  ghost predicate TaskSafe(log: seq<Order>, t: Task)
    requires LogInv(log)
  {
    && Covers(log, t.before)
    && (t.job.Save? ==> Hits(log, t.job.input))
    && (t.stage.Answering? && t.stage.answer.Some? ==> t.stage.answer.value in log)
    && (t.stage.Reloading? && t.stage.read.Some? ==> t.stage.read.value in log)
  }

  ghost predicate SurfaceSafe(log: seq<Order>, s: Surface)
    requires LogInv(log)
  {
    && Covers(log, s.copy.state) && BasesSafe(log, s)
    && (forall id :: id in s.tasks ==> TaskSafe(log, s.tasks[id]))
    && (forall o :: o in s.heard ==> o in log)
    && (s.first.Read? && s.first.order.Some? ==> s.first.order.value in log)
  }

  ghost predicate Safe(sys: System) {
    && Shape(sys) && LogInv(sys.log)
    && forall i :: 0 <= i < |sys.surfaces| ==> SurfaceSafe(sys.log, sys.surfaces[i])
  }

  ghost predicate TaskOrdered(t: Task) {
    && (t.job.Save? ==> t.job.input.revision <= t.before.revision)
    && (t.job.Save? && t.stage.Answering? && t.stage.answer.Some? ==>
          t.stage.answer.value.revision == t.job.input.revision + 1)
    && (t.stage.Reloading? && t.stage.read.Some? ==> t.stage.read.value.revision >= t.before.revision)
  }

  /** Nothing a surface may write from, and nothing it has under way, is ahead of its copy. */
  ghost predicate Ordered(s: Surface) {
    && (forall base :: base in s.bases ==> base <= s.copy.state.revision)
    && forall id :: id in s.tasks ==> TaskOrdered(s.tasks[id]) && s.tasks[id].before.revision <= s.copy.state.revision
  }

  /** Every surface safe, and this one, once it is open, in order. */
  ghost predicate Inv(sys: System, i: nat) {
    Safe(sys) && (i < |sys.surfaces| ==> Ordered(sys.surfaces[i]))
  }

  // ------------------------------------------------------------------- covering

  lemma LogCovers(log: seq<Order>, o: Order)
    requires LogInv(log) && o in log
    ensures Covers(log, o) && log[0].revision <= o.revision
    ensures Named(log, o.revision - log[0].revision) == Elements(o.providers)
  {
    var k :| 0 <= k < |log| && log[k] == o;
    assert Newest(log).revision == log[0].revision + (|log| - 1);
  }

  /** Covering is kept as the record grows and when the revision named is older. */
  lemma CoversMore(log: seq<Order>, o: Order, more: Order)
    requires LogInv(log) && Covers(log, o)
    requires more.revision <= o.revision && NoDup(more.providers)
    requires Elements(o.providers) <= Elements(more.providers)
    ensures Covers(log, more)
  {
    if more.revision >= log[0].revision {
      var a, b := more.revision - log[0].revision, o.revision - log[0].revision;
      assert Newest(log).revision == log[0].revision + (|log| - 1);
      assert Named(log, a) <= Named(log, b);
    }
  }

  lemma CoversHits(log: seq<Order>, input: Order)
    requires LogInv(log) && Covers(log, input)
    ensures Hits(log, input)
  {
    assert Newest(log).revision == log[0].revision + (|log| - 1);
  }

  lemma LogGrows(log: seq<Order>, input: Order, stored: bool)
    requires LogInv(log) && Hits(log, input) && Write(Newest(log), input, stored).Written?
    ensures LogInv(log + [Write(Newest(log), input, stored).order])
  {
    var disk, more := Newest(log), log + [Write(Newest(log), input, stored).order];
    assert disk.revision == log[0].revision + (|log| - 1);
    assert Named(log, |log| - 1) <= Elements(input.providers);
    forall a, b | 0 <= a <= b < |more| ensures Named(more, a) <= Named(more, b) {
      if b < |log| {
        assert Named(log, a) <= Named(log, b);
      } else if a < |log| {
        assert Named(log, a) <= Named(log, |log| - 1);
      }
    }
  }

  lemma CoversGrows(log: seq<Order>, next: Order, o: Order)
    requires LogInv(log) && LogInv(log + [next]) && Covers(log, o)
    ensures Covers(log + [next], o)
  {
    assert Newest(log).revision == log[0].revision + (|log| - 1);
    assert Newest(log + [next]).revision == (log + [next])[0].revision + |log|;
    if o.revision >= log[0].revision {
      var k := o.revision - log[0].revision;
      assert Named(log + [next], k) == Named(log, k);
    }
  }

  lemma TaskGrows(log: seq<Order>, next: Order, t: Task)
    requires LogInv(log) && LogInv(log + [next]) && TaskSafe(log, t)
    ensures TaskSafe(log + [next], t)
  {
    assert Newest(log).revision == log[0].revision + (|log| - 1);
    assert Newest(log + [next]).revision == (log + [next])[0].revision + |log|;
    CoversGrows(log, next, t.before);
  }

  lemma SurfaceGrows(log: seq<Order>, next: Order, s: Surface)
    requires LogInv(log) && LogInv(log + [next]) && SurfaceSafe(log, s)
    ensures SurfaceSafe(log + [next], s.(heard := s.heard + multiset{next}))
  {
    CoversGrows(log, next, s.copy.state);
    assert Newest(log).revision == log[0].revision + (|log| - 1);
    assert Newest(log + [next]).revision == (log + [next])[0].revision + |log|;
    forall id | id in s.tasks ensures TaskSafe(log + [next], s.tasks[id]) {
      TaskGrows(log, next, s.tasks[id]);
    }
  }

  // -------------------------------------------------------- safe, on one surface

  /** A copy that moves on to a record that covers the disk's leaves every list as safe as it was. */
  lemma MovesOnSafe(log: seq<Order>, s: Surface, copy: Copy)
    requires LogInv(log) && SurfaceSafe(log, s)
    requires Covers(log, copy.state) && copy.state.revision >= s.copy.state.revision
    ensures SurfaceSafe(log, s.(copy := copy))
  {
    assert Newest(log).revision == log[0].revision + (|log| - 1);
    if Newest(log).revision in s.bases {
      var a, b := s.copy.state.revision - log[0].revision, copy.state.revision - log[0].revision;
      assert Named(log, a) <= Named(log, b);
    }
  }

  /** What beginning a save needs, whatever began it. */
  lemma BegunSafe(log: seq<Order>, s: Surface, id: nat, input: Order, appending: bool)
    requires LogInv(log) && SurfaceSafe(log, s) && id !in s.tasks
    requires Hits(log, input) && (input.revision == s.copy.state.revision ==> Covers(log, input))
    ensures SurfaceSafe(log, Begun(s, id, input, appending))
  {
    var copy := SaveStarts(s.copy, input);
    MovesOnSafe(log, s, copy);
    assert Begun(s, id, input, appending).tasks[id] == Task(Save(input, appending), s.copy.state, Writing);
  }

  lemma StagedSafe(log: seq<Order>, s: Surface, id: nat, stage: Stage)
    requires LogInv(log) && SurfaceSafe(log, s) && id in s.tasks
    requires TaskSafe(log, s.tasks[id].(stage := stage))
    ensures SurfaceSafe(log, Staged(s, id, stage))
  {
  }

  lemma AnsweredSafe(log: seq<Order>, s: Surface, id: nat)
    requires LogInv(log) && SurfaceSafe(log, s) && Shaped(s)
    requires id in s.tasks && s.tasks[id].stage.Answering?
    ensures SurfaceSafe(log, Answered(s, id))
  {
    CountsTask(s, id);
    var answer := s.tasks[id].stage.answer;
    assert TaskSafe(log, s.tasks[id]);
    if answer.Some? {
      LogCovers(log, answer.value);
    }
    MovesOnSafe(log, s, SaveAnswered(s.copy, answer));
  }

  lemma ReloadedSafe(log: seq<Order>, s: Surface, id: nat)
    requires LogInv(log) && SurfaceSafe(log, s) && id in s.tasks
    ensures s.tasks[id].stage.Reloading? ==> SurfaceSafe(log, Reloaded(s, id))
    ensures SurfaceSafe(log, Told(s, id))
  {
    var t := s.tasks[id];
    assert TaskSafe(log, t);
    if t.stage.Reloading? {
      if t.stage.read.Some? {
        LogCovers(log, t.stage.read.value);
      }
      MovesOnSafe(log, s, FromDisk(s.copy, t.before, t.stage.read));
    }
    MovesOnSafe(log, s, Told(s, id).copy);
  }

  /** The list a newcomer append writes keeps every entry and repeats none. */
  lemma AppendedCovers(log: seq<Order>, c: Copy, shown: seq<Code>)
    requires LogInv(log) && Covers(log, c.state) && NoDup(shown)
    ensures Covers(log, Appended(c, shown))
    ensures var input := Appended(c, shown);
            && input.mode == Custom && input.revision == c.state.revision && c.state.providers <= input.providers
            && forall code :: code in input.providers <==> code in c.state.providers || code in shown
  {
    ExcludeNoDup(shown, Elements(c.state.providers));
    NoDupAppend(c.state.providers, Exclude(shown, Elements(c.state.providers)));
    CoversMore(log, c.state, Appended(c, shown));
  }

  /** What any call writes would lose the disk nothing. */
  lemma InputSafe(log: seq<Order>, s: Surface, step: Step)
    requires LogInv(log) && SurfaceSafe(log, s)
    requires step.Move? || step.SwitchMode? || step.Append?
    requires step.Move? ==> step.base in s.bases && NoDup(step.shown) && step.code in step.shown
    requires step.Append? ==> NoDup(step.shown)
    ensures var input := InputOf(s, step);
            && Hits(log, input) && (input.revision == s.copy.state.revision ==> Covers(log, input))
            && Elements(s.copy.state.providers) <= Elements(input.providers)
            && (!step.Move? ==> input.revision == s.copy.state.revision)
  {
    var state, input := s.copy.state, InputOf(s, step);
    if step.Append? {
      AppendedCovers(log, s.copy, step.shown);
    } else if step.Move? {
      MovedOrderElements(state.providers, step.shown, step.code, step.to);
      if input.revision == Newest(log).revision {
        assert Reaches(log, state.revision);
      }
    }
    if input.revision == state.revision {
      CoversMore(log, state, input);
      CoversHits(log, input);
    }
  }

  // ------------------------------------------------------------ safe, on all of them

  lemma PutSafe(sys: System, i: nat, s: Surface)
    requires Safe(sys) && i < |sys.surfaces| && SurfaceSafe(sys.log, s) && Shaped(s)
    ensures Safe(Put(sys, i, s))
  {
  }

  lemma ToldSafe(sys: System, order: Order)
    requires Safe(sys) && LogInv(sys.log + [order])
    ensures Safe(System(sys.log + [order], TellAll(sys.surfaces, order)))
  {
    var told := TellAll(sys.surfaces, order);
    forall j | 0 <= j < |told| ensures SurfaceSafe(sys.log + [order], told[j]) {
      SurfaceGrows(sys.log, order, sys.surfaces[j]);
    }
  }

  lemma WrittenSafe(sys: System, i: nat, id: nat, stored: bool, answered: bool)
    requires Safe(sys) && Enabled(sys, WriteReaches(i, id, stored, answered))
    ensures Safe(Apply(sys, WriteReaches(i, id, stored, answered)))
  {
    var s := sys.surfaces[i];
    assert TaskSafe(sys.log, s.tasks[id]) && id in Counted(s.tasks);
    match Write(Disk(sys), s.tasks[id].job.input, stored)
    case Refused(_) =>
      StagedSafe(sys.log, s, id, Answering(None));
      StagedShaped(s, id, Answering(None));
      PutSafe(sys, i, Staged(s, id, Answering(None)));
    case Written(order) =>
      LogGrows(sys.log, s.tasks[id].job.input, stored);
      ToldSafe(sys, order);
      WriteLandedSafe(System(sys.log + [order], TellAll(sys.surfaces, order)), i, id, order, answered);
  }

  lemma WriteLandedSafe(told: System, i: nat, id: nat, order: Order, answered: bool)
    requires Safe(told) && UnderWay(told, i, id) && told.surfaces[i].tasks[id].stage.Writing? && order in told.log
    ensures Safe(Put(told, i, Staged(told.surfaces[i], id, Answering(if answered then Some(order) else None))))
  {
    var s, stage := told.surfaces[i], Answering(if answered then Some(order) else None);
    assert TaskSafe(told.log, s.tasks[id]) && id in Counted(s.tasks);
    StagedSafe(told.log, s, id, stage);
    StagedShaped(s, id, stage);
    PutSafe(told, i, Staged(s, id, stage));
  }

  lemma BeginSafe(sys: System, step: Step)
    requires Safe(sys) && Enabled(sys, step) && BeginsSave(step)
    ensures Safe(Apply(sys, step))
  {
    var s, id := sys.surfaces[step.i], step.id;
    if step.GiveUp? {
      assert Counted(Apply(sys, step).surfaces[step.i].tasks) == Counted(s.tasks);
    } else {
      InputSafe(sys.log, s, step);
      BegunSafe(sys.log, s, id, InputOf(s, step), step.Append?);
      BegunShaped(s, id, InputOf(s, step), step.Append?);
    }
    PutSafe(sys, step.i, Apply(sys, step).surfaces[step.i]);
  }

  lemma ReturnSafe(sys: System, step: Step)
    requires Safe(sys) && Enabled(sys, step)
    requires step.WriteReturns? || step.ReadReaches? || step.ReadReturns? || step.Tells?
    ensures Safe(Apply(sys, step))
  {
    var s, id := sys.surfaces[step.i], step.id;
    if step.WriteReturns? {
      AnsweredSafe(sys.log, s, id);
      AnsweredShaped(s, id);
    } else if step.ReadReaches? {
      var stage := Reloading(if step.readable then Some(Disk(sys)) else None);
      assert TaskSafe(sys.log, s.tasks[id]);
      StagedSafe(sys.log, s, id, stage);
      StagedShaped(s, id, stage);
    } else {
      ReloadedSafe(sys.log, s, id);
      ReloadedShaped(s, id);
    }
    PutSafe(sys, step.i, Apply(sys, step).surfaces[step.i]);
  }

  lemma DrawSafe(sys: System, i: nat)
    requires Safe(sys) && i < |sys.surfaces|
    ensures Safe(Apply(sys, Draw(i)))
  {
    var s := sys.surfaces[i];
    LogCovers(sys.log, Disk(sys));
    PutSafe(sys, i, s.(bases := s.bases + {s.copy.state.revision}));
  }

  lemma DeliverSafe(sys: System, i: nat, order: Order)
    requires Safe(sys) && Enabled(sys, Deliver(i, order))
    ensures Safe(Apply(sys, Deliver(i, order)))
  {
    var s := sys.surfaces[i];
    LogCovers(sys.log, order);
    MovesOnSafe(sys.log, s, Hear(s.copy, order));
    PutSafe(sys, i, s.(copy := Hear(s.copy, order), heard := s.heard - multiset{order}));
  }

  lemma OpenSafe(sys: System)
    requires Safe(sys)
    ensures Safe(Apply(sys, Open))
  {
    assert Counted(map[]) == {};
    LogCovers(sys.log, sys.log[0]);
    LogCovers(sys.log, Disk(sys));
  }

  /** What a first read may bring: while a list may write from the disk's revision, all the disk names. */
  ghost predicate LoadIsSafe(sys: System, i: nat)
    requires sys.log != [] && Enabled(sys, LoadReturns(i))
  {
    var s := sys.surfaces[i];
    s.first.order.Some? && Disk(sys).revision in s.bases ==>
      Elements(Disk(sys).providers) <= Elements(s.first.order.value.providers)
  }

  /** The answer to a first read keeps the surface safe exactly then. */
  lemma LoadSafe(sys: System, i: nat)
    requires Safe(sys) && Enabled(sys, LoadReturns(i))
    ensures Safe(Apply(sys, LoadReturns(i))) <==> LoadIsSafe(sys, i)
  {
    var s := sys.surfaces[i];
    if s.first.order.Some? {
      LogCovers(sys.log, s.first.order.value);
      assert Apply(sys, LoadReturns(i)).surfaces[i] == Loaded(s);
      assert Reaches(sys.log, s.first.order.value.revision)
             <==> Elements(Disk(sys).providers) <= Elements(s.first.order.value.providers);
    }
  }

  /** Every step but an unsafe first read keeps every copy and every write safe. */
  lemma StepKeepsSafe(sys: System, step: Step)
    requires Safe(sys) && Enabled(sys, step) && (step.LoadReturns? ==> LoadIsSafe(sys, step.i))
    ensures Safe(Apply(sys, step))
  {
    match step
    case Open => OpenSafe(sys);
    case LoadReturns(i) => LoadSafe(sys, i);
    case WriteReaches(i, id, stored, answered) => WrittenSafe(sys, i, id, stored, answered);
    case LoadReaches(i, _) => PutSafe(sys, i, Apply(sys, step).surfaces[i]);
    case Draw(i) => DrawSafe(sys, i);
    case Deliver(i, order) => DeliverSafe(sys, i, order);
    case Move(_, _, _, _, _, _) => BeginSafe(sys, step);
    case SwitchMode(_, _, _) => BeginSafe(sys, step);
    case Append(_, _, _) => BeginSafe(sys, step);
    case GiveUp(_, _) => BeginSafe(sys, step);
    case WriteReturns(_, _) => ReturnSafe(sys, step);
    case ReadReaches(_, _, _) => ReturnSafe(sys, step);
    case ReadReturns(_, _) => ReturnSafe(sys, step);
    case Tells(_, _) => ReturnSafe(sys, step);
  }

  // --------------------------------------------------------------------- in order

  lemma AnsweredOrdered(s: Surface, id: nat)
    requires Shaped(s) && Ordered(s) && id in s.tasks && s.tasks[id].stage.Answering?
    ensures Ordered(Answered(s, id)) && Answered(s, id).copy.state.revision >= s.copy.state.revision
  {
    CountsTask(s, id);
  }

  lemma ReloadedOrdered(s: Surface, id: nat)
    requires Ordered(s) && id in s.tasks
    ensures s.tasks[id].stage.Reloading? ==>
              Ordered(Reloaded(s, id)) && Reloaded(s, id).copy.state.revision >= s.copy.state.revision
    ensures Ordered(Told(s, id)) && Told(s, id).copy.state == s.copy.state
  {
  }

  lemma BegunOrdered(s: Surface, step: Step)
    requires Ordered(s) && (step.Move? || step.SwitchMode? || step.Append?) && step.id !in s.tasks
    requires step.Move? ==> step.base in s.bases && NoDup(s.copy.state.providers)
    ensures Ordered(Begun(s, step.id, InputOf(s, step), step.Append?))
  {
  }

  lemma StagedOrdered(s: Surface, id: nat, stage: Stage)
    requires Ordered(s) && id in s.tasks && TaskOrdered(s.tasks[id].(stage := stage))
    ensures Ordered(Staged(s, id, stage))
  {
  }

  lemma WrittenOrdered(sys: System, i: nat, id: nat, stored: bool, answered: bool, j: nat)
    requires Safe(sys) && Enabled(sys, WriteReaches(i, id, stored, answered))
    requires j < |sys.surfaces| && Ordered(sys.surfaces[j])
    ensures Ordered(Apply(sys, WriteReaches(i, id, stored, answered)).surfaces[j])
  {
    var s := sys.surfaces[j];
    if i == j {
      assert TaskOrdered(s.tasks[id]);
    }
    match Write(Disk(sys), sys.surfaces[i].tasks[id].job.input, stored)
    case Refused(_) =>
      if i == j {
        StagedOrdered(s, id, Answering(None));
      }
    case Written(order) =>
      var told := s.(heard := s.heard + multiset{order});
      assert Ordered(told);
      if i == j {
        StagedOrdered(told, id, Answering(if answered then Some(order) else None));
      }
  }

  lemma ReadOrdered(sys: System, i: nat, id: nat, readable: bool)
    requires Safe(sys) && Enabled(sys, ReadReaches(i, id, readable)) && Ordered(sys.surfaces[i])
    ensures Ordered(Apply(sys, ReadReaches(i, id, readable)).surfaces[i])
  {
    assert TaskSafe(sys.log, sys.surfaces[i].tasks[id]);
  }

  /** Only a first read can bring an older record. */
  lemma StepOrdered(sys: System, step: Step)
    requires Safe(sys) && Enabled(sys, step) && !step.Open? && !step.LoadReturns? && !step.WriteReaches?
    requires Ordered(sys.surfaces[step.i])
    ensures Ordered(Apply(sys, step).surfaces[step.i])
  {
    var s := sys.surfaces[step.i];
    match step
    case WriteReturns(_, id) => AnsweredOrdered(s, id);
    case ReadReturns(_, id) => ReloadedOrdered(s, id);
    case Tells(_, id) => ReloadedOrdered(s, id);
    case ReadReaches(i, id, readable) => ReadOrdered(sys, i, id, readable);
    case Move(_, _, _, _, _, _) => BegunOrdered(s, step);
    case SwitchMode(_, _, _) => BegunOrdered(s, step);
    case Append(_, _, _) => BegunOrdered(s, step);
    case _ =>
  }

  /** A first read answered in time: nothing the surface may write from, or has under way, is ahead of it. */
  ghost predicate LoadIsTimely(sys: System, i: nat)
    requires Enabled(sys, LoadReturns(i))
  {
    var s := sys.surfaces[i];
    s.first.order.Some? ==>
      && (forall base :: base in s.bases ==> base <= s.first.order.value.revision)
      && (forall id :: id in s.tasks ==> s.tasks[id].before.revision <= s.first.order.value.revision)
  }

  /** The answer to a first read keeps everything in order exactly then; and then it is safe. */
  lemma LoadInOrder(sys: System, i: nat)
    requires Inv(sys, i) && Enabled(sys, LoadReturns(i))
    ensures Inv(Apply(sys, LoadReturns(i)), i) <==> LoadIsTimely(sys, i)
    ensures LoadIsTimely(sys, i) ==> LoadIsSafe(sys, i)
  {
    var s, r := sys.surfaces[i], Apply(sys, LoadReturns(i));
    assert Ordered(s) && r.surfaces[i] == Loaded(s);
    LoadSafe(sys, i);
    if s.first.order.Some? {
      LogCovers(sys.log, s.first.order.value);
      if LoadIsTimely(sys, i) && Disk(sys).revision in s.bases {
        assert Named(sys.log, s.first.order.value.revision - sys.log[0].revision) == Elements(Disk(sys).providers);
      }
    }
    if LoadIsTimely(sys, i) {
      assert Ordered(Loaded(s));
    } else {
      assert !Ordered(r.surfaces[i]);
    }
  }

  /**
   * Every step keeps both invariants, first reads safe and this surface's own in
   * time; what becomes of the order of other surfaces does not matter.
   */
  lemma StepKeepsInv(sys: System, step: Step, i: nat)
    requires Inv(sys, i) && Enabled(sys, step)
    requires step.LoadReturns? ==> LoadIsSafe(sys, step.i) && (step.i == i ==> LoadIsTimely(sys, i))
    ensures Inv(Apply(sys, step), i)
  {
    StepKeepsSafe(sys, step);
    if i < |sys.surfaces| {
      if step.WriteReaches? {
        WrittenOrdered(sys, step.i, step.id, step.stored, step.answered, i);
      } else if step.LoadReturns? && step.i == i {
        LoadInOrder(sys, i);
      } else if !step.Open? && step.i == i {
        StepOrdered(sys, step);
      }
    }
  }
}
