/**
  The transient status line (app/src/status_line_vm.cpp): every message schedules a
  clear tagged with its generation; the destructor waits until no clear can run.

  setMessage runs on any publishing thread and holds `mutex_` across a cancel and a
  schedule; onClearFired runs on the timer thread.  The destructor first resets its
  subscriptions, and the event bus's barrier (module EventBus) makes that mean that
  no setMessage is running or will run; here it is the guard of step Unsubscribe.
 */
module StatusLine {
  import Sch = Scheduler

  datatype Severity = SeverityOk | Success | Warning | Danger | Info

  datatype Callback = Clear(generation: nat) | Foreign(tag: int)

  // The timer thread inside onClearFired: before its lock, or after it.
  datatype ClearPc = NoClear | Fired(generation: nat, handle: Sch.Handle) | OwesNotify

  datatype Life = Alive | Unsubscribed | Asleep | Awake | Destroyed

  datatype State = State(
    core: Sch.Sched<Callback>, worker: Sch.Worker<Callback>, clear: ClearPc,
    text: string, severity: Severity, generation: nat, clearHandle: Sch.Handle, outstanding: int,
    setting: bool,                       // a setMessage holds the lock between cancel and schedule
    life: Life,
    generationOf: map<Sch.Handle, nat>)  // history: the tag each clear was scheduled with

  datatype Step =
    | SetText(text: string, severity: Severity)   // setMessage: lock, set, cancel, claim
    | SetSchedule(due: Sch.Time)                  // setMessage: schedule, unlock
    | Dequeue(now: Sch.Time)
    | RunNext
    | EndBatch
    | ClearFired                                  // onClearFired under its lock
    | ClearNotify
    | Unsubscribe | Destroy | Spurious | Recheck  // the destructor
    | ForeignSchedule(due: Sch.Time, tag: int) | ForeignCancel(h: Sch.Handle)
    | TimerShutdown | WorkerExit

  ghost predicate Enabled(s: State, step: Step) {
    match step
    case SetText(_, _) => s.life == Alive && !s.setting
    case SetSchedule(_) => s.setting
    case Dequeue(now) =>
      s.worker.Waiting? && !s.core.stopping && s.core.queue != [] && s.core.queue[0].due <= now
    case RunNext => s.worker.Running? && s.worker.batch != [] && s.clear.NoClear?
    case EndBatch => s.worker.Running? && s.worker.batch == [] && s.clear.NoClear?
    case ClearFired => s.clear.Fired? && !s.setting
    case ClearNotify => s.clear.OwesNotify?
    case Unsubscribe => s.life == Alive && !s.setting
    case Destroy => s.life == Unsubscribed
    case Spurious => s.life == Asleep
    case Recheck => s.life == Awake
    case ForeignCancel(h) => h in s.core.index ==> s.core.index[h].fn.Foreign?
    case WorkerExit => s.worker.Waiting? && s.core.stopping
    case _ => true
  }

  // Cancelling the last clear: one that was still queued is outstanding no more.
  ghost function CancelClear(s: State): State {
    if s.clearHandle == 0 then s
    else
      var (core, ok) := Sch.Cancel(s.core, s.clearHandle);
      s.(core := core, outstanding := if ok then s.outstanding - 1 else s.outstanding)
  }

  ghost function Next(s: State, step: Step): State
    requires Enabled(s, step)
  {
    match step
    case SetText(text, severity) =>
      var c := CancelClear(s);
      c.(text := text, severity := severity, generation := s.generation + 1,
         outstanding := c.outstanding + 1, setting := true)
    case SetSchedule(due) =>
      var (core, h) := Sch.Schedule(s.core, due, Clear(s.generation));
      s.(core := core, clearHandle := h, setting := false, generationOf := s.generationOf[h := s.generation])
    case Dequeue(now) =>
      var (core, batch) := Sch.Collect(s.core, now);
      s.(core := core, worker := Sch.Running(batch))
    case RunNext =>
      var e := s.worker.batch[0];
      s.(worker := Sch.Running(s.worker.batch[1..]),
         clear := if e.fn.Clear? then Fired(e.fn.generation, e.id) else NoClear)
    case EndBatch => s.(worker := Sch.Waiting)
    case ClearFired =>
      var c := s.(outstanding := s.outstanding - 1, clear := OwesNotify);
      if s.clear.generation == s.generation then c.(text := "", severity := SeverityOk, clearHandle := 0) else c
    case ClearNotify => s.(clear := NoClear, life := if s.life == Asleep then Awake else s.life)
    case Unsubscribe => s.(life := Unsubscribed)
    case Destroy =>
      var c := CancelClear(s);
      c.(generation := s.generation + 1, life := if c.outstanding == 0 then Destroyed else Asleep)
    case Spurious => s.(life := Awake)
    case Recheck => s.(life := if s.outstanding == 0 then Destroyed else Asleep)
    case ForeignSchedule(due, tag) => s.(core := Sch.Schedule(s.core, due, Foreign(tag)).0)
    case ForeignCancel(h) => s.(core := Sch.Cancel(s.core, h).0)
    case TimerShutdown => s.(core := s.core.(stopping := true))
    case WorkerExit => s.(worker := Sch.Exited)
  }

  ghost predicate Start(s: State) {
    s.core == Sch.Initial<Callback>() && s.worker == Sch.Waiting && s.clear == NoClear && s.text == "" &&
    s.severity == SeverityOk && s.generation == 0 && s.clearHandle == 0 && s.outstanding == 0 && !s.setting &&
    s.life == Alive && s.generationOf == map[]
  }

  ghost predicate Run(states: seq<State>, steps: seq<Step>) {
    && |states| == |steps| + 1
    && Start(states[0])
    && forall i :: 0 <= i < |steps| ==> Enabled(states[i], steps[i]) && states[i + 1] == Next(states[i], steps[i])
  }

  // ---------------------------------------------------------------- the invariant

  ghost predicate IsClear(c: Callback) {
    c.Clear?
  }

  // The clears that are queued, dequeued, or executing before their lock.
  ghost function Unresolved(s: State): nat {
    Sch.Count(s.core.queue, IsClear) + Sch.Count(Sch.Batch(s.worker), IsClear) + if s.clear.Fired? then 1 else 0
  }

  ghost predicate Counted(s: State) {
    Sch.Valid(s.core) && s.outstanding == Unresolved(s) + if s.setting then 1 else 0
  }

  // The clear with this tag and handle is queued or dequeued and has not taken its lock.
  ghost predicate ClearLive(s: State, g: nat, h: Sch.Handle) {
    || (h in s.core.index && s.core.index[h].fn == Clear(g))
    || (exists e :: e in Sch.Batch(s.worker) && e.id == h && e.fn == Clear(g))
    || s.clear == Fired(g, h)
  }

  ghost predicate LifeOk(s: State) {
    && (s.setting ==> s.life == Alive)
    && (s.life == Destroyed ==> s.outstanding == 0)
    && (s.life == Asleep && s.outstanding == 0 ==> s.clear.OwesNotify?)
  }

  // Every clear carries the tag recorded for its handle.
  ghost predicate Tagged(s: State) {
    && (forall h :: h in s.core.index && s.core.index[h].fn.Clear? ==>
          h in s.generationOf && s.generationOf[h] == s.core.index[h].fn.generation)
    && (forall e :: e in Sch.Batch(s.worker) && e.fn.Clear? ==>
          e.id in s.generationOf && s.generationOf[e.id] == e.fn.generation)
    && (s.clear.Fired? ==> s.clear.handle in s.generationOf && s.generationOf[s.clear.handle] == s.clear.generation)
    && (forall h :: h in s.generationOf ==> h < s.core.nextId && s.generationOf[h] <= s.generation)
  }

  ghost predicate CurrentClear(s: State) {
    && s.clearHandle < s.core.nextId
    && (s.clearHandle in s.core.index ==> !s.setting && s.core.index[s.clearHandle].fn == Clear(s.generation))
    && (!s.setting && s.life in {Alive, Unsubscribed} && s.text != "" ==> ClearLive(s, s.generation, s.clearHandle))
  }

  ghost predicate Inv(s: State) {
    Counted(s) && LifeOk(s) && Tagged(s) && CurrentClear(s)
  }

  ghost predicate IsIndexed(s: State, h: Sch.Handle)
    requires h in s.core.index
  {
    0 < h < s.core.nextId && s.core.index[h].id == h && s.core.index[h] in s.core.queue
  }

  lemma NoHandleZero(s: State)
    requires Sch.Valid(s.core)
    ensures forall h :: h in s.core.index ==> IsIndexed(s, h)
  {
    forall h | h in s.core.index
      ensures IsIndexed(s, h)
    {
      var e := Sch.IdMember(s.core.queue, h);
    }
  }

  lemma CancelClearCounts(s: State)
    requires Counted(s) && CurrentClear(s)
    ensures var c := CancelClear(s);
      && Counted(c) && s.clearHandle !in c.core.index && c.core.nextId == s.core.nextId
      && c == s.(core := c.core, outstanding := c.outstanding)
  {
    NoHandleZero(s);
    Sch.CancelKeepsValid(s.core, s.clearHandle);
    Sch.CancelCounts(s.core, s.clearHandle, IsClear);
  }

  lemma ScheduleIsCounted(s: State, due: Sch.Time, fn: Callback)
    requires Sch.Valid(s.core)
    ensures var core := Sch.Schedule(s.core, due, fn).0;
      && Sch.Valid(core)
      && Sch.Count(core.queue, IsClear) == Sch.Count(s.core.queue, IsClear) + if IsClear(fn) then 1 else 0
  {
    Sch.ScheduleKeepsValid(s.core, due, fn);
    Sch.ScheduleCounts(s.core, due, fn, IsClear);
  }

  lemma CollectIsCounted(s: State, now: Sch.Time)
    requires Sch.Valid(s.core)
    ensures var (core, batch) := Sch.Collect(s.core, now);
      Sch.Valid(core) && Sch.Count(core.queue, IsClear) + Sch.Count(batch, IsClear) == Sch.Count(s.core.queue, IsClear)
  {
    Sch.CollectKeepsValid(s.core, now);
    Sch.CollectCounts(s.core, now, IsClear);
  }

  lemma ForeignCancelIsCounted(s: State, h: Sch.Handle)
    requires Sch.Valid(s.core) && (h in s.core.index ==> s.core.index[h].fn.Foreign?)
    ensures var core := Sch.Cancel(s.core, h).0;
      Sch.Valid(core) && Sch.Count(core.queue, IsClear) == Sch.Count(s.core.queue, IsClear)
  {
    Sch.CancelKeepsValid(s.core, h);
    Sch.CancelCounts(s.core, h, IsClear);
  }

  lemma StoppingIsValid(s: State)
    requires Sch.Valid(s.core)
    ensures Sch.Valid(s.core.(stopping := true))
  {
  }

  lemma CountStep(s: State, step: Step)
    requires Counted(s) && CurrentClear(s) && Enabled(s, step)
    ensures Counted(Next(s, step))
  {
    hide Sch.Valid, Sch.Schedule, Sch.Collect, Sch.Cancel, CancelClear, CurrentClear;
    match step
    case SetText(_, _) => CancelClearCounts(s);
    case SetSchedule(due) => ScheduleIsCounted(s, due, Clear(s.generation));
    case Dequeue(now) => CollectIsCounted(s, now);
    case Destroy => CancelClearCounts(s);
    case ForeignSchedule(due, tag) => ScheduleIsCounted(s, due, Foreign(tag));
    case ForeignCancel(h) => ForeignCancelIsCounted(s, h);
    case TimerShutdown => StoppingIsValid(s);
    case _ =>
  }

  lemma LifeStep(s: State, step: Step)
    requires Counted(s) && LifeOk(s) && Enabled(s, step)
    ensures LifeOk(Next(s, step))
  {
  }

  // What happens to the entries of the index.
  lemma IndexStep(s: State, step: Step, h: Sch.Handle)
    requires Sch.Valid(s.core) && Enabled(s, step)
    ensures var index := Next(s, step).core.index;
            h in index ==> (h in s.core.index && index[h] == s.core.index[h])
                           || (h == s.core.nextId && step.SetSchedule? && index[h].fn == Clear(s.generation))
                           || (h == s.core.nextId && step.ForeignSchedule? && index[h].fn.Foreign?)
    ensures var index := Next(s, step).core.index;
            h in s.core.index && h !in index ==>
              || ((step.SetText? || step.Destroy?) && h == s.clearHandle)
              || step == ForeignCancel(h)
              || (step.Dequeue? && s.core.index[h] in Sch.Batch(Next(s, step).worker))
    ensures h in s.core.index ==> 0 < h < s.core.nextId && s.core.index[h].id == h
  {
    NoHandleZero(s);
    if h in s.core.index && step.Dequeue? {
      Sch.CollectKeepsValid(s.core, step.now);
      var (core, batch) := Sch.Collect(s.core, step.now);
      assert s.core.index[h] in batch + core.queue;
      if s.core.index[h] in core.queue {
        Sch.MemberId(core.queue, s.core.index[h]);
      }
    }
  }

  lemma TaggedBatch(s: State, step: Step, e: Sch.Entry<Callback>)
    requires Sch.Valid(s.core) && Tagged(s) && Enabled(s, step)
    requires e in Sch.Batch(Next(s, step).worker) && e.fn.Clear?
    ensures e.id in s.generationOf && s.generationOf[e.id] == e.fn.generation
  {
    if step.Dequeue? {
      Sch.CollectKeepsValid(s.core, step.now);
      var (core, batch) := Sch.Collect(s.core, step.now);
      assert e in batch + core.queue;
    } else {
      assert e in Sch.Batch(s.worker);
    }
  }

  lemma TagsBounded(s: State, step: Step, h: Sch.Handle)
    requires Tagged(s) && Enabled(s, step) && h in Next(s, step).generationOf
    ensures h < Next(s, step).core.nextId && Next(s, step).generationOf[h] <= Next(s, step).generation
  {
    hide Sch.Valid;
  }

  lemma TaggedStep(s: State, step: Step)
    requires Sch.Valid(s.core) && Tagged(s) && Enabled(s, step)
    ensures Tagged(Next(s, step))
  {
    var s' := Next(s, step);
    TagStep(s, step);
    hide Sch.Valid, Sch.Schedule, Sch.Collect, Sch.Cancel, CancelClear;
    forall h | h in s'.core.index && s'.core.index[h].fn.Clear?
      ensures h in s'.generationOf && s'.generationOf[h] == s'.core.index[h].fn.generation
    {
      IndexStep(s, step, h);
      NextIdStep(s, step);
      if step.SetSchedule? {
        ScheduledTag(s, step);
      }
    }
    forall e | e in Sch.Batch(s'.worker) && e.fn.Clear?
      ensures e.id in s'.generationOf && s'.generationOf[e.id] == e.fn.generation
    {
      TaggedBatch(s, step, e);
    }
    forall h | h in s'.generationOf
      ensures h < s'.core.nextId && s'.generationOf[h] <= s'.generation
    {
      TagsBounded(s, step, h);
    }
    if step.RunNext? {
      assert s.worker.batch[0] in s.worker.batch;
    }
  }

  lemma ScheduledTag(s: State, step: Step)
    requires Enabled(s, step) && step.SetSchedule?
    ensures var s' := Next(s, step);
      s.core.nextId in s'.generationOf && s'.generationOf[s.core.nextId] == s.generation
  {
  }

  lemma BatchLiveStep(s: State, step: Step, e: Sch.Entry<Callback>)
    requires Enabled(s, step) && e in Sch.Batch(s.worker) && e.fn.Clear?
    ensures ClearLive(Next(s, step), e.fn.generation, e.id)
  {
    if step.RunNext? {
      assert e == s.worker.batch[0] || e in s.worker.batch[1..];
    } else {
      assert Next(s, step).worker == s.worker;
    }
  }

  lemma LiveStep(s: State, step: Step, g: nat, h: Sch.Handle)
    requires Sch.Valid(s.core) && Enabled(s, step) && ClearLive(s, g, h)
    requires !step.SetText? && !step.Destroy? && !(step.ClearFired? && s.clear == Fired(g, h))
    ensures ClearLive(Next(s, step), g, h)
  {
    IndexStep(s, step, h);
    if h in s.core.index && s.core.index[h].fn == Clear(g) {
    } else if e :| e in Sch.Batch(s.worker) && e.id == h && e.fn == Clear(g) {
      BatchLiveStep(s, step, e);
    }
  }

  // Handles are given out in rising order.
  lemma NextIdStep(s: State, step: Step)
    requires Enabled(s, step)
    ensures s.core.nextId <= Next(s, step).core.nextId
    ensures step.SetSchedule? ==>
      var s' := Next(s, step);
      s'.clearHandle == s.core.nextId < s'.core.nextId && s'.clearHandle in s'.core.index
      && s'.core.index[s'.clearHandle].fn == Clear(s.generation)
  {
    hide Sch.Valid;
  }

  lemma CurrentSame(s: State, step: Step)
    requires Counted(s) && LifeOk(s) && Tagged(s) && CurrentClear(s) && Enabled(s, step)
    requires !step.SetText? && !step.SetSchedule? && !step.Destroy?
    ensures CurrentClear(Next(s, step))
  {
    var s' := Next(s, step);
    IndexStep(s, step, s.clearHandle);
    NextIdStep(s, step);
    hide Sch.Valid, Sch.Schedule, Sch.Collect, Sch.Cancel, CancelClear, Unresolved, ClearLive;
    if ClearLive(s, s.generation, s.clearHandle)
      && !(step.ClearFired? && s.clear == Fired(s.generation, s.clearHandle))
    {
      LiveStep(s, step, s.generation, s.clearHandle);
    }
    if s'.clearHandle == 0 && s.clearHandle != 0 {
      IndexStep(s, step, 0);
    }
    if step.ClearFired? && s.clear.generation == s.generation {
      NoHandleZero(s);
    }
  }

  lemma CurrentStep(s: State, step: Step)
    requires Counted(s) && LifeOk(s) && Tagged(s) && CurrentClear(s) && Enabled(s, step)
    ensures CurrentClear(Next(s, step))
  {
    hide Sch.Valid, Sch.Schedule, Sch.Collect, Sch.Cancel, CancelClear, Unresolved;
    match step
    case SetText(_, _) => CancelClearCounts(s);
    case SetSchedule(due) => NextIdStep(s, step);
    case Destroy => CancelClearCounts(s);
    case _ => CurrentSame(s, step);
  }

  lemma InvStep(s: State, step: Step)
    requires Inv(s) && Enabled(s, step)
    ensures Inv(Next(s, step))
  {
    CountStep(s, step);
    LifeStep(s, step);
    TaggedStep(s, step);
    CurrentStep(s, step);
  }

  lemma {:induction false} InvInRun(states: seq<State>, steps: seq<Step>, n: nat)
    requires Run(states, steps) && n < |states|
    ensures Inv(states[n])
  {
    if n > 0 {
      InvInRun(states, steps, n - 1);
      InvStep(states[n - 1], steps[n - 1]);
    }
  }

  // ---------------------------------------------------------------- the guarantees

  lemma TagStep(s: State, step: Step)
    requires Tagged(s) && Enabled(s, step)
    ensures s.generation <= Next(s, step).generation
    ensures forall h :: h in s.generationOf ==>
              h in Next(s, step).generationOf && Next(s, step).generationOf[h] == s.generationOf[h]
  {
  }

  lemma {:induction false} TagsGrow(states: seq<State>, steps: seq<Step>, i: nat, j: nat)
    requires Run(states, steps) && i <= j < |states|
    ensures states[i].generation <= states[j].generation
    ensures forall h :: h in states[i].generationOf ==>
              h in states[j].generationOf && states[j].generationOf[h] == states[i].generationOf[h]
    decreases j
  {
    if i < j {
      TagsGrow(states, steps, i, j - 1);
      InvInRun(states, steps, j - 1);
      TagStep(states[j - 1], steps[j - 1]);
    }
  }

  /** The clear that message `i` scheduled, when it runs after a later message `k`, leaves that
      message, its colour and its own clear alone. */
  lemma SupersededClearIsHarmless(states: seq<State>, steps: seq<Step>, i: nat, k: nat, j: nat)
    requires Run(states, steps) && i < k < j < |steps|
    requires steps[i].SetSchedule? && steps[k].SetText?
    requires steps[j].ClearFired? && states[j].clear.handle == states[i].core.nextId
    ensures states[j + 1].text == states[j].text && states[j + 1].severity == states[j].severity
    ensures states[j + 1].clearHandle == states[j].clearHandle && states[j + 1].generation == states[j].generation
  {
    InvInRun(states, steps, j);
    TagsGrow(states, steps, i + 1, j);
    TagsGrow(states, steps, i, k);
    TagsGrow(states, steps, k + 1, j);
    assert states[i + 1].generationOf[states[i].core.nextId] == states[i].generation;
  }

  /** No message is stuck: until the destructor, a text on display has the clear of its own
      generation queued, or dequeued and about to run. */
  lemma TextHasItsClear(states: seq<State>, steps: seq<Step>, n: nat)
    requires Run(states, steps) && n < |states| && !states[n].setting
    requires states[n].life == Alive || states[n].life == Unsubscribed
    requires states[n].text != ""
    ensures ClearLive(states[n], states[n].generation, states[n].clearHandle)
  {
    InvInRun(states, steps, n);
  }

  /** The destructor's sleep is never forgotten: a drained barrier is about to be notified. */
  lemma SleeperIsNotified(states: seq<State>, steps: seq<Step>, n: nat)
    requires Run(states, steps) && n < |states| && states[n].life == Asleep && Unresolved(states[n]) == 0
    ensures states[n].clear.OwesNotify?
  {
    InvInRun(states, steps, n);
  }

  lemma DestroyedStep(s: State, step: Step)
    requires Inv(s) && Enabled(s, step) && s.life == Destroyed
    ensures var s' := Next(s, step); s'.life == Destroyed && s'.text == s.text && s'.severity == s.severity
    ensures Unresolved(s) == 0 && !step.ClearFired? && !step.SetText? && !step.SetSchedule?
  {
  }

  lemma {:induction false} DestroyedStays(states: seq<State>, steps: seq<Step>, i: nat, j: nat)
    requires Run(states, steps) && i <= j < |states| && states[i].life == Destroyed
    ensures states[j].life == Destroyed
    ensures states[j].text == states[i].text && states[j].severity == states[i].severity
    decreases j
  {
    if i < j {
      DestroyedStays(states, steps, i, j - 1);
      InvInRun(states, steps, j - 1);
      DestroyedStep(states[j - 1], steps[j - 1]);
    }
  }

  /** When the destructor's wait has ended, no clear is queued, dequeued or executing, then or
      later, and nothing of the line's state is touched again. */
  lemma DestructorIsABarrier(states: seq<State>, steps: seq<Step>, i: nat, j: nat)
    requires Run(states, steps) && i <= j < |states| && states[i].life == Destroyed
    ensures Unresolved(states[j]) == 0 && states[j].text == states[i].text && states[j].severity == states[i].severity
    ensures j < |steps| ==> !steps[j].ClearFired? && !steps[j].SetText? && !steps[j].SetSchedule?
  {
    DestroyedStays(states, steps, i, j);
    InvInRun(states, steps, j);
    if j < |steps| {
      DestroyedStep(states[j], steps[j]);
    }
  }

  // ---------------------------------------------------------------- what is on display

  // Step k clears the line of the message that step i has set.
  ghost predicate ClearsMessage(states: seq<State>, steps: seq<Step>, i: nat, k: nat) {
    k < |steps| && k < |states| && i < |states| && steps[k].ClearFired? && states[k].clear.Fired?
    && states[k].clear.generation == states[i].generation + 1
  }

  ghost predicate IsCleared(states: seq<State>, steps: seq<Step>, i: nat, n: nat) {
    exists k :: i < k < n && ClearsMessage(states, steps, i, k)
  }

  lemma ShowStep(s: State, step: Step)
    requires Enabled(s, step)
    ensures var s' := Next(s, step);
      if step.SetText? then s'.text == step.text && s'.severity == step.severity && s'.generation == s.generation + 1
      else if step.ClearFired? && s.clear.generation == s.generation
      then s'.text == "" && s'.severity == SeverityOk && s'.generation == s.generation
      else s'.text == s.text && s'.severity == s.severity
           && s'.generation == s.generation + if step.Destroy? then 1 else 0
  {
    hide Sch.Schedule, Sch.Collect, Sch.Cancel;
  }

  lemma ClearedLater(states: seq<State>, steps: seq<Step>, i: nat, n: nat)
    ensures IsCleared(states, steps, i, n + 1)
        <==> IsCleared(states, steps, i, n) || (i < n && ClearsMessage(states, steps, i, n))
  {
    if IsCleared(states, steps, i, n) {
      var k :| i < k < n && ClearsMessage(states, steps, i, k);
      assert k < n + 1;
    }
  }

  /** While no later message is set and the line is not destroyed, it shows the last message in its
      colour until the clear of this very message runs, and nothing from then on. */
  lemma {:induction false} LastMessageShows(states: seq<State>, steps: seq<Step>, i: nat, n: nat)
    requires Run(states, steps) && i < n < |states| && steps[i].SetText?
    requires forall k :: i < k < n ==> !steps[k].SetText? && !steps[k].Destroy?
    ensures states[n].generation == states[i].generation + 1
    ensures if IsCleared(states, steps, i, n) then states[n].text == "" && states[n].severity == SeverityOk
            else states[n].text == steps[i].text && states[n].severity == steps[i].severity
    decreases n
  {
    hide Next, Enabled, Start;
    ShowStep(states[n - 1], steps[n - 1]);
    if n > i + 1 {
      LastMessageShows(states, steps, i, n - 1);
      ClearedLater(states, steps, i, n - 1);
      FiredWhenCleared(states[n - 1], steps[n - 1]);
      hide IsCleared;
    }
  }

  lemma FiredWhenCleared(s: State, step: Step)
    requires Enabled(s, step)
    ensures step.ClearFired? ==> s.clear.Fired?
  {
  }

  // The worker has taken handle `h` off the queue and its callback has not taken the lock.
  ghost predicate Dequeued(s: State, h: Sch.Handle) {
    (exists e :: e in Sch.Batch(s.worker) && e.id == h) || (s.clear.Fired? && s.clear.handle == h)
  }

  lemma TakenWereDue(s: State, now: Sch.Time, h: Sch.Handle)
    requires Sch.Valid(s.core) && Enabled(s, Dequeue(now)) && Dequeued(Next(s, Dequeue(now)), h)
    ensures Dequeued(s, h) || (h in s.core.index && s.core.index[h].due <= now)
  {
    Sch.CollectKeepsValid(s.core, now);
    var (core, batch) := Sch.Collect(s.core, now);
    hide Sch.Collect;
    if e :| e in batch && e.id == h {
      assert e in batch + core.queue;
    }
  }

  lemma DequeuedStep(s: State, step: Step, h: Sch.Handle)
    requires Sch.Valid(s.core) && Enabled(s, step) && Dequeued(Next(s, step), h)
    ensures Dequeued(s, h) || (step.Dequeue? && h in s.core.index && s.core.index[h].due <= step.now)
  {
    if step.Dequeue? {
      hide Sch.Collect, Next, Enabled;
      TakenWereDue(s, step.now, h);
    } else {
      hide Sch.Valid, Sch.Schedule, Sch.Collect, Sch.Cancel, CancelClear;
    }
  }

  ghost predicate HandedOut(s: State) {
    forall h: Sch.Handle :: Dequeued(s, h) ==> h < s.core.nextId
  }

  lemma {:induction false} DequeuedAreHandedOut(states: seq<State>, steps: seq<Step>, n: nat)
    requires Run(states, steps) && n < |states|
    ensures HandedOut(states[n])
  {
    if n > 0 {
      DequeuedAreHandedOut(states, steps, n - 1);
      InvInRun(states, steps, n - 1);
      var s, step := states[n - 1], steps[n - 1];
      NextIdStep(s, step);
      forall h: Sch.Handle | Dequeued(Next(s, step), h)
        ensures h < Next(s, step).core.nextId
      {
        DequeuedStep(s, step, h);
        IndexStep(s, step, h);
      }
    }
  }

  ghost predicate DueBetween(steps: seq<Step>, due: Sch.Time, i: nat, j: nat) {
    exists k :: i < k < j && k < |steps| && steps[k].Dequeue? && due <= steps[k].now
  }

  lemma WaitedOneMore(steps: seq<Step>, due: Sch.Time, i: nat, j: nat)
    requires i < j < |steps|
    ensures DueBetween(steps, due, i, j) || (steps[j].Dequeue? && due <= steps[j].now) ==>
      DueBetween(steps, due, i, j + 1)
  {
  }

  lemma ScheduleDequeuesNothing(s: State, due: Sch.Time, h: Sch.Handle)
    requires Enabled(s, SetSchedule(due))
    ensures Dequeued(Next(s, SetSchedule(due)), h) <==> Dequeued(s, h)
    ensures var core := Next(s, SetSchedule(due)).core;
      s.core.nextId < core.nextId && s.core.nextId in core.index && core.index[s.core.nextId].due == due
  {
    assert Next(s, SetSchedule(due)).worker == s.worker && Next(s, SetSchedule(due)).clear == s.clear;
  }

  lemma {:induction false} WaitsSoFar(states: seq<State>, steps: seq<Step>, due: Sch.Time, i: nat, j: nat)
    requires Run(states, steps) && i < j < |states| && steps[i] == SetSchedule(due)
    ensures var h := states[i].core.nextId;
            && h < states[j].core.nextId
            && (h in states[j].core.index ==> states[j].core.index[h].due == due)
            && (Dequeued(states[j], h) ==> DueBetween(steps, due, i, j))
    decreases j
  {
    var h := states[i].core.nextId;
    if j == i + 1 {
      DequeuedAreHandedOut(states, steps, i);
      ScheduleDequeuesNothing(states[i], due, h);
      hide Next;
    } else {
      var s, step := states[j - 1], steps[j - 1];
      WaitsSoFar(states, steps, due, i, j - 1);
      InvInRun(states, steps, j - 1);
      NextIdStep(s, step);
      IndexStep(s, step, h);
      hide Enabled, CancelClear;
      if Dequeued(states[j], h) {
        DequeuedStep(s, step, h);
        WaitedOneMore(steps, due, i, j - 1);
      }
    }
  }

  /** The clear of a message waits: it takes the lock only after the worker has looked at the clock,
      since the message, at or past the deadline that the message set. */
  lemma ClearWaitsItsTime(states: seq<State>, steps: seq<Step>, due: Sch.Time, i: nat, j: nat)
    requires Run(states, steps) && i < j < |steps| && steps[i] == SetSchedule(due)
    requires steps[j].ClearFired? && states[j].clear.Fired? && states[j].clear.handle == states[i].core.nextId
    ensures exists k :: i < k < j && steps[k].Dequeue? && due <= steps[k].now
  {
    WaitsSoFar(states, steps, due, i, j);
    assert Dequeued(states[j], states[i].core.nextId);
    hide Dequeued;
    assert DueBetween(steps, due, i, j);
  }

  // ---------------------------------------------------------------- settling

  // The steps that finish what has begun, and how many of them are left at most.
  predicate Finishes(step: Step) {
    || step.SetSchedule? || step.Dequeue? || step.RunNext? || step.EndBatch? || step.ClearFired? || step.ClearNotify?
    || step.Destroy? || step.Recheck?
  }

  ghost function Work(s: State): nat {
    8 * |s.core.queue| + 6 * |Sch.Batch(s.worker)| + (if s.worker.Running? then 1 else 0)
    + (if s.setting then 9 else 0)
    + (match s.clear case NoClear => 0 case OwesNotify => 3 case Fired(_, _) => 4)
    + match s.life
      case Unsubscribed => 2
      case Awake => 1
      case _ => 0
  }

  // Nothing is running, queued or waiting to go on.
  ghost predicate Settled(s: State) {
    && !s.setting && s.clear.NoClear? && s.worker.Waiting? && s.core.queue == []
    && !s.life.Unsubscribed? && !s.life.Awake?
  }

  lemma ScheduleWorks(s: State, due: Sch.Time)
    requires Enabled(s, SetSchedule(due))
    ensures Work(Next(s, SetSchedule(due))) < Work(s)
  {
    Sch.Sizes(s.core, due, Clear(s.generation), 0, 0);
    hide Sch.Schedule, Sch.Collect, Sch.Cancel;
  }

  lemma DequeueWorks(s: State, now: Sch.Time)
    requires Enabled(s, Dequeue(now))
    ensures Work(Next(s, Dequeue(now))) < Work(s)
  {
    Sch.Sizes(s.core, 0, Foreign(0), 0, now);
    hide Sch.Schedule, Sch.Collect, Sch.Cancel;
  }

  lemma DestroyWorks(s: State)
    requires Enabled(s, Destroy)
    ensures Work(Next(s, Destroy)) < Work(s)
  {
    Sch.Sizes(s.core, 0, Foreign(0), s.clearHandle, 0);
    hide Sch.Schedule, Sch.Collect, Sch.Cancel;
  }

  lemma WorkShrinks(s: State, step: Step)
    requires Finishes(step) && Enabled(s, step)
    ensures Work(Next(s, step)) < Work(s)
  {
    match step
    case SetSchedule(due) => ScheduleWorks(s, due); hide Next, Work;
    case Dequeue(now) => DequeueWorks(s, now); hide Next, Work;
    case Destroy => DestroyWorks(s); hide Next, Work;
    case _ => hide Sch.Schedule, Sch.Collect, Sch.Cancel, CancelClear;
  }

  lemma {:induction false} ExitedIsStopped(states: seq<State>, steps: seq<Step>, n: nat)
    requires Run(states, steps) && n < |states|
    ensures states[n].worker.Exited? ==> states[n].core.stopping
  {
    hide Next, Enabled;
    if n > 0 {
      hide Start;
      ExitedIsStopped(states, steps, n - 1);
      StoppingStays(states[n - 1], steps[n - 1]);
    }
  }

  lemma StoppingStays(s: State, step: Step)
    requires Enabled(s, step)
    ensures s.core.stopping || step.TimerShutdown? ==> Next(s, step).core.stopping
    ensures Next(s, step).worker.Exited? ==> s.worker.Exited? || s.core.stopping
    ensures step.WorkerExit? ==> Next(s, step).worker.Exited?
  {
    hide Sch.Insert, Sch.Without, Sch.Due, Sch.Later;
  }

  lemma NextToDo(s: State) returns (step: Step)
    requires !Settled(s) && !s.core.stopping && !s.worker.Exited?
    ensures Finishes(step) && Enabled(s, step)
  {
    if s.setting {
      step := SetSchedule(0);
    } else if !s.clear.NoClear? {
      step := if s.clear.Fired? then ClearFired else ClearNotify;
    } else if s.worker.Running? {
      step := if s.worker.batch != [] then RunNext else EndBatch;
    } else if s.life.Unsubscribed? || s.life.Awake? {
      step := if s.life.Unsubscribed? then Destroy else Recheck;
    } else {
      step := Dequeue(s.core.queue[0].due);
    }
  }

  /** As long as the timer is not shut down, whatever has begun can go on and ends: each finishing step
      leaves less to do, one is possible until the line has settled, and then the text is cleared and
      the destructor, if it was called, has returned. */
  lemma LineSettles(states: seq<State>, steps: seq<Step>, n: nat)
    requires Run(states, steps) && n < |states| && !states[n].core.stopping
    ensures forall step :: Finishes(step) && Enabled(states[n], step) ==> Work(Next(states[n], step)) < Work(states[n])
    ensures !Settled(states[n]) ==> exists step :: Finishes(step) && Enabled(states[n], step)
    ensures Settled(states[n]) && states[n].life == Alive ==> states[n].text == ""
    ensures Settled(states[n]) ==> states[n].life == Alive || states[n].life == Destroyed
  {
    var s := states[n];
    ExitedIsStopped(states, steps, n);
    forall step | Finishes(step) && Enabled(s, step)
      ensures Work(Next(s, step)) < Work(s)
    {
      WorkShrinks(s, step);
    }
    if !Settled(s) {
      var step := NextToDo(s);
      assert Finishes(step) && Enabled(s, step);
    } else {
      InvInRun(states, steps, n);
      SettledIsQuiet(s);
    }
  }

  lemma SettledIsQuiet(s: State)
    requires Inv(s) && Settled(s)
    ensures s.life == Alive ==> s.text == ""
    ensures s.life == Alive || s.life == Destroyed
  {
    assert s.core.index.Keys == {};
  }

  /** From the moment the destructor has unsubscribed no message comes in; it returns at the first look
      that finds nothing outstanding, and sleeps at every other. */
  lemma DestructorLooks(s: State, step: Step)
    requires Enabled(s, step)
    ensures step.Unsubscribe? ==> Next(s, step).life == Unsubscribed
    ensures s.life != Alive ==> Next(s, step).life != Alive && !step.SetText?
    ensures step.Destroy? || step.Recheck? ==>
      Next(s, step).life == if Next(s, step).outstanding == 0 then Destroyed else Asleep
    ensures !step.Destroy? && !step.Recheck? && s.life != Destroyed ==> Next(s, step).life != Destroyed
  {
    hide Sch.Schedule, Sch.Collect, Sch.Cancel;
  }

  // Messages and the destructor's unsubscribing are accepted while the line lives.
  lemma InputsAreAccepted(s: State, text: string, severity: Severity, due: Sch.Time, tag: int)
    ensures Enabled(s, ForeignSchedule(due, tag)) && Enabled(s, TimerShutdown)
    ensures s.life == Alive && !s.setting <==> Enabled(s, SetText(text, severity))
    ensures s.life == Alive && !s.setting <==> Enabled(s, Unsubscribe)
    ensures s.life == Asleep <==> Enabled(s, Spurious)
  {
  }

  // ---------------------------------------------------------------- the class

  /** The fields of the line.  Each method is one stretch of code under `mutex_`; `s` is any
      state of the machine above that agrees with the fields, and the method makes its steps. */
  class StatusLineVM {
    const timer: Sch.DelayedScheduler<Callback>
    var text: string
    var severity: Severity
    var clearHandle: Sch.Handle
    var generation: nat
    var outstanding: int

    ghost predicate Shows(s: State)
      reads this, timer
    {
      && Sch.Valid(timer.State()) && s.core == timer.State()
      && s.text == text && s.severity == severity && s.generation == generation
      && s.clearHandle == clearHandle && s.outstanding == outstanding
    }

    constructor (timer: Sch.DelayedScheduler<Callback>)
      ensures this.timer == timer && text == "" && severity == SeverityOk
      ensures clearHandle == 0 && generation == 0 && outstanding == 0
    {
      this.timer, text, severity, clearHandle, generation, outstanding := timer, "", SeverityOk, 0, 0, 0;
    }

    method CancelPending(ghost s: State)
      requires Shows(s)
      modifies this, timer
      ensures Shows(CancelClear(s))
    {
      if clearHandle != 0 {
        var found := timer.CancelHandle(clearHandle);
        if found {
          outstanding := outstanding - 1;
        }
      }
    }

    method ShowText(message: string, newSeverity: Severity, ghost s: State)
      requires Shows(s) && Enabled(s, SetText(message, newSeverity))
      modifies this, timer
      ensures Shows(Next(s, SetText(message, newSeverity)))
    {
      text := message;
      severity := newSeverity;
      CancelPending(s.(text := message, severity := newSeverity));
      generation := generation + 1;
      outstanding := outstanding + 1;
    }

    method ScheduleClear(due: Sch.Time, ghost s: State)
      requires Shows(s) && Enabled(s, SetSchedule(due))
      modifies this, timer
      ensures Shows(Next(s, SetSchedule(due)))
    {
      clearHandle := timer.ScheduleAt(due, Clear(generation));
    }

    method SetMessage(message: string, newSeverity: Severity, due: Sch.Time, ghost s: State)
      requires Shows(s) && Enabled(s, SetText(message, newSeverity))
      modifies this, timer
      ensures Shows(Next(Next(s, SetText(message, newSeverity)), SetSchedule(due)))
    {
      ShowText(message, newSeverity, s);
      ScheduleClear(due, Next(s, SetText(message, newSeverity)));
    }

    method OnClearFired(tag: nat, ghost s: State) returns (cleared: bool)
      requires Shows(s) && Enabled(s, ClearFired) && s.clear.generation == tag
      modifies this
      ensures Shows(Next(s, ClearFired)) && (cleared <==> tag == generation)
    {
      cleared := false;
      if tag == generation {
        text, severity, clearHandle := "", SeverityOk, 0;
        cleared := true;
      }
      outstanding := outstanding - 1;
    }

    // The destructor's critical section, up to its first look at the counter.
    method CancelLast(ghost s: State) returns (drained: bool)
      requires Shows(s) && Enabled(s, Destroy)
      modifies this, timer
      ensures Shows(Next(s, Destroy)) && (drained <==> Next(s, Destroy).life == Destroyed)
    {
      CancelPending(s);
      generation := generation + 1;
      drained := outstanding == 0;
    }
  }
}
