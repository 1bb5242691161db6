/**
  The hotplug debounce and its completion barrier (app/src/hotplug_service.cpp).

  Three threads meet: the monitor's reader calls onEvent, the timer thread runs
  flush, the owner calls stop.  Steps are as fine as the locks allow: onEvent and
  stop hold `mutex_` across several calls into the scheduler, and the scheduler's
  worker, which has its own lock, may dequeue between any two of them.
 */
module Hotplug {
  import opened Models
  import opened DeviceServices
  import Sch = Scheduler

  // The timer is shared: entries of other clients are Foreign.
  datatype Callback = Flush(id: string) | Foreign(tag: int)

  datatype Pending = Pending(event: HotplugEvent, handle: Sch.Handle)

  // Where the timer thread is inside flush; it holds no lock between these points.
  datatype FlushPc =
    | NoFlush
    | Started(id: string, handle: Sch.Handle)
    | Took(event: Option<HotplugEvent>)
    | Applied
    | OwesNotify

  // Who holds `mutex_` across more than one step.
  datatype Holder = Free | Reader(id: string) | Stopper(todo: set<string>)

  datatype StopPc = NotStopping | MonitorStopped | Cancelling | Asleep | Awake | Returned

  datatype State = State(
    core: Sch.Sched<Callback>, worker: Sch.Worker<Callback>, flush: FlushPc,
    pending: map<string, Pending>, outstanding: int, holder: Holder, stop: StopPc, model: Model,
    // history: the events received, and those that stop threw away
    received: seq<HotplugEvent>, dropped: map<string, HotplugEvent>)

  datatype Step =
    | EventCancel(event: HotplugEvent)   // onEvent: lock, cancel the old flush, store the event
    | EventSchedule(due: Sch.Time)       // onEvent: claim, schedule, unlock
    | Dequeue(now: Sch.Time)             // the worker takes every due entry
    | RunNext                            // ... starts the next callback of its batch
    | EndBatch
    | FlushTake | FlushApply | FlushResolve | FlushNotify
    | StopMonitor | StopLock | StopCancel(id: string) | StopCheck | StopSpurious | StopRecheck | StopAgain
    | ForeignSchedule(due: Sch.Time, tag: int) | ForeignCancel(h: Sch.Handle)
    | TimerShutdown | WorkerExit

  ghost predicate Enabled(s: State, step: Step) {
    match step
    case EventCancel(_) => s.stop == NotStopping && s.holder.Free?
    case EventSchedule(_) => s.holder.Reader? && s.holder.id in s.pending
    case Dequeue(now) =>
      s.worker.Waiting? && !s.core.stopping && s.core.queue != [] && s.core.queue[0].due <= now
    case RunNext => s.worker.Running? && s.worker.batch != [] && s.flush.NoFlush?
    case EndBatch => s.worker.Running? && s.worker.batch == [] && s.flush.NoFlush?
    case FlushTake => s.flush.Started? && s.holder.Free?
    case FlushApply => s.flush.Took?
    case FlushResolve => s.flush.Applied? && s.holder.Free?
    case FlushNotify => s.flush.OwesNotify?
    case StopMonitor => s.stop == NotStopping && s.holder.Free?
    case StopLock => s.stop == MonitorStopped && s.holder.Free?
    case StopCancel(id) => s.holder.Stopper? && id in s.holder.todo && id in s.pending
    case StopCheck => s.holder == Stopper({})
    case StopSpurious => s.stop == Asleep
    case StopRecheck => s.stop == Awake && s.holder.Free?
    case StopAgain => s.stop == Returned
    case ForeignCancel(h) => h in s.core.index ==> s.core.index[h].fn.Foreign?
    case WorkerExit => s.worker.Waiting? && s.core.stopping
    case _ => true
  }

  ghost function CancelFlush(s: State, h: Sch.Handle): State {
    var (core, ok) := Sch.Cancel(s.core, h);
    s.(core := core, outstanding := if ok then s.outstanding - 1 else s.outstanding)
  }

  ghost function Events(pending: map<string, Pending>): map<string, HotplugEvent> {
    map k | k in pending :: pending[k].event
  }

  ghost function Next(s: State, step: Step): State
    requires Enabled(s, step)
  {
    match step
    case EventCancel(e) =>
      var id := e.device.id;
      var c := if id in s.pending then CancelFlush(s, s.pending[id].handle) else s;
      var handle := if id in s.pending then s.pending[id].handle else 0;
      c.(pending := s.pending[id := Pending(e, handle)], holder := Reader(id), received := s.received + [e])
    case EventSchedule(due) =>
      var id := s.holder.id;
      var (core, h) := Sch.Schedule(s.core, due, Flush(id));
      s.(core := core, outstanding := s.outstanding + 1,
         pending := s.pending[id := s.pending[id].(handle := h)], holder := Free)
    case Dequeue(now) =>
      var (core, batch) := Sch.Collect(s.core, now);
      s.(core := core, worker := Sch.Running(batch))
    case RunNext =>
      var e := s.worker.batch[0];
      s.(worker := Sch.Running(s.worker.batch[1..]),
         flush := if e.fn.Flush? then Started(e.fn.id, e.id) else NoFlush)
    case EndBatch => s.(worker := Sch.Waiting)
    case FlushTake =>
      var id := s.flush.id;
      if id in s.pending then s.(flush := Took(Some(s.pending[id].event)), pending := s.pending - {id})
      else s.(flush := Took(None))
    case FlushApply => s.(flush := Applied, model := InFlightApplied(s))
    case FlushResolve => s.(flush := OwesNotify, outstanding := s.outstanding - 1)
    case FlushNotify => s.(flush := NoFlush, stop := if s.stop == Asleep then Awake else s.stop)
    case StopMonitor => s.(stop := MonitorStopped)
    case StopLock => s.(stop := Cancelling, holder := Stopper(s.pending.Keys))
    case StopCancel(id) => CancelFlush(s, s.pending[id].handle).(holder := Stopper(s.holder.todo - {id}))
    case StopCheck =>
      s.(pending := map[], dropped := s.dropped + Events(s.pending), holder := Free,
         stop := if s.outstanding == 0 then Returned else Asleep)
    case StopSpurious => s.(stop := Awake)
    case StopRecheck => s.(stop := if s.outstanding == 0 then Returned else Asleep)
    case StopAgain => s.(stop := MonitorStopped)
    case ForeignSchedule(due, tag) => s.(core := Sch.Schedule(s.core, due, Foreign(tag)).0)
    case ForeignCancel(h) => s.(core := Sch.Cancel(s.core, h).0)
    case TimerShutdown => s.(core := s.core.(stopping := true))
    case WorkerExit => s.(worker := Sch.Exited)
  }

  ghost predicate Start(s: State) {
    s.core == Sch.Initial<Callback>() && s.worker == Sch.Waiting && s.flush == NoFlush && s.pending == map[] &&
    s.outstanding == 0 && s.holder == Free && s.stop == NotStopping && s.model == map[] &&
    s.received == [] && s.dropped == map[]
  }

  ghost predicate Run(states: seq<State>, steps: seq<Step>) {
    && |states| == |steps| + 1
    && Start(states[0])
    && forall i :: 0 <= i < |steps| ==> Enabled(states[i], steps[i]) && states[i + 1] == Next(states[i], steps[i])
  }

  // ---------------------------------------------------------------- the barrier's count

  ghost predicate IsFlush(c: Callback) {
    c.Flush?
  }

  ghost function Flushes(q: seq<Sch.Entry<Callback>>): nat {
    Sch.Count(q, IsFlush)
  }

  // The flush that is executing and has not yet given its claim back.
  ghost function Executing(f: FlushPc): nat {
    if f.Started? || f.Took? || f.Applied? then 1 else 0
  }

  ghost function Unresolved(s: State): nat {
    Flushes(s.core.queue) + Flushes(Sch.Batch(s.worker)) + Executing(s.flush)
  }

  // ---------------------------------------------------------------- the invariant

  // The flush scheduled as `h` for `id` is queued, or dequeued and not yet past its first lock.
  ghost predicate FlushLive(s: State, id: string, h: Sch.Handle) {
    || (h in s.core.index && s.core.index[h].fn == Flush(id))
    || (exists e :: e in Sch.Batch(s.worker) && e.id == h && e.fn == Flush(id))
    || s.flush == Started(id, h)
  }

  // Reader and Stopper are about to renew or drop the flush of these ids.
  ghost predicate Settled(holder: Holder, id: string) {
    match holder
    case Free => true
    case Reader(r) => id != r
    case Stopper(todo) => id in todo
  }

  ghost predicate PendingOk(s: State) {
    && (forall id :: id in s.pending ==> s.pending[id].event.device.id == id && s.pending[id].handle < s.core.nextId)
    && (forall id :: id in s.pending ==> s.pending[id].handle in s.core.index ==>
          s.core.index[s.pending[id].handle].fn == Flush(id))
    && (forall id :: id in s.pending && Settled(s.holder, id) ==> FlushLive(s, id, s.pending[id].handle))
    && (s.holder.Reader? ==> s.holder.id in s.pending)
  }

  ghost predicate StopOk(s: State) {
    && (s.stop != NotStopping ==> !s.holder.Reader?)
    && (s.holder.Stopper? <==> s.stop == Cancelling)
    && (s.holder.Stopper? ==> s.holder.todo <= s.pending.Keys)
    && (s.stop in {Asleep, Awake, Returned} ==> s.pending == map[])
    && (s.stop == Returned ==> s.outstanding == 0)
       // no sleeper is forgotten: a drained barrier is about to be notified
    && (s.stop == Asleep && s.outstanding == 0 ==> s.flush.OwesNotify?)
  }

  ghost predicate Counted(s: State) {
    Sch.Valid(s.core) && s.outstanding == Unresolved(s)
  }

  ghost predicate Inv(s: State) {
    Counted(s) && PendingOk(s) && StopOk(s) && Debounced(s)
  }

  // ---------------------------------------------------------------- what debouncing refines

  // The model that undelayed application of the events would have built.
  ghost function Immediate(received: seq<HotplugEvent>): Model {
    if received == [] then map[]
    else Apply(Immediate(received[..|received| - 1]), received[|received| - 1])
  }

  ghost function InFlightApplied(s: State): Model {
    if s.flush.Took? && s.flush.event.Some? then Apply(s.model, s.flush.event.value) else s.model
  }

  ghost function At(m: Model, k: string): Option<Device> {
    if k in m then Some(m[k]) else None
  }

  ghost function Outcome(e: HotplugEvent): Option<Device> {
    if e.action == Removed then None else Some(e.device)
  }

  // The newest word on device `k`: its pending event, else the one in flight, else the model.
  // An event that stop threw away counts as if it were still to come.
  ghost function Newest(s: State, k: string): Option<Device> {
    if k in s.dropped then Outcome(s.dropped[k])
    else if k in s.pending then Outcome(s.pending[k].event)
    else At(InFlightApplied(s), k)
  }

  ghost predicate Debounced(s: State) {
    && (forall k :: Newest(s, k) == At(Immediate(s.received), k))
    && (s.stop == NotStopping || s.pending != map[] ==> s.dropped == map[])
  }

  // ---------------------------------------------------------------- every step keeps it

  lemma CancelCounts(s: State, h: Sch.Handle)
    requires Counted(s) && (h in s.core.index ==> s.core.index[h].fn.Flush?)
    ensures Counted(CancelFlush(s, h))
  {
    Sch.CancelKeepsValid(s.core, h);
    Sch.CancelCounts(s.core, h, IsFlush);
  }

  lemma ScheduleIsCounted(s: State, due: Sch.Time, fn: Callback)
    requires Sch.Valid(s.core)
    ensures var core := Sch.Schedule(s.core, due, fn).0;
      Sch.Valid(core) && Flushes(core.queue) == Flushes(s.core.queue) + if IsFlush(fn) then 1 else 0
  {
    Sch.ScheduleKeepsValid(s.core, due, fn);
    Sch.ScheduleCounts(s.core, due, fn, IsFlush);
  }

  lemma CollectIsCounted(s: State, now: Sch.Time)
    requires Sch.Valid(s.core)
    ensures var (core, batch) := Sch.Collect(s.core, now);
      Sch.Valid(core) && Flushes(core.queue) + Flushes(batch) == Flushes(s.core.queue)
  {
    Sch.CollectKeepsValid(s.core, now);
    Sch.CollectCounts(s.core, now, IsFlush);
  }

  lemma ForeignCancelIsCounted(s: State, h: Sch.Handle)
    requires Sch.Valid(s.core) && (h in s.core.index ==> s.core.index[h].fn.Foreign?)
    ensures var core := Sch.Cancel(s.core, h).0; Sch.Valid(core) && Flushes(core.queue) == Flushes(s.core.queue)
  {
    Sch.CancelKeepsValid(s.core, h);
    Sch.CancelCounts(s.core, h, IsFlush);
  }

  lemma StoppingIsValid(s: State)
    requires Sch.Valid(s.core)
    ensures Sch.Valid(s.core.(stopping := true))
  {
  }

  // A cancel touches the scheduler and the count only.
  lemma CancelFlushIs(s: State, h: Sch.Handle)
    ensures CancelFlush(s, h) == s.(core := CancelFlush(s, h).core, outstanding := CancelFlush(s, h).outstanding)
  {
  }

  lemma CountStep(s: State, step: Step)
    requires Counted(s) && PendingOk(s) && Enabled(s, step)
    ensures Counted(Next(s, step))
  {
    match step
    case EventCancel(e) =>
      if e.device.id in s.pending {
        CancelCounts(s, s.pending[e.device.id].handle);
        hide Sch.Valid, Sch.Cancel, CancelFlush, PendingOk;
        CancelFlushIs(s, s.pending[e.device.id].handle);
      }
    case StopCancel(id) =>
      CancelCounts(s, s.pending[id].handle);
      hide Sch.Valid, Sch.Cancel, CancelFlush, PendingOk;
      CancelFlushIs(s, s.pending[id].handle);
    case _ => OtherCountStep(s, step);
  }

  lemma OtherCountStep(s: State, step: Step)
    requires Counted(s) && Enabled(s, step) && !step.EventCancel? && !step.StopCancel?
    ensures Counted(Next(s, step))
  {
    hide Sch.Valid, Sch.Schedule, Sch.Collect, Sch.Cancel, Flushes;
    match step
    case EventSchedule(due) => ScheduleIsCounted(s, due, Flush(s.holder.id));
    case Dequeue(now) =>
      CollectIsCounted(s, now);
      NoFlushes();
    case ForeignSchedule(due, tag) => ScheduleIsCounted(s, due, Foreign(tag));
    case ForeignCancel(h) => ForeignCancelIsCounted(s, h);
    case WorkerExit => NoFlushes();
    case TimerShutdown => StoppingIsValid(s);
    case RunNext => OneFlush(s.worker.batch);
    case EndBatch => NoFlushes();
    case _ =>
  }

  lemma OneFlush(batch: seq<Sch.Entry<Callback>>)
    requires batch != []
    ensures Flushes(batch) == Flushes(batch[1..]) + if batch[0].fn.Flush? then 1 else 0
  {
  }

  lemma NoFlushes()
    ensures Flushes([]) == 0
  {
  }

  lemma StopStep(s: State, step: Step)
    requires Counted(s) && StopOk(s) && Enabled(s, step)
    ensures StopOk(Next(s, step))
  {
    hide Sch.Valid, Sch.Schedule, Sch.Collect, Sch.Cancel;
  }

  // What an entry of the index becomes: it stays, or a step took exactly it away.
  lemma IndexStep(s: State, step: Step, h: Sch.Handle)
    requires Sch.Valid(s.core) && Enabled(s, step)
    ensures var index := Next(s, step).core.index;
            h in index && h < s.core.nextId ==> h in s.core.index && index[h] == s.core.index[h]
    ensures var index := Next(s, step).core.index;
            h in s.core.index && h !in index ==>
              || (step.EventCancel? && step.event.device.id in s.pending && s.pending[step.event.device.id].handle == h)
              || (step.StopCancel? && s.pending[step.id].handle == h)
              || step == ForeignCancel(h)
              || (step.Dequeue? && s.core.index[h] in Sch.Batch(Next(s, step).worker))
    ensures h in s.core.index && h in Next(s, step).core.index ==> Next(s, step).core.index[h] == s.core.index[h]
    ensures h in s.core.index ==> 0 < h < s.core.nextId
  {
    if h in s.core.index {
      var e := Sch.IdMember(s.core.queue, h);
      if step.Dequeue? {
        Sch.CollectKeepsValid(s.core, step.now);
        var (core, batch) := Sch.Collect(s.core, step.now);
        assert e in batch + core.queue;
        if e in core.queue {
          Sch.MemberId(core.queue, e);
        }
      }
    }
  }

  // A queued flush stays queued, or moves into the batch.
  lemma QueuedLiveStep(s: State, step: Step, id: string, h: Sch.Handle)
    requires Sch.Valid(s.core) && Enabled(s, step)
    requires h in s.core.index && s.core.index[h].fn == Flush(id)
    requires step.EventCancel? && step.event.device.id in s.pending ==> s.pending[step.event.device.id].handle != h
    requires step.StopCancel? ==> s.pending[step.id].handle != h
    ensures FlushLive(Next(s, step), id, h)
  {
    IndexStep(s, step, h);
    var e := Sch.IdMember(s.core.queue, h);
    assert s.core.index[h] == e;
  }

  // A dequeued flush stays in the batch, or starts.
  lemma BatchLiveStep(s: State, step: Step, id: string, e: Sch.Entry<Callback>)
    requires Enabled(s, step) && e in Sch.Batch(s.worker) && e.fn == Flush(id)
    ensures FlushLive(Next(s, step), id, e.id)
  {
    if step.RunNext? {
      assert e == s.worker.batch[0] || e in s.worker.batch[1..];
    } else {
      assert Next(s, step).worker == s.worker;
    }
  }

  lemma LiveStep(s: State, step: Step, id: string)
    requires Sch.Valid(s.core) && PendingOk(s) && Enabled(s, step) && id in s.pending && id in Next(s, step).pending
    requires Settled(s.holder, id) && Settled(Next(s, step).holder, id)
    ensures FlushLive(Next(s, step), id, s.pending[id].handle)
  {
    hide Sch.Valid, Sch.Schedule, Sch.Collect, Sch.Cancel;
    var h := s.pending[id].handle;
    if h in s.core.index && s.core.index[h].fn == Flush(id) {
      QueuedLiveStep(s, step, id, h);
    } else if e :| e in Sch.Batch(s.worker) && e.id == h && e.fn == Flush(id) {
      BatchLiveStep(s, step, id, e);
    }
  }

  // Handles are given out in rising order.
  lemma NextIdStep(s: State, step: Step)
    requires Enabled(s, step)
    ensures s.core.nextId <= Next(s, step).core.nextId
    ensures step.EventSchedule? && s.holder.id in s.pending ==>
      var s', id := Next(s, step), s.holder.id;
      && s'.pending[id] == s.pending[id].(handle := s.core.nextId) && s.core.nextId < s'.core.nextId
      && s.core.nextId in s'.core.index && s'.core.index[s.core.nextId].fn == Flush(id)
  {
    hide Sch.Valid;
  }

  // The steps that change what is pending or who holds the lock.
  predicate TouchesPending(step: Step) {
    step.EventCancel? || step.EventSchedule? || step.FlushTake? || step.StopLock? || step.StopCancel? || step.StopCheck?
  }

  lemma Untouched(s: State, step: Step)
    requires Enabled(s, step) && !TouchesPending(step)
    ensures var s' := Next(s, step);
      && s'.pending == s.pending && s'.dropped == s.dropped && s'.holder == s.holder
      && InFlightApplied(s') == InFlightApplied(s)
  {
    hide Sch.Valid, Sch.Schedule, Sch.Collect, Sch.Cancel;
  }

  // Only the reader's schedule gives a pending event a new handle.
  lemma PendingFrom(s: State, step: Step, id: string)
    requires PendingOk(s) && Enabled(s, step) && id in Next(s, step).pending
    ensures Next(s, step).pending[id].event.device.id == id
    ensures id !in s.pending ==>
      step.EventCancel? && id == step.event.device.id && Next(s, step).pending[id].handle == 0
    ensures id in s.pending && !(step.EventSchedule? && id == s.holder.id) ==>
      Next(s, step).pending[id].handle == s.pending[id].handle
  {
    hide Sch.Valid, Sch.Schedule, Sch.Collect, Sch.Cancel, FlushLive, InFlightApplied, CancelFlush;
    if !TouchesPending(step) {
      Untouched(s, step);
      hide Next;
    } else if step.StopCancel? {
      CancelFlushIs(s, s.pending[step.id].handle);
    }
  }

  lemma HandleStep(s: State, step: Step, id: string)
    requires Sch.Valid(s.core) && PendingOk(s) && Enabled(s, step) && id in Next(s, step).pending
    ensures var s' := Next(s, step);
            && s'.pending[id].event.device.id == id && s'.pending[id].handle < s'.core.nextId
            && (s'.pending[id].handle in s'.core.index ==> s'.core.index[s'.pending[id].handle].fn == Flush(id))
  {
    var h := Next(s, step).pending[id].handle;
    NextIdStep(s, step);
    PendingFrom(s, step, id);
    IndexStep(s, step, h);
    FreshHandles(s);
    hide Next, Enabled, FlushLive, Sch.Valid;
  }

  lemma FreshHandles(s: State)
    requires Sch.Valid(s.core)
    ensures 0 < s.core.nextId && 0 !in s.core.index
  {
    if 0 in s.core.index {
      var e := Sch.IdMember(s.core.queue, 0);
    }
  }

  lemma PendingStep(s: State, step: Step)
    requires Sch.Valid(s.core) && PendingOk(s) && StopOk(s) && Enabled(s, step)
    ensures PendingOk(Next(s, step))
  {
    var s' := Next(s, step);
    forall id | id in s'.pending
      ensures s'.pending[id].event.device.id == id && s'.pending[id].handle < s'.core.nextId
      ensures s'.pending[id].handle in s'.core.index ==> s'.core.index[s'.pending[id].handle].fn == Flush(id)
    {
      HandleStep(s, step, id);
    }
    forall id | id in s'.pending && Settled(s'.holder, id)
      ensures FlushLive(s', id, s'.pending[id].handle)
    {
      SettledStep(s, step, id);
    }
  }

  lemma SettledStep(s: State, step: Step, id: string)
    requires Sch.Valid(s.core) && PendingOk(s) && StopOk(s) && Enabled(s, step)
    requires id in Next(s, step).pending && Settled(Next(s, step).holder, id)
    ensures FlushLive(Next(s, step), id, Next(s, step).pending[id].handle)
  {
    NextIdStep(s, step);
    PendingFrom(s, step, id);
    SettledOnly(s, step, id);
    if !(step.EventSchedule? && s.holder == Reader(id)) {
      LiveStep(s, step, id);
    }
  }

  // A step settles an id only by the reader's schedule.
  lemma SettledOnly(s: State, step: Step, id: string)
    requires PendingOk(s) && StopOk(s) && Enabled(s, step)
    requires id in Next(s, step).pending && Settled(Next(s, step).holder, id)
    ensures id in s.pending && (Settled(s.holder, id) || (step.EventSchedule? && s.holder == Reader(id)))
  {
    hide Sch.Valid, Sch.Schedule, Sch.Collect, Sch.Cancel, FlushLive, Unresolved, InFlightApplied, CancelFlush;
    if !TouchesPending(step) {
      Untouched(s, step);
      hide Next;
    } else if step.StopCancel? {
      CancelFlushIs(s, s.pending[step.id].handle);
    }
  }

  // Only the arrival of an event for `k` changes the newest word on `k`.
  lemma NewestStep(s: State, step: Step, k: string)
    requires Enabled(s, step)
    requires forall id :: id in s.pending ==> s.pending[id].event.device.id == id
    requires s.stop == NotStopping || s.pending != map[] ==> s.dropped == map[]
    ensures Newest(Next(s, step), k)
         == if step.EventCancel? && step.event.device.id == k then Outcome(step.event) else Newest(s, k)
  {
    hide Sch.Schedule, Sch.Collect, Sch.Cancel, CancelFlush;
    if !TouchesPending(step) {
      Untouched(s, step);
      hide Next;
    } else if step.StopCancel? {
      CancelFlushIs(s, s.pending[step.id].handle);
    } else if step.EventCancel? && step.event.device.id in s.pending {
      CancelFlushIs(s, s.pending[step.event.device.id].handle);
    }
  }

  lemma ImmediateNext(received: seq<HotplugEvent>, e: HotplugEvent, k: string)
    ensures At(Immediate(received + [e]), k) == if e.device.id == k then Outcome(e) else At(Immediate(received), k)
  {
    assert (received + [e])[..|received|] == received;
  }

  lemma ReceivedStep(s: State, step: Step)
    requires Enabled(s, step)
    ensures Next(s, step).received == if step.EventCancel? then s.received + [step.event] else s.received
  {
    hide Sch.Schedule, Sch.Collect, Sch.Cancel, InFlightApplied;
  }

  // Nothing is thrown away but by stop, and then nothing is pending.
  lemma DroppedStep(s: State, step: Step)
    requires StopOk(s) && Enabled(s, step) && (s.stop == NotStopping || s.pending != map[] ==> s.dropped == map[])
    ensures var s' := Next(s, step); s'.stop == NotStopping || s'.pending != map[] ==> s'.dropped == map[]
  {
    hide Sch.Schedule, Sch.Collect, Sch.Cancel, InFlightApplied;
  }

  lemma DebounceStep(s: State, step: Step)
    requires PendingOk(s) && StopOk(s) && Debounced(s) && Enabled(s, step)
    ensures Debounced(Next(s, step))
  {
    hide Newest, At, Next, Enabled, FlushLive, StopOk;
    var s' := Next(s, step);
    ReceivedStep(s, step);
    DroppedStep(s, step);
    forall k
      ensures Newest(s', k) == At(Immediate(s'.received), k)
    {
      NewestStep(s, step, k);
      assert Newest(s, k) == At(Immediate(s.received), k);
      if step.EventCancel? {
        ImmediateNext(s.received, step.event, k);
      }
    }
  }

  lemma InvStep(s: State, step: Step)
    requires Inv(s) && Enabled(s, step)
    ensures Inv(Next(s, step))
  {
    CountStep(s, step);
    PendingStep(s, step);
    StopStep(s, step);
    DebounceStep(s, step);
  }

  lemma {:induction false} InvInRun(states: seq<State>, steps: seq<Step>, n: nat)
    requires Run(states, steps) && n < |states|
    ensures Inv(states[n])
  {
    if n > 0 {
      InvInRun(states, steps, n - 1);
      InvStep(states[n - 1], steps[n - 1]);
    }
  }

  // ---------------------------------------------------------------- the guarantees

  /** Debouncing refines immediate application: until stop discards anything, the model with the
      event in flight and then the pending events laid over it is the model that applying every
      event at once would have built; with nothing pending or in flight it is that model. */
  lemma DebounceRefinesImmediate(states: seq<State>, steps: seq<Step>, n: nat)
    requires Run(states, steps) && n < |states|
    ensures var s := states[n];
            s.dropped == map[] ==>
              forall k :: At(Immediate(s.received), k)
                       == if k in s.pending then Outcome(s.pending[k].event) else At(InFlightApplied(s), k)
    ensures var s := states[n];
            s.dropped == map[] && s.pending == map[] && !s.flush.Took? ==> s.model == Immediate(s.received)
    ensures states[n].stop == NotStopping ==> states[n].dropped == map[]
  {
    InvInRun(states, steps, n);
    var s := states[n];
    if s.dropped == map[] {
      forall k
        ensures At(Immediate(s.received), k)
             == if k in s.pending then Outcome(s.pending[k].event) else At(InFlightApplied(s), k)
      {
        assert Newest(s, k) == At(Immediate(s.received), k);
      }
      if s.pending == map[] && !s.flush.Took? {
        assert forall k :: At(s.model, k) == At(Immediate(s.received), k);
        assert forall k :: k in s.model <==> At(s.model, k).Some?;
      }
    }
  }

  /** No event is stranded: whenever the reader and stop are outside their critical sections,
      every pending device has its own flush queued, or dequeued and still to look at `pending`. */
  lemma PendingHasItsFlush(states: seq<State>, steps: seq<Step>, n: nat, id: string)
    requires Run(states, steps) && n < |states| && states[n].holder.Free? && id in states[n].pending
    ensures FlushLive(states[n], id, states[n].pending[id].handle)
  {
    InvInRun(states, steps, n);
  }

  /** The claim counter is exact in every state, and a sleeping stop is never forgotten. */
  lemma OutstandingIsExact(states: seq<State>, steps: seq<Step>, n: nat)
    requires Run(states, steps) && n < |states|
    ensures states[n].outstanding == Unresolved(states[n])
    ensures states[n].stop == Asleep && Unresolved(states[n]) == 0 ==> states[n].flush.OwesNotify?
  {
    InvInRun(states, steps, n);
  }

  // Nothing of this service is left in the timer, and nothing more will arrive.
  ghost predicate Drained(s: State) {
    Unresolved(s) == 0 && s.pending == map[] && s.stop != NotStopping
  }

  lemma DrainedStep(s: State, step: Step)
    requires Counted(s) && PendingOk(s) && StopOk(s) && Enabled(s, step) && Drained(s)
    ensures Drained(Next(s, step)) && Next(s, step).model == s.model
    ensures !step.FlushTake? && !step.FlushApply?
  {
    CountStep(s, step);
  }

  lemma {:induction false} DrainedStays(states: seq<State>, steps: seq<Step>, i: nat, j: nat)
    requires Run(states, steps) && i <= j < |states| && Drained(states[i])
    ensures Drained(states[j]) && states[j].model == states[i].model
    decreases j
  {
    if i < j {
      DrainedStays(states, steps, i, j - 1);
      InvInRun(states, steps, j - 1);
      DrainedStep(states[j - 1], steps[j - 1]);
    }
  }

  /** Once stop has returned, no flush is queued, dequeued or executing, ever again, so none
      reaches `pending` or changes the model. */
  lemma StopIsABarrier(states: seq<State>, steps: seq<Step>, i: nat, j: nat)
    requires Run(states, steps) && i <= j < |states| && states[i].stop == Returned
    ensures Unresolved(states[j]) == 0 && states[j].pending == map[] && states[j].model == states[i].model
    ensures j < |steps| ==> !steps[j].FlushTake? && !steps[j].FlushApply?
  {
    InvInRun(states, steps, i);
    DrainedStays(states, steps, i, j);
    InvInRun(states, steps, j);
    if j < |steps| {
      DrainedStep(states[j], steps[j]);
    }
  }

  // ---------------------------------------------------------------- when a flush may start

  // The worker has taken handle `h` off the queue and its callback has not finished its first step.
  ghost predicate Dequeued(s: State, h: Sch.Handle) {
    (exists e :: e in Sch.Batch(s.worker) && e.id == h) || (s.flush.Started? && s.flush.handle == h)
  }

  // Handle `h` was given out and is neither queued nor dequeued.
  ghost predicate Gone(s: State, h: Sch.Handle) {
    h < s.core.nextId && h !in s.core.index && !Dequeued(s, h)
  }

  // Only a dequeue of a queued entry puts a handle into the batch.
  lemma DequeuedStep(s: State, step: Step, h: Sch.Handle)
    requires Sch.Valid(s.core) && Enabled(s, step) && Dequeued(Next(s, step), h)
    ensures Dequeued(s, h) || (step.Dequeue? && h in s.core.index && s.core.index[h].due <= step.now)
  {
    if step.Dequeue? {
      hide Sch.Collect, Next, Enabled;
      TakenWereDue(s, step.now, h);
    } else {
      hide Sch.Valid, Sch.Schedule, Sch.Collect, Sch.Cancel;
    }
  }

  lemma TakenWereDue(s: State, now: Sch.Time, h: Sch.Handle)
    requires Sch.Valid(s.core) && Enabled(s, Dequeue(now)) && Dequeued(Next(s, Dequeue(now)), h)
    ensures Dequeued(s, h) || (h in s.core.index && s.core.index[h].due <= now)
  {
    Sch.CollectKeepsValid(s.core, now);
    var (core, batch) := Sch.Collect(s.core, now);
    hide Sch.Collect;
    if e :| e in batch && e.id == h {
      assert e in batch + core.queue;
    }
  }

  lemma GoneStep(s: State, step: Step, h: Sch.Handle)
    requires Sch.Valid(s.core) && Enabled(s, step) && Gone(s, h)
    ensures Gone(Next(s, step), h)
  {
    NextIdStep(s, step);
    IndexStep(s, step, h);
    if Dequeued(Next(s, step), h) {
      DequeuedStep(s, step, h);
    }
  }

  lemma {:induction false} GoneStays(states: seq<State>, steps: seq<Step>, i: nat, j: nat, h: Sch.Handle)
    requires Run(states, steps) && i <= j < |states| && Gone(states[i], h)
    ensures Gone(states[j], h)
    decreases j
  {
    if i < j {
      GoneStays(states, steps, i, j - 1, h);
      InvInRun(states, steps, j - 1);
      hide Gone, Next, Enabled;
      GoneStep(states[j - 1], steps[j - 1], h);
    }
  }

  // Cancelling takes the handle off the index and touches neither the batch nor the flush.
  lemma CancelledIsGone(s: State, step: Step, h: Sch.Handle)
    requires Enabled(s, step) && h < s.core.nextId && !Dequeued(s, h)
    requires || (step.EventCancel? && step.event.device.id in s.pending && s.pending[step.event.device.id].handle == h)
             || (step.StopCancel? && s.pending[step.id].handle == h)
    ensures Gone(Next(s, step), h)
  {
    assert Next(s, step).worker == s.worker && Next(s, step).flush == s.flush;
  }

  /** The trailing edge of the debounce: a newer event takes the device's older flush off the timer,
      so that this flush never starts, unless the worker had already dequeued it. */
  lemma NewerEventCancels(states: seq<State>, steps: seq<Step>, i: nat, j: nat)
    requires Run(states, steps) && i < j < |steps|
    requires steps[i].EventCancel? && steps[i].event.device.id in states[i].pending
    requires !Dequeued(states[i], states[i].pending[steps[i].event.device.id].handle)
    ensures var h := states[i].pending[steps[i].event.device.id].handle;
            h !in states[j].core.index && (steps[j].RunNext? ==> states[j].worker.batch[0].id != h)
  {
    var h := states[i].pending[steps[i].event.device.id].handle;
    InvInRun(states, steps, i);
    CancelledIsGone(states[i], steps[i], h);
    GoneStays(states, steps, i + 1, j, h);
    hide Next;
  }

  /** What stop cancels before the worker has dequeued it never starts either. */
  lemma StopCancels(states: seq<State>, steps: seq<Step>, i: nat, j: nat)
    requires Run(states, steps) && i < j < |steps|
    requires steps[i].StopCancel? && !Dequeued(states[i], states[i].pending[steps[i].id].handle)
    ensures var h := states[i].pending[steps[i].id].handle;
            h !in states[j].core.index && (steps[j].RunNext? ==> states[j].worker.batch[0].id != h)
  {
    var h := states[i].pending[steps[i].id].handle;
    InvInRun(states, steps, i);
    CancelledIsGone(states[i], steps[i], h);
    GoneStays(states, steps, i + 1, j, h);
    hide Next;
  }

  // ... and nothing that was not handed out is dequeued.
  ghost predicate HandedOut(s: State) {
    forall h: Sch.Handle :: Dequeued(s, h) ==> h < s.core.nextId
  }

  lemma {:induction false} DequeuedAreHandedOut(states: seq<State>, steps: seq<Step>, n: nat)
    requires Run(states, steps) && n < |states|
    ensures HandedOut(states[n])
  {
    if n > 0 {
      DequeuedAreHandedOut(states, steps, n - 1);
      InvInRun(states, steps, n - 1);
      var s, step := states[n - 1], steps[n - 1];
      NextIdStep(s, step);
      forall h: Sch.Handle | Dequeued(Next(s, step), h)
        ensures h < Next(s, step).core.nextId
      {
        DequeuedStep(s, step, h);
        IndexStep(s, step, h);
      }
    }
  }

  ghost predicate DueBetween(steps: seq<Step>, due: Sch.Time, i: nat, j: nat) {
    exists k :: i < k < j && k < |steps| && steps[k].Dequeue? && due <= steps[k].now
  }

  lemma ScheduleDequeuesNothing(s: State, due: Sch.Time, h: Sch.Handle)
    requires Enabled(s, EventSchedule(due))
    ensures Dequeued(Next(s, EventSchedule(due)), h) <==> Dequeued(s, h)
  {
    assert Next(s, EventSchedule(due)).worker == s.worker && Next(s, EventSchedule(due)).flush == s.flush;
  }

  lemma {:induction false} WaitsSoFar(states: seq<State>, steps: seq<Step>, due: Sch.Time, i: nat, j: nat)
    requires Run(states, steps) && i < j < |states| && steps[i] == EventSchedule(due)
    ensures var h := states[i].core.nextId;
            && h < states[j].core.nextId
            && (h in states[j].core.index ==> states[j].core.index[h].due == due)
            && (Dequeued(states[j], h) ==> DueBetween(steps, due, i, j))
    decreases j
  {
    var h := states[i].core.nextId;
    if j == i + 1 {
      DequeuedAreHandedOut(states, steps, i);
      ScheduleDequeuesNothing(states[i], due, h);
    } else {
      var s, step := states[j - 1], steps[j - 1];
      WaitsSoFar(states, steps, due, i, j - 1);
      InvInRun(states, steps, j - 1);
      NextIdStep(s, step);
      IndexStep(s, step, h);
      hide Enabled;
      if Dequeued(states[j], h) {
        DequeuedStep(s, step, h);
        WaitedOneMore(steps, due, i, j - 1);
      }
    }
  }

  lemma WaitedOneMore(steps: seq<Step>, due: Sch.Time, i: nat, j: nat)
    requires i < j < |steps|
    ensures DueBetween(steps, due, i, j) || (steps[j].Dequeue? && due <= steps[j].now) ==>
      DueBetween(steps, due, i, j + 1)
  {
  }

  /** The window is waited for: a flush starts only after the worker has looked at the clock, since
      the event that scheduled it, at or past the deadline which that event set. */
  lemma FlushWaitsItsWindow(states: seq<State>, steps: seq<Step>, due: Sch.Time, i: nat, j: nat)
    requires Run(states, steps) && i < j < |steps| && steps[i] == EventSchedule(due)
    requires steps[j].RunNext? && states[j].worker.batch[0].id == states[i].core.nextId
    ensures exists k :: i < k < j && steps[k].Dequeue? && due <= steps[k].now
  {
    WaitsSoFar(states, steps, due, i, j);
    assert Dequeued(states[j], states[i].core.nextId);
    hide Dequeued;
    assert DueBetween(steps, due, i, j);
  }

  // ---------------------------------------------------------------- settling

  // The steps that finish what has begun; the others bring events, stop, restart or foreign timers.
  predicate Finishes(step: Step) {
    || step.EventSchedule? || step.Dequeue? || step.RunNext? || step.EndBatch?
    || step.FlushTake? || step.FlushApply? || step.FlushResolve? || step.FlushNotify?
    || step.StopLock? || step.StopCancel? || step.StopCheck? || step.StopRecheck?
  }

  ghost function FlushWork(f: FlushPc): nat {
    match f
    case NoFlush => 0
    case OwesNotify => 2
    case Applied => 3
    case Took(_) => 4
    case Started(_, _) => 5
  }

  ghost function StopWork(s: State): nat {
    match s.stop
    case MonitorStopped => 4 + |s.pending.Keys|
    case Cancelling => 2 + if s.holder.Stopper? then |s.holder.todo| else 0
    case Awake => 1
    case _ => 0
  }

  ghost function TimerWork(s: State): nat {
    9 * |s.core.queue| + 7 * |Sch.Batch(s.worker)| + (if s.worker.Running? then 1 else 0)
    + (if s.holder.Reader? then 10 else 0) + FlushWork(s.flush)
  }

  // How many finishing steps are left at most.
  ghost function Work(s: State): nat {
    TimerWork(s) + StopWork(s)
  }

  lemma PendingShrinks(s: State, id: string)
    requires id in s.pending
    ensures |(s.pending - {id}).Keys| <= |s.pending.Keys|
  {
    assert (s.pending - {id}).Keys == s.pending.Keys - {id};
  }

  lemma TakingShrinksPending(s: State)
    requires Enabled(s, FlushTake)
    ensures var s' := Next(s, FlushTake);
      s'.stop == s.stop && s'.holder == s.holder && |s'.pending.Keys| <= |s.pending.Keys|
  {
    if s.flush.id in s.pending {
      PendingShrinks(s, s.flush.id);
    }
  }

  lemma StopCancelShrinks(s: State, id: string)
    requires StopOk(s) && Enabled(s, StopCancel(id))
    ensures StopWork(Next(s, StopCancel(id))) < StopWork(s)
  {
    CancelFlushIs(s, s.pending[id].handle);
    hide CancelFlush;
    assert |s.holder.todo - {id}| == |s.holder.todo| - 1;
  }

  lemma StopMoves(s: State, step: Step)
    requires StopOk(s) && Enabled(s, step)
    requires step.StopLock? || step.StopCheck? || step.StopRecheck?
    ensures StopWork(Next(s, step)) < StopWork(s)
  {
    hide Sch.Schedule, Sch.Cancel, Sch.Collect, InFlightApplied, Events;
  }

  lemma StopWakes(s: State, step: Step)
    requires StopOk(s) && Enabled(s, step) && (step.FlushNotify? || step.EventSchedule?)
    ensures StopWork(Next(s, step)) <= StopWork(s) + if step.FlushNotify? then 1 else 0
  {
    hide Sch.Schedule, Sch.Cancel, Sch.Collect, InFlightApplied;
  }

  lemma StopStays(s: State, step: Step)
    requires Enabled(s, step)
    requires step.Dequeue? || step.RunNext? || step.EndBatch? || step.FlushApply? || step.FlushResolve?
    ensures StopWork(Next(s, step)) == StopWork(s)
  {
    hide Sch.Collect, InFlightApplied;
  }

  lemma StopWorkShrinks(s: State, step: Step)
    requires StopOk(s) && Enabled(s, step) && Finishes(step)
    ensures StopWork(Next(s, step)) <= StopWork(s) + if step.FlushNotify? then 1 else 0
    ensures step.StopLock? || step.StopCancel? || step.StopCheck? || step.StopRecheck? ==>
      StopWork(Next(s, step)) < StopWork(s)
  {
    match step
    case FlushTake => TakingShrinksPending(s); hide Next, Enabled;
    case StopCancel(id) => StopCancelShrinks(s, id); hide Next, Enabled, StopWork;
    case StopLock => StopMoves(s, step); hide Next, Enabled, StopWork;
    case StopCheck => StopMoves(s, step); hide Next, Enabled, StopWork;
    case StopRecheck => StopMoves(s, step); hide Next, Enabled, StopWork;
    case FlushNotify => StopWakes(s, step); hide Next, Enabled, StopWork;
    case EventSchedule(_) => StopWakes(s, step); hide Next, Enabled, StopWork;
    case _ => StopStays(s, step); hide Next, Enabled, StopWork;
  }

  lemma ScheduleWorks(s: State, due: Sch.Time)
    requires Enabled(s, EventSchedule(due))
    ensures TimerWork(Next(s, EventSchedule(due))) < TimerWork(s)
  {
    Sch.Sizes(s.core, due, Flush(s.holder.id), 0, 0);
    hide Sch.Schedule, Sch.Collect, Sch.Cancel;
  }

  lemma DequeueWorks(s: State, now: Sch.Time)
    requires Enabled(s, Dequeue(now))
    ensures TimerWork(Next(s, Dequeue(now))) < TimerWork(s)
  {
    Sch.Sizes(s.core, 0, Foreign(0), 0, now);
    hide Sch.Schedule, Sch.Collect, Sch.Cancel;
  }

  lemma StopCancelWorks(s: State, id: string)
    requires Enabled(s, StopCancel(id))
    ensures TimerWork(Next(s, StopCancel(id))) <= TimerWork(s)
  {
    Sch.Sizes(s.core, 0, Foreign(0), s.pending[id].handle, 0);
    hide Sch.Schedule, Sch.Collect, Sch.Cancel;
  }

  lemma OtherWorks(s: State, step: Step)
    requires Enabled(s, step) && Finishes(step) && !step.EventSchedule? && !step.Dequeue? && !step.StopCancel?
    ensures var left := TimerWork(Next(s, step));
      if step.StopLock? || step.StopCheck? || step.StopRecheck? then left <= TimerWork(s)
      else if step.FlushNotify? then left + 1 < TimerWork(s) else left < TimerWork(s)
  {
    hide Sch.Schedule, Sch.Collect, Sch.Cancel, InFlightApplied;
  }

  lemma TimerWorkShrinks(s: State, step: Step)
    requires Enabled(s, step) && Finishes(step)
    ensures var left := TimerWork(Next(s, step));
      if step.StopLock? || step.StopCancel? || step.StopCheck? || step.StopRecheck? then left <= TimerWork(s)
      else if step.FlushNotify? then left + 1 < TimerWork(s) else left < TimerWork(s)
  {
    hide Next, Enabled, TimerWork;
    match step
    case EventSchedule(due) => ScheduleWorks(s, due);
    case Dequeue(now) => DequeueWorks(s, now);
    case StopCancel(id) => StopCancelWorks(s, id);
    case _ => OtherWorks(s, step);
  }

  // Nothing is running, queued or waiting to go on.
  ghost predicate AtRest(s: State) {
    && s.holder.Free? && s.flush.NoFlush? && s.worker.Waiting? && s.core.queue == []
    && s.stop != MonitorStopped && s.stop != Awake
  }

  lemma {:induction false} ExitedIsStopped(states: seq<State>, steps: seq<Step>, n: nat)
    requires Run(states, steps) && n < |states|
    ensures states[n].worker.Exited? ==> states[n].core.stopping
  {
    hide Next, Enabled;
    if n > 0 {
      hide Start;
      ExitedIsStopped(states, steps, n - 1);
      StoppingStays(states[n - 1], steps[n - 1]);
    }
  }

  lemma StoppingStays(s: State, step: Step)
    requires Enabled(s, step)
    ensures s.core.stopping || step.TimerShutdown? ==> Next(s, step).core.stopping
    ensures Next(s, step).worker.Exited? ==> s.worker.Exited? || s.core.stopping
    ensures step.WorkerExit? ==> Next(s, step).worker.Exited?
  {
    hide Sch.Insert, Sch.Without, Sch.Due, Sch.Later, InFlightApplied;
  }

  lemma NextToDo(s: State) returns (step: Step)
    requires PendingOk(s) && StopOk(s) && !AtRest(s) && !s.core.stopping && !s.worker.Exited?
    ensures Finishes(step) && Enabled(s, step)
  {
    if s.holder.Reader? {
      step := EventSchedule(0);
    } else if s.holder.Stopper? {
      if id :| id in s.holder.todo {
        step := StopCancel(id);
      } else {
        step := StopCheck;
      }
    } else if !s.flush.NoFlush? {
      step := if s.flush.Started? then FlushTake else if s.flush.Took? then FlushApply
              else if s.flush.Applied? then FlushResolve else FlushNotify;
    } else if s.worker.Running? {
      step := if s.worker.batch != [] then RunNext else EndBatch;
    } else if s.stop == MonitorStopped || s.stop == Awake {
      step := if s.stop == MonitorStopped then StopLock else StopRecheck;
    } else {
      step := Dequeue(s.core.queue[0].due);
    }
  }

  /** As long as the timer is not shut down, whatever has begun can go on and ends: each finishing step
      leaves less to do, one is possible until the service has settled; then nothing is pending, the
      model is that of immediate application unless stop threw events away, and a stop has returned. */
  lemma EventsSettle(states: seq<State>, steps: seq<Step>, n: nat)
    requires Run(states, steps) && n < |states| && !states[n].core.stopping
    ensures forall step :: Finishes(step) && Enabled(states[n], step) ==> Work(Next(states[n], step)) < Work(states[n])
    ensures !AtRest(states[n]) ==> exists step :: Finishes(step) && Enabled(states[n], step)
    ensures AtRest(states[n]) ==> states[n].pending == map[]
    ensures AtRest(states[n]) && states[n].dropped == map[] ==> states[n].model == Immediate(states[n].received)
    ensures AtRest(states[n]) ==> states[n].stop == NotStopping || states[n].stop == Returned
  {
    var s := states[n];
    InvInRun(states, steps, n);
    ExitedIsStopped(states, steps, n);
    DebounceRefinesImmediate(states, steps, n);
    hide Immediate, Debounced, Counted;
    forall step | Finishes(step) && Enabled(s, step)
      ensures Work(Next(s, step)) < Work(s)
    {
      StopWorkShrinks(s, step);
      TimerWorkShrinks(s, step);
      hide Next, TimerWork, StopWork;
    }
    if !AtRest(s) {
      var step := NextToDo(s);
      assert Finishes(step) && Enabled(s, step);
    } else {
      SettledIsQuiet(s);
    }
  }

  lemma NoFlushIsLive(s: State, id: string, h: Sch.Handle)
    requires Sch.Valid(s.core) && AtRest(s)
    ensures !FlushLive(s, id, h)
  {
    assert s.core.index.Keys == {};
  }

  lemma SettledIsQuiet(s: State)
    requires Inv(s) && AtRest(s)
    ensures s.pending == map[] && (s.stop == NotStopping || s.stop == Returned)
  {
    assert s.core.index.Keys == {};
    if id :| id in s.pending {
      NoFlushIsLive(s, id, s.pending[id].handle);
    }
  }

  /** From the moment stop has stopped the monitor no event comes in until stop has returned and the
      service is started again; stop returns at the first look that finds nothing outstanding, and
      sleeps at every other. */
  lemma StopLooks(s: State, step: Step)
    requires Enabled(s, step)
    ensures step.StopMonitor? || step.StopAgain? ==> Next(s, step).stop == MonitorStopped
    ensures s.stop != NotStopping ==> Next(s, step).stop != NotStopping && !step.EventCancel?
    ensures step.StopCheck? || step.StopRecheck? ==>
      Next(s, step).stop == if s.outstanding == 0 then Returned else Asleep
    ensures !step.StopCheck? && !step.StopRecheck? && s.stop != Returned ==> Next(s, step).stop != Returned
  {
    hide Sch.Schedule, Sch.Collect, Sch.Cancel, InFlightApplied;
  }

  // What may come from outside, and when.
  lemma InputsAreAccepted(s: State, event: HotplugEvent, due: Sch.Time, tag: int)
    ensures Enabled(s, ForeignSchedule(due, tag)) && Enabled(s, TimerShutdown)
    ensures s.stop == NotStopping && s.holder.Free? <==> Enabled(s, EventCancel(event))
    ensures s.stop == NotStopping && s.holder.Free? <==> Enabled(s, StopMonitor)
    ensures s.stop == Returned <==> Enabled(s, StopAgain)
    ensures s.stop == Asleep <==> Enabled(s, StopSpurious)
  {
  }

  // ---------------------------------------------------------------- the class

  // Cancelling the flushes of `ids` one after the other.
  ghost function CancelAll(s: State, ids: seq<string>): State
    requires forall id :: id in ids ==> id in s.pending
    ensures CancelAll(s, ids).pending == s.pending
  {
    if ids == [] then s
    else CancelFlush(CancelAll(s, ids[..|ids| - 1]), s.pending[ids[|ids| - 1]].handle)
  }

  /** The fields of the service.  Each method is one stretch of code under `mutex_`; `s` is any
      state of the machine above that agrees with the fields, and the method makes its steps. */
  class HotplugService {
    const timer: Sch.DelayedScheduler<Callback>
    var pending: map<string, Pending>
    var outstanding: int

    ghost predicate Shows(s: State)
      reads this, timer
    {
      Sch.Valid(timer.State()) && s.core == timer.State() && s.pending == pending && s.outstanding == outstanding
    }

    constructor (timer: Sch.DelayedScheduler<Callback>)
      ensures this.timer == timer && pending == map[] && outstanding == 0
    {
      this.timer, pending, outstanding := timer, map[], 0;
    }

    // One critical section, in which the timer is called twice.
    method OnEvent(event: HotplugEvent, due: Sch.Time, ghost s: State)
      requires Shows(s) && Enabled(s, EventCancel(event))
      modifies this, timer
      ensures Shows(Next(Next(s, EventCancel(event)), EventSchedule(due)))
    {
      hide Sch.Valid, Sch.Schedule, Sch.Cancel, CancelFlush, InFlightApplied, Shows;
      Overwrite(event, s);
      Renew(event.device.id, due, Next(s, EventCancel(event)));
    }

    method Overwrite(event: HotplugEvent, ghost s: State)
      requires Shows(s) && Enabled(s, EventCancel(event))
      modifies this, timer
      ensures Shows(Next(s, EventCancel(event)))
    {
      hide Sch.Valid, Sch.Cancel;
      var id := event.device.id;
      if id in pending {
        var found := timer.CancelHandle(pending[id].handle);
        if found {
          outstanding := outstanding - 1;
        }
        pending := pending[id := pending[id].(event := event)];
      } else {
        pending := pending[id := Pending(event, 0)];
      }
    }

    method Renew(id: string, due: Sch.Time, ghost s: State)
      requires Shows(s) && Enabled(s, EventSchedule(due)) && s.holder.id == id && id in s.pending
      modifies this, timer
      ensures Shows(Next(s, EventSchedule(due)))
    {
      hide Sch.Valid, Sch.Schedule;
      outstanding := outstanding + 1;
      var h := timer.ScheduleAt(due, Flush(id));
      pending := pending[id := pending[id].(handle := h)];
    }

    method TakeEvent(id: string, ghost s: State) returns (event: Option<HotplugEvent>)
      requires Shows(s) && Enabled(s, FlushTake) && s.flush.id == id
      modifies this
      ensures Shows(Next(s, FlushTake)) && Next(s, FlushTake).flush == Took(event)
    {
      event := None;
      if id in pending {
        event := Some(pending[id].event);
        pending := pending - {id};
      }
    }

    method Resolve(ghost s: State)
      requires Shows(s) && Enabled(s, FlushResolve)
      modifies this
      ensures Shows(Next(s, FlushResolve))
    {
      outstanding := outstanding - 1;
    }

    method CancelOne(id: string, ghost s: State, ghost order: seq<string>)
      requires pending == s.pending && id in pending && forall i :: i in order ==> i in pending
      requires Shows(CancelAll(s, order))
      modifies this, timer
      ensures pending == s.pending && Shows(CancelAll(s, order + [id]))
    {
      assert (order + [id])[..|order|] == order;
      var found := timer.CancelHandle(pending[id].handle);
      if found {
        outstanding := outstanding - 1;
      }
    }

    // stop, from its lock to its first look at the counter: the hash map decides the order.
    method CancelPending(ghost s: State) returns (drained: bool, ghost order: seq<string>)
      requires Shows(s) && Enabled(s, StopLock)
      modifies this, timer
      ensures |order| == |old(pending).Keys|
      ensures forall id :: id in order <==> id in old(pending)
      ensures Shows(CancelAll(s, order).(pending := map[]))
      ensures drained <==> outstanding == 0
    {
      var todo := pending.Keys;
      order := [];
      while todo != {}
        invariant pending == s.pending && todo <= pending.Keys
        invariant |order| + |todo| == |pending.Keys|
        invariant forall id :: id in order <==> id in pending && id !in todo
        invariant Shows(CancelAll(s, order))
        decreases todo
      {
        var id :| id in todo;
        CancelOne(id, s, order);
        order := order + [id];
        todo := todo - {id};
      }
      pending := map[];
      drained := outstanding == 0;
    }
  }
}
