/**
  The event bus and its unsubscribe barrier (core/include/devmgr/runtime/event_bus.hpp).

  Each critical section under `mutex_` is a function on `Bus`; the class proves that its
  loops compute them.  The machine `State` runs any number of threads, each with the call
  stack that matters here: handlers may publish, subscribe and unsubscribe again, to any
  depth, and may throw.
 */
module EventBus {

  type EntryId = nat
  type EventType = int
  type Tid = int

  datatype Entry = Entry(inFlight: int, running: seq<Tid>, removed: bool)

  // Entries outlive their removal from `handlers`: publish snapshots share them.
  datatype Bus = Bus(nextId: EntryId, handlers: map<EventType, seq<EntryId>>, entries: map<EntryId, Entry>)

  // ---------------------------------------------------------------- the critical sections

  function Subscribed(b: Bus, ty: EventType): Bus {
    var others := if ty in b.handlers then b.handlers[ty] else [];
    b.(nextId := b.nextId + 1, handlers := b.handlers[ty := others + [b.nextId]],
       entries := b.entries[b.nextId := Entry(0, [], false)])
  }

  function Targets(b: Bus, ty: EventType): seq<EntryId> {
    if ty in b.handlers then b.handlers[ty] else []
  }

  function Begun(e: Entry, self: Tid): Entry {
    e.(inFlight := e.inFlight + 1, running := e.running + [self])
  }

  function WithoutFirst<T(==)>(s: seq<T>, x: T): seq<T> {
    if s == [] then [] else if s[0] == x then s[1..] else [s[0]] + WithoutFirst(s[1..], x)
  }

  function Ended(e: Entry, self: Tid): Entry {
    e.(inFlight := e.inFlight - 1, running := WithoutFirst(e.running, self))
  }

  predicate Registered(b: Bus, ty: EventType, id: EntryId) {
    ty in b.handlers && id in b.handlers[ty]
  }

  function Unregistered(b: Bus, ty: EventType, id: EntryId): Bus
    requires Registered(b, ty, id) && id in b.entries
  {
    var left := WithoutFirst(b.handlers[ty], id);
    b.(handlers := if left == [] then b.handlers - {ty} else b.handlers[ty := left],
       entries := b.entries[id := b.entries[id].(removed := true)])
  }

  // ---------------------------------------------------------------- threads

  // What a thread is doing inside the bus; the last frame of its stack is the one that runs.
  datatype Frame =
    | Publishing(rest: seq<EntryId>)                 // publish's loop, between two targets
    | Invoking(id: EntryId, rest: seq<EntryId>)      // in a handler, which may call the bus again
    | OwesNotify(rest: seq<EntryId>)                 // past endInvoke's lock, before notify_all
    | Sleeping(id: EntryId) | Awake(id: EntryId)     // unsubscribe's wait

  datatype State = State(
    bus: Bus, threads: map<Tid, seq<Frame>>,
    // history: handlers whose removing unsubscribe has returned past the barrier
    freed: set<EntryId>)

  datatype Action =
    | Subscribe(ty: EventType)
    | Publish(ty: EventType)
    | Unsubscribe(ty: EventType, id: EntryId)
    | TryInvoke | Return(threw: bool) | Notify | FinishPublish
    | Spurious | Recheck

  datatype Step = Step(thread: Tid, action: Action)

  ghost function Top(stack: seq<Frame>): Frame
    requires stack != []
  {
    stack[|stack| - 1]
  }

  ghost function Rest(stack: seq<Frame>): seq<Frame>
    requires stack != []
  {
    stack[..|stack| - 1]
  }

  // Client code runs at the bottom of a stack and inside handlers.
  ghost predicate InClientCode(stack: seq<Frame>) {
    stack == [] || Top(stack).Invoking?
  }

  ghost predicate Enabled(s: State, step: Step) {
    && step.thread in s.threads
    && var stack := s.threads[step.thread];
       match step.action
       case Subscribe(_) => InClientCode(stack)
       case Publish(_) => InClientCode(stack)
       case Unsubscribe(ty, id) => InClientCode(stack) && (Registered(s.bus, ty, id) ==> id in s.bus.entries)
       case TryInvoke =>
         stack != [] && Top(stack).Publishing? && Top(stack).rest != [] && Top(stack).rest[0] in s.bus.entries
       case Return(_) => stack != [] && Top(stack).Invoking? && Top(stack).id in s.bus.entries
       case Notify => stack != [] && Top(stack).OwesNotify?
       case FinishPublish => stack != [] && Top(stack) == Publishing([])
       case Spurious => stack != [] && Top(stack).Sleeping?
       case Recheck => stack != [] && Top(stack).Awake? && Top(stack).id in s.bus.entries
  }

  ghost function WakeAll(threads: map<Tid, seq<Frame>>): map<Tid, seq<Frame>> {
    map t | t in threads :: Woken(threads[t])
  }

  ghost function Woken(stack: seq<Frame>): seq<Frame> {
    if stack != [] && Top(stack).Sleeping? then Rest(stack) + [Awake(Top(stack).id)] else stack
  }

  // The shared fields after the step.
  ghost function BusAfter(s: State, step: Step): Bus
    requires Enabled(s, step)
  {
    var t, stack := step.thread, s.threads[step.thread];
    match step.action
    case Subscribe(ty) => Subscribed(s.bus, ty)
    case Unsubscribe(ty, id) => if Registered(s.bus, ty, id) then Unregistered(s.bus, ty, id) else s.bus
    case TryInvoke =>
      var id := Top(stack).rest[0];
      if s.bus.entries[id].removed then s.bus
      else s.bus.(entries := s.bus.entries[id := Begun(s.bus.entries[id], t)])
    case Return(_) =>
      var id := Top(stack).id;
      s.bus.(entries := s.bus.entries[id := Ended(s.bus.entries[id], t)])
    case _ => s.bus
  }

  // The acting thread is at the wait's predicate for this handler.
  ghost predicate AtBarrier(s: State, step: Step, id: EntryId)
    requires Enabled(s, step)
  {
    match step.action
    case Unsubscribe(ty, i) => i == id && Registered(s.bus, ty, i) && step.thread !in s.bus.entries[i].running
    case Recheck => Top(s.threads[step.thread]).id == id
    case _ => false
  }

  ghost predicate PassesBarrier(s: State, step: Step, id: EntryId)
    requires Enabled(s, step)
  {
    AtBarrier(s, step, id) && s.bus.entries[id].inFlight == 0
  }

  // The acting thread's stack after the step.
  ghost function ActorStack(s: State, step: Step): seq<Frame>
    requires Enabled(s, step)
  {
    var stack := s.threads[step.thread];
    match step.action
    case Subscribe(_) => stack
    case Publish(ty) => if ty in s.bus.handlers then stack + [Publishing(Targets(s.bus, ty))] else stack
    case Unsubscribe(ty, id) =>
      if AtBarrier(s, step, id) && !PassesBarrier(s, step, id) then stack + [Sleeping(id)] else stack
    case TryInvoke =>
      var id, rest := Top(stack).rest[0], Top(stack).rest[1..];
      Rest(stack) + [if s.bus.entries[id].removed then Publishing(rest) else Invoking(id, rest)]
    case Return(threw) =>
      var rest := if threw then [] else Top(stack).rest;
      var e := BusAfter(s, step).entries[Top(stack).id];
      Rest(stack) + [if e.removed && e.inFlight == 0 then OwesNotify(rest) else Publishing(rest)]
    case Notify => Rest(stack) + [Publishing(Top(stack).rest)]
    case FinishPublish => Rest(stack)
    case Spurious => Rest(stack) + [Awake(Top(stack).id)]
    case Recheck =>
      var id := Top(stack).id;
      if PassesBarrier(s, step, id) then Rest(stack) else Rest(stack) + [Sleeping(id)]
  }

  ghost function Next(s: State, step: Step): State
    requires Enabled(s, step)
  {
    var threads := s.threads[step.thread := ActorStack(s, step)];
    State(BusAfter(s, step),
          if step.action.Notify? then WakeAll(threads) else threads,
          s.freed + set id | id in s.bus.entries && PassesBarrier(s, step, id))
  }

  ghost predicate Start(s: State) {
    s.bus == Bus(1, map[], map[]) && s.freed == {} && forall t :: t in s.threads ==> s.threads[t] == []
  }

  ghost predicate Run(states: seq<State>, steps: seq<Step>) {
    && |states| == |steps| + 1
    && Start(states[0])
    && forall i :: 0 <= i < |steps| ==> Enabled(states[i], steps[i]) && states[i + 1] == Next(states[i], steps[i])
  }

  // ---------------------------------------------------------------- the invariant

  // How many invocations of handler `id` a stack is inside.
  ghost function Inside(stack: seq<Frame>, id: EntryId): nat {
    if stack == [] then 0
    else Inside(Rest(stack), id) + if Top(stack).Invoking? && Top(stack).id == id then 1 else 0
  }

  // `running` is exactly the multiset of threads inside the handler, and `inFlight` its size.
  ghost predicate Balanced(s: State, id: EntryId) {
    && id in s.bus.entries
    && s.bus.entries[id].inFlight == |s.bus.entries[id].running|
    && (forall t :: multiset(s.bus.entries[id].running)[t] == if t in s.threads then Inside(s.threads[t], id) else 0)
  }

  ghost predicate FrameOk(s: State, f: Frame) {
    match f
    case Publishing(rest) => forall id :: id in rest ==> id in s.bus.entries
    case Invoking(id, rest) => id in s.bus.entries && forall i :: i in rest ==> i in s.bus.entries
    case OwesNotify(rest) => forall id :: id in rest ==> id in s.bus.entries
    case Sleeping(id) => id in s.bus.entries && s.bus.entries[id].removed
    case Awake(id) => id in s.bus.entries && s.bus.entries[id].removed
  }

  ghost predicate StacksOk(s: State) {
    forall t :: t in s.threads ==> Nested(s.threads[t]) && forall f :: f in s.threads[t] ==> FrameOk(s, f)
  }

  // Only client code inside a handler calls the bus again.
  ghost predicate Nested(stack: seq<Frame>) {
    forall i :: 0 <= i < |stack| - 1 ==> stack[i].Invoking?
  }

  ghost predicate EntriesOk(s: State) {
    && (forall id :: id in s.bus.entries <==> 0 < id < s.bus.nextId)
    && (forall ty :: ty in s.bus.handlers ==> forall id :: id in s.bus.handlers[ty] ==> id in s.bus.entries)
    && 0 < s.bus.nextId
  }

  ghost predicate BarrierOk(s: State) {
    && (forall id :: id in s.freed ==>
          id in s.bus.entries && s.bus.entries[id].removed && s.bus.entries[id].inFlight == 0)
       // a drained handler's sleeper has its wake-up coming
    && (forall t :: t in s.threads && Asleep(s.threads[t]) && Drained(s, Top(s.threads[t]).id) ==> NotifyOwed(s))
  }

  ghost predicate Drained(s: State, id: EntryId) {
    id in s.bus.entries && s.bus.entries[id].inFlight == 0
  }

  ghost predicate Asleep(stack: seq<Frame>) {
    stack != [] && Top(stack).Sleeping?
  }

  ghost predicate Owes(stack: seq<Frame>) {
    stack != [] && Top(stack).OwesNotify?
  }

  ghost predicate NotifyOwed(s: State) {
    exists t :: t in s.threads && Owes(s.threads[t])
  }

  ghost predicate AllBalanced(s: State) {
    forall id :: id in s.bus.entries ==> Balanced(s, id)
  }

  ghost predicate Inv(s: State) {
    AllBalanced(s) && EntriesOk(s) && StacksOk(s) && BarrierOk(s)
  }

  // ---------------------------------------------------------------- every step keeps it

  lemma {:induction false} WithoutFirstIs<T>(s: seq<T>, x: T)
    requires x in s
    ensures |WithoutFirst(s, x)| == |s| - 1
    ensures multiset(WithoutFirst(s, x)) == multiset(s) - multiset{x}
  {
    assert s == [s[0]] + s[1..];
    if s[0] != x {
      WithoutFirstIs(s[1..], x);
    }
  }

  lemma {:induction false} WithoutFirstFrom<T>(s: seq<T>, x: T)
    ensures forall y :: y in WithoutFirst(s, x) ==> y in s
  {
    if s != [] && s[0] != x {
      WithoutFirstFrom(s[1..], x);
    }
  }

  lemma InsidePush(stack: seq<Frame>, f: Frame, id: EntryId)
    ensures Inside(stack + [f], id) == Inside(stack, id) + if f.Invoking? && f.id == id then 1 else 0
  {
    assert Rest(stack + [f]) == stack;
  }

  lemma InsideWoken(stack: seq<Frame>, id: EntryId)
    ensures Inside(Woken(stack), id) == Inside(stack, id)
  {
    if Asleep(stack) {
      InsidePush(Rest(stack), Awake(Top(stack).id), id);
    }
  }

  lemma OtherStacks(s: State, step: Step)
    requires Enabled(s, step)
    ensures Next(s, step).threads.Keys == s.threads.Keys
    ensures forall u :: u in s.threads && u != step.thread ==>
              Next(s, step).threads[u] == if step.action.Notify? then Woken(s.threads[u]) else s.threads[u]
  {
  }

  // The handler that the acting thread enters (or leaves) by this step, if any.
  ghost predicate Enters(s: State, step: Step, id: EntryId)
    requires Enabled(s, step)
  {
    && step.action.TryInvoke?
    && Top(s.threads[step.thread]).rest[0] == id
    && !s.bus.entries[id].removed
  }

  ghost predicate Leaves(s: State, step: Step, id: EntryId)
    requires Enabled(s, step)
  {
    step.action.Return? && Top(s.threads[step.thread]).id == id
  }

  lemma ActorInside(s: State, step: Step, id: EntryId)
    requires Enabled(s, step)
    ensures Inside(ActorStack(s, step), id)
         == Inside(s.threads[step.thread], id)
            + (if Enters(s, step, id) then 1 else 0) - (if Leaves(s, step, id) then 1 else 0)
  {
    var stack, after := s.threads[step.thread], ActorStack(s, step);
    match step.action
    case Subscribe(_) =>
    case Publish(ty) => InsidePush(stack, Publishing(Targets(s.bus, ty)), id);
    case Unsubscribe(ty, id') => InsidePush(stack, Sleeping(id'), id);
    case FinishPublish =>
    case Recheck => InsidePush(Rest(stack), Sleeping(Top(stack).id), id);
    case _ => InsidePush(Rest(stack), Top(after), id);
  }

  lemma InsideStep(s: State, step: Step, id: EntryId, t: Tid)
    requires Enabled(s, step) && t in s.threads
    ensures t in Next(s, step).threads
    ensures Inside(Next(s, step).threads[t], id)
         == Inside(s.threads[t], id)
            + (if t == step.thread && Enters(s, step, id) then 1 else 0)
            - (if t == step.thread && Leaves(s, step, id) then 1 else 0)
  {
    if t == step.thread {
      ActorInside(s, step, id);
      InsideWoken(ActorStack(s, step), id);
    } else {
      OtherStacks(s, step);
      InsideWoken(s.threads[t], id);
    }
  }

  // What a step does to one entry.
  lemma EntryStep(s: State, step: Step, id: EntryId)
    requires Enabled(s, step) && id in s.bus.entries && s.bus.nextId !in s.bus.entries
    ensures id in Next(s, step).bus.entries
    ensures var e, e' := s.bus.entries[id], Next(s, step).bus.entries[id];
            && (e.removed ==> e'.removed)
            && (Enters(s, step, id) ==> e' == Begun(e, step.thread))
            && (Leaves(s, step, id) ==> e' == Ended(e, step.thread))
            && (!Enters(s, step, id) && !Leaves(s, step, id) ==> e'.inFlight == e.inFlight && e'.running == e.running)
  {
  }

  lemma BalancedStep(s: State, step: Step, id: EntryId)
    requires Enabled(s, step) && Balanced(s, id) && s.bus.nextId !in s.bus.entries
    ensures Balanced(Next(s, step), id)
  {
    var s', e := Next(s, step), s.bus.entries[id];
    EntryStep(s, step, id);
    OtherStacks(s, step);
    if Leaves(s, step, id) {
      LeaverIsRunning(s, step, id);
      WithoutFirstIs(e.running, step.thread);
    }
    forall t
      ensures multiset(s'.bus.entries[id].running)[t] == if t in s'.threads then Inside(s'.threads[t], id) else 0
    {
      if t in s.threads {
        InsideStep(s, step, id, t);
      }
    }
  }

  // endInvoke's find succeeds.
  lemma LeaverIsRunning(s: State, step: Step, id: EntryId)
    requires Enabled(s, step) && Balanced(s, id) && Leaves(s, step, id)
    ensures step.thread in s.bus.entries[id].running
  {
    assert multiset(s.bus.entries[id].running)[step.thread] == Inside(s.threads[step.thread], id);
  }

  lemma EntriesStep(s: State, step: Step)
    requires EntriesOk(s) && Enabled(s, step)
    ensures EntriesOk(Next(s, step))
    ensures s.bus.entries.Keys <= Next(s, step).bus.entries.Keys
    ensures step.action.Publish? ==> forall id :: id in Targets(s.bus, step.action.ty) ==> id in s.bus.entries
  {
    if step.action.Unsubscribe? && Registered(s.bus, step.action.ty, step.action.id) {
      WithoutFirstFrom(s.bus.handlers[step.action.ty], step.action.id);
    }
  }

  lemma FrameStep(s: State, step: Step, f: Frame)
    requires EntriesOk(s) && Enabled(s, step) && FrameOk(s, f)
    ensures FrameOk(Next(s, step), f)
  {
    EntriesStep(s, step);
    if f.Sleeping? || f.Awake? {
      EntryStep(s, step, f.id);
    }
  }

  lemma ActorFrames(s: State, step: Step, f: Frame)
    requires EntriesOk(s) && StacksOk(s) && Enabled(s, step) && f in ActorStack(s, step)
    ensures FrameOk(Next(s, step), f)
  {
    var stack := s.threads[step.thread];
    EntriesStep(s, step);
    if f in stack {
      FrameStep(s, step, f);
    } else {
      assert stack != [] ==> FrameOk(s, Top(stack));
      assert f == Top(ActorStack(s, step));
    }
  }

  lemma StacksStep(s: State, step: Step)
    requires EntriesOk(s) && StacksOk(s) && Enabled(s, step)
    ensures StacksOk(Next(s, step))
  {
    var s' := Next(s, step);
    OtherStacks(s, step);
    forall t | t in s'.threads
      ensures Nested(s'.threads[t])
    {
      assert Nested(s.threads[t]);
    }
    forall t, f | t in s'.threads && f in s'.threads[t]
      ensures FrameOk(s', f)
    {
      if t == step.thread && (f in ActorStack(s, step)) {
        ActorFrames(s, step, f);
      } else if t != step.thread && f in s.threads[t] {
        FrameStep(s, step, f);
      } else {
        assert step.action.Notify? && t != step.thread;
        var sleeper := Top(s.threads[t]);
        assert f == Awake(sleeper.id) && sleeper in s.threads[t];
        FrameStep(s, step, sleeper);
      }
    }
  }

  // Where a sleeper, or a thread that owes a notify, comes from.
  lemma TopStep(s: State, step: Step, t: Tid)
    requires Enabled(s, step) && t in s.threads && Nested(s.threads[step.thread])
    ensures t in Next(s, step).threads
    ensures Asleep(Next(s, step).threads[t]) ==>
              && !step.action.Notify?
              && (if t == step.thread
                  then Next(s, step).threads[t] == s.threads[t] ||
                       var id := Top(Next(s, step).threads[t]).id;
                       AtBarrier(s, step, id) && s.bus.entries[id].inFlight != 0
                  else Next(s, step).threads[t] == s.threads[t])
    ensures Owes(s.threads[t]) && !step.action.Notify? ==> Owes(Next(s, step).threads[t])
    ensures t == step.thread && step.action.Return? ==>
              var e := BusAfter(s, step).entries[Top(s.threads[t]).id];
              e.removed && e.inFlight == 0 ==> Owes(Next(s, step).threads[t])
  {
    OtherStacks(s, step);
  }

  lemma FreedStep(s: State, step: Step)
    requires EntriesOk(s) && Enabled(s, step)
    requires forall id :: id in s.freed ==>
               id in s.bus.entries && s.bus.entries[id].removed && s.bus.entries[id].inFlight == 0
    requires StacksOk(s) && AllBalanced(s)
    ensures forall id :: id in Next(s, step).freed ==>
              var b := Next(s, step).bus;
              id in b.entries && b.entries[id].removed && b.entries[id].inFlight == 0
  {
    var s' := Next(s, step);
    forall id | id in s'.freed
      ensures id in s'.bus.entries && s'.bus.entries[id].removed && s'.bus.entries[id].inFlight == 0
    {
      EntryStep(s, step, id);
      if Leaves(s, step, id) {
        LeaverIsRunning(s, step, id);
      }
      if id !in s.freed && step.action.Recheck? {
        assert FrameOk(s, Top(s.threads[step.thread]));
      }
    }
  }

  lemma SleepersStep(s: State, step: Step, t: Tid)
    requires Inv(s) && Enabled(s, step) && t in s.threads
    requires Asleep(Next(s, step).threads[t]) && Drained(Next(s, step), Top(Next(s, step).threads[t]).id)
    ensures NotifyOwed(Next(s, step))
  {
    var s' := Next(s, step);
    TopStep(s, step, t);
    var id := Top(s'.threads[t]).id;
    if s'.threads[t] == s.threads[t] {
      assert FrameOk(s, Top(s.threads[t]));
      EntryStep(s, step, id);
      if Leaves(s, step, id) {
        TopStep(s, step, step.thread);
      } else {
        var u :| u in s.threads && Owes(s.threads[u]);
        TopStep(s, step, u);
      }
    } else {
      EntryStep(s, step, id);
    }
  }

  lemma InvStep(s: State, step: Step)
    requires Inv(s) && Enabled(s, step)
    ensures Inv(Next(s, step))
  {
    var s' := Next(s, step);
    EntriesStep(s, step);
    StacksStep(s, step);
    FreedStep(s, step);
    OtherStacks(s, step);
    forall t | t in s'.threads && Asleep(s'.threads[t]) && Drained(s', Top(s'.threads[t]).id)
      ensures NotifyOwed(s')
    {
      SleepersStep(s, step, t);
    }
    forall id | id in s'.bus.entries
      ensures Balanced(s', id)
    {
      if id in s.bus.entries {
        BalancedStep(s, step, id);
      } else {
        FreshBalanced(s, step, id);
      }
    }
  }

  lemma {:induction false} NobodyInside(s: State, stack: seq<Frame>, id: EntryId)
    requires (forall f :: f in stack ==> FrameOk(s, f)) && id !in s.bus.entries
    ensures Inside(stack, id) == 0
  {
    if stack != [] {
      assert Top(stack) in stack;
      NobodyInside(s, Rest(stack), id);
    }
  }

  lemma FreshBalanced(s: State, step: Step, id: EntryId)
    requires EntriesOk(s) && StacksOk(s) && Enabled(s, step)
    requires id !in s.bus.entries && id in Next(s, step).bus.entries
    ensures Balanced(Next(s, step), id)
  {
    OtherStacks(s, step);
    assert step.action.Subscribe?;
    forall t | t in s.threads
      ensures Inside(Next(s, step).threads[t], id) == 0
    {
      NobodyInside(s, s.threads[t], id);
    }
  }

  lemma {:induction false} InvInRun(states: seq<State>, steps: seq<Step>, n: nat)
    requires Run(states, steps) && n < |states|
    ensures Inv(states[n])
  {
    if n > 0 {
      InvInRun(states, steps, n - 1);
      InvStep(states[n - 1], steps[n - 1]);
    }
  }

  // ---------------------------------------------------------------- the guarantees

  lemma RunningIsInside(s: State, id: EntryId, t: Tid)
    requires Inv(s) && id in s.bus.entries && t in s.threads
    ensures t in s.bus.entries[id].running <==> Inside(s.threads[t], id) > 0
    ensures s.bus.entries[id].inFlight == 0 ==> Inside(s.threads[t], id) == 0
  {
    assert Balanced(s, id);
    assert t in s.bus.entries[id].running <==> multiset(s.bus.entries[id].running)[t] > 0;
  }

  /** An unsubscribe that removes a handler returns at once if it is called from inside that
      handler, or if nobody is inside it; otherwise it waits, and its wait ends exactly at a look
      that finds nobody inside.  The barrier is passed in no other way. */
  lemma ReturnsInsideOrPastBarrier(states: seq<State>, steps: seq<Step>, i: nat)
    requires Run(states, steps) && i < |steps|
    ensures steps[i].thread in states[i].threads && steps[i].thread in states[i + 1].threads
    ensures var s, t := states[i], steps[i].thread;
            var stack, after := s.threads[t], states[i + 1].threads[t];
            match steps[i].action
            case Unsubscribe(ty, id) =>
              && (Registered(s.bus, ty, id) ==>
                    && after == (if Inside(stack, id) > 0 || s.bus.entries[id].inFlight == 0 then stack
                                 else stack + [Sleeping(id)])
                    && (PassesBarrier(s, steps[i], id) <==>
                          Inside(stack, id) == 0 && s.bus.entries[id].inFlight == 0))
              && (!Registered(s.bus, ty, id) ==> states[i + 1] == s)
            case Recheck =>
              var id := Top(stack).id;
              && after == Rest(stack) + (if s.bus.entries[id].inFlight == 0 then [] else [Sleeping(id)])
              && (PassesBarrier(s, steps[i], id) <==> s.bus.entries[id].inFlight == 0)
            case _ => forall id :: !PassesBarrier(s, steps[i], id)
  {
    InvInRun(states, steps, i);
    OtherStacks(states[i], steps[i]);
    if steps[i].action.Unsubscribe? && Registered(states[i].bus, steps[i].action.ty, steps[i].action.id) {
      RunningIsInside(states[i], steps[i].action.id, steps[i].thread);
    } else if steps[i].action.Unsubscribe? {
      assert states[i + 1].threads == states[i].threads;
    }
  }

  lemma RemovedStep(s: State, step: Step, id: EntryId)
    requires Inv(s) && Enabled(s, step) && id in s.bus.entries && s.bus.entries[id].removed
    ensures var s' := Next(s, step);
      id in s'.bus.entries && s'.bus.entries[id].removed && s.freed <= s'.freed
  {
    EntryStep(s, step, id);
  }

  lemma {:induction false} RemovedStays(states: seq<State>, steps: seq<Step>, i: nat, j: nat, id: EntryId)
    requires Run(states, steps) && i <= j < |states|
    requires id in states[i].bus.entries && states[i].bus.entries[id].removed
    ensures id in states[j].bus.entries && states[j].bus.entries[id].removed
    ensures states[i].freed <= states[j].freed
    decreases j
  {
    hide Inv, Next;
    if i < j {
      RemovedStays(states, steps, i, j - 1, id);
      InvInRun(states, steps, j - 1);
      RemovedStep(states[j - 1], steps[j - 1], id);
    }
  }

  /** From the moment an unsubscribe has removed a handler, no step starts it, even from a target
      list that an earlier publish took. */
  lemma RemovedNeverStarts(states: seq<State>, steps: seq<Step>, i: nat, j: nat, ty: EventType, id: EntryId)
    requires Run(states, steps) && i < j < |steps|
    requires steps[i].action == Unsubscribe(ty, id) && Registered(states[i].bus, ty, id)
    ensures !Enters(states[j], steps[j], id)
  {
    RemovedStays(states, steps, i + 1, j, id);
  }

  /** Once the barrier is passed, no thread is inside the handler, then or at any later point, and
      no step starts it. */
  lemma BarrierIsFinal(states: seq<State>, steps: seq<Step>, i: nat, j: nat, id: EntryId)
    requires Run(states, steps) && i < j < |states| && PassesBarrier(states[i], steps[i], id)
    ensures forall t :: t in states[j].threads ==> Inside(states[j].threads[t], id) == 0
    ensures j < |steps| ==> !Enters(states[j], steps[j], id)
  {
    InvInRun(states, steps, i + 1);
    InvInRun(states, steps, j);
    RemovedStays(states, steps, i + 1, j, id);
    forall t | t in states[j].threads
      ensures Inside(states[j].threads[t], id) == 0
    {
      RunningIsInside(states[j], id, t);
    }
  }

  /** No thread sleeps at the barrier of a drained handler unless some thread still owes the
      notify that will wake it. */
  lemma SleeperIsNotified(states: seq<State>, steps: seq<Step>, n: nat, t: Tid)
    requires Run(states, steps) && n < |states| && t in states[n].threads
    requires Asleep(states[n].threads[t]) && Drained(states[n], Top(states[n].threads[t]).id)
    ensures NotifyOwed(states[n])
  {
    InvInRun(states, steps, n);
  }

  /** The entry look-ups in `Enabled` exclude no step: every id a reachable state can name is known. */
  lemma EntriesAreKnown(states: seq<State>, steps: seq<Step>, n: nat, t: Tid)
    requires Run(states, steps) && n < |states| && t in states[n].threads && states[n].threads[t] != []
    ensures var s, top := states[n], Top(states[n].threads[t]);
            && (top.Publishing? ==> forall id :: id in top.rest ==> id in s.bus.entries)
            && (top.Invoking? || top.Awake? || top.Sleeping? ==> top.id in s.bus.entries)
            && (forall ty, id :: Registered(s.bus, ty, id) ==> id in s.bus.entries)
  {
    InvInRun(states, steps, n);
    assert FrameOk(states[n], Top(states[n].threads[t]));
  }

  // ---------------------------------------------------------------- delivery

  // A publish frame in any of its three places; `rest` is what its loop has still to visit.
  ghost predicate InLoop(f: Frame) {
    f.Publishing? || f.Invoking? || f.OwesNotify?
  }

  // Thread `t` takes step `k`, and its stack is then `height` frames high.
  ghost predicate ActsAt(states: seq<State>, steps: seq<Step>, t: Tid, height: nat, k: nat, action: Action) {
    k < |steps| && k < |states| && t in states[k].threads &&
    steps[k] == Step(t, action) && |states[k].threads[t]| == height
  }

  // Thread `t` keeps its lowest `height` frames in all of states[i..j].
  ghost predicate KeepsUp(states: seq<State>, t: Tid, height: nat, i: nat, j: nat) {
    forall k :: i <= k < j && k < |states| ==> t in states[k].threads && |states[k].threads[t]| >= height
  }

  // No handler of the frame below `height` throws between `i` and `j`.
  ghost predicate NoThrow(states: seq<State>, steps: seq<Step>, t: Tid, height: nat, i: nat, j: nat) {
    forall k :: i < k < j ==> !ActsAt(states, steps, t, height, k, Return(true))
  }

  // Step `k` starts handler `id` on thread `t` if it is not removed, and else does nothing to the bus.
  ghost predicate Visits(states: seq<State>, k: nat, t: Tid, id: EntryId) {
    && k + 1 < |states| && id in states[k].bus.entries && t in states[k].threads && t in states[k + 1].threads
    && (if states[k].bus.entries[id].removed then states[k + 1].bus == states[k].bus
        else
          && id in states[k + 1].bus.entries
          && states[k + 1].bus.entries[id].running == states[k].bus.entries[id].running + [t]
          && Inside(states[k + 1].threads[t], id) == Inside(states[k].threads[t], id) + 1)
  }

  // `at` are the steps between `i` and `j` by which the frame visits `ids`, one for each and in order.
  ghost predicate Delivers(
    states: seq<State>, steps: seq<Step>, t: Tid, height: nat, i: nat, j: nat, ids: seq<EntryId>, at: seq<nat>)
  {
    && |at| == |ids|
    && (forall m, n :: 0 <= m < n < |at| ==> at[m] < at[n])
    && (forall n :: 0 <= n < |at| ==>
          i < at[n] < j && ActsAt(states, steps, t, height, at[n], TryInvoke) && Visits(states, at[n], t, ids[n]))
    && (forall k :: i < k < j && ActsAt(states, steps, t, height, k, TryInvoke) ==> k in at)
  }

  ghost predicate Delivered(
    states: seq<State>, steps: seq<Step>, t: Tid, height: nat, i: nat, j: nat, ids: seq<EntryId>)
  {
    exists at :: Delivers(states, steps, t, height, i, j, ids, at)
  }

  // What a step does to the frame at index `d` of one thread's stack.
  lemma LoopStep(s: State, step: Step, t: Tid, d: nat)
    requires Enabled(s, step) && t in s.threads && Nested(s.threads[t])
    requires d < |s.threads[t]| && InLoop(s.threads[t][d])
    requires t in Next(s, step).threads && d < |Next(s, step).threads[t]|
    ensures var f, f' := s.threads[t][d], Next(s, step).threads[t][d];
            && InLoop(f')
            && (step.thread != t || |s.threads[t]| != d + 1 ==> f'.rest == f.rest)
            && (step == Step(t, TryInvoke) && |s.threads[t]| == d + 1 ==> f.rest != [] && f'.rest == f.rest[1..])
            && (step == Step(t, Return(true)) && |s.threads[t]| == d + 1 ==> f'.rest == [] && !f'.Invoking?)
            && (step.thread == t && !step.action.TryInvoke? && step.action != Return(true) ==> f'.rest == f.rest)
            && (!f.Invoking? && step != Step(t, TryInvoke) ==> !f'.Invoking?)
  {
    OtherStacks(s, step);
    hide BusAfter;
  }

  lemma VisitStep(states: seq<State>, steps: seq<Step>, k: nat, t: Tid)
    requires Run(states, steps) && k < |steps| && steps[k] == Step(t, TryInvoke)
    ensures Top(states[k].threads[t]).rest != [] && Visits(states, k, t, Top(states[k].threads[t]).rest[0])
  {
    var id := Top(states[k].threads[t]).rest[0];
    InvInRun(states, steps, k);
    InsideStep(states[k], steps[k], id, t);
  }

  lemma {:induction false} StacksNest(states: seq<State>, steps: seq<Step>, k: nat, t: Tid)
    requires Run(states, steps) && k < |states| && t in states[k].threads
    ensures Nested(states[k].threads[t])
  {
    InvInRun(states, steps, k);
  }

  // Frame `d` was pushed with `ids`: the visits so far and what its loop has left make up `ids`.
  ghost predicate HalfWay(
    states: seq<State>, steps: seq<Step>, t: Tid, d: nat, i: nat, k: nat, ids: seq<EntryId>, at: seq<nat>)
    requires i < k < |states| && t in states[k].threads && d < |states[k].threads[t]|
  {
    && InLoop(states[k].threads[t][d])
    && |at| <= |ids|
    && ids[|at|..] == states[k].threads[t][d].rest
    && Delivers(states, steps, t, d + 1, i, k, ids[..|at|], at)
  }

  lemma DeliversNothing(states: seq<State>, steps: seq<Step>, t: Tid, d: nat, i: nat, ids: seq<EntryId>)
    requires i + 1 < |states| && t in states[i + 1].threads && d < |states[i + 1].threads[t]|
    requires states[i + 1].threads[t][d] == Publishing(ids)
    ensures HalfWay(states, steps, t, d, i, i + 1, ids, [])
  {
  }

  lemma OneMoreVisit(
    states: seq<State>, steps: seq<Step>, t: Tid, height: nat, i: nat, k: nat, ids: seq<EntryId>, at: seq<nat>)
    requires i < k && |at| < |ids| && Delivers(states, steps, t, height, i, k, ids[..|at|], at)
    requires ActsAt(states, steps, t, height, k, TryInvoke) && Visits(states, k, t, ids[|at|])
    ensures Delivers(states, steps, t, height, i, k + 1, ids[..|at| + 1], at + [k])
  {
    hide Visits;
  }

  lemma NoVisit(
    states: seq<State>, steps: seq<Step>, t: Tid, height: nat, i: nat, k: nat, ids: seq<EntryId>, at: seq<nat>)
    requires i < k && Delivers(states, steps, t, height, i, k, ids, at)
    requires !ActsAt(states, steps, t, height, k, TryInvoke)
    ensures Delivers(states, steps, t, height, i, k + 1, ids, at)
  {
    hide Visits;
  }

  lemma HalfWayStep(
    states: seq<State>, steps: seq<Step>, t: Tid, d: nat, i: nat, k: nat, ids: seq<EntryId>, at: seq<nat>)
    returns (more: seq<nat>)
    requires Run(states, steps) && i < k < |steps| && KeepsUp(states, t, d + 1, i + 1, k + 2)
    requires t in states[k].threads && d < |states[k].threads[t]|
    requires HalfWay(states, steps, t, d, i, k, ids, at)
    requires !ActsAt(states, steps, t, d + 1, k, Return(true))
    ensures t in states[k + 1].threads && d < |states[k + 1].threads[t]|
    ensures HalfWay(states, steps, t, d, i, k + 1, ids, more)
  {
    StacksNest(states, steps, k, t);
    LoopStep(states[k], steps[k], t, d);
    hide Nested;
    if ActsAt(states, steps, t, d + 1, k, TryInvoke) {
      VisitStep(states, steps, k, t);
      hide Visits, Next, Delivers;
      OneMoreVisit(states, steps, t, d + 1, i, k, ids, at);
      more := at + [k];
    } else {
      more := at;
      hide Visits, Next, Delivers;
      NoVisit(states, steps, t, d + 1, i, k, ids[..|at|], at);
    }
  }

  lemma {:induction false} DeliveredSoFar(
    states: seq<State>, steps: seq<Step>, t: Tid, ty: EventType, i: nat, k: nat)
    returns (at: seq<nat>)
    requires Run(states, steps) && i < k < |states| && steps[i] == Step(t, Publish(ty)) && ty in states[i].bus.handlers
    requires t in states[i].threads
    requires KeepsUp(states, t, |states[i].threads[t]| + 1, i + 1, k + 1)
    requires NoThrow(states, steps, t, |states[i].threads[t]| + 1, i, k)
    ensures t in states[k].threads && |states[i].threads[t]| < |states[k].threads[t]|
    ensures HalfWay(states, steps, t, |states[i].threads[t]|, i, k, states[i].bus.handlers[ty], at)
    decreases k
  {
    var d, ids := |states[i].threads[t]|, states[i].bus.handlers[ty];
    if k == i + 1 {
      OtherStacks(states[i], steps[i]);
      DeliversNothing(states, steps, t, d, i, ids);
      at := [];
    } else {
      at := DeliveredSoFar(states, steps, t, ty, i, k - 1);
      hide HalfWay, Next, Enabled;
      at := HalfWayStep(states, steps, t, d, i, k - 1, ids, at);
    }
  }

  /** A publish whose handlers return normally reaches every handler of its type: between the step
      that pushes its frame and the one that pops it, the frame takes exactly one step for each
      entry of the type's list as it was at the publish, in list order, and each such step starts
      the handler on this thread exactly if it is not removed at that moment. */
  lemma PublishDelivers(states: seq<State>, steps: seq<Step>, t: Tid, ty: EventType, i: nat, j: nat)
    requires Run(states, steps) && i < j < |steps| && steps[i] == Step(t, Publish(ty)) && ty in states[i].bus.handlers
    requires t in states[i].threads
    requires KeepsUp(states, t, |states[i].threads[t]| + 1, i + 1, j + 1)
    requires ActsAt(states, steps, t, |states[i].threads[t]| + 1, j, FinishPublish)
    requires NoThrow(states, steps, t, |states[i].threads[t]| + 1, i, j)
    ensures Delivered(states, steps, t, |states[i].threads[t]| + 1, i, j, states[i].bus.handlers[ty])
  {
    var d, ids := |states[i].threads[t]|, states[i].bus.handlers[ty];
    var at := DeliveredSoFar(states, steps, t, ty, i, j);
    hide Delivers, Next;
    assert states[j].threads[t][d] == Publishing([]);
    assert ids[..|at|] == ids;
  }

  /** A publish of a type without a list pushes no frame, and one with a list does so at once. */
  lemma PublishStarts(states: seq<State>, steps: seq<Step>, t: Tid, ty: EventType, i: nat)
    requires Run(states, steps) && i < |steps| && steps[i] == Step(t, Publish(ty))
    ensures states[i + 1].bus == states[i].bus && t in states[i].threads && t in states[i + 1].threads
    ensures |states[i + 1].threads[t]| == |states[i].threads[t]| + if ty in states[i].bus.handlers then 1 else 0
  {
    OtherStacks(states[i], steps[i]);
  }

  // The loop whose frame is on top of the stack is over, but for the notify that it may owe.
  ghost predicate Spent(stack: seq<Frame>, height: nat) {
    |stack| == height > 0 && InLoop(Top(stack)) && !Top(stack).Invoking? && Top(stack).rest == []
  }

  lemma SpentStep(s: State, step: Step, t: Tid, height: nat)
    requires Enabled(s, step) && t in s.threads && Nested(s.threads[t])
    requires Spent(s.threads[t], height) || (step == Step(t, Return(true)) && |s.threads[t]| == height)
    requires t in Next(s, step).threads && |Next(s, step).threads[t]| >= height
    ensures Spent(Next(s, step).threads[t], height)
  {
    LoopStep(s, step, t, height - 1);
    OtherStacks(s, step);
    hide BusAfter;
  }

  lemma SpentActs(s: State, step: Step, height: nat)
    requires Enabled(s, step) && Spent(s.threads[step.thread], height)
    ensures step.action.Notify? || step.action.FinishPublish?
  {
  }

  /** A handler that throws ends its publish: until the frame is popped, its thread takes no step
      but the notify it may owe, and starts no handler. */
  lemma {:induction false} ThrowEndsPublish(
    states: seq<State>, steps: seq<Step>, t: Tid, height: nat, i: nat, k: nat)
    requires Run(states, steps) && i < k < |states| && ActsAt(states, steps, t, height, i, Return(true))
    requires KeepsUp(states, t, height, i + 1, k + 1)
    ensures t in states[k].threads && Spent(states[k].threads[t], height)
    ensures k < |steps| && steps[k].thread == t ==> steps[k].action.Notify? || steps[k].action.FinishPublish?
    decreases k
  {
    hide Next, Nested, Enabled, Spent, Start;
    if k > i + 1 {
      ThrowEndsPublish(states, steps, t, height, i, k - 1);
    }
    StacksNest(states, steps, k - 1, t);
    assert t in states[k].threads && |states[k].threads[t]| >= height;
    SpentStep(states[k - 1], steps[k - 1], t, height);
    if k < |steps| && steps[k].thread == t {
      SpentActs(states[k], steps[k], height);
    }
  }

  // ---------------------------------------------------------------- who is on the list

  ghost predicate Ascending(ids: seq<EntryId>) {
    forall m, n :: 0 <= m < n < |ids| ==> ids[m] < ids[n]
  }

  // Step `i` issued `id` for a handler of `ty`, and no step before `n` has unsubscribed it.
  ghost predicate Joined(states: seq<State>, steps: seq<Step>, ty: EventType, id: EntryId, i: nat, n: nat) {
    && i < n <= |steps| && i < |states|
    && steps[i].action == Subscribe(ty) && states[i].bus.nextId == id
    && forall k :: i < k < n ==> steps[k].action != Unsubscribe(ty, id)
  }

  ghost predicate Listed(b: Bus) {
    forall ty :: ty in b.handlers ==> b.handlers[ty] != [] && Ascending(b.handlers[ty])
  }

  lemma {:induction false} WithoutFirstAscends(s: seq<EntryId>, id: EntryId)
    requires Ascending(s) && id in s
    ensures Ascending(WithoutFirst(s, id))
    ensures forall x :: x in WithoutFirst(s, id) <==> x in s && x != id
  {
    assert s == [s[0]] + s[1..];
    if s[0] != id {
      var w := WithoutFirst(s[1..], id);
      WithoutFirstAscends(s[1..], id);
      hide WithoutFirst;
      forall n | 0 <= n < |w|
        ensures s[0] < w[n]
      {
        assert w[n] in s[1..];
      }
      PrefixedAscends(s[0], w);
    }
  }

  lemma PrefixedAscends(id: EntryId, s: seq<EntryId>)
    requires Ascending(s) && forall n :: 0 <= n < |s| ==> id < s[n]
    ensures Ascending([id] + s)
  {
  }

  lemma AppendedAscends(s: seq<EntryId>, id: EntryId)
    requires Ascending(s) && forall x :: x in s ==> x < id
    ensures Ascending(s + [id])
  {
    forall m | 0 <= m < |s|
      ensures s[m] < id
    {
      assert s[m] in s;
    }
  }

  lemma ListStep(s: State, step: Step)
    requires EntriesOk(s) && Listed(s.bus) && Enabled(s, step)
    ensures Listed(Next(s, step).bus)
    ensures forall ty, id :: Registered(Next(s, step).bus, ty, id) <==>
              || (step.action == Subscribe(ty) && id == s.bus.nextId)
              || (step.action != Unsubscribe(ty, id) && Registered(s.bus, ty, id))
    ensures Next(s, step).bus.nextId == s.bus.nextId + if step.action.Subscribe? then 1 else 0
  {
    if step.action.Unsubscribe? && Registered(s.bus, step.action.ty, step.action.id) {
      WithoutFirstAscends(s.bus.handlers[step.action.ty], step.action.id);
    } else if step.action.Subscribe? {
      AppendedAscends(Targets(s.bus, step.action.ty), s.bus.nextId);
    }
  }

  ghost predicate IsMember(states: seq<State>, steps: seq<Step>, ty: EventType, id: EntryId, n: nat) {
    exists i :: Joined(states, steps, ty, id, i, n)
  }

  lemma MemberStep(states: seq<State>, steps: seq<Step>, ty: EventType, id: EntryId, n: nat)
    requires n < |states| && n < |steps|
    ensures IsMember(states, steps, ty, id, n + 1) <==>
              || (steps[n].action == Subscribe(ty) && states[n].bus.nextId == id)
              || (steps[n].action != Unsubscribe(ty, id) && IsMember(states, steps, ty, id, n))
  {
    if steps[n].action == Subscribe(ty) && states[n].bus.nextId == id {
      assert Joined(states, steps, ty, id, n, n + 1);
    } else if steps[n].action != Unsubscribe(ty, id) && IsMember(states, steps, ty, id, n) {
      var i :| Joined(states, steps, ty, id, i, n);
      assert Joined(states, steps, ty, id, i, n + 1);
    } else if IsMember(states, steps, ty, id, n + 1) {
      var i :| Joined(states, steps, ty, id, i, n + 1);
      assert Joined(states, steps, ty, id, i, n);
    }
  }

  /** The list of a type holds, in the order of subscription, exactly the handlers subscribed to
      it and not unsubscribed since. */
  lemma {:induction false} ListIsWhoJoined(states: seq<State>, steps: seq<Step>, n: nat)
    requires Run(states, steps) && n < |states|
    ensures Listed(states[n].bus)
    ensures forall ty, id :: Registered(states[n].bus, ty, id) <==> IsMember(states, steps, ty, id, n)
  {
    if n > 0 {
      ListIsWhoJoined(states, steps, n - 1);
      InvInRun(states, steps, n - 1);
      ListStep(states[n - 1], steps[n - 1]);
      hide Next, Enabled, Inv, IsMember, Listed, Start;
      forall ty, id
        ensures Registered(states[n].bus, ty, id) <==> IsMember(states, steps, ty, id, n)
      {
        MemberStep(states, steps, ty, id, n - 1);
      }
    }
  }

  ghost predicate OnAList(b: Bus, id: EntryId) {
    exists ty :: Registered(b, ty, id)
  }

  ghost predicate LiveOk(b: Bus) {
    && (forall ty, ty', id :: Registered(b, ty, id) && Registered(b, ty', id) ==> ty == ty')
    && (forall id :: id in b.entries ==> (b.entries[id].removed <==> !OnAList(b, id)))
  }

  lemma LiveStep(s: State, step: Step)
    requires EntriesOk(s) && Listed(s.bus) && LiveOk(s.bus) && Enabled(s, step)
    ensures LiveOk(Next(s, step).bus)
  {
    var b, b' := s.bus, Next(s, step).bus;
    ListStep(s, step);
    assert !OnAList(b, b.nextId);
    forall id | id in b'.entries
      ensures b'.entries[id].removed <==> !OnAList(b', id)
    {
      LiveEntryStep(s, step, id);
    }
  }

  lemma LiveEntryStep(s: State, step: Step, id: EntryId)
    requires EntriesOk(s) && Listed(s.bus) && LiveOk(s.bus) && Enabled(s, step) && id in Next(s, step).bus.entries
    ensures Next(s, step).bus.entries[id].removed <==> !OnAList(Next(s, step).bus, id)
  {
    var b, b' := s.bus, Next(s, step).bus;
    ListStep(s, step);
    if step.action.Subscribe? && id == b.nextId {
      assert Registered(b', step.action.ty, id);
    } else if step.action.Unsubscribe? && step.action.id == id && Registered(b, step.action.ty, id) {
      assert !OnAList(b', id);
    } else {
      assert b'.entries[id].removed == b.entries[id].removed;
      hide Next, Enabled;
      if ty :| Registered(b, ty, id) {
        assert Registered(b', ty, id);
      }
    }
  }

  /** A handler is refused only because it was unsubscribed: in every reachable state the entries
      not marked as removed are exactly those on the list of a type, each on one list alone. */
  lemma {:induction false} RemovedIffOffTheLists(states: seq<State>, steps: seq<Step>, n: nat)
    requires Run(states, steps) && n < |states|
    ensures LiveOk(states[n].bus)
  {
    if n > 0 {
      RemovedIffOffTheLists(states, steps, n - 1);
      ListIsWhoJoined(states, steps, n - 1);
      InvInRun(states, steps, n - 1);
      hide LiveOk, Listed, Registered, EntriesOk, StacksOk, AllBalanced, BarrierOk;
      LiveStep(states[n - 1], steps[n - 1]);
    }
  }

  // ---------------------------------------------------------------- going on

  // How many steps the frames of a stack have left at most, with no new calls into the bus.
  ghost function FrameWork(f: Frame): nat {
    match f
    case Publishing(rest) => 3 * |rest| + 1
    case OwesNotify(rest) => 3 * |rest| + 2
    case Invoking(_, rest) => 3 * |rest| + 3
    case Sleeping(_) => 1
    case Awake(_) => 2
  }

  ghost function StackWork(stack: seq<Frame>): nat {
    if stack == [] then 0 else StackWork(Rest(stack)) + FrameWork(Top(stack))
  }

  lemma WorkPush(stack: seq<Frame>, f: Frame)
    ensures StackWork(stack + [f]) == StackWork(stack) + FrameWork(f)
  {
    assert Rest(stack + [f]) == stack;
  }

  // The steps by which a thread goes on with what it has begun.
  predicate GoesOn(action: Action) {
    action.TryInvoke? || action.Return? || action.Notify? || action.FinishPublish? || action.Recheck?
  }

  lemma WorkShrinks(s: State, step: Step)
    requires Enabled(s, step) && GoesOn(step.action)
    ensures StackWork(ActorStack(s, step)) < StackWork(s.threads[step.thread])
  {
    var stack, after := s.threads[step.thread], ActorStack(s, step);
    hide BusAfter, PassesBarrier;
    if |after| == |stack| {
      WorkPush(Rest(stack), Top(after));
      assert after == Rest(stack) + [Top(after)];
    }
  }

  /** Nothing in the bus blocks a thread but a barrier: in every reachable state a thread outside a
      wait can go on, by exactly the step its frame calls for; a handler returns when it likes, and client
      code may call the bus at any time. */
  lemma ThreadsGoOn(states: seq<State>, steps: seq<Step>, n: nat, t: Tid)
    requires Run(states, steps) && n < |states| && t in states[n].threads
    ensures var s, stack := states[n], states[n].threads[t];
      if stack == [] || Top(stack).Invoking? then
        && (forall ty :: Enabled(s, Step(t, Subscribe(ty))) && Enabled(s, Step(t, Publish(ty))))
        && (forall ty, id :: Enabled(s, Step(t, Unsubscribe(ty, id))))
        && (forall threw :: stack != [] ==> Enabled(s, Step(t, Return(threw))))
      else match Top(stack)
           case Publishing(rest) => Enabled(s, Step(t, if rest == [] then FinishPublish else TryInvoke))
           case OwesNotify(_) => Enabled(s, Step(t, Notify))
           case Awake(_) => Enabled(s, Step(t, Recheck))
           case Sleeping(id) => Enabled(s, Step(t, Spurious)) && (!Drained(s, id) || NotifyOwed(s))
  {
    hide Next, Start;
    var s, stack := states[n], states[n].threads[t];
    InvInRun(states, steps, n);
    AllIdsAreKnown(s, t);
    hide Inv, FrameOk;
    if stack != [] && Top(stack).Sleeping? && Drained(s, Top(stack).id) {
      SleeperIsNotified(states, steps, n, t);
    }
  }

  lemma AllIdsAreKnown(s: State, t: Tid)
    requires Inv(s) && t in s.threads
    ensures s.threads[t] != [] ==> FrameOk(s, Top(s.threads[t]))
    ensures forall ty, id :: Registered(s.bus, ty, id) ==> id in s.bus.entries
  {
    if s.threads[t] != [] {
      assert Top(s.threads[t]) in s.threads[t];
    }
  }

  /** ... and each step by which a thread goes on leaves its stack with less to do. */
  lemma GoingOnEnds(states: seq<State>, steps: seq<Step>, n: nat)
    requires Run(states, steps) && n < |steps| && GoesOn(steps[n].action)
    ensures steps[n].thread in states[n].threads && steps[n].thread in states[n + 1].threads
    ensures StackWork(states[n + 1].threads[steps[n].thread]) < StackWork(states[n].threads[steps[n].thread])
  {
    WorkShrinks(states[n], steps[n]);
    ActorIsNext(states[n], steps[n]);
    hide Next, StackWork;
  }

  lemma ActorIsNext(s: State, step: Step)
    requires Enabled(s, step)
    ensures step.thread in Next(s, step).threads
    ensures Next(s, step).threads[step.thread]
         == if step.action.Notify? then Woken(ActorStack(s, step)) else ActorStack(s, step)
    ensures step.action.Notify? ==> Next(s, step).threads[step.thread] == ActorStack(s, step)
  {
  }

  // ---------------------------------------------------------------- the class

  datatype Removal = Unknown | FromInside | Free | MustWait

  /** The fields that `mutex_` guards, and the critical sections over them. */
  class EventBus {
    var nextId: EntryId
    var handlers: map<EventType, seq<EntryId>>
    var entries: map<EntryId, Entry>

    ghost function View(): Bus
      reads this
    {
      Bus(nextId, handlers, entries)
    }

    constructor ()
      ensures View() == Bus(1, map[], map[])
    {
      nextId, handlers, entries := 1, map[], map[];
    }

    method SubscribeTo(ty: EventType) returns (id: EntryId)
      modifies this
      ensures View() == Subscribed(old(View()), ty) && id == old(nextId)
    {
      id := nextId;
      nextId := nextId + 1;
      entries := entries[id := Entry(0, [], false)];
      if ty !in handlers {
        handlers := handlers[ty := []];
      }
      handlers := handlers[ty := handlers[ty] + [id]];
    }

    method BeginInvoke(id: EntryId, self: Tid) returns (ok: bool)
      requires id in entries
      modifies this
      ensures ok <==> !old(entries)[id].removed
      ensures View() == if ok then old(View()).(entries := old(entries)[id := Begun(old(entries)[id], self)])
                        else old(View())
    {
      ok := !entries[id].removed;
      if ok {
        var e := entries[id];
        entries := entries[id := e.(inFlight := e.inFlight + 1, running := e.running + [self])];
      }
    }

    method EndInvoke(id: EntryId, self: Tid) returns (drainedRemoved: bool)
      requires id in entries && self in entries[id].running
      modifies this
      ensures View() == old(View()).(entries := old(entries)[id := Ended(old(entries)[id], self)])
      ensures drainedRemoved <==> entries[id].removed && entries[id].inFlight == 0
    {
      var run := entries[id].running;
      var k := Find(run, self);
      WithoutFirstAt(run, k);
      entries := entries[id := entries[id].(inFlight := entries[id].inFlight - 1, running := run[..k] + run[k + 1..])];
      drainedRemoved := entries[id].removed && entries[id].inFlight == 0;
    }

    // unsubscribe up to its wait: what the caller has to do next.
    method Remove(ty: EventType, id: EntryId, self: Tid) returns (next: Removal)
      requires Registered(View(), ty, id) ==> id in entries
      modifies this
      ensures !Registered(old(View()), ty, id) ==> View() == old(View()) && next == Unknown
      ensures Registered(old(View()), ty, id) ==>
                && View() == Unregistered(old(View()), ty, id)
                && next == if self in entries[id].running then FromInside
                           else if entries[id].inFlight == 0 then Free else MustWait
    {
      if ty !in handlers || id !in handlers[ty] {
        return Unknown;
      }
      var ids := handlers[ty];
      var k := Find(ids, id);
      WithoutFirstAt(ids, k);
      entries := entries[id := entries[id].(removed := true)];
      var left := ids[..k] + ids[k + 1..];
      handlers := if left == [] then handlers - {ty} else handlers[ty := left];
      next := if self in entries[id].running then FromInside
              else if entries[id].inFlight == 0 then Free else MustWait;
    }

    method Find<T(==)>(s: seq<T>, x: T) returns (k: nat)
      requires x in s
      ensures k < |s| && s[k] == x && x !in s[..k]
    {
      k := 0;
      while s[k] != x
        invariant k < |s| && x !in s[..k]
        decreases |s| - k
      {
        assert s[..k + 1] == s[..k] + [s[k]];
        assert s[..|s|] == s;
        k := k + 1;
      }
    }
  }

  lemma {:induction false} WithoutFirstAt<T>(s: seq<T>, k: nat)
    requires k < |s| && s[k] !in s[..k]
    ensures WithoutFirst(s, s[k]) == s[..k] + s[k + 1..]
  {
    if k > 0 {
      assert s[..k] == [s[0]] + s[1..][..k - 1];
      WithoutFirstAt(s[1..], k - 1);
      assert s[1..][k..] == s[k + 1..];
    }
  }
}
