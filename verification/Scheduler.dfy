/**
  The deadline scheduler (core/src/delayed_scheduler.cpp): a queue ordered by
  deadline, an index from handle to queued entry, and one worker thread that takes
  every due entry in one critical section and runs the callbacks outside it.

  Every critical section is a function on `Sched`; the class proves that the
  loops over the queue compute these functions, and the state machine `Timer`
  interleaves them with the worker's callbacks, the clock and shutdown.
 */
module Scheduler {

  type Handle = nat
  type Time = int

  datatype Entry<F> = Entry(due: Time, id: Handle, fn: F)

  datatype Sched<F> = Sched(
    queue: seq<Entry<F>>, index: map<Handle, Entry<F>>, nextId: Handle, stopping: bool)

  // ---------------------------------------------------------------- the critical sections

  function Initial<F>(): Sched<F> {
    Sched([], map[], 1, false)
  }

  ghost function Ids<F>(q: seq<Entry<F>>): set<Handle> {
    if q == [] then {} else {q[0].id} + Ids(q[1..])
  }

  // A multimap places a new key after its equals.
  ghost function Insert<F>(q: seq<Entry<F>>, e: Entry<F>): seq<Entry<F>> {
    if q == [] || e.due < q[0].due then [e] + q else [q[0]] + Insert(q[1..], e)
  }

  ghost function Without<F>(q: seq<Entry<F>>, h: Handle): seq<Entry<F>> {
    if q == [] then [] else if q[0].id == h then q[1..] else [q[0]] + Without(q[1..], h)
  }

  ghost function Due<F>(q: seq<Entry<F>>, now: Time): seq<Entry<F>> {
    if q == [] || now < q[0].due then [] else [q[0]] + Due(q[1..], now)
  }

  ghost function Later<F>(q: seq<Entry<F>>, now: Time): seq<Entry<F>> {
    if q == [] || now < q[0].due then q else Later(q[1..], now)
  }

  ghost function Schedule<F>(s: Sched<F>, due: Time, fn: F): (Sched<F>, Handle) {
    var e := Entry(due, s.nextId, fn);
    (s.(queue := Insert(s.queue, e), index := s.index[e.id := e], nextId := s.nextId + 1), e.id)
  }

  ghost function Cancel<F>(s: Sched<F>, h: Handle): (Sched<F>, bool) {
    if h in s.index then (s.(queue := Without(s.queue, h), index := s.index - {h}), true)
    else (s, false)
  }

  ghost function Collect<F>(s: Sched<F>, now: Time): (Sched<F>, seq<Entry<F>>) {
    var batch := Due(s.queue, now);
    (s.(queue := Later(s.queue, now), index := s.index - Ids(batch)), batch)
  }

  // ---------------------------------------------------------------- what they keep

  ghost predicate Distinct<F>(q: seq<Entry<F>>) {
    q == [] || (q[0].id !in Ids(q[1..]) && Distinct(q[1..]))
  }

  ghost predicate Sorted<F>(q: seq<Entry<F>>) {
    |q| <= 1 || (q[0].due <= q[1].due && Sorted(q[1..]))
  }

  ghost predicate Valid<F(!new)>(s: Sched<F>) {
    && Sorted(s.queue)
    && Distinct(s.queue)
    && s.index.Keys == Ids(s.queue)
    && (forall e :: e in s.queue ==> 0 < e.id < s.nextId && e.id in s.index && s.index[e.id] == e)
    && 0 < s.nextId
  }

  lemma {:induction false} MemberId<F>(q: seq<Entry<F>>, e: Entry<F>)
    requires e in q
    ensures e.id in Ids(q)
  {
    if e != q[0] {
      MemberId(q[1..], e);
    }
  }

  lemma {:induction false} IdMember<F>(q: seq<Entry<F>>, h: Handle) returns (e: Entry<F>)
    requires h in Ids(q)
    ensures e in q && e.id == h
  {
    if q[0].id == h {
      e := q[0];
    } else {
      e := IdMember(q[1..], h);
    }
  }

  lemma {:induction false} InsertMembers<F>(q: seq<Entry<F>>, e: Entry<F>)
    ensures Ids(Insert(q, e)) == Ids(q) + {e.id}
    ensures forall x :: x in Insert(q, e) <==> x in q || x == e
  {
    var w := Insert(q, e);
    if q == [] || e.due < q[0].due {
      assert w[1..] == q;
    } else {
      InsertMembers(q[1..], e);
      assert w[1..] == Insert(q[1..], e);
      assert q == [q[0]] + q[1..];
    }
  }

  lemma {:induction false} InsertOrder<F>(q: seq<Entry<F>>, e: Entry<F>)
    requires Sorted(q) && Distinct(q) && e.id !in Ids(q)
    ensures Sorted(Insert(q, e)) && Distinct(Insert(q, e))
  {
    var w := Insert(q, e);
    if q == [] || e.due < q[0].due {
      assert w[1..] == q;
    } else {
      InsertOrder(q[1..], e);
      InsertMembers(q[1..], e);
      assert w[1..] == Insert(q[1..], e);
    }
  }

  lemma {:induction false} WithoutKeeps<F>(q: seq<Entry<F>>, h: Handle)
    requires Sorted(q) && Distinct(q)
    ensures Sorted(Without(q, h)) && Distinct(Without(q, h))
    ensures Ids(Without(q, h)) == Ids(q) - {h}
    ensures forall e :: e in Without(q, h) <==> e in q && e.id != h
  {
    if q != [] {
      assert q == [q[0]] + q[1..];
      if q[0].id == h {
        forall e | e in q[1..]
          ensures e.id != h
        {
          MemberId(q[1..], e);
        }
      } else {
        WithoutKeeps(q[1..], h);
        assert Without(q, h)[1..] == Without(q[1..], h);
      }
    }
  }

  lemma SplitKeeps<F>(q: seq<Entry<F>>, now: Time)
    requires Sorted(q) && Distinct(q)
    ensures q == Due(q, now) + Later(q, now)
    ensures Sorted(Later(q, now)) && Distinct(Later(q, now)) && Distinct(Due(q, now))
    ensures Ids(q) == Ids(Due(q, now)) + Ids(Later(q, now)) && Ids(Due(q, now)) !! Ids(Later(q, now))
    ensures forall e :: e in Due(q, now) ==> e.due <= now
    ensures forall e :: e in Later(q, now) ==> now < e.due
  {
    hide Sorted, Distinct, Ids, Due, Later;
    SplitIds(q, now);
    SplitOrder(q, now);
  }

  lemma {:induction false} SplitIds<F>(q: seq<Entry<F>>, now: Time)
    requires Distinct(q)
    ensures q == Due(q, now) + Later(q, now)
    ensures Distinct(Later(q, now)) && Distinct(Due(q, now))
    ensures Ids(q) == Ids(Due(q, now)) + Ids(Later(q, now)) && Ids(Due(q, now)) !! Ids(Later(q, now))
  {
    if q != [] && q[0].due <= now {
      SplitIds(q[1..], now);
      assert Due(q, now)[1..] == Due(q[1..], now);
    }
  }

  lemma {:induction false} SplitOrder<F>(q: seq<Entry<F>>, now: Time)
    requires Sorted(q)
    ensures Sorted(Later(q, now))
    ensures forall e :: e in Due(q, now) ==> e.due <= now
    ensures forall e :: e in Later(q, now) ==> now < e.due
  {
    if q != [] && q[0].due <= now {
      SplitOrder(q[1..], now);
    } else {
      LaterThanFirst(q, now);
    }
  }

  lemma {:induction false} LaterThanFirst<F>(q: seq<Entry<F>>, now: Time)
    requires Sorted(q) && (q == [] || now < q[0].due)
    ensures forall e :: e in q ==> now < e.due
  {
    if |q| > 1 {
      LaterThanFirst(q[1..], now);
      assert q == [q[0]] + q[1..];
    }
  }

  lemma ScheduleKeepsValid<F(!new)>(s: Sched<F>, due: Time, fn: F)
    requires Valid(s)
    ensures Valid(Schedule(s, due, fn).0)
    ensures forall e :: e in Schedule(s, due, fn).0.queue <==> e in s.queue || e == Entry(due, s.nextId, fn)
  {
    hide Sorted, Distinct, Insert, Ids;
    var e := Entry(due, s.nextId, fn);
    if e.id in Ids(s.queue) {
      var x := IdMember(s.queue, e.id);
    }
    InsertOrder(s.queue, e);
    InsertMembers(s.queue, e);
  }

  lemma CancelKeepsValid<F(!new)>(s: Sched<F>, h: Handle)
    requires Valid(s)
    ensures Valid(Cancel(s, h).0)
    // Cancel answers true exactly for the queued handles, and removes exactly that entry.
    ensures Cancel(s, h).1 <==> h in Ids(s.queue)
    ensures forall e :: e in Cancel(s, h).0.queue <==> e in s.queue && e.id != h
  {
    WithoutKeeps(s.queue, h);
  }

  lemma CollectKeepsValid<F(!new)>(s: Sched<F>, now: Time)
    requires Valid(s)
    ensures Valid(Collect(s, now).0)
    // The batch and what stays queued are the old queue, split exactly at `now`.
    ensures Collect(s, now).1 + Collect(s, now).0.queue == s.queue
    ensures forall e :: e in Collect(s, now).1 ==> e.due <= now
    ensures forall e :: e in Collect(s, now).0.queue ==> now < e.due
  {
    SplitKeeps(s.queue, now);
    forall e | e in Later(s.queue, now)
      ensures e.id in Collect(s, now).0.index
    {
      MemberId(Later(s.queue, now), e);
    }
  }

  // ---------------------------------------------------------------- counting a client's entries

  ghost function Count<F>(q: seq<Entry<F>>, mine: F -> bool): nat {
    if q == [] then 0 else (if mine(q[0].fn) then 1 else 0) + Count(q[1..], mine)
  }

  lemma {:induction false} CountConcat<F>(a: seq<Entry<F>>, b: seq<Entry<F>>, mine: F -> bool)
    ensures Count(a + b, mine) == Count(a, mine) + Count(b, mine)
  {
    if a == [] {
      assert a + b == b;
    } else {
      CountConcat(a[1..], b, mine);
      assert (a + b)[1..] == a[1..] + b;
    }
  }

  lemma {:induction false} CountInsert<F>(q: seq<Entry<F>>, e: Entry<F>, mine: F -> bool)
    ensures Count(Insert(q, e), mine) == Count(q, mine) + if mine(e.fn) then 1 else 0
  {
    if q == [] || e.due < q[0].due {
      assert Insert(q, e)[1..] == q;
    } else {
      CountInsert(q[1..], e, mine);
      assert Insert(q, e)[1..] == Insert(q[1..], e);
    }
  }

  lemma {:induction false} CountWithout<F>(q: seq<Entry<F>>, e: Entry<F>, mine: F -> bool)
    requires Distinct(q) && e in q
    ensures Count(Without(q, e.id), mine) == Count(q, mine) - if mine(e.fn) then 1 else 0
  {
    if q[0].id == e.id {
      if e in q[1..] {
        MemberId(q[1..], e);
      }
    } else {
      CountWithout(q[1..], e, mine);
      assert Without(q, e.id)[1..] == Without(q[1..], e.id);
    }
  }

  lemma ScheduleCounts<F(!new)>(s: Sched<F>, due: Time, fn: F, mine: F -> bool)
    requires Valid(s)
    ensures Count(Schedule(s, due, fn).0.queue, mine) == Count(s.queue, mine) + if mine(fn) then 1 else 0
  {
    CountInsert(s.queue, Entry(due, s.nextId, fn), mine);
  }

  lemma CancelCounts<F(!new)>(s: Sched<F>, h: Handle, mine: F -> bool)
    requires Valid(s)
    ensures Count(Cancel(s, h).0.queue, mine)
         == Count(s.queue, mine) - if h in s.index && mine(s.index[h].fn) then 1 else 0
  {
    if h in s.index {
      var e := IdMember(s.queue, h);
      CountWithout(s.queue, e, mine);
    }
  }

  lemma CollectCounts<F(!new)>(s: Sched<F>, now: Time, mine: F -> bool)
    requires Valid(s)
    ensures Count(Collect(s, now).1, mine) + Count(Collect(s, now).0.queue, mine) == Count(s.queue, mine)
  {
    CollectKeepsValid(s, now);
    CountConcat(Collect(s, now).1, Collect(s, now).0.queue, mine);
  }

  // ---------------------------------------------------------------- all interleavings

  // The worker is at its loop head, in the middle of a batch, or gone.
  datatype Worker<F> = Waiting | Running(batch: seq<Entry<F>>) | Exited

  datatype Ran = Ran(id: Handle, at: Time)

  /** One scheduler with its worker and clock, and the history of what happened to each handle. */
  datatype Timer<F> = Timer(
    core: Sched<F>, worker: Worker<F>, clock: Time,
    dues: map<Handle, Time>, cancelled: set<Handle>, ran: seq<Ran>)

  datatype Step<F> =
    | DoSchedule(due: Time, fn: F)
    | DoCancel(h: Handle)
    | DoShutdown
    | Advance(delta: nat)
    | Dequeue
    | RunNext
    | EndBatch
    | Exit

  ghost function Batch<F>(w: Worker<F>): seq<Entry<F>> {
    if w.Running? then w.batch else []
  }

  ghost function RanIds(ran: seq<Ran>): set<Handle> {
    if ran == [] then {} else RanIds(ran[..|ran| - 1]) + {ran[|ran| - 1].id}
  }

  ghost predicate RanOnce(ran: seq<Ran>) {
    ran == [] || (RanOnce(ran[..|ran| - 1]) && ran[|ran| - 1].id !in RanIds(ran[..|ran| - 1]))
  }

  // The handles the worker has taken off the queue, whether or not their callback started.
  ghost function Dequeued<F>(t: Timer<F>): set<Handle> {
    RanIds(t.ran) + Ids(Batch(t.worker))
  }

  ghost predicate Enabled<F>(t: Timer<F>, step: Step<F>) {
    match step
    case Dequeue =>
      && t.worker.Waiting? && !t.core.stopping
      && t.core.queue != [] && t.core.queue[0].due <= t.clock
    case RunNext => t.worker.Running? && t.worker.batch != []
    case EndBatch => t.worker.Running? && t.worker.batch == []
    case Exit => t.worker.Waiting? && t.core.stopping
    case _ => true
  }

  ghost function Next<F>(t: Timer<F>, step: Step<F>): Timer<F>
    requires Enabled(t, step)
  {
    match step
    case DoSchedule(due, fn) =>
      var (core, h) := Schedule(t.core, due, fn);
      t.(core := core, dues := t.dues[h := due])
    case DoCancel(h) =>
      var (core, ok) := Cancel(t.core, h);
      t.(core := core, cancelled := if ok then t.cancelled + {h} else t.cancelled)
    case DoShutdown => t.(core := t.core.(stopping := true))
    case Advance(delta) => t.(clock := t.clock + delta)
    case Dequeue =>
      var (core, batch) := Collect(t.core, t.clock);
      t.(core := core, worker := Running(batch))
    case RunNext =>
      t.(worker := Running(t.worker.batch[1..]), ran := t.ran + [Ran(t.worker.batch[0].id, t.clock)])
    case EndBatch => t.(worker := Waiting)
    case Exit => t.(worker := Exited)
  }

  ghost predicate Start<F>(t: Timer<F>) {
    t.core == Initial<F>() && t.worker == Waiting && t.dues == map[] && t.cancelled == {} && t.ran == []
  }

  // Queued, dequeued and cancelled partition the issued handles.
  ghost predicate Partition<F>(t: Timer<F>) {
    && t.dues.Keys == Ids(t.core.queue) + Dequeued(t) + t.cancelled
    && Ids(t.core.queue) !! Dequeued(t) !! t.cancelled
    && Ids(Batch(t.worker)) !! RanIds(t.ran)
    && Distinct(Batch(t.worker))
    && RanOnce(t.ran)
  }

  ghost predicate Deadlines<F(!new)>(t: Timer<F>) {
    && (forall e :: e in t.core.queue ==> e.id in t.dues && t.dues[e.id] == e.due)
    && (forall e :: e in Batch(t.worker) ==> e.id in t.dues && t.dues[e.id] == e.due && e.due <= t.clock)
    && (forall r :: r in t.ran ==> r.id in t.dues && t.dues[r.id] <= r.at <= t.clock)
  }

  ghost predicate Inv<F(!new)>(t: Timer<F>) {
    && Valid(t.core)
    && (forall h :: h in t.dues <==> 0 < h < t.core.nextId)
    && Partition(t)
    && Deadlines(t)
  }

  lemma ScheduleKeepsInv<F(!new)>(t: Timer<F>, due: Time, fn: F)
    requires Inv(t)
    ensures Inv(Next(t, DoSchedule(due, fn)))
  {
    ScheduleKeepsValid(t.core, due, fn);
    InsertMembers(t.core.queue, Entry(due, t.core.nextId, fn));
  }

  lemma CancelKeepsInv<F(!new)>(t: Timer<F>, h: Handle)
    requires Inv(t)
    ensures Inv(Next(t, DoCancel(h)))
  {
    CancelKeepsValid(t.core, h);
    WithoutKeeps(t.core.queue, h);
  }

  lemma DequeuePartitions<F(!new)>(t: Timer<F>)
    requires Sorted(t.core.queue) && Distinct(t.core.queue) && Partition(t) && Enabled(t, Dequeue)
    ensures Partition(Next(t, Dequeue))
  {
    SplitKeeps(t.core.queue, t.clock);
    assert Ids(Batch(t.worker)) == {};
    var t' := Next(t, Dequeue);
    assert Dequeued(t') == Dequeued(t) + Ids(Due(t.core.queue, t.clock));
  }

  lemma DequeueKeepsInv<F(!new)>(t: Timer<F>)
    requires Inv(t) && Enabled(t, Dequeue)
    ensures Inv(Next(t, Dequeue))
  {
    DequeuePartitions(t);
    CollectKeepsValid(t.core, t.clock);
    var t' := Next(t, Dequeue);
    assert forall e :: e in t'.core.queue || e in t'.worker.batch ==> e in t.core.queue;
  }

  lemma FirstOfBatch<F(!new)>(batch: seq<Entry<F>>)
    requires batch != [] && Distinct(batch)
    ensures Ids(batch) == {batch[0].id} + Ids(batch[1..]) && batch[0].id !in Ids(batch[1..]) && Distinct(batch[1..])
  {
  }

  lemma OneMoreRan(ran: seq<Ran>, r: Ran)
    ensures RanIds(ran + [r]) == RanIds(ran) + {r.id}
    ensures RanOnce(ran + [r]) <==> RanOnce(ran) && r.id !in RanIds(ran)
  {
    assert (ran + [r])[..|ran|] == ran;
  }

  lemma RunNextPartitions<F(!new)>(t: Timer<F>)
    requires Partition(t) && Enabled(t, RunNext)
    ensures Partition(Next(t, RunNext))
  {
    hide Ids, RanIds, RanOnce, Distinct;
    FirstOfBatch(t.worker.batch);
    OneMoreRan(t.ran, Ran(t.worker.batch[0].id, t.clock));
    assert Dequeued(Next(t, RunNext)) == Dequeued(t);
  }

  lemma RunNextKeepsInv<F(!new)>(t: Timer<F>)
    requires Inv(t) && Enabled(t, RunNext)
    ensures Inv(Next(t, RunNext))
  {
    RunNextPartitions(t);
    assert t.worker.batch[0] in t.worker.batch;
  }

  lemma InvStep<F(!new)>(t: Timer<F>, step: Step<F>)
    requires Inv(t) && Enabled(t, step)
    ensures Inv(Next(t, step))
  {
    match step
    case DoSchedule(due, fn) => ScheduleKeepsInv(t, due, fn);
    case DoCancel(h) => CancelKeepsInv(t, h);
    case Dequeue => DequeueKeepsInv(t);
    case RunNext => RunNextKeepsInv(t);
    case _ =>
  }

  /** A finite run: states[i] steps to states[i + 1] by steps[i]. */
  ghost predicate Run<F>(states: seq<Timer<F>>, steps: seq<Step<F>>) {
    && |states| == |steps| + 1
    && Start(states[0])
    && forall i :: 0 <= i < |steps| ==> Enabled(states[i], steps[i]) && states[i + 1] == Next(states[i], steps[i])
  }

  lemma {:induction false} InvInRun<F(!new)>(states: seq<Timer<F>>, steps: seq<Step<F>>, n: nat)
    requires Run(states, steps) && n < |states|
    ensures Inv(states[n])
  {
    if n > 0 {
      InvInRun(states, steps, n - 1);
      InvStep(states[n - 1], steps[n - 1]);
    }
  }

  // How many of the three fates hold of a handle.
  ghost function Fates<F>(t: Timer<F>, h: Handle): nat {
    (if h in Ids(t.core.queue) then 1 else 0) + (if h in Dequeued(t) then 1 else 0) +
    (if h in t.cancelled then 1 else 0)
  }

  /** In every reachable state, including after shutdown, every issued handle has exactly one
      fate, `index` and `queue` describe the same entries, and no callback ran twice, before
      its deadline, or after a successful cancel. */
  lemma HandlesArePartitioned<F(!new)>(states: seq<Timer<F>>, steps: seq<Step<F>>, n: nat)
    requires Run(states, steps) && n < |states|
    ensures forall h :: 0 < h < states[n].core.nextId ==> Fates(states[n], h) == 1
    ensures states[n].core.index.Keys == Ids(states[n].core.queue)
    ensures RanOnce(states[n].ran) && RanIds(states[n].ran) !! states[n].cancelled
    ensures forall r :: r in states[n].ran ==> r.id in states[n].dues && states[n].dues[r.id] <= r.at
  {
    InvInRun(states, steps, n);
  }

  lemma {:induction false} CancelledGrows<F(!new)>(states: seq<Timer<F>>, steps: seq<Step<F>>, i: nat, j: nat)
    requires Run(states, steps) && i <= j < |states|
    ensures states[i].cancelled <= states[j].cancelled
    decreases j
  {
    if i < j {
      CancelledGrows(states, steps, i, j - 1);
    }
  }

  /** `cancel` answers true exactly for a queued handle; a callback cancelled so never runs,
      whatever is scheduled, cancelled, dequeued or shut down later. */
  lemma CancelIsFinal<F(!new)>(states: seq<Timer<F>>, steps: seq<Step<F>>, i: nat, h: Handle, j: nat)
    requires Run(states, steps) && i < j < |states| && steps[i] == DoCancel(h)
    ensures Cancel(states[i].core, h).1 <==> h in Ids(states[i].core.queue)
    ensures Cancel(states[i].core, h).1 ==> h !in RanIds(states[j].ran)
    ensures !Cancel(states[i].core, h).1 && 0 < h < states[i].core.nextId ==>
              h in Dequeued(states[i]) || h in states[i].cancelled
  {
    InvInRun(states, steps, i);
    CancelKeepsValid(states[i].core, h);
    HandlesArePartitioned(states, steps, j);
    CancelledGrows(states, steps, i + 1, j);
  }

  // ---------------------------------------------------------------- the order of callbacks

  // Earlier deadlines first, and equal ones in the order in which they were scheduled.
  ghost predicate Before<F>(a: Entry<F>, b: Entry<F>) {
    a.due < b.due || (a.due == b.due && a.id < b.id)
  }

  ghost predicate InOrder<F>(q: seq<Entry<F>>) {
    forall i, j :: 0 <= i < j < |q| ==> Before(q[i], q[j])
  }

  lemma InOrderTail<F>(q: seq<Entry<F>>)
    requires InOrder(q) && q != []
    ensures InOrder(q[1..]) && forall e :: e in q[1..] ==> Before(q[0], e)
  {
  }

  lemma InOrderPrepend<F>(e: Entry<F>, q: seq<Entry<F>>)
    requires InOrder(q) && forall x :: x in q ==> Before(e, x)
    ensures InOrder([e] + q)
  {
    forall i | 0 <= i < |q|
      ensures Before(e, q[i])
    {
      assert q[i] in q;
    }
  }

  lemma {:induction false} InsertInOrder<F>(q: seq<Entry<F>>, e: Entry<F>)
    requires InOrder(q) && forall x :: x in q ==> x.id < e.id
    ensures InOrder(Insert(q, e))
  {
    if q == [] {
    } else if e.due < q[0].due {
      forall x | x in q
        ensures Before(e, x)
      {
        assert q == [q[0]] + q[1..];
        InOrderTail(q);
      }
      InOrderPrepend(e, q);
    } else {
      InOrderTail(q);
      InsertInOrder(q[1..], e);
      InsertMembers(q[1..], e);
      InOrderPrepend(q[0], Insert(q[1..], e));
    }
  }

  lemma {:induction false} WithoutInOrder<F>(q: seq<Entry<F>>, h: Handle)
    requires InOrder(q)
    ensures InOrder(Without(q, h)) && forall e :: e in Without(q, h) ==> e in q
  {
    if q != [] {
      InOrderTail(q);
      if q[0].id != h {
        WithoutInOrder(q[1..], h);
        InOrderPrepend(q[0], Without(q[1..], h));
      }
    }
  }

  lemma {:induction false} SplitInOrder<F>(q: seq<Entry<F>>, now: Time)
    requires InOrder(q)
    ensures InOrder(Due(q, now)) && InOrder(Later(q, now)) && forall e :: e in Due(q, now) ==> e in q
  {
    if q != [] && q[0].due <= now {
      InOrderTail(q);
      SplitInOrder(q[1..], now);
      InOrderPrepend(q[0], Due(q[1..], now));
    }
  }

  lemma OrderStep<F(!new)>(t: Timer<F>, step: Step<F>)
    requires Valid(t.core) && InOrder(t.core.queue) && InOrder(Batch(t.worker)) && Enabled(t, step)
    ensures InOrder(Next(t, step).core.queue) && InOrder(Batch(Next(t, step).worker))
  {
    hide Sorted, Distinct, Ids, Insert, Without, Due, Later, InOrder;
    match step
    case DoSchedule(due, fn) => InsertInOrder(t.core.queue, Entry(due, t.core.nextId, fn));
    case DoCancel(h) => WithoutInOrder(t.core.queue, h);
    case Dequeue => SplitInOrder(t.core.queue, t.clock);
    case RunNext => InOrderTail(t.worker.batch);
    case _ => EmptyInOrder<F>();
  }

  lemma EmptyInOrder<F>()
    ensures InOrder<F>([])
  {
  }

  /** In every reachable state the queue is ordered by deadline and, among equal deadlines, by the
      order of scheduling; so is what the worker has still to run of its batch. */
  lemma {:induction false} CallbacksRunInOrder<F(!new)>(states: seq<Timer<F>>, steps: seq<Step<F>>, n: nat)
    requires Run(states, steps) && n < |states|
    ensures InOrder(states[n].core.queue) && InOrder(Batch(states[n].worker))
  {
    if n == 0 {
      EmptyInOrder<F>();
    } else {
      CallbacksRunInOrder(states, steps, n - 1);
      InvInRun(states, steps, n - 1);
      hide InOrder, Valid, Partition, Deadlines, Next, Enabled;
      assert Valid(states[n - 1].core);
      OrderStep(states[n - 1], steps[n - 1]);
    }
  }

  lemma StaysQueued<F(!new)>(t: Timer<F>, step: Step<F>, e: Entry<F>)
    requires Valid(t.core) && Enabled(t, step) && e in t.core.queue && !step.Dequeue?
    ensures e in Next(t, step).core.queue || step == DoCancel(e.id)
  {
    hide Sorted, Distinct, Ids, Insert, Without;
    match step
    case DoSchedule(due, fn) => ScheduleKeepsValid(t.core, due, fn);
    case DoCancel(h) => CancelKeepsValid(t.core, h);
    case _ =>
  }

  lemma StoppedStep<F>(t: Timer<F>, step: Step<F>)
    requires Enabled(t, step) && (t.core.stopping || step.DoShutdown?)
    ensures Next(t, step).core.stopping
    ensures t.core.stopping ==> !step.Dequeue?
    ensures step.Exit? ==> Next(t, step).worker.Exited?
    ensures !step.Dequeue? ==> |Batch(Next(t, step).worker)| <= |Batch(t.worker)|
  {
    hide Insert, Without, Due, Later;
  }

  ghost predicate CancelledBetween<F>(steps: seq<Step<F>>, h: Handle, i: nat, j: nat) {
    exists k :: i < k < j && k < |steps| && steps[k] == DoCancel(h)
  }

  lemma {:induction false} StaysStopped<F(!new)>(states: seq<Timer<F>>, steps: seq<Step<F>>, i: nat, j: nat)
    requires Run(states, steps) && i < j < |states| && steps[i].DoShutdown?
    ensures states[j].core.stopping && |Batch(states[j].worker)| <= |Batch(states[i].worker)|
    ensures j < |steps| ==> !steps[j].Dequeue?
    decreases j
  {
    hide Next, Enabled, Start, Batch;
    if j > i + 1 {
      StaysStopped(states, steps, i, j - 1);
    }
    StoppedStep(states[j - 1], steps[j - 1]);
    if j < |steps| {
      StoppedStep(states[j], steps[j]);
    }
  }

  /** After shutdown the worker takes nothing more off the queue: it finishes the batch it has begun,
      and what is queued stays there until it is cancelled. */
  lemma {:induction false} ShutdownStopsDequeuing<F(!new)>(
    states: seq<Timer<F>>, steps: seq<Step<F>>, i: nat, j: nat, e: Entry<F>)
    requires Run(states, steps) && i < j < |states| && steps[i].DoShutdown? && e in states[i].core.queue
    ensures j < |steps| ==> !steps[j].Dequeue?
    ensures |Batch(states[j].worker)| <= |Batch(states[i].worker)|
    ensures e in states[j].core.queue || CancelledBetween(steps, e.id, i, j)
    decreases j
  {
    hide Next, Enabled, Start, Batch, Inv;
    StaysStopped(states, steps, i, j);
    InvInRun(states, steps, j - 1);
    if j > i + 1 {
      StaysStopped(states, steps, i, j - 1);
      ShutdownStopsDequeuing(states, steps, i, j - 1, e);
      if e in states[j - 1].core.queue {
        InvIsValid(states[j - 1]);
        StaysQueued(states[j - 1], steps[j - 1], e);
      }
    } else {
      InvIsValid(states[i]);
      StaysQueued(states[i], steps[i], e);
    }
  }

  lemma InvIsValid<F(!new)>(t: Timer<F>)
    requires Inv(t)
    ensures Valid(t.core)
  {
  }

  // ---------------------------------------------------------------- settling

  lemma {:induction false} InsertSize<F>(q: seq<Entry<F>>, e: Entry<F>)
    ensures |Insert(q, e)| == |q| + 1
  {
    if q != [] && q[0].due <= e.due {
      InsertSize(q[1..], e);
    }
  }

  lemma {:induction false} WithoutSize<F>(q: seq<Entry<F>>, h: Handle)
    ensures |Without(q, h)| <= |q|
  {
    if q != [] && q[0].id != h {
      WithoutSize(q[1..], h);
    }
  }

  lemma {:induction false} SplitSize<F>(q: seq<Entry<F>>, now: Time)
    ensures |Due(q, now)| + |Later(q, now)| == |q|
    ensures q != [] && q[0].due <= now ==> |Due(q, now)| > 0
  {
    if q != [] && q[0].due <= now {
      SplitSize(q[1..], now);
    }
  }

  /** What one call does to the number of queued entries. */
  lemma Sizes<F>(s: Sched<F>, due: Time, fn: F, h: Handle, now: Time)
    ensures |Schedule(s, due, fn).0.queue| == |s.queue| + 1
    ensures |Cancel(s, h).0.queue| <= |s.queue|
    ensures |Collect(s, now).0.queue| + |Collect(s, now).1| == |s.queue|
    ensures s.queue != [] && s.queue[0].due <= now ==> Collect(s, now).1 != []
  {
    InsertSize(s.queue, Entry(due, s.nextId, fn));
    WithoutSize(s.queue, h);
    SplitSize(s.queue, now);
  }

  // The worker's own steps, and how many of them are left at most.
  predicate Works<F>(step: Step<F>) {
    step.Dequeue? || step.RunNext? || step.EndBatch?
  }

  ghost function Work<F>(t: Timer<F>): nat {
    3 * |t.core.queue| + |Batch(t.worker)| + if t.worker.Running? then 1 else 0
  }

  // The worker waits, and nothing is due.
  ghost predicate Rests<F>(t: Timer<F>) {
    t.worker.Waiting? && (t.core.queue == [] || t.clock < t.core.queue[0].due)
  }

  lemma WorkShrinks<F>(t: Timer<F>, step: Step<F>)
    requires Works(step) && Enabled(t, step)
    ensures Work(Next(t, step)) < Work(t)
  {
    if step.Dequeue? {
      SplitSize(t.core.queue, t.clock);
    }
    hide Due, Later;
  }

  // A worker that has left was told to.
  lemma {:induction false} ExitedIsStopped<F(!new)>(states: seq<Timer<F>>, steps: seq<Step<F>>, n: nat)
    requires Run(states, steps) && n < |states|
    ensures states[n].worker.Exited? ==> states[n].core.stopping
  {
    if n > 0 {
      ExitedIsStopped(states, steps, n - 1);
      hide Insert, Without, Due, Later;
    }
  }

  /** Before shutdown the worker never gets stuck, and comes to rest: as long as it is not at rest one
      of its steps is possible, each of them leaves it less to do, and at rest every callback whose
      deadline has passed has run or was cancelled. */
  lemma DueCallbacksRun<F(!new)>(states: seq<Timer<F>>, steps: seq<Step<F>>, n: nat)
    requires Run(states, steps) && n < |states| && !states[n].core.stopping
    ensures forall step :: Works(step) && Enabled(states[n], step) ==> Work(Next(states[n], step)) < Work(states[n])
    ensures !Rests(states[n]) ==> exists step :: Works(step) && Enabled(states[n], step)
    ensures Rests(states[n]) ==> forall h :: h in states[n].dues && states[n].dues[h] <= states[n].clock ==>
              h in RanIds(states[n].ran) || h in states[n].cancelled
  {
    var t := states[n];
    InvInRun(states, steps, n);
    ExitedIsStopped(states, steps, n);
    forall step | Works(step) && Enabled(t, step)
      ensures Work(Next(t, step)) < Work(t)
    {
      WorkShrinks(t, step);
    }
    if !Rests(t) {
      var step: Step<F> := if t.worker.Waiting? then Dequeue else if t.worker.batch != [] then RunNext else EndBatch;
      assert Works(step) && Enabled(t, step);
    } else {
      RestIsLate(t);
    }
  }

  lemma RestIsLate<F(!new)>(t: Timer<F>)
    requires Inv(t) && Rests(t)
    ensures forall h :: h in t.dues && t.dues[h] <= t.clock ==> h in RanIds(t.ran) || h in t.cancelled
  {
    forall h | h in t.dues && t.dues[h] <= t.clock
      ensures h in RanIds(t.ran) || h in t.cancelled
    {
      if h in Ids(t.core.queue) {
        var e := IdMember(t.core.queue, h);
        LaterThanFirst(t.core.queue, t.clock);
      }
    }
  }

  // ---------------------------------------------------------------- the class

  /** The fields that `mutex_` guards, and the critical sections over them. */
  class DelayedScheduler<F(==,!new)> {
    var queue: seq<Entry<F>>
    var index: map<Handle, Entry<F>>
    var nextId: Handle
    var stopping: bool

    ghost function State(): Sched<F>
      reads this
    {
      Sched(queue, index, nextId, stopping)
    }

    constructor ()
      ensures State() == Initial<F>() && Valid(State())
    {
      queue, index, nextId, stopping := [], map[], 1, false;
    }

    // Where the multimap puts a new deadline: after every entry that is due no later.
    method FindSlot(due: Time) returns (k: nat)
      ensures k <= |queue| && (k == |queue| || due < queue[k].due)
      ensures forall j :: 0 <= j < k ==> queue[j].due <= due
    {
      k := 0;
      while k < |queue| && queue[k].due <= due
        invariant k <= |queue|
        invariant forall j :: 0 <= j < k ==> queue[j].due <= due
      {
        k := k + 1;
      }
    }

    // Enqueues even when stopping, so that a later cancel still finds the entry.
    method ScheduleAt(due: Time, fn: F) returns (id: Handle)
      requires Valid(State())
      modifies this
      ensures Valid(State())
      ensures (State(), id) == Schedule(old(State()), due, fn)
    {
      id := nextId;
      nextId := nextId + 1;
      var e := Entry(due, id, fn);
      var k := FindSlot(due);
      InsertAt(queue, k, e);
      queue := queue[..k] + [e] + queue[k..];
      index := index[id := e];
      ScheduleKeepsValid(old(State()), due, fn);
    }

    method CancelHandle(handle: Handle) returns (ok: bool)
      requires Valid(State())
      modifies this
      ensures Valid(State())
      ensures (State(), ok) == Cancel(old(State()), handle)
    {
      CancelKeepsValid(State(), handle);
      ok := handle in index;
      if ok {
        ghost var entry := IdMember(queue, handle);
        hide Valid, Ids;
        var k := FindId(handle);
        WithoutAt(queue, k, handle);
        queue := queue[..k] + queue[k + 1..];
        index := index - {handle};
      }
    }

    method FindId(handle: Handle) returns (k: nat)
      requires exists e :: e in queue && e.id == handle
      ensures k < |queue| && queue[k].id == handle && forall j :: 0 <= j < k ==> queue[j].id != handle
    {
      k := 0;
      while queue[k].id != handle
        invariant k < |queue|
        invariant forall j :: 0 <= j < k ==> queue[j].id != handle
        decreases |queue| - k
      {
        k := k + 1;
      }
    }

    method Shutdown()
      requires Valid(State())
      modifies this
      ensures Valid(State()) && State() == old(State()).(stopping := true)
    {
      stopping := true;
    }

    // The worker's batch: everything due at `now`, taken in one critical section.
    method CollectReady(now: Time) returns (ready: seq<Entry<F>>)
      requires Valid(State())
      modifies this
      ensures Valid(State())
      ensures (State(), ready) == Collect(old(State()), now)
    {
      hide Valid, Ids, Due, Later;
      ghost var was := queue;
      ready := [];
      NothingDropped(index);
      while queue != [] && queue[0].due <= now
        invariant ready + queue == was
        invariant forall j :: 0 <= j < |ready| ==> ready[j].due <= now
        invariant index == old(index) - Ids(ready)
        invariant nextId == old(nextId) && stopping == old(stopping)
        decreases |queue|
      {
        IdsAppend(ready, queue[0]);
        DropOneMore(old(index), Ids(ready), queue[0].id);
        TakeFirst(ready, queue);
        ready, index, queue := ready + [queue[0]], index - {queue[0].id}, queue[1..];
      }
      SplitAt(ready, queue, now);
      CollectKeepsValid(old(State()), now);
    }
  }

  // What the loops find is what the recursive definitions say.

  lemma {:induction false} InsertAt<F>(q: seq<Entry<F>>, k: nat, e: Entry<F>)
    requires k <= |q| && (k == |q| || e.due < q[k].due)
    requires forall j :: 0 <= j < k ==> q[j].due <= e.due
    ensures Insert(q, e) == q[..k] + [e] + q[k..]
  {
    if k > 0 {
      assert Insert(q, e) == [q[0]] + Insert(q[1..], e);
      InsertAt(q[1..], k - 1, e);
      hide Insert;
      FrontBack(q, k, [e]);
    }
  }

  lemma FrontBack<T>(q: seq<T>, k: nat, middle: seq<T>)
    requires 0 < k <= |q|
    ensures [q[0]] + (q[1..][..k - 1] + middle + q[1..][k - 1..]) == q[..k] + middle + q[k..]
  {
    assert q[1..][k - 1..] == q[k..] && [q[0]] + q[1..][..k - 1] == q[..k];
  }

  lemma {:induction false} WithoutAt<F>(q: seq<Entry<F>>, k: nat, h: Handle)
    requires k < |q| && q[k].id == h
    requires forall j :: 0 <= j < k ==> q[j].id != h
    ensures Without(q, h) == q[..k] + q[k + 1..]
  {
    if k > 0 {
      WithoutAt(q[1..], k - 1, h);
      assert q[1..][..k - 1] == q[1..k] && q[1..][k..] == q[k + 1..];
      assert q[..k] == [q[0]] + q[1..k];
    }
  }

  lemma {:induction false} SplitAt<F>(ready: seq<Entry<F>>, rest: seq<Entry<F>>, now: Time)
    requires rest == [] || now < rest[0].due
    requires forall j :: 0 <= j < |ready| ==> ready[j].due <= now
    ensures Due(ready + rest, now) == ready && Later(ready + rest, now) == rest
  {
    if ready == [] {
      assert ready + rest == rest;
    } else {
      SplitAt(ready[1..], rest, now);
      assert (ready + rest)[1..] == ready[1..] + rest;
    }
  }

  lemma TakeFirst<F>(ready: seq<Entry<F>>, queue: seq<Entry<F>>)
    requires queue != []
    ensures ready + [queue[0]] + queue[1..] == ready + queue
  {
  }

  lemma NothingDropped<F>(index: map<Handle, Entry<F>>)
    ensures index - Ids<F>([]) == index
  {
  }

  lemma DropOneMore<F>(index: map<Handle, Entry<F>>, dropped: set<Handle>, h: Handle)
    ensures index - dropped - {h} == index - (dropped + {h})
  {
  }

  lemma {:induction false} IdsAppend<F>(q: seq<Entry<F>>, e: Entry<F>)
    ensures Ids(q + [e]) == Ids(q) + {e.id}
  {
    if q != [] {
      IdsAppend(q[1..], e);
      assert (q + [e])[1..] == q[1..] + [e];
    }
  }
}
