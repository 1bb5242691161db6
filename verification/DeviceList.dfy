/**
  The device list's cached snapshot (app/src/device_list_vm.cpp): publishers clear an
  atomic flag and post at most one rebuild; the UI thread claims the flag and refetches.

  A publisher first changes the service's model and then announces the change, once for
  every event it publishes; the UI thread runs posted rebuilds and filter edits.
 */
module DeviceList {
  import Models

  type Tid = int

  // Between a model change and the end of onModelChanged.
  datatype Publisher = Quiet | Changed | Invalidated | Posting

  // Inside a posted rebuild or a filter edit: before the queued flag is cleared, before the
  // valid flag is claimed, between claim and fetch, and grouping the rows.
  datatype UiPc = Idle | Dequeued | Claiming | Fetching | Grouping

  datatype State<M, F> = State(
    model: M, filter: F, snapshot: M, snapshotValid: bool, rebuildQueued: bool, posted: nat,
    ui: UiPc, publishers: map<Tid, Publisher>,
    shown: Models.Option<(M, F)>)         // the copy and the filter that the rows on display were built from

  datatype Step<M, F> =
    | Change(t: Tid, model: M)   // DeviceService updates its model
    | Notify(t: Tid)             // another event of the same change: onModelChanged once more
    | Invalidate(t: Tid)         // the handler clears the validity flag
    | Coalesce(t: Tid)           // and sets the queued flag, seeing its old value
    | Post(t: Tid)               // and posts a rebuild if it was clear
    | RunPosted                  // the UI thread takes a posted rebuild
    | ClearQueued                // the posted task clears the queued flag
    | EditFilter(filter: F)      // a filter edit rebuilds at once
    | Claim                      // a rebuild sets the validity flag, seeing its old value
    | Fetch                      // and copies the model if it was clear
    | FinishRebuild

  ghost predicate Enabled<M, F>(s: State<M, F>, step: Step<M, F>) {
    match step
    case Change(t, _) => t in s.publishers && s.publishers[t].Quiet?
    case Notify(t) => t in s.publishers && s.publishers[t].Quiet?
    case Invalidate(t) => t in s.publishers && s.publishers[t].Changed?
    case Coalesce(t) => t in s.publishers && s.publishers[t].Invalidated?
    case Post(t) => t in s.publishers && s.publishers[t].Posting?
    case RunPosted => s.ui.Idle? && s.posted > 0
    case ClearQueued => s.ui.Dequeued?
    case EditFilter(_) => s.ui.Idle?
    case Claim => s.ui.Claiming?
    case Fetch => s.ui.Fetching?
    case FinishRebuild => s.ui.Grouping?
  }

  ghost function Next<M, F>(s: State<M, F>, step: Step<M, F>): State<M, F>
    requires Enabled(s, step)
  {
    match step
    case Change(t, m) => s.(model := m, publishers := s.publishers[t := Changed])
    case Notify(t) => s.(publishers := s.publishers[t := Changed])
    case Invalidate(t) => s.(snapshotValid := false, publishers := s.publishers[t := Invalidated])
    case Coalesce(t) =>
      s.(rebuildQueued := true, publishers := s.publishers[t := if s.rebuildQueued then Quiet else Posting])
    case Post(t) => s.(posted := s.posted + 1, publishers := s.publishers[t := Quiet])
    case RunPosted => s.(posted := s.posted - 1, ui := Dequeued)
    case ClearQueued => s.(rebuildQueued := false, ui := Claiming)
    case EditFilter(f) => s.(filter := f, ui := Claiming)
    case Claim => s.(snapshotValid := true, ui := if s.snapshotValid then Grouping else Fetching)
    case Fetch => s.(snapshot := s.model, ui := Grouping)
    case FinishRebuild => s.(ui := Idle, shown := Models.Some((s.snapshot, s.filter)))
  }

  // The list is built over an empty model, and its cached copy starts out empty too.
  ghost predicate Start<M, F>(s: State<M, F>) {
    s.snapshot == s.model && !s.snapshotValid && !s.rebuildQueued && s.posted == 0 && s.ui == Idle &&
    s.shown == Models.None &&
    forall t :: t in s.publishers ==> s.publishers[t].Quiet?
  }

  ghost predicate Run<M(!new), F(!new)>(states: seq<State<M, F>>, steps: seq<Step<M, F>>) {
    && |states| == |steps| + 1
    && Start(states[0])
    && forall i :: 0 <= i < |steps| ==> Enabled(states[i], steps[i]) && states[i + 1] == Next(states[i], steps[i])
  }

  // ---------------------------------------------------------------- the invariant

  ghost predicate Somewhere<M, F>(s: State<M, F>, pc: Publisher) {
    exists t :: t in s.publishers && s.publishers[t] == pc
  }

  // A rebuild that will claim the flag is certain to come.
  ghost predicate RebuildComing<M, F>(s: State<M, F>) {
    s.posted > 0 || s.ui.Dequeued? || Somewhere(s, Posting) || Somewhere(s, Invalidated)
  }

  ghost predicate Inv<M, F>(s: State<M, F>) {
       // the queued flag promises a rebuild that still has to clear it
    && (s.rebuildQueued ==> s.posted > 0 || s.ui.Dequeued? || Somewhere(s, Posting))
       // a stale copy is about to be invalidated, or a rebuild that sees it stale is coming
    && (s.snapshot != s.model ==>
          || Somewhere(s, Changed)
          || s.ui.Fetching?
          || (!s.snapshotValid && (RebuildComing(s) || s.ui.Claiming?)))
    && (s.ui.Idle? && s.shown.Some? ==> s.shown.value == (s.snapshot, s.filter))
  }

  lemma Others<M, F>(s: State<M, F>, step: Step<M, F>, pc: Publisher)
    requires Enabled(s, step) && Somewhere(s, pc)
    ensures || Somewhere(Next(s, step), pc)
            || (step.Invalidate? && pc.Changed?) || (step.Coalesce? && pc.Invalidated?) || (step.Post? && pc.Posting?)
            || pc.Quiet?
  {
    var t :| t in s.publishers && s.publishers[t] == pc;
    if t in Next(s, step).publishers && Next(s, step).publishers[t] == pc {
    }
  }

  lemma InvStep<M, F>(s: State<M, F>, step: Step<M, F>)
    requires Inv(s) && Enabled(s, step)
    ensures Inv(Next(s, step))
  {
    var s' := Next(s, step);
    forall pc | Somewhere(s, pc) && !pc.Quiet?
      ensures || Somewhere(s', pc)
              || (step.Invalidate? && pc.Changed?) || (step.Coalesce? && pc.Invalidated?) || (step.Post? && pc.Posting?)
    {
      Others(s, step, pc);
    }
    if step.Change? || step.Notify? || step.Invalidate? || step.Coalesce? {
      assert s'.publishers[step.t] == s'.publishers[step.t];
      assert Somewhere(s', s'.publishers[step.t]);
    }
  }

  lemma {:induction false} InvInRun<M(!new), F(!new)>(states: seq<State<M, F>>, steps: seq<Step<M, F>>, n: nat)
    requires Run(states, steps) && n < |states|
    ensures Inv(states[n])
  {
    if n > 0 {
      InvInRun(states, steps, n - 1);
      InvStep(states[n - 1], steps[n - 1]);
    }
  }

  /** No invalidation is lost: when no publisher is between its change and the end of its
      notification, nothing is queued and the UI thread is idle, the cached copy is the model, and
      rows that were built at all show that model through the current filter. */
  lemma QuiescentListIsCurrent<M(!new), F(!new)>(states: seq<State<M, F>>, steps: seq<Step<M, F>>, n: nat)
    requires Run(states, steps) && n < |states|
    requires forall t :: t in states[n].publishers ==> states[n].publishers[t].Quiet?
    requires states[n].posted == 0 && states[n].ui.Idle?
    ensures states[n].snapshot == states[n].model
    ensures states[n].shown.Some? ==> states[n].shown.value == (states[n].model, states[n].filter)
    // and the next change posts again
    ensures !states[n].rebuildQueued
  {
    InvInRun(states, steps, n);
  }

  ghost function PostingIn(publishers: map<Tid, Publisher>): set<Tid> {
    set t | t in publishers && publishers[t].Posting?
  }

  // Publishers whose post is on its way, and rebuilds that still have to clear the queued flag.
  ghost function Owners<M, F>(s: State<M, F>): nat {
    s.posted + (if s.ui.Dequeued? then 1 else 0) + |PostingIn(s.publishers)|
  }

  lemma PostingUpdate(publishers: map<Tid, Publisher>, t: Tid, pc: Publisher)
    requires t in publishers
    ensures PostingIn(publishers[t := pc])
         == if pc.Posting? then PostingIn(publishers) + {t} else PostingIn(publishers) - {t}
  {
  }

  lemma OwnersStep<M, F>(s: State<M, F>, step: Step<M, F>)
    requires Enabled(s, step) && Owners(s) == if s.rebuildQueued then 1 else 0
    ensures Owners(Next(s, step)) == if Next(s, step).rebuildQueued then 1 else 0
  {
    var s' := Next(s, step);
    if step.Change? || step.Notify? || step.Invalidate? || step.Coalesce? || step.Post? {
      PostingUpdate(s.publishers, step.t, s'.publishers[step.t]);
    }
    if step.ClearQueued? {
      assert s.rebuildQueued;
    }
  }

  /** Bursts coalesce: at most one rebuild is posted, about to be posted, or taken and not yet
      past clearing the flag, and exactly when the queued flag is up. */
  lemma {:induction false} OneRebuildPerBurst<M(!new), F(!new)>(states: seq<State<M, F>>, steps: seq<Step<M, F>>,
                                                                n: nat)
    requires Run(states, steps) && n < |states|
    ensures Owners(states[n]) == if states[n].rebuildQueued then 1 else 0
  {
    if n == 0 {
      var publishers := states[0].publishers;
      assert forall t :: t in publishers ==> publishers[t] == Quiet;
      assert PostingIn(publishers) == {};
    } else {
      OneRebuildPerBurst(states, steps, n - 1);
      OwnersStep(states[n - 1], steps[n - 1]);
    }
  }

  // ---------------------------------------------------------------- settling

  // The steps that finish what has begun; the others bring new changes, events or filters.
  predicate Finishes<M, F>(step: Step<M, F>) {
    !step.Change? && !step.Notify? && !step.EditFilter?
  }

  ghost function At(publishers: map<Tid, Publisher>, pc: Publisher): set<Tid> {
    set t | t in publishers && publishers[t] == pc
  }

  // How many finishing steps are left at most: five for a posted rebuild, one more for a post, and
  // one for each stage before it.
  ghost function Work<M, F>(s: State<M, F>): nat {
    5 * s.posted
    + 6 * |At(s.publishers, Posting)| + 7 * |At(s.publishers, Invalidated)| + 8 * |At(s.publishers, Changed)|
    + match s.ui
      case Idle => 0
      case Grouping => 1
      case Fetching => 2
      case Claiming => 3
      case Dequeued => 4
  }

  lemma Moves(publishers: map<Tid, Publisher>, t: Tid, to: Publisher, pc: Publisher)
    requires t in publishers && publishers[t] != to
    ensures |At(publishers[t := to], pc)|
         == |At(publishers, pc)| + (if pc == to then 1 else 0) - if pc == publishers[t] then 1 else 0
  {
    var was, now := At(publishers, pc), At(publishers[t := to], pc);
    if pc == to {
      assert now == was + {t};
    } else if pc == publishers[t] {
      assert now == was - {t};
    } else {
      assert now == was;
    }
  }

  // Nothing is on its way to the rows.
  ghost predicate IsQuiescent<M, F>(s: State<M, F>) {
    s.posted == 0 && s.ui.Idle? && forall t :: t in s.publishers ==> s.publishers[t].Quiet?
  }

  /** What has begun can always go on, and ends: each finishing step leaves less to do, and as long as
      a publisher, a posted rebuild or the UI thread has not finished, one of these steps is possible. */
  lemma BurstsSettle<M, F>(s: State<M, F>)
    ensures forall step :: Finishes(step) && Enabled(s, step) ==> Work(Next(s, step)) < Work(s)
    ensures !IsQuiescent(s) ==> exists step :: Finishes(step) && Enabled(s, step)
  {
    forall step | Finishes(step) && Enabled(s, step)
      ensures Work(Next(s, step)) < Work(s)
    {
      WorkShrinks(s, step);
    }
    if !IsQuiescent(s) {
      var step := NextToDo(s);
      assert Finishes(step) && Enabled(s, step);
    }
  }

  lemma WorkShrinks<M, F>(s: State<M, F>, step: Step<M, F>)
    requires Finishes(step) && Enabled(s, step)
    ensures Work(Next(s, step)) < Work(s)
  {
    hide At;
    if step.Invalidate? || step.Coalesce? || step.Post? {
      var to := Next(s, step).publishers[step.t];
      Moves(s.publishers, step.t, to, Posting);
      Moves(s.publishers, step.t, to, Invalidated);
      Moves(s.publishers, step.t, to, Changed);
    }
  }

  lemma NextToDo<M, F>(s: State<M, F>) returns (step: Step<M, F>)
    requires !IsQuiescent(s)
    ensures Finishes(step) && Enabled(s, step)
  {
    if t :| t in s.publishers && !s.publishers[t].Quiet? {
      match s.publishers[t]
      case Changed => step := Invalidate(t);
      case Invalidated => step := Coalesce(t);
      case Posting => step := Post(t);
    } else {
      match s.ui
      case Idle => step := RunPosted;
      case Dequeued => step := ClearQueued;
      case Claiming => step := Claim;
      case Fetching => step := Fetch;
      case Grouping => step := FinishRebuild;
    }
  }

  // The model of the last change and the filter of the last edit.
  ghost function LastModel<M, F>(first: M, steps: seq<Step<M, F>>): M {
    if steps == [] then first
    else
      var last := steps[|steps| - 1];
      if last.Change? then last.model else LastModel(first, steps[..|steps| - 1])
  }

  ghost function LastFilter<M, F>(first: F, steps: seq<Step<M, F>>): F {
    if steps == [] then first
    else
      var last := steps[|steps| - 1];
      if last.EditFilter? then last.filter else LastFilter(first, steps[..|steps| - 1])
  }

  lemma InputStep<M, F>(s: State<M, F>, step: Step<M, F>)
    requires Enabled(s, step)
    ensures Next(s, step).model == if step.Change? then step.model else s.model
    ensures Next(s, step).filter == if step.EditFilter? then step.filter else s.filter
  {
  }

  lemma {:induction false} InputsAreKept<M(!new), F(!new)>(states: seq<State<M, F>>, steps: seq<Step<M, F>>, n: nat)
    requires Run(states, steps) && n < |states|
    ensures states[n].model == LastModel(states[0].model, steps[..n])
    ensures states[n].filter == LastFilter(states[0].filter, steps[..n])
  {
    if n > 0 {
      hide Next, Enabled, Start;
      InputsAreKept(states, steps, n - 1);
      InputStep(states[n - 1], steps[n - 1]);
      assert steps[..n][..n - 1] == steps[..n - 1] && steps[..n][n - 1] == steps[n - 1];
    }
  }

  /** So once a burst has settled, the rows that were built show the newest model through the newest
      filter. */
  lemma SettledListIsNewest<M(!new), F(!new)>(states: seq<State<M, F>>, steps: seq<Step<M, F>>, n: nat)
    requires Run(states, steps) && n < |states| && IsQuiescent(states[n])
    ensures states[n].shown.Some? ==>
      states[n].shown.value == (LastModel(states[0].model, steps[..n]), LastFilter(states[0].filter, steps[..n]))
  {
    hide LastModel, LastFilter, Next, Enabled, Start;
    InputsAreKept(states, steps, n);
    QuiescentListIsCurrent(states, steps, n);
  }

  ghost predicate AnyInput<M, F>(steps: seq<Step<M, F>>) {
    exists k :: 0 <= k < |steps| && !Finishes(steps[k])
  }

  lemma BuiltStep<M, F>(s: State<M, F>, step: Step<M, F>)
    requires Inv(s) && Enabled(s, step) && (s.shown.Some? || !IsQuiescent(s) || !Finishes(step))
    ensures Next(s, step).shown.Some? || !IsQuiescent(Next(s, step))
  {
    var s' := Next(s, step);
    if step.Coalesce? && s.rebuildQueued && Somewhere(s, Posting) {
      Others(s, step, Posting);
    }
    if step.Change? || step.Notify? || step.Invalidate? || step.Coalesce? {
      assert s'.publishers[step.t] == s'.publishers[step.t];
    }
  }

  /** Once anything was changed, announced or edited, a settled list has its rows built. */
  lemma {:induction false} RowsAreBuilt<M(!new), F(!new)>(states: seq<State<M, F>>, steps: seq<Step<M, F>>, n: nat)
    requires Run(states, steps) && n < |states| && AnyInput(steps[..n])
    ensures states[n].shown.Some? || !IsQuiescent(states[n])
  {
    hide Next, Enabled, Start, IsQuiescent, Finishes, Inv;
    var k :| 0 <= k < n && !Finishes(steps[..n][k]);
    if k < n - 1 {
      assert steps[..n - 1][k] == steps[..n][k];
      RowsAreBuilt(states, steps, n - 1);
    }
    InvInRun(states, steps, n - 1);
    BuiltStep(states[n - 1], steps[n - 1]);
  }

  // A quiet publisher may change the model and announce events at any time, an idle UI thread edit the filter.
  lemma InputsAreAccepted<M, F>(s: State<M, F>, t: Tid, m: M, f: F)
    requires t in s.publishers
    ensures s.publishers[t].Quiet? <==> Enabled(s, Change(t, m))
    ensures s.publishers[t].Quiet? <==> Enabled(s, Notify(t))
    ensures s.ui.Idle? <==> Enabled(s, EditFilter(f))
  {
  }

  /** A rebuild, by a filter edit for one, copies the model only if it was invalidated since the copy
      it has was claimed. */
  lemma {:induction false} ValidCopyIsReused<M(!new), F(!new)>(
    states: seq<State<M, F>>, steps: seq<Step<M, F>>, i: nat, j: nat)
    requires Run(states, steps) && i < j < |steps| && steps[i] == Claim
    requires forall k :: i < k < j ==> !steps[k].Invalidate?
    ensures states[j].snapshotValid && (steps[j] == Claim ==> states[j + 1].ui == Grouping)
    decreases j
  {
    if i + 1 < j {
      ValidCopyIsReused(states, steps, i, j - 1);
    }
  }

  // ---------------------------------------------------------------- the class

  /** The flags and the cache.  Each method is the sequence of atomic steps that one call makes
      when nothing interleaves; `s` is any state that agrees with the fields. */
  class DeviceListVM<M(0), F(0)> {
    var filter: F
    var snapshot: M
    var snapshotValid: bool
    var rebuildQueued: bool

    ghost predicate Shows(s: State<M, F>)
      reads this
    {
      && s.filter == filter && s.snapshot == snapshot
      && s.snapshotValid == snapshotValid && s.rebuildQueued == rebuildQueued
    }

    constructor (model: M, filter: F)
      ensures this.filter == filter && snapshot == model && !snapshotValid && !rebuildQueued
    {
      this.filter, snapshot, snapshotValid, rebuildQueued := filter, model, false, false;
    }

    method OnModelChanged(ghost s: State<M, F>, ghost t: Tid) returns (post: bool)
      requires Shows(s) && Enabled(s, Invalidate(t))
      modifies this
      ensures Shows(Next(Next(s, Invalidate(t)), Coalesce(t)))
      ensures post <==> Next(Next(s, Invalidate(t)), Coalesce(t)).publishers[t] == Posting
    {
      snapshotValid := false;
      var queued := rebuildQueued;
      rebuildQueued := true;
      post := !queued;
    }

    // `current` is what the service answers when the fetch asks it.
    method Rebuild(current: M, ghost s: State<M, F>) returns (fetched: bool)
      requires Shows(s) && Enabled(s, Claim) && s.model == current
      modifies this
      ensures fetched <==> !s.snapshotValid
      ensures Shows(if fetched then Next(Next(s, Claim), Fetch) else Next(s, Claim))
    {
      fetched := !snapshotValid;
      snapshotValid := true;
      if fetched {
        snapshot := current;
      }
    }

    method SetFilter(newFilter: F, current: M, ghost s: State<M, F>) returns (fetched: bool)
      requires Shows(s) && Enabled(s, EditFilter(newFilter)) && s.model == current
      modifies this
      ensures var c := Next(s, EditFilter(newFilter));
              (fetched <==> !s.snapshotValid) && Shows(if fetched then Next(Next(c, Claim), Fetch) else Next(c, Claim))
    {
      filter := newFilter;
      fetched := Rebuild(current, Next(s, EditFilter(newFilter)));
    }
  }
}
