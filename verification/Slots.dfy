/** Execution slots: at most MAX_EXECUTING workers hold a lease, a suspended supervisor holds none,
    and every slot taken is given back exactly once, whatever is stopped or cancelled and when. */
module Slots {

  const MAX_EXECUTING: nat := 10

  type WorkerId = nat

  datatype State = Queued | Running | Waiting | Completed | Failed | Stopped | Interrupted

  /** Where a worker's task is between two awaits. */
  datatype Place =
    | Idle        // no task, or its task has ended
    | Starting    // the start hook
    | Acquiring   // queued for its first slot
    | Executing   // running with a lease
    | Suspended   // inside `suspend`, its children working
    | Resuming    // queued to get a slot back
    | Ending      // lease settled, end hook and notification pending

  /** The task that makes a call: some worker's supervisor, or any other one. */
  datatype Task = SupervisorOf(id: WorkerId) | AnotherTask

  /** `taken` and `given` count the slots the worker has acquired and released. */
  datatype Worker = Worker(place: Place, state: State, taken: nat, given: nat)

  datatype Manager = Manager(free: int, leases: set<WorkerId>, workers: map<WorkerId, Worker>)

  datatype Step =
    | Launch(id: WorkerId)
    | HookDone(id: WorkerId)
    | Acquire(id: WorkerId)
    | Suspend(id: WorkerId)
    | Wake(id: WorkerId)
    | Reacquire(id: WorkerId)
    | Finish(id: WorkerId, outcome: State)
    | Raise(id: WorkerId, outcome: State)
    | MarkStopped(id: WorkerId)
    | Done(id: WorkerId)

  predicate Terminal(s: State) { s.Completed? || s.Failed? || s.Stopped? }

  /** A worker's task leaves its lifecycle block: a held lease is released, and nothing else is. */
  function Leave(m: Manager, id: WorkerId, outcome: State): Manager
    requires id in m.workers
  {
    var w := m.workers[id];
    if id in m.leases
    then Manager(m.free + 1, m.leases - {id}, m.workers[id := Worker(Ending, outcome, w.taken, w.given + 1)])
    else m.(workers := m.workers[id := w.(place := Ending, state := outcome)])
  }

  function Take(m: Manager, id: WorkerId): Manager
    requires id in m.workers
  {
    var w := m.workers[id];
    Manager(m.free - 1, m.leases + {id}, m.workers[id := Worker(Executing, Running, w.taken + 1, w.given)])
  }

  predicate Enabled(m: Manager, s: Step)
  {
    match s
    case Launch(id) => id !in m.workers || m.workers[id].place.Idle?
    case HookDone(id) => id in m.workers && m.workers[id].place.Starting?
    case Acquire(id) => id in m.workers && m.workers[id].place.Acquiring? && m.free > 0
    case Suspend(id) => id in m.workers && m.workers[id].place.Executing? && id in m.leases
    case Wake(id) => id in m.workers && m.workers[id].place.Suspended?
    case Reacquire(id) => id in m.workers && m.workers[id].place.Resuming? && m.free > 0
    case Finish(id, outcome) => id in m.workers && m.workers[id].place.Executing? && Terminal(outcome)
    case Raise(id, outcome) =>
      && id in m.workers && !m.workers[id].place.Idle? && !m.workers[id].place.Ending?
      && (outcome.Failed? || outcome.Stopped?)
    case MarkStopped(id) => id in m.workers
    case Done(id) => id in m.workers && m.workers[id].place.Ending?
  }

  /** One atomic step; `Raise` is a failure or a cancellation delivered at any await. */
  function Next(m: Manager, s: Step): Manager
    requires Enabled(m, s)
  {
    match s
    case Launch(id) =>
      var counts := if id in m.workers then (m.workers[id].taken, m.workers[id].given) else (0, 0);
      m.(workers := m.workers[id := Worker(Starting, Queued, counts.0, counts.1)])
    case HookDone(id) =>
      if m.workers[id].state.Stopped? then Leave(m, id, Stopped)
      else m.(workers := m.workers[id := m.workers[id].(place := Acquiring)])
    case Acquire(id) => Take(m, id)
    case Suspend(id) =>
      var w := m.workers[id];
      Manager(m.free + 1, m.leases - {id}, m.workers[id := Worker(Suspended, Waiting, w.taken, w.given + 1)])
    case Wake(id) => m.(workers := m.workers[id := m.workers[id].(place := Resuming)])
    case Reacquire(id) => Take(m, id)
    case Finish(id, outcome) => Leave(m, id, outcome)
    case Raise(id, outcome) => Leave(m, id, outcome)
    case MarkStopped(id) => m.(workers := m.workers[id := m.workers[id].(state := Stopped)])
    case Done(id) => m.(workers := m.workers[id := m.workers[id].(place := Idle)])
  }

  predicate Legal(m: Manager, steps: seq<Step>)
    decreases |steps|
  {
    steps == [] || (Enabled(m, steps[0]) && Legal(Next(m, steps[0]), steps[1..]))
  }

  function Run(m: Manager, steps: seq<Step>): Manager
    requires Legal(m, steps)
    decreases |steps|
  {
    if steps == [] then m else Run(Next(m, steps[0]), steps[1..])
  }

  const START := Manager(MAX_EXECUTING, {}, map[])

  /** Free slots and leases add up. */
  predicate Counted(m: Manager) { m.free >= 0 && m.free + |m.leases| == MAX_EXECUTING }

  /** One worker's place, state and slots agree. */
  predicate RowOk(w: Worker, leased: bool)
  {
    && (leased <==> w.place.Executing?)
    && (w.state.Running? ==> w.place.Executing?)
    && (w.state.Waiting? ==> w.place.Suspended? || w.place.Resuming?)
    && w.taken == w.given + (if leased then 1 else 0)
  }

  ghost predicate Invariant(m: Manager)
  {
    && Counted(m)
    && (forall id :: id in m.leases ==> id in m.workers)
    && (forall id :: id in m.workers ==> RowOk(m.workers[id], id in m.leases))
  }

  lemma OthersUntouched(m: Manager, s: Step, other: WorkerId)
    requires Enabled(m, s) && other != s.id
    ensures other in Next(m, s).workers <==> other in m.workers
    ensures other in Next(m, s).leases <==> other in m.leases
    ensures other in m.workers ==> Next(m, s).workers[other] == m.workers[other]
  {
  }

  lemma StepKeepsCount(m: Manager, s: Step)
    requires Invariant(m) && Enabled(m, s)
    ensures Counted(Next(m, s))
  {
    if s.id in m.leases {
      assert |m.leases - {s.id}| == |m.leases| - 1;
    } else {
      assert |m.leases + {s.id}| == |m.leases| + 1;
    }
  }

  lemma StepKeepsRow(m: Manager, s: Step)
    requires Invariant(m) && Enabled(m, s)
    ensures s.id in Next(m, s).workers && RowOk(Next(m, s).workers[s.id], s.id in Next(m, s).leases)
  {
    assert s.id in m.workers ==> RowOk(m.workers[s.id], s.id in m.leases);
  }

  lemma StepKeepsInvariant(m: Manager, s: Step)
    requires Invariant(m) && Enabled(m, s)
    ensures Invariant(Next(m, s))
  {
    StepKeepsCount(m, s);
    StepKeepsRow(m, s);
    var after := Next(m, s);
    forall id | id in after.workers ensures RowOk(after.workers[id], id in after.leases) {
      if id != s.id { OthersUntouched(m, s, id); }
    }
    forall id | id in after.leases ensures id in after.workers {
      if id != s.id { OthersUntouched(m, s, id); }
    }
  }

  /** In every reachable state, free slots and leases add up, a `running` worker holds a lease and a
      `waiting` one holds none, and slots taken and given back differ by the lease held now. */
  lemma {:induction false} SlotsAreConserved(m: Manager, steps: seq<Step>)
    requires Invariant(m) && Legal(m, steps)
    ensures Invariant(Run(m, steps))
    decreases |steps|
  {
    if steps != [] {
      StepKeepsInvariant(m, steps[0]);
      SlotsAreConserved(Next(m, steps[0]), steps[1..]);
    }
  }

  /** A worker queues for a slot only while all slots are held by workers that are executing: waiting
      supervisors can never starve the children they wait for. */
  lemma NoSlotIsHeldWhileWaiting(steps: seq<Step>, id: WorkerId)
    requires Legal(START, steps) && id in Run(START, steps).workers
    ensures
      var m := Run(START, steps);
      var place := m.workers[id].place;
      && (place.Acquiring? || place.Resuming? ==>
            Enabled(m, Acquire(id)) || Enabled(m, Reacquire(id)) || |m.leases| == MAX_EXECUTING)
      && (forall other :: other in m.leases ==> other in m.workers && m.workers[other].place.Executing?)
      && (m.workers[id].state.Running? ==> id in m.leases)
      && (m.workers[id].state.Waiting? ==> id !in m.leases)
      && (place.Idle? ==> m.workers[id].taken == m.workers[id].given)
  {
    SlotsAreConserved(START, steps);
  }

  // ---- what a dispatch comes to ----

  /** Slots and leases are as they were. */
  predicate Undisturbed(m: Manager, after: Manager) { after.free == m.free && after.leases == m.leases }

  lemma RunFirst(m: Manager, s: Step, rest: seq<Step>)
    requires Enabled(m, s) && Legal(Next(m, s), rest)
    ensures Legal(m, [s] + rest) && Run(m, [s] + rest) == Run(Next(m, s), rest)
  {
    assert ([s] + rest)[1..] == rest;
  }

  lemma AfterLaunch(m: Manager, id: WorkerId, outcome: State)
    requires Enabled(m, HookDone(id)) && Enabled(Next(m, HookDone(id)), Acquire(id))
    requires Enabled(Next(Next(m, HookDone(id)), Acquire(id)), Finish(id, outcome))
    requires Enabled(Next(Next(Next(m, HookDone(id)), Acquire(id)), Finish(id, outcome)), Done(id))
    ensures
      var rest := [HookDone(id), Acquire(id), Finish(id, outcome), Done(id)];
      && Legal(m, rest)
      && Run(m, rest) == Next(Next(Next(Next(m, HookDone(id)), Acquire(id)), Finish(id, outcome)), Done(id))
  {
    hide Enabled, Next;
    var m2 := Next(m, HookDone(id));
    var m3 := Next(m2, Acquire(id));
    var m4 := Next(m3, Finish(id, outcome));
    var m5 := Next(m4, Done(id));
    assert Legal(m5, []) && Run(m5, []) == m5;
    RunFirst(m4, Done(id), []);
    RunFirst(m3, Finish(id, outcome), [Done(id)] + []);
    RunFirst(m2, Acquire(id), [Finish(id, outcome)] + ([Done(id)] + []));
    RunFirst(m, HookDone(id), [Acquire(id)] + ([Finish(id, outcome)] + ([Done(id)] + [])));
    assert [HookDone(id)] + ([Acquire(id)] + ([Finish(id, outcome)] + ([Done(id)] + [])))
      == [HookDone(id), Acquire(id), Finish(id, outcome), Done(id)];
  }

  lemma DispatchStarts(m: Manager, id: WorkerId)
    requires Invariant(m) && m.free > 0 && (id in m.workers ==> m.workers[id].place.Idle?)
    ensures Enabled(m, Launch(id)) && Enabled(Next(m, Launch(id)), HookDone(id))
    ensures
      var acquiring := Next(Next(m, Launch(id)), HookDone(id));
      var taken := if id in m.workers then m.workers[id].taken else 0;
      && Enabled(acquiring, Acquire(id)) && id !in m.leases
      && Next(acquiring, Acquire(id)) == Manager(m.free - 1, m.leases + {id},
           m.workers[id := Worker(Executing, Running, taken + 1, taken)])
  {
    assert id in m.workers ==> RowOk(m.workers[id], id in m.leases);
  }

  lemma DispatchEnds(m: Manager, id: WorkerId, outcome: State)
    requires id in m.workers && id in m.leases && m.workers[id].place.Executing? && Terminal(outcome)
    ensures Enabled(m, Finish(id, outcome)) && Enabled(Next(m, Finish(id, outcome)), Done(id))
    ensures
      var w, after := m.workers[id], Next(Next(m, Finish(id, outcome)), Done(id));
      after == Manager(m.free + 1, m.leases - {id}, m.workers[id := Worker(Idle, outcome, w.taken, w.given + 1)])
  {
  }

  /** With a slot free, an idle worker can be launched, run to its end and be idle again; it takes one slot and
      gives it back. */
  lemma DispatchCompletes(m: Manager, id: WorkerId, outcome: State)
    requires Invariant(m) && m.free > 0 && Terminal(outcome) && (id in m.workers ==> m.workers[id].place.Idle?)
    ensures
      var steps := [Launch(id), HookDone(id), Acquire(id), Finish(id, outcome), Done(id)];
      var taken := if id in m.workers then m.workers[id].taken else 0;
      && Legal(m, steps)
      && var after := Run(m, steps);
      Undisturbed(m, after) && id in after.workers && after.workers[id] == Worker(Idle, outcome, taken + 1, taken + 1)
  {
    DispatchStarts(m, id);
    var m1 := Next(m, Launch(id));
    var m3 := Next(Next(m1, HookDone(id)), Acquire(id));
    DispatchEnds(m3, id, outcome);
    assert (m.leases + {id}) - {id} == m.leases;
    hide Enabled, Next, Legal, Run, RowOk, Invariant, Terminal;
    AfterLaunch(m1, id, outcome);
    RunFirst(m, Launch(id), [HookDone(id), Acquire(id), Finish(id, outcome), Done(id)]);
    assert [Launch(id)] + [HookDone(id), Acquire(id), Finish(id, outcome), Done(id)]
      == [Launch(id), HookDone(id), Acquire(id), Finish(id, outcome), Done(id)];
  }

  /** Stopped before its start hook is over, a worker ends without having taken a slot. */
  lemma StoppedBeforeItStarts(m: Manager, id: WorkerId)
    requires Invariant(m) && id in m.workers && m.workers[id].place.Starting?
    ensures
      var marked := Next(m, MarkStopped(id));
      && Enabled(marked, HookDone(id))
      && var after := Next(marked, HookDone(id));
      Undisturbed(m, after) && after.workers[id] == m.workers[id].(place := Ending, state := Stopped)
  {
    assert RowOk(m.workers[id], id in m.leases);
  }

  /** A supervisor that waits gives its slot up for exactly as long as it waits. */
  lemma WaitingFreesSlot(m: Manager, id: WorkerId)
    requires Invariant(m) && id in m.workers && m.workers[id].place.Executing?
    ensures Enabled(m, Suspend(id))
    ensures
      var waiting := Next(m, Suspend(id));
      && waiting.free == m.free + 1 && waiting.leases == m.leases - {id} && waiting.workers[id].state.Waiting?
      && Enabled(waiting, Wake(id)) && Enabled(Next(waiting, Wake(id)), Reacquire(id))
      && Undisturbed(m, Next(Next(waiting, Wake(id)), Reacquire(id)))
  {
    assert RowOk(m.workers[id], id in m.leases);
    assert m.free >= 0;
  }

  /** A failure or cancellation at any await ends the dispatch and returns exactly the slot that is held. */
  lemma RaisingReturnsSlot(m: Manager, id: WorkerId, outcome: State)
    requires Invariant(m) && id in m.workers && outcome in {Failed, Stopped}
    requires m.workers[id].place !in {Idle, Ending}
    ensures Enabled(m, Raise(id, outcome))
    ensures
      var after := Next(m, Raise(id, outcome));
      && after.free == m.free + (if id in m.leases then 1 else 0) && after.leases == m.leases - {id}
      && after.workers[id].place.Ending? && after.workers[id].state == outcome
      && after.workers[id].taken == after.workers[id].given
  {
    assert RowOk(m.workers[id], id in m.leases);
  }

  /** The manager's own fields, updated in place at the points where the source updates them. */
  class Scheduler {
    var free: int
    var leases: set<WorkerId>
    var workers: map<WorkerId, Worker>

    ghost function View(): Manager
      reads this
    {
      Manager(free, leases, workers)
    }

    constructor ()
      ensures View() == START && Invariant(View())
    {
      free, leases, workers := MAX_EXECUTING, {}, map[];
    }

    method AcquireSlot(id: WorkerId)
      requires Invariant(View())
      requires Enabled(View(), Acquire(id)) || Enabled(View(), Reacquire(id))
      modifies this
      ensures View() == Take(old(View()), id) && Invariant(View())
    {
      ghost var before := View();
      free := free - 1;
      leases := leases + {id};
      var w := workers[id];
      workers := workers[id := Worker(Executing, Running, w.taken + 1, w.given)];
      StepKeepsInvariant(before, if w.place.Acquiring? then Acquire(id) else Reacquire(id));
    }

    /** Only the supervisor's own task may give its lease up while it waits. */
    method EnterSuspend(id: WorkerId, caller: Task) returns (ok: bool)
      requires Invariant(View()) && id in workers
      modifies this
      ensures Invariant(View())
      ensures ok <==> caller == SupervisorOf(id) && old(Enabled(View(), Suspend(id)))
      ensures ok ==> View() == Next(old(View()), Suspend(id))
      ensures !ok ==> View() == old(View())
    {
      if id !in leases || caller != SupervisorOf(id) {
        return false;
      }
      ghost var before := View();
      leases := leases - {id};
      free := free + 1;
      var w := workers[id];
      workers := workers[id := Worker(Suspended, Waiting, w.taken, w.given + 1)];
      StepKeepsInvariant(before, Suspend(id));
      return true;
    }

    /** The `finally` block: release a lease that is still held, and only then. */
    method LeaveLifecycle(id: WorkerId, outcome: State)
      requires Invariant(View())
      requires Enabled(View(), Finish(id, outcome)) || Enabled(View(), Raise(id, outcome))
      modifies this
      ensures View() == Leave(old(View()), id, outcome) && Invariant(View())
    {
      ghost var before := View();
      var w := workers[id];
      if id in leases {
        leases := leases - {id};
        free := free + 1;
        w := w.(given := w.given + 1);
      }
      workers := workers[id := w.(place := Ending, state := outcome)];
      var finishes := before.workers[id].place.Executing? && Terminal(outcome);
      StepKeepsInvariant(before, if finishes then Finish(id, outcome) else Raise(id, outcome));
    }
  }
}
