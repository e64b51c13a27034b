/** Workspace reservations over the worker tree: maintenance and execution exclude each other. */
module Reservations {
  import opened Sequences

  type WorkerId = nat

  datatype Worker = Worker(parent: Option<WorkerId>, depth: nat)

  /** Who asks for a reservation: a tool of some worker's execution or of the root agent's, a worker's own
      supervisor task, or a task that belongs to none of them. */
  datatype Caller = ToolOf(worker: WorkerId) | RootTool | Supervisor(worker: WorkerId) | Outside

  predicate IsTool(caller: Caller) { caller.ToolOf? || caller.RootTool? }

  /** `maintenance` maps each reserved root to the execution that reserved it, `None` for an outside
      task; `starts` counts the children being prepared across an await. */
  datatype Tree = Tree(
    workers: map<WorkerId, Worker>,
    active: set<WorkerId>,
    maintenance: map<WorkerId, Option<WorkerId>>,
    starts: map<WorkerId, nat>)

  // ---- the tree ----

  predicate Rooted(workers: map<WorkerId, Worker>)
  {
    forall id :: id in workers && workers[id].parent.Some? ==>
      workers[id].parent.value in workers && workers[workers[id].parent.value].depth < workers[id].depth
  }

  /** `a` is `id` or one of its ancestors. */
  predicate Above(workers: map<WorkerId, Worker>, a: WorkerId, id: WorkerId)
    requires Rooted(workers) && id in workers
    decreases workers[id].depth
  {
    a == id || (workers[id].parent.Some? && Above(workers, a, workers[id].parent.value))
  }

  lemma {:induction false} AboveTransitive(workers: map<WorkerId, Worker>, a: WorkerId, b: WorkerId, c: WorkerId)
    requires Rooted(workers) && b in workers && c in workers
    requires Above(workers, a, b) && Above(workers, b, c)
    ensures Above(workers, a, c)
    decreases workers[c].depth
  {
    if b != c { AboveTransitive(workers, a, b, workers[c].parent.value); }
  }

  lemma {:induction false} AboveIsShallower(workers: map<WorkerId, Worker>, a: WorkerId, id: WorkerId)
    requires Rooted(workers) && id in workers && Above(workers, a, id)
    ensures a in workers && workers[a].depth <= workers[id].depth
    ensures a != id ==> workers[a].depth < workers[id].depth
    decreases workers[id].depth
  {
    if a != id { AboveIsShallower(workers, a, workers[id].parent.value); }
  }

  /** Two ancestors of one worker lie on one path. */
  lemma {:induction false} AncestorsAreOrdered(workers: map<WorkerId, Worker>, a: WorkerId, b: WorkerId, id: WorkerId)
    requires Rooted(workers) && id in workers && Above(workers, a, id) && Above(workers, b, id)
    ensures a in workers && b in workers
    ensures Above(workers, a, b) || Above(workers, b, a)
    decreases workers[id].depth
  {
    AboveIsShallower(workers, a, id);
    AboveIsShallower(workers, b, id);
    if a != id && b != id { AncestorsAreOrdered(workers, a, b, workers[id].parent.value); }
  }

  /** No reservation covers `id`: the source's walk up the parents. */
  predicate Available(t: Tree, id: WorkerId)
    requires Rooted(t.workers) && id in t.workers
  {
    forall r :: r in t.maintenance ==> !Above(t.workers, r, id)
  }

  function StartsOf(t: Tree, id: WorkerId): nat { if id in t.starts then t.starts[id] else 0 }

  /** What every reservation guarantees while it lasts. */
  ghost predicate Invariant(t: Tree)
  {
    && Rooted(t.workers) && t.active <= t.workers.Keys && t.starts.Keys <= t.workers.Keys
    && (forall r :: r in t.maintenance ==> r in t.workers)
    && (forall r, s :: r in t.maintenance && s in t.maintenance && Above(t.workers, r, s) ==> r == s)
    && (forall r, id :: r in t.maintenance && id in t.workers && Above(t.workers, r, id) ==>
          && (id in t.active ==> t.maintenance[r] == Some(id))
          && StartsOf(t, id) == 0)
    && (forall r :: r in t.maintenance && t.maintenance[r].Some? ==> t.maintenance[r] == Some(r) && r in t.active)
  }

  // ---- the operations, as atomic steps between awaits ----

  /** The worker at the top of what `maintain_workspace` reserves. */
  function RootOf(t: Tree, id: WorkerId, includeParent: bool): WorkerId
    requires id in t.workers
  {
    if includeParent && t.workers[id].parent.Some? then t.workers[id].parent.value else id
  }

  /** The execution that may stay active inside its own reservation. */
  predicate OwnExecution(t: Tree, caller: Caller, id: WorkerId, includeParent: bool, item: WorkerId)
    requires id in t.workers
  {
    || (caller.ToolOf? && caller.worker == item && t.workers[id].parent == Some(item))
    || (caller.Supervisor? && caller.worker == item && !includeParent && item == id)
  }

  predicate Idle(t: Tree, caller: Caller, id: WorkerId, includeParent: bool, item: WorkerId)
    requires id in t.workers
  {
    && (item in t.active ==> OwnExecution(t, caller, id, includeParent, item))
    && item !in t.maintenance
    && StartsOf(t, item) == 0
  }

  /** A reservation is granted only over an available, idle subtree. */
  ghost predicate Grantable(t: Tree, caller: Caller, id: WorkerId, includeParent: bool)
    requires Rooted(t.workers) && id in t.workers
  {
    var root := RootOf(t, id, includeParent);
    && Available(t, id)
    && forall item :: item in t.workers && Above(t.workers, root, item) ==> Idle(t, caller, id, includeParent, item)
  }

  /** A tool must be alone when it maintains its destination, and whoever holds the workspace may enter
      again. */
  ghost predicate Admitted(t: Tree, caller: Caller, alone: bool, holds: bool, id: WorkerId, includeParent: bool)
    requires Rooted(t.workers) && id in t.workers
  {
    if holds && !includeParent then true
    else (includeParent && IsTool(caller) ==> alone) && Grantable(t, caller, id, includeParent)
  }

  function Reserve(t: Tree, caller: Caller, id: WorkerId, includeParent: bool): Tree
    requires id in t.workers
  {
    var root := RootOf(t, id, includeParent);
    var owner := if root in t.active && OwnExecution(t, caller, id, includeParent, root) then Some(root) else None;
    t.(maintenance := t.maintenance[root := owner])
  }

  // ---- when a reservation is granted ----

  /** Nothing is reserved at or above the worker or below the root, no child of anyone below the root is being
      started, and nobody active there is missing from `but`. */
  ghost predicate Quiet(t: Tree, id: WorkerId, root: WorkerId, but: set<WorkerId>)
    requires Rooted(t.workers) && id in t.workers
  {
    && (forall r :: r in t.maintenance ==> !Above(t.workers, r, id))
    && (forall below :: below in t.workers && Above(t.workers, root, below) ==>
          && below !in t.maintenance && (below in t.starts ==> t.starts[below] == 0)
          && (below in t.active ==> below in but))
  }

  /** A tool of the parent may maintain the parent's child, together with the parent, exactly when it is alone
      and nobody else is at work below the parent. */
  lemma ParentsToolIsAdmitted(t: Tree, id: WorkerId, parent: WorkerId, alone: bool, holds: bool)
    requires Rooted(t.workers) && id in t.workers && t.workers[id].parent == Some(parent)
    ensures Admitted(t, ToolOf(parent), alone, holds, id, true) <==> alone && Quiet(t, id, parent, {parent})
    ensures Reserve(t, ToolOf(parent), id, true).maintenance
         == t.maintenance[parent := if parent in t.active then Some(parent) else None]
  {
  }

  /** A supervisor may reconcile its own workspace exactly when nobody else is at work in it. */
  lemma OwnSupervisorIsAdmitted(t: Tree, id: WorkerId, alone: bool)
    requires Rooted(t.workers) && id in t.workers
    ensures Admitted(t, Supervisor(id), alone, false, id, false) <==> Quiet(t, id, id, {id})
    ensures Reserve(t, Supervisor(id), id, false).maintenance
         == t.maintenance[id := if id in t.active then Some(id) else None]
  {
  }

  /** Whoever else asks needs everybody in the workspace to be idle, unless the workspace is its own already;
      and a tool that reaches for the parent as well has to be alone. */
  lemma OthersAreAdmitted(t: Tree, caller: Caller, alone: bool, holds: bool, id: WorkerId, includeParent: bool)
    requires Rooted(t.workers) && id in t.workers
    requires caller.ToolOf? ==> t.workers[id].parent != Some(caller.worker) || !includeParent
    requires caller.Supervisor? ==> caller.worker != id || includeParent
    ensures
      var root := if includeParent && t.workers[id].parent.Some? then t.workers[id].parent.value else id;
      && (Admitted(t, caller, alone, holds, id, includeParent) <==>
            if holds && !includeParent then true
            else Quiet(t, id, root, {}) && (includeParent && (caller.ToolOf? || caller.RootTool?) ==> alone))
      && (Quiet(t, id, root, {}) ==>
            Reserve(t, caller, id, includeParent).maintenance == t.maintenance[root := None])
  {
    var root := RootOf(t, id, includeParent);
    assert Above(t.workers, root, root);
    forall below | below in t.workers && Above(t.workers, root, below)
      ensures !OwnExecution(t, caller, id, includeParent, below)
    {
      if caller.ToolOf? && caller.worker == below && t.workers[id].parent == Some(below) {
        AboveIsShallower(t.workers, id, below);
      }
    }
    if Grantable(t, caller, id, includeParent) {
      forall below | below in t.workers && Above(t.workers, root, below)
        ensures below !in t.maintenance && StartsOf(t, below) == 0 && below !in t.active
      {
        assert Idle(t, caller, id, includeParent, below);
      }
    }
  }

  function Release(t: Tree, root: WorkerId): Tree { t.(maintenance := t.maintenance - {root}) }

  function Launch(t: Tree, id: WorkerId): Tree { t.(active := t.active + {id}) }

  function Finish(t: Tree, id: WorkerId): Tree { t.(active := t.active - {id}) }

  function BeginStart(t: Tree, parent: WorkerId): Tree
  {
    t.(starts := t.starts[parent := StartsOf(t, parent) + 1])
  }

  /** The await is over: the preparation is counted off and, if it succeeded, the child launched. */
  function EndStart(t: Tree, parent: WorkerId, child: Option<WorkerId>): Tree
    requires parent in t.workers && StartsOf(t, parent) > 0
  {
    var settled := t.(starts := t.starts[parent := StartsOf(t, parent) - 1]);
    if child.None? then settled
    else settled.(
      workers := t.workers[child.value := Worker(Some(parent), t.workers[parent].depth + 1)],
      active := t.active + {child.value})
  }

  lemma ReserveKeepsInvariant(t: Tree, caller: Caller, id: WorkerId, includeParent: bool)
    requires Invariant(t) && id in t.workers && Grantable(t, caller, id, includeParent)
    ensures Invariant(Reserve(t, caller, id, includeParent))
  {
    var root := RootOf(t, id, includeParent);
    var t' := Reserve(t, caller, id, includeParent);
    assert Above(t.workers, root, root);
    if root != id { assert Above(t.workers, root, id); }
    forall r, s | r in t'.maintenance && s in t'.maintenance && Above(t'.workers, r, s) ensures r == s {
      if r != s && s == root {
        if root != id { AboveTransitive(t.workers, r, root, id); }
        assert false;
      }
    }
    forall r, item | r in t'.maintenance && item in t'.workers && Above(t'.workers, r, item)
      ensures (item in t'.active ==> t'.maintenance[r] == Some(item)) && StartsOf(t', item) == 0
    {
      if r == root {
        assert Idle(t, caller, id, includeParent, item);
        if item in t.active && item != root {
          AboveIsShallower(t.workers, root, item);
          assert false;
        }
      }
    }
  }

  lemma LaunchKeepsInvariant(t: Tree, id: WorkerId)
    requires Invariant(t) && id in t.workers && Available(t, id)
    ensures Invariant(Launch(t, id))
  {
  }

  /** A task ends only after its own reservations have been released. */
  lemma FinishKeepsInvariant(t: Tree, id: WorkerId)
    requires Invariant(t) && id in t.active && (id in t.maintenance ==> t.maintenance[id] != Some(id))
    ensures Invariant(Finish(t, id))
  {
  }

  lemma ReleaseKeepsInvariant(t: Tree, root: WorkerId)
    requires Invariant(t) && root in t.maintenance
    ensures Invariant(Release(t, root))
  {
  }

  lemma BeginStartKeepsInvariant(t: Tree, parent: WorkerId)
    requires Invariant(t) && parent in t.workers && Available(t, parent)
    ensures Invariant(BeginStart(t, parent))
  {
  }

  lemma {:induction false} AboveWithChild(t: Tree, parent: WorkerId, child: WorkerId, a: WorkerId, id: WorkerId)
    requires Rooted(t.workers) && parent in t.workers && child !in t.workers
    ensures Rooted(t.workers[child := Worker(Some(parent), t.workers[parent].depth + 1)])
    ensures
      var grown := t.workers[child := Worker(Some(parent), t.workers[parent].depth + 1)];
      && (id in t.workers ==> Above(grown, a, id) == Above(t.workers, a, id))
      && (id == child ==> Above(grown, a, id) == (a == child || Above(t.workers, a, parent)))
    decreases if id in t.workers then 2 * t.workers[id].depth else 2 * t.workers[parent].depth + 1
  {
    var grown := t.workers[child := Worker(Some(parent), t.workers[parent].depth + 1)];
    if id in t.workers {
      if t.workers[id].parent.Some? { AboveWithChild(t, parent, child, a, t.workers[id].parent.value); }
    } else if id == child {
      AboveWithChild(t, parent, child, a, parent);
    }
  }

  /** Across the await in `start` the parent stays unreserved, so the child always launches into an
      available workspace. */
  lemma EndStartKeepsInvariant(t: Tree, parent: WorkerId, child: Option<WorkerId>)
    requires Invariant(t) && parent in t.workers && StartsOf(t, parent) > 0
    requires child.Some? ==> child.value !in t.workers
    ensures Invariant(EndStart(t, parent, child))
    ensures child.Some? ==> Available(EndStart(t, parent, child), child.value)
  {
    var t' := EndStart(t, parent, child);
    assert Available(t, parent);
    if child.Some? {
      forall a, id ensures
        && Rooted(t'.workers)
        && (id in t.workers ==> Above(t'.workers, a, id) == Above(t.workers, a, id))
        && (id == child.value ==> Above(t'.workers, a, id) == (a == child.value || Above(t.workers, a, parent)))
      {
        AboveWithChild(t, parent, child.value, a, id);
      }
    }
  }

  // ---- every interleaving ----

  datatype Step =
    | Maintain(caller: Caller, id: WorkerId, includeParent: bool)
    | EndMaintain(root: WorkerId)
    | Start(parent: WorkerId)
    | Started(parent: WorkerId, child: Option<WorkerId>)
    | StartAtRoot(top: WorkerId)
    | Dispatch(id: WorkerId)
    | End(id: WorkerId)

  /** When the source lets a step happen; a refused step raises and changes nothing. `End` reflects
      that a task leaves its own reservations before it ends. */
  ghost predicate Allowed(t: Tree, s: Step)
    requires Rooted(t.workers)
  {
    match s
    case Maintain(caller, id, includeParent) => id in t.workers && Grantable(t, caller, id, includeParent)
    case EndMaintain(root) => root in t.maintenance
    case Start(parent) => parent in t.workers && Available(t, parent)
    case Started(parent, child) =>
      && parent in t.workers && StartsOf(t, parent) > 0
      && (child.Some? ==> child.value !in t.workers)
    case StartAtRoot(child) => child !in t.workers
    case Dispatch(id) => id in t.workers && id !in t.active && Available(t, id)
    case End(id) => id in t.active && (id in t.maintenance ==> t.maintenance[id] != Some(id))
  }

  ghost function Next(t: Tree, s: Step): Tree
    requires Rooted(t.workers) && Allowed(t, s)
  {
    match s
    case Maintain(caller, id, includeParent) => Reserve(t, caller, id, includeParent)
    case EndMaintain(root) => Release(t, root)
    case Start(parent) => BeginStart(t, parent)
    case Started(parent, child) => EndStart(t, parent, child)
    case StartAtRoot(child) =>
      t.(workers := t.workers[child := Worker(None, 1)], active := t.active + {child})
    case Dispatch(id) => Launch(t, id)
    case End(id) => Finish(t, id)
  }

  /** While a child is being started, nobody can reserve a workspace that holds its parent. */
  lemma StartBlocksMaintenance(t: Tree, parent: WorkerId, caller: Caller, id: WorkerId, includeParent: bool)
    requires Invariant(t) && parent in t.workers && Available(t, parent)
    requires id in t.workers && Above(t.workers, RootOf(t, id, includeParent), parent)
    ensures !Grantable(Next(t, Start(parent)), caller, id, includeParent)
  {
    var begun := Next(t, Start(parent));
    assert StartsOf(begun, parent) > 0;
    assert !Idle(begun, caller, id, includeParent, parent);
  }

  /** A start that has begun can end, with or without the child; then nothing but the child is new. */
  lemma StartGoesThrough(t: Tree, parent: WorkerId, child: WorkerId)
    requires Invariant(t) && parent in t.workers && Available(t, parent) && child !in t.workers
    ensures
      var begun := Next(t, Start(parent));
      && begun == t.(starts := begun.starts)
      && Allowed(begun, Started(parent, Some(child))) && Allowed(begun, Started(parent, None))
      && var failed, started := Next(begun, Started(parent, None)), Next(begun, Started(parent, Some(child)));
      && (forall other :: StartsOf(failed, other) == StartsOf(t, other)) && failed == t.(starts := failed.starts)
      && started.starts == failed.starts && started.maintenance == t.maintenance
      && started.workers == t.workers[child := Worker(Some(parent), t.workers[parent].depth + 1)]
      && started.active == t.active + {child}
  {
    hide Invariant, Available;
  }

  lemma {:induction false} AboveWithRoot(t: Tree, child: WorkerId, a: WorkerId, id: WorkerId)
    requires Rooted(t.workers) && child !in t.workers && (id in t.workers || id == child)
    ensures Rooted(t.workers[child := Worker(None, 1)])
    ensures Above(t.workers[child := Worker(None, 1)], a, id)
        <==> (if id == child then a == child else Above(t.workers, a, id))
    decreases if id in t.workers then t.workers[id].depth else 0
  {
    if id in t.workers && t.workers[id].parent.Some? {
      AboveWithRoot(t, child, a, t.workers[id].parent.value);
    }
  }

  lemma StepKeepsInvariant(t: Tree, s: Step)
    requires Invariant(t) && Allowed(t, s)
    ensures Invariant(Next(t, s))
  {
    match s
    case Maintain(caller, id, includeParent) => ReserveKeepsInvariant(t, caller, id, includeParent);
    case EndMaintain(root) => ReleaseKeepsInvariant(t, root);
    case Start(parent) => BeginStartKeepsInvariant(t, parent);
    case Started(parent, child) => EndStartKeepsInvariant(t, parent, child);
    case StartAtRoot(child) =>
      var t' := Next(t, s);
      forall a, id | id in t'.workers ensures
        && Rooted(t'.workers)
        && (Above(t'.workers, a, id) <==> (if id == child then a == child else Above(t.workers, a, id)))
      {
        AboveWithRoot(t, child, a, id);
      }
      assert Rooted(t'.workers) by { AboveWithRoot(t, child, child, child); }
    case Dispatch(id) => LaunchKeepsInvariant(t, id);
    case End(id) => FinishKeepsInvariant(t, id);
  }

  ghost predicate Behaviour(states: seq<Tree>, steps: seq<Step>)
  {
    && |states| == |steps| + 1
    && states[0] == Tree(map[], {}, map[], map[])
    && forall i :: 0 <= i < |steps| ==>
         Rooted(states[i].workers) && Allowed(states[i], steps[i]) && states[i + 1] == Next(states[i], steps[i])
  }

  /** Under every interleaving of starts, dispatches, ends and maintenance: reserved roots are never
      one above the other, and no worker under a reserved root is active, or being given a child,
      except the execution that made the reservation. */
  lemma {:induction false} ReservationsExcludeExecution(states: seq<Tree>, steps: seq<Step>, i: nat)
    requires Behaviour(states, steps) && i < |states|
    ensures Invariant(states[i])
  {
    if i > 0 {
      ReservationsExcludeExecution(states, steps, i - 1);
      StepKeepsInvariant(states[i - 1], steps[i - 1]);
    }
  }

  // ---- the manager's loops ----

  function IsChild(workers: map<WorkerId, Worker>, parent: WorkerId): WorkerId -> bool
  {
    (w: WorkerId) => w in workers && workers[w].parent == Some(parent)
  }

  /** The traversal's state: `seen` and `pending` are parts of the subtree, whatever is seen has all
      its children seen or pending, and nothing is pending twice. */
  ghost predicate Frontier(workers: map<WorkerId, Worker>, root: WorkerId, seen: set<WorkerId>, pending: seq<WorkerId>)
  {
    && Rooted(workers) && seen <= workers.Keys
    && (forall p :: p in pending ==> p in workers && p !in seen && Above(workers, root, p))
    && (forall i, j :: 0 <= i < j < |pending| ==> pending[i] != pending[j])
    && (root in seen || root in pending)
    && (forall s :: s in seen ==> Above(workers, root, s))
    && (forall s, c :: s in seen && c in workers && workers[c].parent == Some(s) ==> c in seen || c in pending)
    && (forall p :: p in seen || p in pending ==> p == root || ParentIn(workers, p, seen))
  }

  predicate ParentIn(workers: map<WorkerId, Worker>, p: WorkerId, seen: set<WorkerId>)
  {
    p in workers && workers[p].parent.Some? && workers[p].parent.value in seen
  }

  lemma Expand(
    workers: map<WorkerId, Worker>, root: WorkerId, seen: set<WorkerId>, rest: seq<WorkerId>, item: WorkerId,
    children: seq<WorkerId>)
    requires Frontier(workers, root, seen, rest + [item])
    requires forall c :: c in children <==> c in workers && workers[c].parent == Some(item)
    requires forall i, j :: 0 <= i < j < |children| ==> children[i] != children[j]
    ensures item !in seen && item in workers
    ensures Frontier(workers, root, seen + {item}, rest + children)
  {
    var before := rest + [item];
    assert before[|rest|] == item && item in before;
    assert forall i :: 0 <= i < |rest| ==> before[i] == rest[i];
    assert forall p :: p in rest ==> p in before;
    forall c | c in children ensures Above(workers, root, c) && c !in seen && c !in rest && c != item {
      AboveIsShallower(workers, root, item);
      assert c != root;
      assert !ParentIn(workers, c, seen);
      assert c !in before;
    }
    var after := rest + children;
    forall i, j | 0 <= i < j < |after| ensures after[i] != after[j] {
      if i < |rest| <= j {
        assert after[i] in rest && after[j] in children;
      } else if j < |rest| {
        assert after[i] == before[i] && after[j] == before[j];
      } else {
        assert after[i] == children[i - |rest|] && after[j] == children[j - |rest|];
      }
    }
    forall p | p in seen + {item} || p in after ensures p == root || ParentIn(workers, p, seen + {item}) {
      if p !in children { assert p in seen || p in before; }
    }
    forall s, c | s in seen + {item} && c in workers && workers[c].parent == Some(s)
      ensures c in seen + {item} || c in after
    {
      if s in seen { assert c in seen || c in before; }
    }
  }

  class WorkerManager {
    var order: seq<WorkerId>
    var workers: map<WorkerId, Worker>
    var active: set<WorkerId>
    var maintenance: map<WorkerId, Option<WorkerId>>
    var starts: map<WorkerId, nat>

    function View(): Tree
      reads this
    {
      Tree(workers, active, maintenance, starts)
    }

    ghost predicate Valid()
      reads this
    {
      && Invariant(View())
      && (forall id :: id in order <==> id in workers)
      && (forall i, j :: 0 <= i < j < |order| ==> order[i] != order[j])
    }

    /** Walk up the parents looking for a reservation. */
    method WorkspaceAvailable(id: Option<WorkerId>) returns (ok: bool)
      requires Valid() && (id.Some? ==> id.value in workers)
      ensures ok <==> id.None? || Available(View(), id.value)
    {
      var at := id;
      while at.Some?
        invariant at.Some? ==> id.Some? && at.value in workers && Above(workers, at.value, id.value)
        invariant id.Some? ==> forall r :: r in maintenance && Above(workers, r, id.value) ==>
          at.Some? && Above(workers, r, at.value)
        decreases if at.Some? then workers[at.value].depth + 1 else 0
      {
        if at.value in maintenance {
          return false;
        }
        var parent := workers[at.value].parent;
        if parent.Some? { AboveTransitive(workers, parent.value, at.value, id.value); }
        at := parent;
      }
      return true;
    }

    /** Reserve a worker's subtree, or with its parent the whole of its integration destination;
        refused unless everything below is idle and, for a tool, it is `alone`: no sibling of the same owner is
        unfinished. A task that already `holds` the reservation of this very workspace enters again and changes
        nothing. */
    method MaintainWorkspace(caller: Caller, alone: bool, holds: bool, id: WorkerId, includeParent: bool)
      returns (ok: bool)
      requires Valid() && id in workers
      requires holds ==> id in maintenance
      modifies this`maintenance
      ensures Valid()
      ensures ok <==> Admitted(old(View()), caller, alone, holds, id, includeParent)
      ensures View() == if ok && !holds then Reserve(old(View()), caller, id, includeParent) else old(View())
    {
      if includeParent && IsTool(caller) && !alone {
        return false;
      }
      if !includeParent && holds {
        return true;
      }
      var grantable := IsGrantable(caller, id, includeParent);
      if !grantable {
        return false;
      }
      var root := if includeParent && workers[id].parent.Some? then workers[id].parent.value else id;
      ghost var before := View();
      var own := root in active
        && ((caller.ToolOf? && caller.worker == root && workers[id].parent == Some(root))
            || (caller.Supervisor? && caller.worker == root && !includeParent && root == id));
      maintenance := maintenance[root := if own then Some(root) else None];
      ReserveKeepsInvariant(before, caller, id, includeParent);
      return true;
    }

    /** No reservation above, and everything below the root idle. */
    method IsGrantable(caller: Caller, id: WorkerId, includeParent: bool) returns (ok: bool)
      requires Valid() && id in workers
      ensures ok <==> Grantable(View(), caller, id, includeParent)
    {
      var available := WorkspaceAvailable(Some(id));
      if !available {
        return false;
      }
      ok := SubtreeIdle(caller, id, includeParent,
        if includeParent && workers[id].parent.Some? then workers[id].parent.value else id);
    }

    /** Visit the subtree under `root` with an explicit stack. */
    method SubtreeIdle(caller: Caller, id: WorkerId, includeParent: bool, root: WorkerId) returns (idle: bool)
      requires Valid() && id in workers && root in workers
      ensures idle <==> forall item :: item in workers && Above(workers, root, item) ==>
        Idle(View(), caller, id, includeParent, item)
    {
      var pending := [root];
      ghost var seen: set<WorkerId> := {};
      while pending != []
        invariant Frontier(workers, root, seen, pending)
        invariant forall s :: s in seen ==> Idle(View(), caller, id, includeParent, s)
        decreases workers.Keys - seen
      {
        var last := |pending| - 1;
        var item, rest := pending[last], pending[..last];
        assert pending == rest + [item] && item in pending;
        if !Idle(View(), caller, id, includeParent, item) {
          return false;
        }
        var children := Filter(order, IsChild(workers, item));
        FilterIn(order, IsChild(workers, item));
        FilterPairs(order, IsChild(workers, item), (a: WorkerId, b: WorkerId) => a != b);
        Expand(workers, root, seen, rest, item, children);
        seen := seen + {item};
        pending := rest + children;
      }
      forall item | item in workers && Above(workers, root, item) ensures item in seen {
        SubtreeSeen(workers, seen, root, item);
      }
      return true;
    }
  }

  /** A set that holds `root` and every child of its members holds the whole subtree. */
  lemma {:induction false} SubtreeSeen(
    workers: map<WorkerId, Worker>, seen: set<WorkerId>, root: WorkerId, item: WorkerId)
    requires Rooted(workers) && item in workers && Above(workers, root, item)
    requires root in seen
    requires forall s, c :: s in seen && c in workers && workers[c].parent == Some(s) ==> c in seen
    ensures item in seen
    decreases workers[item].depth
  {
    if item != root { SubtreeSeen(workers, seen, root, workers[item].parent.value); }
  }
}
