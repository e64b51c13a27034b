/** Worker branches under the worker manager: every operation on a worker's branch runs inside a reservation
    of the worker tree. */
module ManagedWorktrees {
  import opened Sequences
  import R = Reservations
  import W = Worktree

  /** The operation that runs inside a reservation: for which worker, under which destination's lock. */
  datatype Job = Job(worker: R.WorkerId, at: W.Branch)

  /** The worker tree, the branches, and what runs inside each reserved root. A worker's branch bears the
      worker's id; other branches belong to the user. */
  datatype Managed = Managed(tree: R.Tree, repo: W.Repo, jobs: map<R.WorkerId, Job>)

  datatype Step =
    | Manage(change: R.Step)
    | Begin(root: R.WorkerId, at: W.Branch, phase: W.Phase)
    | Git(act: W.Step)

  /** Reconciling reserves the worker alone, every other operation its destination too. */
  predicate ReservedFor(t: R.Tree, root: R.WorkerId, phase: W.Phase)
    requires !phase.Idle?
  {
    && phase.worker in t.workers && root in t.maintenance
    && (root == R.RootOf(t, phase.worker, true) || (phase.Reconciling? && root == phase.worker))
  }

  /** A child's destination is its parent's branch; a top worker's is a branch of the user's. */
  predicate Pinned(r: W.Repo, parent: Option<R.WorkerId>, child: R.WorkerId)
  {
    child in r.pins ==>
      match parent
      case Some(p) => r.pins[child].dest == p
      case None => r.pins[child].dest !in r.pins && r.pins[child].dest in r.heads
  }

  ghost predicate Enabled(m: Managed, s: Step)
    requires R.Rooted(m.tree.workers)
  {
    match s
    case Manage(step) =>
      && R.Allowed(m.tree, step)
      && (step.EndMaintain? ==> step.root !in m.jobs)
      && (step.Started? && step.child.Some? ==> Pinned(m.repo, Some(step.parent), step.child.value))
      && (step.StartAtRoot? ==> Pinned(m.repo, None, step.top))
    case Begin(root, at, phase) =>
      && W.Enabled(m.repo, W.Begin(at, phase)) && ReservedFor(m.tree, root, phase) && root !in m.jobs
    case Git(step) =>
      && W.Enabled(m.repo, step) && !step.Begin?
      && (step.Create? ==> step.worker !in m.tree.workers)
  }

  /** An operation leaves its reservation when its lock is given back. */
  function Running(jobs: map<R.WorkerId, Job>, repo: W.Repo): map<R.WorkerId, Job>
  {
    map r | r in jobs && !repo.Doing(jobs[r].at).Idle? :: jobs[r]
  }

  ghost function Next(m: Managed, s: Step): Managed
    requires R.Rooted(m.tree.workers) && Enabled(m, s)
  {
    match s
    case Manage(step) => m.(tree := R.Next(m.tree, step))
    case Begin(root, at, phase) =>
      m.(repo := W.Next(m.repo, W.Begin(at, phase)), jobs := m.jobs[root := Job(phase.worker, at)])
    case Git(step) =>
      var repo := W.Next(m.repo, step);
      m.(repo := repo, jobs := Running(m.jobs, repo))
  }

  // ---- what holds in every state ----

  /** A busy lock's operation runs inside a reservation of its worker or of its worker's parent. */
  ghost predicate Covered(m: Managed, d: W.Branch)
    requires !m.repo.Doing(d).Idle?
  {
    var w := m.repo.Doing(d).worker;
    && w in m.tree.workers
    && (exists root :: root in m.jobs && m.jobs[root] == Job(w, d))
  }

  ghost predicate JobsOk(m: Managed)
  {
    && (forall root :: root in m.jobs ==>
          && root in m.tree.maintenance && !m.repo.Doing(m.jobs[root].at).Idle?
          && m.repo.Doing(m.jobs[root].at).worker == m.jobs[root].worker && m.jobs[root].worker in m.tree.workers
          && RootFits(m, root))
    && forall d :: !m.repo.Doing(d).Idle? ==> Covered(m, d)
  }

  /** The root is the worker's parent, or the worker itself if it is reconciling or has no parent. */
  predicate RootFits(m: Managed, root: R.WorkerId)
    requires root in m.jobs
  {
    var w, phase := m.jobs[root].worker, m.repo.Doing(m.jobs[root].at);
    && w in m.tree.workers
    && (root == R.RootOf(m.tree, w, true) || (root == w && (phase.Reconciling? || phase.Merging?)))
  }

  ghost predicate Linked(m: Managed)
  {
    forall w :: w in m.tree.workers ==> Pinned(m.repo, m.tree.workers[w].parent, w)
  }

  ghost predicate Invariant(m: Managed)
  {
    R.Invariant(m.tree) && W.Consistent(m.repo) && JobsOk(m) && Linked(m)
  }

  // ---- steps ----

  /** The worker tree only grows. */
  lemma TreeGrows(t: R.Tree, s: R.Step)
    requires R.Invariant(t) && R.Allowed(t, s)
    ensures forall w :: w in t.workers ==> w in R.Next(t, s).workers && R.Next(t, s).workers[w] == t.workers[w]
    ensures forall w :: w in R.Next(t, s).workers && w !in t.workers ==>
      (s == R.StartAtRoot(w) && R.Next(t, s).workers[w].parent.None?)
      || (s.Started? && s.child == Some(w) && R.Next(t, s).workers[w].parent == Some(s.parent))
    ensures forall r :: r in t.maintenance && s != R.EndMaintain(r) ==> r in R.Next(t, s).maintenance
  {
  }

  lemma ManageKeepsJobs(m: Managed, s: R.Step, after: Managed)
    requires Invariant(m) && Enabled(m, Manage(s)) && after == Next(m, Manage(s))
    ensures JobsOk(after)
  {
    TreeGrows(m.tree, s);
    forall d | !after.repo.Doing(d).Idle? ensures Covered(after, d) {
      assert Covered(m, d);
    }
    forall root | root in after.jobs ensures RootFits(after, root) && root in after.tree.maintenance {
      assert RootFits(m, root);
    }
  }

  lemma ManageKeepsInvariant(m: Managed, s: R.Step)
    requires Invariant(m) && Enabled(m, Manage(s))
    ensures Invariant(Next(m, Manage(s)))
  {
    R.StepKeepsInvariant(m.tree, s);
    TreeGrows(m.tree, s);
    ManageKeepsJobs(m, s, Next(m, Manage(s)));
  }

  /** Whoever is granted a reservation may begin in it: any operation under the parent's, a reconciliation under
      the worker's own. */
  lemma GrantedMayBegin(
      m: Managed, caller: R.Caller, id: R.WorkerId, includeParent: bool, at: W.Branch, phase: W.Phase)
    requires Invariant(m) && Enabled(m, Manage(R.Maintain(caller, id, includeParent)))
    requires W.Enabled(m.repo, W.Begin(at, phase)) && phase.worker == id && (includeParent || phase.Reconciling?)
    ensures
      var root := if includeParent && m.tree.workers[id].parent.Some? then m.tree.workers[id].parent.value else id;
      Enabled(Next(m, Manage(R.Maintain(caller, id, includeParent))), Begin(root, at, phase))
  {
    var root := R.RootOf(m.tree, id, includeParent);
    assert R.Above(m.tree.workers, root, root);
    assert R.Idle(m.tree, caller, id, includeParent, root);
    assert root !in m.jobs;
    hide R.Invariant, W.Consistent, JobsOk, Linked, R.Grantable;
  }

  lemma BeginKeepsJobs(m: Managed, root: R.WorkerId, at: W.Branch, phase: W.Phase, after: Managed)
    requires Invariant(m) && Enabled(m, Begin(root, at, phase)) && after == Next(m, Begin(root, at, phase))
    ensures JobsOk(after)
  {
    hide R.Invariant, W.Consistent, Linked;
    assert after.repo.Doing(at) == phase && after.jobs[root] == Job(phase.worker, at);
    forall d | !after.repo.Doing(d).Idle? ensures Covered(after, d) {
      if d != at {
        assert Covered(m, d);
        var r :| r in m.jobs && m.jobs[r] == Job(m.repo.Doing(d).worker, d);
        assert r != root && after.jobs[r] == m.jobs[r];
      }
    }
    forall r | r in after.jobs ensures RootFits(after, r) && !after.repo.Doing(after.jobs[r].at).Idle? {
      if r != root { assert RootFits(m, r); }
    }
  }

  lemma BeginKeepsInvariant(m: Managed, root: R.WorkerId, at: W.Branch, phase: W.Phase)
    requires Invariant(m) && Enabled(m, Begin(root, at, phase))
    ensures Invariant(Next(m, Begin(root, at, phase)))
  {
    var after := Next(m, Begin(root, at, phase));
    W.StepKeepsConsistent(m.repo, W.Begin(at, phase));
    hide W.Consistent, JobsOk;
    BeginKeepsJobs(m, root, at, phase, after);
  }

  /** A step leaves every lock as it is, gives one back, or goes on for the same worker; and only a
      reconciliation goes on to merge on its own. */
  predicate Continues(before: W.Phase, after: W.Phase)
  {
    || after.Idle?
    || (!before.Idle? && after.worker == before.worker
        && (after.Reconciling? ==> before.Reconciling?)
        && (before.Reconciling? || before.Merging? ==> after.Reconciling? || after.Merging?))
  }

  lemma LocksContinue(r: W.Repo, s: W.Step, d: W.Branch)
    requires W.Enabled(r, s) && !s.Begin?
    ensures Continues(r.Doing(d), W.Next(r, s).Doing(d))
  {
  }

  lemma GitKeepsJobs(m: Managed, s: W.Step, after: Managed)
    requires Invariant(m) && Enabled(m, Git(s)) && after == Next(m, Git(s))
    ensures JobsOk(after)
  {
    forall d | !after.repo.Doing(d).Idle? ensures Covered(after, d) {
      LocksContinue(m.repo, s, d);
      assert Covered(m, d);
      var r :| r in m.jobs && m.jobs[r] == Job(m.repo.Doing(d).worker, d);
      assert after.jobs[r] == m.jobs[r];
    }
    forall root | root in after.jobs
      ensures RootFits(after, root) && after.repo.Doing(after.jobs[root].at).worker == after.jobs[root].worker
    {
      LocksContinue(m.repo, s, m.jobs[root].at);
      assert RootFits(m, root);
    }
  }

  /** Pins never change, and a branch of the user's stays. */
  lemma PinsStay(r: W.Repo, s: W.Step, w: R.WorkerId, parent: Option<R.WorkerId>)
    requires W.Consistent(r) && W.Enabled(r, s) && Pinned(r, parent, w) && (s.Create? ==> s.worker != w)
    ensures Pinned(W.Next(r, s), parent, w)
  {
    if w in r.pins && parent.None? {
      var d := r.pins[w].dest;
      W.StepAdvances(r, s, d);
      assert s.Create? ==> s.worker != d;
    }
  }

  lemma GitKeepsInvariant(m: Managed, s: W.Step)
    requires Invariant(m) && Enabled(m, Git(s))
    ensures Invariant(Next(m, Git(s)))
  {
    var after := Next(m, Git(s));
    W.StepKeepsConsistent(m.repo, s);
    GitKeepsJobs(m, s, after);
    forall w | w in after.tree.workers ensures Pinned(after.repo, after.tree.workers[w].parent, w) {
      PinsStay(m.repo, s, w, m.tree.workers[w].parent);
    }
  }

  lemma StepKeepsInvariant(m: Managed, s: Step)
    requires Invariant(m) && Enabled(m, s)
    ensures Invariant(Next(m, s))
  {
    match s
    case Manage(step) => ManageKeepsInvariant(m, step);
    case Begin(root, at, phase) => BeginKeepsInvariant(m, root, at, phase);
    case Git(step) => GitKeepsInvariant(m, step);
  }

  // ---- runs ----

  /** A run starts without workers, in a repository nobody works on yet. */
  ghost predicate Behaviour(states: seq<Managed>, steps: seq<Step>)
  {
    && |states| == |steps| + 1
    && states[0].tree == R.Tree(map[], {}, map[], map[]) && states[0].jobs == map[]
    && states[0].repo.pins == map[] && states[0].repo.locks == map[]
    && forall i :: 0 <= i < |steps| ==>
         R.Rooted(states[i].tree.workers) && Enabled(states[i], steps[i]) && states[i + 1] == Next(states[i], steps[i])
  }

  lemma {:induction false} AlwaysManaged(states: seq<Managed>, steps: seq<Step>, i: nat)
    requires Behaviour(states, steps) && i < |states|
    ensures Invariant(states[i])
  {
    if i > 0 {
      AlwaysManaged(states, steps, i - 1);
      StepKeepsInvariant(states[i - 1], steps[i - 1]);
    }
  }

  // ---- the destination of an integration ----

  /** While a worker is being integrated, no other operation of the manager has its destination for a worker. */
  lemma DestinationIsLeftAlone(m: Managed, d: W.Branch, other: W.Branch)
    requires Invariant(m) && m.repo.Doing(d).Checked? && !m.repo.Doing(other).Idle?
    ensures m.repo.Doing(other).worker != d
  {
    var w := m.repo.Doing(d).worker;
    assert Covered(m, d) && Covered(m, other);
    if m.repo.Doing(other).worker == d {
      var root :| root in m.jobs && m.jobs[root] == Job(w, d);
      var root' :| root' in m.jobs && m.jobs[root'] == Job(d, other);
      assert RootFits(m, root) && RootFits(m, root');
      assert Pinned(m.repo, m.tree.workers[w].parent, w);
      assert m.repo.pins[w].dest == d;
      assert R.Above(m.tree.workers, root', d);
      assert false;
    }
  }

  /** So the only steps that can move the destination between the last check and the merge are the merge
      itself and writes from outside: the user's, or those of the destination's own execution. */
  lemma OnlyOutsidersMove(m: Managed, s: Step, d: W.Branch)
    requires Invariant(m) && Enabled(m, s) && m.repo.Doing(d).Checked? && d in m.repo.heads
    requires s != Git(W.Finish(d)) && !(s.Git? && s.act.Advance? && s.act.branch == d)
    ensures d in Next(m, s).repo.heads && Next(m, s).repo.heads[d] == m.repo.heads[d]
  {
    if s.Git? && W.Writes(m.repo, s.act, d) {
      assert s.act.Recreate? || s.act.MergeIn? || s.act.Base? || s.act.DeleteBranch?;
      DestinationIsLeftAlone(m, d, s.act.at);
      assert false;
    }
    if s.Git? { W.OthersUnwritten(m.repo, s.act, d); }
  }

  // ---- exactness of an integration under the manager ----

  /** A write from outside the manager that moves the branch. */
  predicate OutsideMove(m: Managed, s: Step, d: W.Branch)
  {
    s.Git? && s.act.Advance? && s.act.branch == d && d in m.repo.heads && s.act.to != m.repo.heads[d]
  }

  lemma StepsBack(m: Managed, s: Step, d: W.Branch)
    requires R.Rooted(m.tree.workers) && Enabled(m, s) && s != Git(W.CheckReview(d))
    requires Next(m, s).repo.Doing(d).Checked?
    ensures m.repo.Doing(d) == Next(m, s).repo.Doing(d)
  {
    if s.Git? { W.NotCheckedStays(m.repo, s.act, d); }
  }

  lemma StepAt(states: seq<Managed>, steps: seq<Step>, k: nat)
    requires Behaviour(states, steps) && k < |steps|
    ensures R.Rooted(states[k].tree.workers)
    ensures Enabled(states[k], steps[k]) && states[k + 1] == Next(states[k], steps[k])
  {
  }

  lemma StepsBackAt(states: seq<Managed>, steps: seq<Step>, k: nat, d: W.Branch)
    requires Behaviour(states, steps) && k < |steps| && steps[k] != Git(W.CheckReview(d))
    requires states[k + 1].repo.Doing(d).Checked?
    ensures states[k].repo.Doing(d) == states[k + 1].repo.Doing(d)
  {
    StepAt(states, steps, k);
    StepsBack(states[k], steps[k], d);
  }

  /** Between the last check and the merge the lock holds the same review throughout. */
  lemma {:induction false} CheckedThroughout(states: seq<Managed>, steps: seq<Step>, k: nat, j: nat, d: W.Branch)
    requires Behaviour(states, steps) && k <= j < |states|
    requires forall m :: k <= m < j ==> steps[m] != Git(W.CheckReview(d))
    requires states[j].repo.Doing(d).Checked?
    ensures states[k].repo.Doing(d) == states[j].repo.Doing(d)
    decreases j
  {
    assert |states| == |steps| + 1;
    hide Behaviour;
    if k < j {
      StepsBackAt(states, steps, j - 1, d);
      CheckedThroughout(states, steps, k, j - 1, d);
    }
  }

  /** One step between the two either moves the destination from outside, forward, or leaves it alone. */
  lemma StepBetween(m: Managed, s: Step, d: W.Branch)
    requires Invariant(m) && Enabled(m, s) && m.repo.Doing(d).Checked? && d in m.repo.heads && s != Git(W.Finish(d))
    ensures d in Next(m, s).repo.heads && W.Ancestor(m.repo.heads[d], Next(m, s).repo.heads[d])
    ensures OutsideMove(m, s, d) <==> Next(m, s).repo.heads[d] != m.repo.heads[d]
  {
    if !(s.Git? && s.act.Advance? && s.act.branch == d) { OnlyOutsidersMove(m, s, d); }
  }

  lemma Between(states: seq<Managed>, steps: seq<Step>, k: nat, d: W.Branch)
    requires Behaviour(states, steps) && k < |steps| && d in states[k].repo.heads
    requires states[k].repo.Doing(d).Checked? && steps[k] != Git(W.Finish(d))
    ensures d in states[k + 1].repo.heads && W.Ancestor(states[k].repo.heads[d], states[k + 1].repo.heads[d])
    ensures OutsideMove(states[k], steps[k], d) <==> states[k + 1].repo.heads[d] != states[k].repo.heads[d]
  {
    StepAt(states, steps, k);
    AlwaysManaged(states, steps, k);
    StepBetween(states[k], steps[k], d);
  }

  lemma AtCheck(states: seq<Managed>, steps: seq<Step>, i: nat, d: W.Branch)
    requires Behaviour(states, steps) && i < |steps| && steps[i] == Git(W.CheckReview(d))
    ensures states[i].repo.Doing(d).Ready? || states[i].repo.Doing(d).Checked?
    ensures d in states[i + 1].repo.heads && states[i + 1].repo.heads[d] == states[i].repo.Doing(d).review.parent
    ensures states[i + 1].repo.Doing(d).Checked? && states[i + 1].repo.Doing(d).review == states[i].repo.Doing(d).review
  {
    StepAt(states, steps, i);
  }

  /** From the last check up to `j` the operation is under way and the merge has not come yet. */
  ghost predicate UnderWay(states: seq<Managed>, steps: seq<Step>, i: nat, j: nat, d: W.Branch)
  {
    && Behaviour(states, steps) && i < j < |states| && steps[i] == Git(W.CheckReview(d))
    && forall k :: i < k < j ==> states[k].repo.Doing(d).Checked? && steps[k] != Git(W.Finish(d))
  }

  lemma {:induction false} StaysThere(states: seq<Managed>, steps: seq<Step>, i: nat, j: nat, d: W.Branch)
    requires UnderWay(states, steps, i, j, d)
    ensures d in states[j].repo.heads
    decreases j
  {
    assert |states| == |steps| + 1;
    hide Behaviour;
    if i + 1 < j {
      StaysThere(states, steps, i, j - 1, d);
      Between(states, steps, j - 1, d);
    } else {
      AtCheck(states, steps, i, d);
    }
  }

  /** The destination only goes forward. */
  lemma {:induction false} GoesForward(states: seq<Managed>, steps: seq<Step>, i: nat, k: nat, j: nat, d: W.Branch)
    requires UnderWay(states, steps, i, j, d) && i < k <= j
    ensures d in states[k].repo.heads && d in states[j].repo.heads
    ensures W.Ancestor(states[k].repo.heads[d], states[j].repo.heads[d])
    decreases j
  {
    assert |states| == |steps| + 1;
    hide Behaviour;
    StaysThere(states, steps, i, k, d);
    if k < j {
      GoesForward(states, steps, i, k, j - 1, d);
      Between(states, steps, j - 1, d);
      W.AncestorTransitive(states[k].repo.heads[d], states[j - 1].repo.heads[d], states[j].repo.heads[d]);
    }
  }

  /** It is still at the reviewed parent if nobody moved it from outside. */
  lemma {:induction false} StaysPut(states: seq<Managed>, steps: seq<Step>, i: nat, j: nat, d: W.Branch)
    requires UnderWay(states, steps, i, j, d)
    requires forall k :: i < k < j ==> !OutsideMove(states[k], steps[k], d)
    ensures states[i].repo.Doing(d).Ready? || states[i].repo.Doing(d).Checked?
    ensures d in states[j].repo.heads && states[j].repo.heads[d] == states[i].repo.Doing(d).review.parent
    decreases j
  {
    assert |states| == |steps| + 1;
    hide Behaviour;
    AtCheck(states, steps, i, d);
    if i + 1 < j {
      StaysPut(states, steps, i, j - 1, d);
      Between(states, steps, j - 1, d);
    }
  }

  /** A write from outside cannot be undone before the merge. */
  lemma MovedStaysMoved(states: seq<Managed>, steps: seq<Step>, i: nat, k: nat, j: nat, d: W.Branch)
    requires UnderWay(states, steps, i, j, d) && i < k < j && OutsideMove(states[k], steps[k], d)
    ensures states[i].repo.Doing(d).Ready? || states[i].repo.Doing(d).Checked?
    ensures d in states[j].repo.heads && states[j].repo.heads[d] != states[i].repo.Doing(d).review.parent
  {
    AtCheck(states, steps, i, d);
    Between(states, steps, k, d);
    GoesForward(states, steps, i, i + 1, k, d);
    GoesForward(states, steps, i, k + 1, j, d);
    var first, before := states[i + 1].repo.heads[d], states[k].repo.heads[d];
    var after, last := states[k + 1].repo.heads[d], states[j].repo.heads[d];
    if last == first {
      W.AncestorTransitive(after, last, before);
      W.AncestorAntisymmetric(before, after);
    }
  }

  lemma CheckedMeansUnderWay(states: seq<Managed>, steps: seq<Step>, i: nat, j: nat, d: W.Branch)
    requires Behaviour(states, steps) && i < j < |steps|
    requires steps[i] == Git(W.CheckReview(d)) && steps[j] == Git(W.Finish(d))
    requires forall k :: i < k < j ==> steps[k] != Git(W.CheckReview(d))
    ensures UnderWay(states, steps, i, j, d)
    ensures states[i].repo.Doing(d).Ready? || states[i].repo.Doing(d).Checked?
    ensures states[j].repo.Doing(d).Checked? && states[j].repo.Doing(d).review == states[i].repo.Doing(d).review
  {
    StepAt(states, steps, j);
    AtCheck(states, steps, i, d);
    CheckedThroughout(states, steps, i + 1, j, d);
    forall k | i < k < j ensures states[k].repo.Doing(d).Checked? && steps[k] != Git(W.Finish(d)) {
      CheckedThroughout(states, steps, k, j, d);
      CheckedThroughout(states, steps, k + 1, j, d);
      StepAt(states, steps, k);
    }
  }

  lemma MergedAt(states: seq<Managed>, steps: seq<Step>, j: nat, d: W.Branch)
    requires Behaviour(states, steps) && j < |steps| && steps[j] == Git(W.Finish(d))
    ensures states[j].repo.Doing(d).Checked? && d in states[j].repo.heads && d in states[j + 1].repo.heads
    ensures states[j].repo.heads[d] == states[j].repo.Doing(d).review.parent ==>
      states[j + 1].repo.heads[d] == states[j].repo.Doing(d).review.head
  {
    StepAt(states, steps, j);
    AlwaysManaged(states, steps, j);
    W.FinishContains(states[j].repo, d);
  }

  /** Under the manager, integration moves the destination from exactly the reviewed parent to exactly the
      reviewed head if and only if nobody outside the manager moves the destination between the last check
      and the merge; no operation of the manager can spoil it, and the destination is never deleted. */
  lemma ManagedIntegrationIsExact(states: seq<Managed>, steps: seq<Step>, i: nat, j: nat, d: W.Branch)
    requires Behaviour(states, steps) && i < j < |steps|
    requires steps[i] == Git(W.CheckReview(d)) && steps[j] == Git(W.Finish(d))
    requires forall k :: i < k < j ==> steps[k] != Git(W.CheckReview(d))
    ensures states[i].repo.Doing(d).Ready? || states[i].repo.Doing(d).Checked?
    ensures d in states[j].repo.heads && d in states[j + 1].repo.heads
    ensures (forall k :: i < k < j ==> !OutsideMove(states[k], steps[k], d)) <==>
      && states[j].repo.heads[d] == states[i].repo.Doing(d).review.parent
      && states[j + 1].repo.heads[d] == states[i].repo.Doing(d).review.head
  {
    hide Behaviour;
    CheckedMeansUnderWay(states, steps, i, j, d);
    MergedAt(states, steps, j, d);
    if forall k :: i < k < j ==> !OutsideMove(states[k], steps[k], d) { StaysPut(states, steps, i, j, d); }
    forall k | i < k < j && OutsideMove(states[k], steps[k], d)
      ensures states[j].repo.heads[d] != states[i].repo.Doing(d).review.parent
    {
      MovedStaysMoved(states, steps, i, k, j, d);
    }
  }
}
