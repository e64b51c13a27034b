/** Worker branches under destination locks. Git is an abstract commit graph, and a commit's hash is
    the commit itself. */
module Worktree {
  import opened Sequences

  datatype Commit = Root(tag: nat) | Child(parent: Commit, tag: nat) | Joined(ours: Commit, theirs: Commit)

  type Branch = nat

  /** `git merge-base --is-ancestor`. */
  predicate Ancestor(a: Commit, c: Commit)
  {
    a == c || match c
      case Root(_) => false
      case Child(parent, _) => Ancestor(a, parent)
      case Joined(ours, theirs) => Ancestor(a, ours) || Ancestor(a, theirs)
  }

  /** Merging `target` into a checkout at `head`; a conflict leaves the head where it was. */
  function Merged(head: Commit, target: Commit, conflict: bool): Commit
  {
    if Ancestor(target, head) then head
    else if Ancestor(head, target) then target
    else if conflict then head
    else Joined(head, target)
  }

  /** `git merge --ff-only`: refused when neither side contains the other. */
  function FastForward(head: Commit, target: Commit): Option<Commit>
  {
    if Ancestor(head, target) then Some(target)
    else if Ancestor(target, head) then Some(head)
    else None
  }

  /** The two hashes the reviewing parent approved. */
  datatype Review = Review(head: Commit, parent: Commit)

  /** A worker's sidecar: its destination branch and the commit it was created at. */
  datatype Pin = Pin(dest: Branch, base: Commit)

  /** What the holder of a destination's lock is doing for one worker. */
  datatype Phase =
    | Idle
    | Reconciling(worker: Branch)
    | Merging(worker: Branch, target: Commit)
    | Reviewing(worker: Branch, review: Review)
    | Basing(worker: Branch, review: Review)
    | Ready(worker: Branch, review: Review)
    | Checked(worker: Branch, review: Review)
    | Cleaning(worker: Branch)
    | Removing(worker: Branch)

  /** Branch heads, the workers' sidecars, and what goes on under each destination's lock. */
  datatype Repo = Repo(heads: map<Branch, Commit>, pins: map<Branch, Pin>, locks: map<Branch, Phase>)
  {
    function Doing(d: Branch): Phase { if d in locks then locks[d] else Idle }
    function Now(d: Branch, p: Phase): Repo { this.(locks := locks[d := p]) }
    function Move(b: Branch, c: Commit): Repo { this.(heads := heads[b := c]) }
    predicate Live(w: Branch, d: Branch) { w in pins && pins[w].dest == d && w in heads && d in heads }
  }

  datatype Step =
    | Create(worker: Branch, pin: Pin)
    | Advance(branch: Branch, to: Commit)
    | Begin(at: Branch, phase: Phase)
    | Recreate(at: Branch)
    | ReadTarget(at: Branch)
    | MergeIn(at: Branch, conflict: bool)
    | CompareParent(at: Branch)
    | Base(at: Branch, conflict: bool)
    | CheckReview(at: Branch)
    | Finish(at: Branch)
    | CheckIntegrated(at: Branch)
    | DeleteBranch(at: Branch)
    | GiveUp(at: Branch)

  predicate Enabled(r: Repo, s: Step)
  {
    match s
    case Create(w, pin) => w !in r.heads && w !in r.pins && pin.dest in r.heads && Ancestor(pin.base, r.heads[pin.dest])
    case Advance(b, to) => b in r.heads && Ancestor(r.heads[b], to)
    case Begin(d, p) =>
      && r.Doing(d).Idle? && (p.Reconciling? || p.Reviewing? || p.Cleaning?)
      && p.worker in r.pins && r.pins[p.worker].dest == d
    case Recreate(d) => r.Doing(d).Reconciling? && r.Doing(d).worker in r.pins && r.Doing(d).worker !in r.heads
    case ReadTarget(d) => r.Doing(d).Reconciling? && r.Live(r.Doing(d).worker, d)
    case MergeIn(d, _) => r.Doing(d).Merging? && r.Live(r.Doing(d).worker, d)
    case CompareParent(d) =>
      var p := r.Doing(d);
      p.Reviewing? && r.Live(p.worker, d) && r.heads[p.worker] == p.review.head
    case Base(d, _) => r.Doing(d).Basing? && r.Live(r.Doing(d).worker, d)
    case CheckReview(d) =>
      var p := r.Doing(d);
      && (p.Ready? || p.Checked?) && r.Live(p.worker, d)
      && r.heads[p.worker] == p.review.head && r.heads[d] == p.review.parent
    case Finish(d) => r.Doing(d).Checked? && d in r.heads
    case CheckIntegrated(d) =>
      var p := r.Doing(d);
      p.Cleaning? && r.Live(p.worker, d) && Ancestor(r.heads[p.worker], r.heads[d])
    case DeleteBranch(d) => r.Doing(d).Removing? && r.Live(r.Doing(d).worker, d)
    case GiveUp(d) => !r.Doing(d).Idle?
  }

  /** What one step makes of the branches and the locks; every step runs between two awaits. A worker's
      base is its destination's head, read before it is created. `Advance` is anyone committing to a branch or
      fast-forwarding it, at any time. Any error ends the operation with `GiveUp`. */
  function Next(r: Repo, s: Step): Repo
    requires Enabled(r, s)
  {
    match s
    case Create(w, pin) => r.(heads := r.heads[w := pin.base], pins := r.pins[w := pin])
    case Advance(b, to) => r.Move(b, to)
    case Begin(d, p) => r.Now(d, p)
    case Recreate(d) => r.Move(r.Doing(d).worker, r.pins[r.Doing(d).worker].base)
    case ReadTarget(d) => r.Now(d, Merging(r.Doing(d).worker, r.heads[d]))
    case MergeIn(d, conflict) =>
      var p := r.Doing(d);
      r.Move(p.worker, Merged(r.heads[p.worker], p.target, conflict)).Now(d, Idle)
    case CompareParent(d) =>
      var p := r.Doing(d);
      if r.heads[d] == p.review.parent then r.Now(d, Basing(p.worker, p.review))
      else if Ancestor(p.review.parent, r.heads[d]) then r.Now(d, Merging(p.worker, r.heads[d]))
      else r.Now(d, Idle)
    case Base(d, conflict) =>
      var p := r.Doing(d);
      var head := Merged(r.heads[p.worker], p.review.parent, conflict);
      // A conflict is an error, and so is a merge that moved the worker off the reviewed commit.
      r.Move(p.worker, head).Now(d,
        if head == p.review.head && Ancestor(p.review.parent, head) then Ready(p.worker, p.review) else Idle)
    case CheckReview(d) => r.Now(d, Checked(r.Doing(d).worker, r.Doing(d).review))
    case Finish(d) =>
      var moved := FastForward(r.heads[d], r.Doing(d).review.head);
      (if moved.Some? then r.Move(d, moved.value) else r).Now(d, Idle)
    case CheckIntegrated(d) => r.Now(d, Removing(r.Doing(d).worker))
    case DeleteBranch(d) =>
      var w := r.Doing(d).worker;
      // `git branch -d` refuses a branch the destination does not contain.
      (if Ancestor(r.heads[w], r.heads[d]) then r.(heads := r.heads - {w}) else r).Now(d, Idle)
    case GiveUp(d) => r.Now(d, Idle)
  }

  // ---- ancestry ----

  lemma {:induction false} AncestorTransitive(a: Commit, b: Commit, c: Commit)
    requires Ancestor(a, b) && Ancestor(b, c)
    ensures Ancestor(a, c)
  {
    if b != c {
      match c
      case Child(parent, _) => AncestorTransitive(a, b, parent);
      case Joined(ours, theirs) =>
        if Ancestor(b, ours) { AncestorTransitive(a, b, ours); } else { AncestorTransitive(a, b, theirs); }
    }
  }

  function Size(c: Commit): nat
  {
    match c
    case Root(_) => 0
    case Child(parent, _) => Size(parent) + 1
    case Joined(ours, theirs) => Size(ours) + Size(theirs) + 1
  }

  lemma {:induction false} AncestorIsSmaller(a: Commit, c: Commit)
    requires Ancestor(a, c)
    ensures a == c || Size(a) < Size(c)
  {
    if a != c {
      match c
      case Child(parent, _) => AncestorIsSmaller(a, parent);
      case Joined(ours, theirs) =>
        if Ancestor(a, ours) { AncestorIsSmaller(a, ours); } else { AncestorIsSmaller(a, theirs); }
    }
  }

  /** History has no cycle, so "contains" orders commits. */
  lemma AncestorAntisymmetric(a: Commit, b: Commit)
    requires Ancestor(a, b) && Ancestor(b, a)
    ensures a == b
  {
    AncestorIsSmaller(a, b);
    AncestorIsSmaller(b, a);
  }

  lemma MergedKeepsBoth(head: Commit, target: Commit, conflict: bool)
    ensures Ancestor(head, Merged(head, target, conflict))
    ensures !conflict ==> Ancestor(target, Merged(head, target, conflict))
  {
  }

  // ---- steps ----

  /** A lock's phase belongs to a worker of that destination, and a review that got past its base check
      contains the parent it was made against. */
  ghost predicate Consistent(r: Repo)
  {
    && (forall w :: w in r.pins ==> r.pins[w].dest != w)
    && forall d :: d in r.locks && !r.locks[d].Idle? ==>
         && r.locks[d].worker in r.pins && r.pins[r.locks[d].worker].dest == d
         && (r.locks[d].Ready? || r.locks[d].Checked? ==> Ancestor(r.locks[d].review.parent, r.locks[d].review.head))
  }

  lemma StepKeepsConsistent(r: Repo, s: Step)
    requires Consistent(r) && Enabled(r, s)
    ensures Consistent(Next(r, s))
  {
  }

  /** Does the step write branch `b`? Only integration into `b`, or an operation on `b` as a worker
      (under another lock), or a commit made on it. */
  predicate Writes(r: Repo, s: Step, b: Branch)
  {
    match s
    case Create(w, _) => w == b
    case Advance(branch, _) => branch == b
    case Recreate(d) => r.Doing(d).Reconciling? && r.Doing(d).worker == b
    case MergeIn(d, _) => r.Doing(d).Merging? && r.Doing(d).worker == b
    case Base(d, _) => r.Doing(d).Basing? && r.Doing(d).worker == b
    case Finish(d) => d == b
    case DeleteBranch(d) => r.Doing(d).Removing? && r.Doing(d).worker == b
    case _ => false
  }

  lemma OthersUnwritten(r: Repo, s: Step, b: Branch)
    requires Enabled(r, s) && !Writes(r, s, b)
    ensures b in Next(r, s).heads <==> b in r.heads
    ensures b in r.heads ==> Next(r, s).heads[b] == r.heads[b]
  {
  }

  /** Heads only advance; a branch disappears only once its destination contains it. */
  lemma StepAdvances(r: Repo, s: Step, b: Branch)
    requires Consistent(r) && Enabled(r, s) && b in r.heads
    ensures b in Next(r, s).heads ==> Ancestor(r.heads[b], Next(r, s).heads[b])
    ensures b !in Next(r, s).heads ==>
      && s.DeleteBranch? && r.Doing(s.at).worker == b
      && r.pins[b].dest == s.at && s.at in Next(r, s).heads && Next(r, s).heads[s.at] == r.heads[s.at]
      && Ancestor(r.heads[b], r.heads[s.at])
  {
    if Writes(r, s, b) {
      match s
      case MergeIn(d, conflict) => MergedKeepsBoth(r.heads[b], r.Doing(d).target, conflict);
      case Base(d, conflict) => MergedKeepsBoth(r.heads[b], r.Doing(d).review.parent, conflict);
      case _ =>
    } else {
      OthersUnwritten(r, s, b);
    }
  }

  // ---- runs ----

  ghost predicate Behaviour(states: seq<Repo>, steps: seq<Step>)
  {
    && |states| == |steps| + 1
    && states[0].pins == map[] && states[0].locks == map[]
    && forall i :: 0 <= i < |steps| ==> Enabled(states[i], steps[i]) && states[i + 1] == Next(states[i], steps[i])
  }

  lemma {:induction false} AlwaysConsistent(states: seq<Repo>, steps: seq<Step>, i: nat)
    requires Behaviour(states, steps) && i < |states|
    ensures Consistent(states[i])
  {
    if i > 0 {
      AlwaysConsistent(states, steps, i - 1);
      StepKeepsConsistent(states[i - 1], steps[i - 1]);
    }
  }

  /** Under any interleaving, a branch that is not deleted only moves to descendants. */
  lemma {:induction false} HeadsOnlyAdvance(states: seq<Repo>, steps: seq<Step>, i: nat, j: nat, b: Branch)
    requires Behaviour(states, steps) && i <= j < |states|
    requires forall k :: i <= k <= j ==> b in states[k].heads
    ensures Ancestor(states[i].heads[b], states[j].heads[b])
    decreases j
  {
    if i < j {
      HeadsOnlyAdvance(states, steps, i, j - 1, b);
      AlwaysConsistent(states, steps, j - 1);
      StepAdvances(states[j - 1], steps[j - 1], b);
      AncestorTransitive(states[i].heads[b], states[j - 1].heads[b], states[j].heads[b]);
    }
  }

  /** Some branch still contains the commit. */
  ghost predicate Reachable(r: Repo, c: Commit)
  {
    exists b :: b in r.heads && Ancestor(c, r.heads[b])
  }

  lemma StepLosesNothing(states: seq<Repo>, steps: seq<Step>, k: nat, c: Commit)
    requires Behaviour(states, steps) && k < |steps|
    requires Reachable(states[k], c)
    ensures Reachable(states[k + 1], c)
  {
    AlwaysConsistent(states, steps, k);
    var r, s, after := states[k], steps[k], states[k + 1].heads;
    assert Enabled(r, s) && states[k + 1] == Next(r, s);
    var b :| b in r.heads && Ancestor(c, r.heads[b]);
    StepAdvances(r, s, b);
    if b in after {
      AncestorTransitive(c, r.heads[b], after[b]);
    } else {
      AncestorTransitive(c, r.heads[b], after[s.at]);
    }
  }

  /** No committed work is ever lost: every commit some branch contains stays contained in a branch,
      cleaned-up workers included. */
  lemma {:induction false} NoCommitIsLost(states: seq<Repo>, steps: seq<Step>, i: nat, j: nat, c: Commit)
    requires Behaviour(states, steps) && i <= j < |states|
    requires Reachable(states[i], c)
    ensures Reachable(states[j], c)
    decreases j
  {
    if i < j {
      NoCommitIsLost(states, steps, i, j - 1, c);
      StepLosesNothing(states, steps, j - 1, c);
    }
  }

  // ---- integration ----

  /** The final merge: onto the reviewed parent it gives the reviewed head, and whenever git accepts it the
      destination afterwards contains the reviewed head; otherwise it stays where it is. */
  lemma FinishContains(r: Repo, d: Branch)
    requires Consistent(r) && Enabled(r, Finish(d))
    ensures
      var review, after := r.Doing(d).review, Next(r, Finish(d)).heads[d];
      && (r.heads[d] == review.parent ==> after == review.head)
      && (Ancestor(review.head, after) <==> FastForward(r.heads[d], review.head).Some?)
      && (!Ancestor(review.head, after) ==> after == r.heads[d])
  {
    assert d in r.locks;
  }

  /** A step, or anything it does, moves the head of `d`. */
  predicate Moves(states: seq<Repo>, k: nat, d: Branch)
    requires k + 1 < |states|
  {
    d in states[k].heads && !(d in states[k + 1].heads && states[k + 1].heads[d] == states[k].heads[d])
  }

  lemma NotCheckedStays(r: Repo, s: Step, d: Branch)
    requires Enabled(r, s) && s != CheckReview(d)
    ensures Next(r, s).Doing(d).Checked? ==> Next(r, s).Doing(d) == r.Doing(d)
  {
  }

  /** Where the last check before a merge was, the lock has held the same review ever since. */
  lemma {:induction false} CheckedSince(states: seq<Repo>, steps: seq<Step>, i: nat, j: nat, d: Branch)
    requires Behaviour(states, steps) && i < j < |states| && steps[i] == CheckReview(d)
    requires forall k :: i < k < j ==> steps[k] != CheckReview(d)
    requires states[j].Doing(d).Checked?
    ensures states[j].Doing(d).review == states[i].Doing(d).review
    decreases j
  {
    var r, s := states[j - 1], steps[j - 1];
    assert Enabled(r, s) && states[j] == Next(r, s);
    if i + 1 < j {
      NotCheckedStays(r, s, d);
      CheckedSince(states, steps, i, j - 1, d);
    }
  }

  lemma {:induction false} UnmovedStays(states: seq<Repo>, steps: seq<Step>, i: nat, j: nat, d: Branch)
    requires Behaviour(states, steps) && i < j < |states| && steps[i] == CheckReview(d)
    requires forall k :: i < k < j ==> !Moves(states, k, d)
    ensures d in states[j].heads && states[j].heads[d] == states[i].Doing(d).review.parent
    decreases j
  {
    var r, s := states[j - 1], steps[j - 1];
    assert Enabled(r, s) && states[j] == Next(r, s);
    if i + 1 < j {
      UnmovedStays(states, steps, i, j - 1, d);
      assert !Moves(states, j - 1, d);
    }
  }

  /** Heads only advance, so a branch that is where it was has not been moved in between. */
  lemma BackIsUnmoved(states: seq<Repo>, steps: seq<Step>, i: nat, k: nat, j: nat, d: Branch)
    requires Behaviour(states, steps) && i <= k < j < |states|
    requires forall m :: i <= m <= j ==> d in states[m].heads
    requires states[i].heads[d] == states[j].heads[d]
    ensures !Moves(states, k, d)
  {
    HeadsOnlyAdvance(states, steps, i, k, d);
    HeadsOnlyAdvance(states, steps, k, k + 1, d);
    HeadsOnlyAdvance(states, steps, k + 1, j, d);
    AncestorTransitive(states[k].heads[d], states[k + 1].heads[d], states[j].heads[d]);
    AncestorAntisymmetric(states[i].heads[d], states[k].heads[d]);
    AncestorAntisymmetric(states[k].heads[d], states[k + 1].heads[d]);
  }

  /** The branch exists from the last check to the merge, and the merge takes it from exactly the reviewed
      parent to exactly the reviewed head. */
  ghost predicate Exactly(states: seq<Repo>, i: nat, j: nat, d: Branch, review: Review)
    requires i < j && j + 1 < |states|
  {
    && (forall k :: i < k <= j + 1 ==> d in states[k].heads)
    && states[j].heads[d] == review.parent && states[j + 1].heads[d] == review.head
  }

  /** A successful integrate, exactly: in any run, it moves the destination from the reviewed parent to the
      reviewed head if and only if no step strictly between the last check and the merge moves the
      destination. */
  lemma IntegrationIsExact(states: seq<Repo>, steps: seq<Step>, i: nat, j: nat, d: Branch)
    requires Behaviour(states, steps) && i < j < |steps|
    requires steps[i] == CheckReview(d) && steps[j] == Finish(d)
    requires forall k :: i < k < j ==> steps[k] != CheckReview(d)
    ensures Enabled(states[i], steps[i])
    ensures Exactly(states, i, j, d, states[i].Doing(d).review) <==> forall k :: i < k < j ==> !Moves(states, k, d)
  {
    assert Enabled(states[i], steps[i]) && states[i + 1] == Next(states[i], steps[i]);
    assert Enabled(states[j], steps[j]) && states[j + 1] == Next(states[j], steps[j]);
    CheckedSince(states, steps, i, j, d);
    AlwaysConsistent(states, steps, j);
    FinishContains(states[j], d);
    if Exactly(states, i, j, d, states[i].Doing(d).review) {
      forall k | i < k < j ensures !Moves(states, k, d) {
        BackIsUnmoved(states, steps, i + 1, k, j, d);
      }
    }
    if forall k :: i < k < j ==> !Moves(states, k, d) {
      forall k | i < k <= j ensures d in states[k].heads { UnmovedStays(states, steps, i, k, d); }
      UnmovedStays(states, steps, i, j, d);
    }
  }

  const X := Root(0)
  const Y := Child(X, 0)
  const Z := Child(Y, 0)

  /** A repository with one branch, the user's. */
  const ALONE := Repo(map[0 := X], map[], map[])

  /** A worker commits twice and is reviewed; after the last check somebody fast-forwards the destination to
      the worker's first commit. */
  const RACE := [
    Create(1, Pin(0, X)), Advance(1, Y), Advance(1, Z),
    Begin(0, Reviewing(1, Review(Z, X))), CompareParent(0), Base(0, false), CheckReview(0),
    Advance(0, Y)]

  lemma RaceAncestry()
    ensures Ancestor(X, X) && Ancestor(X, Y) && Ancestor(X, Z) && Ancestor(Y, Z) && X != Y
  {
  }

  lemma RaceCommits() returns (states: seq<Repo>)
    ensures |states| == 4 && states[0] == ALONE
    ensures forall i :: 0 <= i < 3 ==> Enabled(states[i], RACE[i]) && states[i + 1] == Next(states[i], RACE[i])
    ensures states[3] == Repo(map[0 := X, 1 := Z], map[1 := Pin(0, X)], map[])
  {
    RaceAncestry();
    var r1 := Next(ALONE, RACE[0]);
    var r2 := Next(r1, RACE[1]);
    var r3 := Next(r2, RACE[2]);
    states := [ALONE, r1, r2, r3];
  }

  lemma RaceReview(r3: Repo) returns (states: seq<Repo>)
    requires r3 == Repo(map[0 := X, 1 := Z], map[1 := Pin(0, X)], map[])
    ensures |states| == 4 && states[0] == r3
    ensures forall i :: 0 <= i < 3 ==> Enabled(states[i], RACE[i + 3]) && states[i + 1] == Next(states[i], RACE[i + 3])
    ensures states[3].Doing(0) == Ready(1, Review(Z, X)) && states[3].heads == r3.heads && states[3].pins == r3.pins
  {
    RaceAncestry();
    var r4 := Next(r3, RACE[3]);
    var r5 := Next(r4, RACE[4]);
    var r6 := Next(r5, RACE[5]);
    states := [r3, r4, r5, r6];
  }

  lemma RaceEnd(r6: Repo) returns (r7: Repo, r8: Repo)
    requires r6.Doing(0) == Ready(1, Review(Z, X)) && r6.heads == map[0 := X, 1 := Z] && r6.pins == map[1 := Pin(0, X)]
    ensures Enabled(r6, RACE[6]) && r7 == Next(r6, RACE[6]) && Enabled(r7, RACE[7]) && r8 == Next(r7, RACE[7])
    ensures Enabled(r8, Finish(0)) && r8.Doing(0) == Checked(1, Review(Z, X))
    ensures r8.heads[0] == Y && Next(r8, Finish(0)).heads[0] == Z
  {
    RaceAncestry();
    r7 := Next(r6, RACE[6]);
    r8 := Next(r7, RACE[7]);
  }

  /** The merge then succeeds from a commit nobody reviewed. */
  lemma UnreviewedParentIsPossible() returns (states: seq<Repo>)
    ensures Behaviour(states, RACE) && RACE[6] == CheckReview(0) && Enabled(states[8], Finish(0))
    ensures states[8].Doing(0).Checked? && states[8].Doing(0).review == Review(Z, X)
    ensures states[8].heads[0] == Y != X && Next(states[8], Finish(0)).heads[0] == Z
  {
    var before := RaceCommits();
    var reviewed := RaceReview(before[3]);
    var r7, r8 := RaceEnd(reviewed[3]);
    hide Enabled, Next, Ancestor;
    states := before + [reviewed[1], reviewed[2], reviewed[3], r7, r8];
    forall i | 0 <= i < 8 ensures Enabled(states[i], RACE[i]) && states[i + 1] == Next(states[i], RACE[i]) {
      if i < 3 {
        assert states[i] == before[i] && states[i + 1] == before[i + 1];
      } else if i < 6 {
        assert states[i] == reviewed[i - 3] && states[i + 1] == reviewed[i - 2];
      }
    }
  }

  // ---- what each operation comes to when it is left alone ----

  /** A worker and its destination, with nothing going on under the destination's lock. */
  predicate AtRest(r: Repo, w: Branch, d: Branch)
  {
    r.Doing(d).Idle? && r.Live(w, d) && w != d
  }

  /** Integration goes through exactly if the worker is at the reviewed head, the destination at the reviewed
      parent, and the parent is contained in the head; then the destination is at the reviewed head and nothing
      else has moved. A destination that has gone on is merged into the worker instead. */
  lemma ReviewGoesThrough(r: Repo, w: Branch, d: Branch, review: Review, conflict: bool)
    requires AtRest(r, w, d)
    ensures
      var begun := Next(r, Begin(d, Reviewing(w, review)));
      && (Enabled(begun, CompareParent(d)) <==> r.heads[w] == review.head)
      && (r.heads[w] == review.head ==>
            var compared := Next(begun, CompareParent(d));
            && (compared.Doing(d).Basing? <==> r.heads[d] == review.parent)
            && (r.heads[d] != review.parent ==>
                  var next := if Ancestor(review.parent, r.heads[d]) then Merging(w, r.heads[d]) else Idle;
                  compared.Doing(d) == next)
            && (compared.Doing(d).Basing? ==>
                  var based := Next(compared, Base(d, conflict));
                  && (Enabled(based, CheckReview(d)) <==> Ancestor(review.parent, review.head))
                  && (Enabled(based, CheckReview(d)) ==>
                        var checked := Next(based, CheckReview(d));
                        && Enabled(checked, CheckReview(d)) && Enabled(checked, Finish(d))
                        && Next(checked, Finish(d)).heads == r.heads[d := review.head]
                        && Next(checked, Finish(d)).Doing(d).Idle?)))
  {
  }

  /** A worker is cleaned up exactly if its destination contains it; nothing else goes. */
  lemma CleanupGoesThrough(r: Repo, w: Branch, d: Branch)
    requires AtRest(r, w, d)
    ensures
      var begun := Next(r, Begin(d, Cleaning(w)));
      && (Enabled(begun, CheckIntegrated(d)) <==> Ancestor(r.heads[w], r.heads[d]))
      && (Enabled(begun, CheckIntegrated(d)) ==>
            var checked := Next(begun, CheckIntegrated(d));
            Enabled(checked, DeleteBranch(d)) && Next(checked, DeleteBranch(d)).heads == r.heads - {w})
  {
  }

  /** Reconciling brings exactly the destination's progress into the worker, unless the two conflict; then the
      worker stays where it is. A worker without its branch gets it back at its base first. */
  lemma ReconcileGoesThrough(r: Repo, w: Branch, d: Branch, conflict: bool)
    requires AtRest(r, w, d)
    ensures
      var begun := Next(r, Begin(d, Reconciling(w)));
      && Enabled(begun, ReadTarget(d))
      && var read := Next(begun, ReadTarget(d));
      && Enabled(read, MergeIn(d, conflict))
      && var after := Next(read, MergeIn(d, conflict)).heads;
      && after == r.heads[w := after[w]] && Ancestor(r.heads[w], after[w])
      && (Ancestor(r.heads[d], r.heads[w]) ==> after[w] == r.heads[w])
      && (Ancestor(r.heads[w], r.heads[d]) ==> after[w] == r.heads[d])
      && (!Ancestor(r.heads[d], r.heads[w]) && !Ancestor(r.heads[w], r.heads[d]) ==>
            after[w] == if conflict then r.heads[w] else Joined(r.heads[w], r.heads[d]))
  {
    if Ancestor(r.heads[d], r.heads[w]) && Ancestor(r.heads[w], r.heads[d]) {
      AncestorAntisymmetric(r.heads[w], r.heads[d]);
    }
  }

  lemma RecreateGoesThrough(r: Repo, w: Branch, d: Branch)
    requires r.Doing(d).Idle? && w in r.pins && r.pins[w].dest == d && w !in r.heads
    ensures
      var begun := Next(r, Begin(d, Reconciling(w)));
      Enabled(begun, Recreate(d)) && Next(begun, Recreate(d)).heads == r.heads[w := r.pins[w].base]
  {
  }

  // ---- integrate as it runs, with others committing at every await ----

  /** What everybody else may do meanwhile: every branch stays and only advances. */
  predicate Advanced(before: map<Branch, Commit>, after: map<Branch, Commit>)
  {
    forall b :: b in before ==> b in after && Ancestor(before[b], after[b])
  }

  lemma AdvancedTwice(a: map<Branch, Commit>, b: map<Branch, Commit>, c: map<Branch, Commit>)
    requires Advanced(a, b) && Advanced(b, c)
    ensures Advanced(a, c)
  {
    forall x | x in a ensures Ancestor(a[x], c[x]) {
      AncestorTransitive(a[x], b[x], c[x]);
    }
  }

  /** One commit, or fast-forward, by somebody else. */
  datatype Push = Push(branch: Branch, to: Commit)

  /** Pushes in turn; one that would not move a branch forward is refused. */
  function Pushed(heads: map<Branch, Commit>, pushes: seq<Push>): (after: map<Branch, Commit>)
    decreases |pushes|
  {
    if pushes == [] then heads else
      var p := pushes[0];
      var refused := p.branch in heads && !Ancestor(heads[p.branch], p.to);
      Pushed(if refused then heads else heads[p.branch := p.to], pushes[1..])
  }

  lemma {:induction false} PushedAdvances(heads: map<Branch, Commit>, pushes: seq<Push>)
    ensures Advanced(heads, Pushed(heads, pushes))
    ensures forall b :: b in heads && Untouched(pushes, b) ==>
      b in Pushed(heads, pushes) && Pushed(heads, pushes)[b] == heads[b]
    decreases |pushes|
  {
    if pushes != [] {
      var p := pushes[0];
      var next := if p.branch in heads && !Ancestor(heads[p.branch], p.to) then heads else heads[p.branch := p.to];
      assert pushes == [p] + pushes[1..];
      PushedAdvances(next, pushes[1..]);
      assert Advanced(heads, next);
      AdvancedTwice(heads, next, Pushed(heads, pushes));
    }
  }

  predicate Untouched(pushes: seq<Push>, b: Branch) { forall p :: p in pushes ==> p.branch != b }

  /** Nobody else touches the branch, at any await. */
  ghost predicate Spared(others: nat -> seq<Push>, b: Branch)
  {
    forall k: nat :: Untouched(others(k), b)
  }

  lemma LaterSpared(others: nat -> seq<Push>, b: Branch)
    ensures Spared(others, b) ==> Spared((k: nat) => others(k + 1), b)
  {
  }

  /** Where a worker at the reviewed head is taken when the destination is no longer at the reviewed parent. */
  function Caught(review: Review, onto: Commit, conflict: bool): Commit
  {
    if Ancestor(review.parent, onto) then Merged(review.head, onto, conflict) else review.head
  }

  /** A merge leaves the head where it was and yet containing the target only if it was not needed. */
  lemma ReviewedStays(head: Commit, target: Commit, conflict: bool)
    ensures Ancestor(target, Merged(head, target, conflict)) && Merged(head, target, conflict) == head <==>
      Ancestor(target, head)
  {
  }

  class Repository {
    var heads: map<Branch, Commit>

    /** An await: others may run. */
    method Await(pushes: seq<Push>)
      modifies this
      ensures Advanced(old(heads), heads) && heads == Pushed(old(heads), pushes)
      ensures forall b :: b in old(heads) && Untouched(pushes, b) ==> b in heads && heads[b] == old(heads)[b]
    {
      PushedAdvances(heads, pushes);
      heads := Pushed(heads, pushes);
    }

    /** Brings the destination's commit into the worker, unless it is there already. */
    method MergeDestination(w: Branch, target: Commit, conflict: bool) returns (ok: bool)
      requires w in heads
      modifies this
      ensures Advanced(old(heads), heads) && heads == old(heads)[w := Merged(old(heads)[w], target, conflict)]
      ensures ok <==> Ancestor(target, heads[w])
      ensures Ancestor(target, old(heads[w])) ==> heads == old(heads)
    {
      MergedKeepsBoth(heads[w], target, conflict);
      heads := heads[w := Merged(heads[w], target, conflict)];
      ok := Ancestor(target, heads[w]);
    }

    /** The worker's head and then the destination's are compared with the review. A destination that has gone
        on is merged into the worker; one that has not, only if the worker does not contain it. */
    method CheckBase(w: Branch, d: Branch, review: Review, conflict: bool, pushes: seq<Push>) returns (ok: bool)
      requires w in heads && d in heads && w != d
      modifies this
      ensures Advanced(old(heads), heads)
      ensures ok ==> heads[w] == review.head && heads[d] == review.parent && Ancestor(review.parent, review.head)
      ensures ok && Untouched(pushes, w) ==> old(heads)[w] == review.head
      ensures Untouched(pushes, d) ==> heads[d] == old(heads)[d]
      ensures Untouched(pushes, w) && Untouched(pushes, d) && !ok ==>
        old(heads)[w] != review.head || old(heads)[d] != review.parent || !Ancestor(review.parent, review.head)
      ensures Untouched(pushes, w) && Untouched(pushes, d) ==>
        var gone := old(heads)[w] == review.head && old(heads)[d] != review.parent;
        gone ==> heads[w] == Caught(review, old(heads)[d], conflict)
    {
      if heads[w] != review.head { return false; }
      ghost var start := heads;
      Await(pushes);
      ghost var was := heads;
      var onto := heads[d];
      if onto != review.parent {
        if Ancestor(review.parent, onto) {
          var _ := MergeDestination(w, onto, conflict);
          AdvancedTwice(start, was, heads);
        }
        return false;
      }
      ReviewedStays(review.head, onto, conflict);
      var based := MergeDestination(w, onto, conflict);
      AdvancedTwice(start, was, heads);
      ok := based && heads[w] == review.head;
    }

    /** Before the first command and after each one both heads are compared with the review again; then the
        destination is fast-forwarded from wherever it is by then. */
    method Validate(w: Branch, d: Branch, review: Review, passed: seq<bool>, others: nat -> seq<Push>)
      returns (ok: bool, onto: Commit)
      requires w in heads && d in heads && w != d && heads[w] == review.head && heads[d] == review.parent
      requires Ancestor(review.parent, review.head)
      modifies this
      ensures Advanced(old(heads), heads)
      ensures ok ==> (forall k :: 0 <= k < |passed| ==> passed[k]) && Ancestor(review.parent, onto)
      ensures ok ==> FastForward(onto, review.head) == Some(heads[d]) && Ancestor(review.head, heads[d])
      ensures ok && onto == review.parent ==> heads[d] == review.head
      ensures Spared(others, d) ==> heads[d] == if ok then review.head else review.parent
      ensures Spared(others, w) && Spared(others, d) ==> (ok <==> forall k :: 0 <= k < |passed| ==> passed[k])
    {
      ghost var start := heads;
      var i := 0;
      while true
        invariant i <= |passed|
        invariant Advanced(start, heads) && w in heads && d in heads
        invariant forall k :: 0 <= k < i ==> passed[k]
        invariant Spared(others, w) ==> heads[w] == review.head
        invariant Spared(others, d) ==> heads[d] == review.parent
        decreases |passed| - i
      {
        ghost var was := heads;
        Await(others(i));
        AdvancedTwice(start, was, heads);
        if heads[w] != review.head || heads[d] != review.parent { return false, heads[d]; }
        if i == |passed| { break; }
        if !passed[i] { return false, heads[d]; }
        i := i + 1;
      }
      ghost var was := heads;
      Await(others(i + 1));
      AdvancedTwice(start, was, heads);
      onto := heads[d];
      var moved := FastForward(onto, review.head);
      if moved.None? { return false, onto; }
      was := heads;
      heads := heads[d := moved.value];
      AdvancedTwice(start, was, heads);
      return true, onto;
    }

    /** Validates the reviewed commit and fast-forwards the destination to it. `passed[k]` is the
        verdict of the `k`-th validation command, `others(k)` what everybody else pushes at the `k`-th await;
        `onto` is the head the final merge found. On success the destination holds the reviewed commit, `onto`
        descends from the reviewed parent, and if `onto` is the reviewed parent the new head is the reviewed
        commit itself. If nobody touches the two branches it succeeds exactly when both are where the review
        saw them, the parent is contained in the reviewed commit, every command passes, and there is one or
        somebody `approved` doing without; a failure leaves the destination alone, and brings what it has
        gained since the review into the worker. */
    method Integrate(
      w: Branch, d: Branch, review: Review, passed: seq<bool>, approved: bool, conflict: bool,
      others: nat -> seq<Push>)
      returns (ok: bool, onto: Commit)
      requires w in heads && d in heads && w != d
      modifies this
      ensures Advanced(old(heads), heads)
      ensures ok ==> (forall k :: 0 <= k < |passed| ==> passed[k])
      ensures ok ==> Ancestor(review.parent, review.head) && Ancestor(review.parent, onto)
      ensures ok ==> FastForward(onto, review.head) == Some(heads[d]) && Ancestor(review.head, heads[d])
      ensures ok && onto == review.parent ==> heads[d] == review.head
      ensures Spared(others, w) && Spared(others, d) ==>
        (ok <==>
          && (passed == [] ==> approved) && old(heads)[w] == review.head && old(heads)[d] == review.parent
          && Ancestor(review.parent, review.head) && forall k :: 0 <= k < |passed| ==> passed[k])
      ensures Spared(others, d) ==> heads[d] == if ok then review.head else old(heads)[d]
      ensures Spared(others, w) && Spared(others, d) && (passed == [] ==> approved) ==>
        var gone := old(heads)[w] == review.head && old(heads)[d] != review.parent;
        gone ==> heads[w] == Caught(review, old(heads)[d], conflict)
    {
      ghost var start := heads;
      onto := heads[d];
      if passed == [] && !approved { return false, onto; }
      assert Spared(others, w) ==> Untouched(others(0), w);
      assert Spared(others, d) ==> Untouched(others(0), d);
      var based := CheckBase(w, d, review, conflict, others(0));
      if !based { return false, onto; }
      ghost var was := heads;
      var later := (k: nat) => others(k + 1);
      LaterSpared(others, w);
      LaterSpared(others, d);
      ok, onto := Validate(w, d, review, passed, later);
      AdvancedTwice(start, was, heads);
    }
  }
}
