/** Forgetting a fact, from the database through the session's file to what the model is handed. */
module Forgetting {
  import opened Records
  import opened Replay
  import opened ReplayLaws
  import F = Facts
  import O = Outbox

  /** The forget state replay consults for one session. */
  function MemoryOf(db: F.Db, session: nat): Memory
  {
    Memory(set s | s in db.exclusions && s.session == session :: s.at, db.generation)
  }

  // ---- what is excluded is not replayed ----

  lemma NosIn(messages: seq<Record>, n: int)
    requires n in Nos(messages) && forall m :: m in messages ==> m.Message?
    ensures exists m :: m in messages && m.Message? && m.no == n
  {
    var i :| 0 <= i < |messages| && Nos(messages)[i] == n;
    assert messages[i] in messages;
  }

  /** Neither an excluded message nor a summary made from it is handed to the model. */
  lemma ExcludedIsGone(lines: seq<Line>, id: string, memory: Memory, n: int)
    requires HasMeta(ReadRecords(lines)) && n in memory.excluded
    ensures
      var visible := VisibleMessages(ReadRecords(lines), memory);
      && (forall m :: m in visible ==> m.Message? && m.no != n)
      && match WorkingSummary(lines, id, memory)
         case None => LoadForModel(lines, id, memory) == RawAll(visible)
         case Some(s) =>
           && s.kind.data.refs.Some? && n !in RefNos(s.kind.data.refs.value)
           && |RefNos(s.kind.data.refs.value)| <= |visible|
           && LoadForModel(lines, id, memory)
              == [Summary(s.kind.data.summary)] + RawAll(visible[|RefNos(s.kind.data.refs.value)|..])
  {
    var visible := VisibleMessages(ReadRecords(lines), memory);
    VisibleAreMessages(ReadRecords(lines), memory, Working, false);
    ReplayPartitionsVisible(lines, id, memory);
    var s := WorkingSummary(lines, id, memory);
    if s.Some? {
      var k := |RefNos(s.value.kind.data.refs.value)|;
      assert forall m :: m in visible[..k] ==> m in visible;
      if n in Nos(visible[..k]) { NosIn(visible[..k], n); }
    }
  }

  /** Once a fact is forgotten, whatever is done to the database later: no message it was learned from is
      handed to the model again, and no summary that covered one. */
  lemma ForgottenIsGone(db: F.Db, fact: F.FactId, later: seq<F.Op>, source: F.Source, lines: seq<Line>, id: string)
    requires F.Invariant(db) && fact in db.facts && source in F.SourcesOf(db, fact)
    requires HasMeta(ReadRecords(lines))
    ensures
      var memory := MemoryOf(F.Run(F.Do(db, F.DoForget(fact)), later), source.session);
      && (forall m :: m in VisibleMessages(ReadRecords(lines), memory) ==> m.Message? && m.no != source.at)
      && match WorkingSummary(lines, id, memory)
         case None => true
         case Some(s) => s.kind.data.refs.Some? && source.at !in RefNos(s.kind.data.refs.value)
  {
    F.ForgetIsPermanent(db, fact, later);
    var memory := MemoryOf(F.Run(F.Do(db, F.DoForget(fact)), later), source.session);
    assert source.at in memory.excluded;
    ExcludedIsGone(lines, id, memory, source.at);
  }

  lemma CountsTell(a: set<F.Source>, b: set<F.Source>, x: set<F.FactId>, y: set<F.FactId>)
    requires a <= b && x <= y && |a| + |x| == |b| + |y|
    ensures a == b
  {
    assert |b - a| == |b| - |a| && |y - x| == |y| - |x| by {
      assert b == a + (b - a) && y == x + (y - x);
    }
    assert |b - a| == 0;
  }

  /** The epoch alone tells whether anything has been forgotten: while it stands, what a session may show
      has not changed. */
  lemma EpochTells(db: F.Db, later: seq<F.Op>, session: nat)
    requires F.Invariant(db)
    ensures
      var after := F.Run(db, later);
      && MemoryOf(after, session).generation >= MemoryOf(db, session).generation
      && (after.generation == db.generation ==> MemoryOf(after, session) == MemoryOf(db, session))
  {
    F.RunIsLater(db, later);
    var after := F.Run(db, later);
    if after.generation == db.generation {
      CountsTell(db.exclusions, after.exclusions, db.forgotten, after.forgotten);
    }
  }

  // ---- one session's file beside the database ----

  datatype Joint = Joint(db: F.Db, disk: O.Disk)

  datatype Step =
    | Forgets(fact: F.FactId)
    | Acknowledge(fact: F.FactId)
    | InDatabase(op: F.Op)
    | InFile(step: O.Step)

  predicate Enabled(j: Joint, session: nat, s: Step)
  {
    match s
    case Forgets(_) => true
    case Acknowledge(fact) => O.Enabled(j.disk, O.Acknowledge(fact))
    case InDatabase(op) => !op.DoForget? && !(op.DoAcknowledge? && op.session == session)
    case InFile(step) => O.Enabled(j.disk, step) && !step.Queue? && !step.Acknowledge?
  }

  /** Whether forgetting the fact queues a marker for the session. */
  predicate Contributes(db: F.Db, session: nat, fact: F.FactId)
  {
    fact in db.facts && session in F.SessionsOf(F.SourcesOf(db, fact))
  }

  /** A forget queues the marker in the same transaction; an acknowledgement takes it off. */
  function Next(j: Joint, session: nat, s: Step): Joint
    requires Enabled(j, session, s)
  {
    match s
    case Forgets(fact) =>
      Joint(F.Do(j.db, F.DoForget(fact)),
        if Contributes(j.db, session, fact) then j.disk.(pending := j.disk.pending + {fact}) else j.disk)
    case Acknowledge(fact) =>
      Joint(F.Do(j.db, F.DoAcknowledge(fact, session)), O.Next(j.disk, O.Acknowledge(fact)))
    case InDatabase(op) => j.(db := F.Do(j.db, op))
    case InFile(step) => j.(disk := O.Next(j.disk, step))
  }

  /** The database's queue for the session is the one its file is flushed from. */
  ghost predicate Tracks(j: Joint, session: nat)
  {
    && (forall fact :: (fact, session) in j.db.outbox <==> fact in j.disk.pending)
    && j.disk.acked <= j.db.forgotten
  }

  ghost predicate Invariant(j: Joint, session: nat)
  {
    F.Invariant(j.db) && O.Invariant(j.disk) && Tracks(j, session)
  }

  // ---- steps ----

  /** A forget that concerns the session is the outbox's own queueing step. */
  lemma ForgetQueues(j: Joint, session: nat, fact: F.FactId)
    requires Invariant(j, session) && Contributes(j.db, session, fact)
    ensures O.Enabled(j.disk, O.Queue(fact))
    ensures Next(j, session, Forgets(fact)).disk == O.Next(j.disk, O.Queue(fact))
  {
  }

  lemma ForgetKeepsTracks(j: Joint, session: nat, fact: F.FactId)
    requires Invariant(j, session)
    ensures Tracks(Next(j, session, Forgets(fact)), session)
  {
    var after := Next(j, session, Forgets(fact));
    F.StepIsLater(j.db, F.DoForget(fact));
    if fact in j.db.facts {
      F.ForgetEffects(j.db, fact);
      forall other ensures (other, session) in after.db.outbox <==> other in after.disk.pending {
        OnlyItsOwnMarkers(j.db, fact, other, session);
      }
    }
  }

  lemma OnlyItsOwnMarkers(db: F.Db, fact: F.FactId, other: F.FactId, session: nat)
    requires fact in db.facts
    ensures (other, session) in F.Do(db, F.DoForget(fact)).outbox
        <==> (other, session) in db.outbox || (other == fact && session in F.SessionsOf(F.SourcesOf(db, fact)))
  {
  }

  lemma ForgetKeepsInvariant(j: Joint, session: nat, fact: F.FactId)
    requires Invariant(j, session)
    ensures Invariant(Next(j, session, Forgets(fact)), session)
  {
    F.StepKeepsInvariant(j.db, F.DoForget(fact));
    ForgetKeepsTracks(j, session, fact);
    if Contributes(j.db, session, fact) {
      ForgetQueues(j, session, fact);
      O.StepKeepsInvariant(j.disk, O.Queue(fact));
    }
  }

  lemma AcknowledgeKeepsInvariant(j: Joint, session: nat, fact: F.FactId)
    requires Invariant(j, session) && Enabled(j, session, Acknowledge(fact))
    ensures Invariant(Next(j, session, Acknowledge(fact)), session)
  {
    F.StepKeepsInvariant(j.db, F.DoAcknowledge(fact, session));
    O.StepKeepsInvariant(j.disk, O.Acknowledge(fact));
    assert (fact, session) in j.db.outbox;
  }

  lemma DatabaseKeepsQueue(db: F.Db, op: F.Op, session: nat)
    requires !op.DoForget? && !(op.DoAcknowledge? && op.session == session)
    ensures forall fact :: (fact, session) in F.Do(db, op).outbox <==> (fact, session) in db.outbox
  {
  }

  lemma FileKeepsQueue(d: O.Disk, s: O.Step)
    requires O.Enabled(d, s) && !s.Queue? && !s.Acknowledge?
    ensures O.Next(d, s).pending == d.pending && O.Next(d, s).acked == d.acked
  {
  }

  lemma StepKeepsInvariant(j: Joint, session: nat, s: Step)
    requires Invariant(j, session) && Enabled(j, session, s)
    ensures Invariant(Next(j, session, s), session)
  {
    match s
    case Forgets(fact) => ForgetKeepsInvariant(j, session, fact);
    case Acknowledge(fact) => AcknowledgeKeepsInvariant(j, session, fact);
    case InDatabase(op) =>
      F.StepKeepsInvariant(j.db, op);
      F.StepIsLater(j.db, op);
      DatabaseKeepsQueue(j.db, op, session);
    case InFile(step) =>
      O.StepKeepsInvariant(j.disk, step);
      FileKeepsQueue(j.disk, step);
  }

  // ---- runs ----

  ghost predicate Behaviour(states: seq<Joint>, session: nat, steps: seq<Step>)
  {
    && |states| == |steps| + 1 && states[0] == Joint(F.EMPTY, O.START)
    && forall i :: 0 <= i < |steps| ==>
         Enabled(states[i], session, steps[i]) && states[i + 1] == Next(states[i], session, steps[i])
  }

  lemma {:induction false} AlwaysTracks(states: seq<Joint>, session: nat, steps: seq<Step>, i: nat)
    requires Behaviour(states, session, steps) && i < |states|
    ensures Invariant(states[i], session)
  {
    if i == 0 {
      F.FreshIsConsistent();
      assert ReadRecords(O.START.lines) == [];
    } else {
      AlwaysTracks(states, session, steps, i - 1);
      StepKeepsInvariant(states[i - 1], session, steps[i - 1]);
    }
  }

  /** The fact's marker is queued for the session, or known to be on its disk. */
  predicate MarkedOrQueued(j: Joint, fact: F.FactId) { fact in j.disk.pending || fact in j.disk.acked }

  lemma StepKeepsMarked(j: Joint, session: nat, s: Step, fact: F.FactId)
    requires Enabled(j, session, s) && MarkedOrQueued(j, fact)
    ensures MarkedOrQueued(Next(j, session, s), fact)
  {
    if s.InFile? { FileKeepsQueue(j.disk, s.step); }
  }

  lemma DatabaseMoves(j: Joint, session: nat, s: Step)
    requires Enabled(j, session, s)
    ensures F.Later(j.db, Next(j, session, s).db)
  {
    match s
    case Forgets(fact) => F.StepIsLater(j.db, F.DoForget(fact));
    case Acknowledge(fact) => F.StepIsLater(j.db, F.DoAcknowledge(fact, session));
    case InDatabase(op) => F.StepIsLater(j.db, op);
    case InFile(_) =>
  }

  lemma StepAt(states: seq<Joint>, session: nat, steps: seq<Step>, k: nat)
    requires Behaviour(states, session, steps) && k < |steps|
    ensures Enabled(states[k], session, steps[k]) && states[k + 1] == Next(states[k], session, steps[k])
  {
  }

  lemma ForgetMarks(j: Joint, session: nat, fact: F.FactId)
    requires Contributes(j.db, session, fact)
    ensures MarkedOrQueued(Next(j, session, Forgets(fact)), fact)
    ensures fact in Next(j, session, Forgets(fact)).db.forgotten
  {
  }

  lemma MarkedAt(states: seq<Joint>, session: nat, steps: seq<Step>, k: nat, fact: F.FactId)
    requires Behaviour(states, session, steps) && k < |steps|
    requires steps[k] == Forgets(fact) && Contributes(states[k].db, session, fact)
    ensures MarkedOrQueued(states[k + 1], fact) && fact in states[k + 1].db.forgotten
  {
    hide Contributes;
    StepAt(states, session, steps, k);
    ForgetMarks(states[k], session, fact);
  }

  lemma MarkedAfter(states: seq<Joint>, session: nat, steps: seq<Step>, k: nat, fact: F.FactId)
    requires Behaviour(states, session, steps) && k < |steps|
    requires MarkedOrQueued(states[k], fact) && fact in states[k].db.forgotten
    ensures MarkedOrQueued(states[k + 1], fact) && fact in states[k + 1].db.forgotten
  {
    StepAt(states, session, steps, k);
    hide Behaviour, Next, MarkedOrQueued;
    StepKeepsMarked(states[k], session, steps[k], fact);
    DatabaseMoves(states[k], session, steps[k]);
  }

  lemma {:induction false} MarkedEverAfter(
    states: seq<Joint>, session: nat, steps: seq<Step>, i: nat, j: nat, fact: F.FactId)
    requires Behaviour(states, session, steps) && i < j < |states|
    requires steps[i] == Forgets(fact) && Contributes(states[i].db, session, fact)
    ensures MarkedOrQueued(states[j], fact) && fact in states[j].db.forgotten
    decreases j
  {
    assert |states| == |steps| + 1;
    hide Behaviour, Contributes;
    if i + 1 < j {
      MarkedEverAfter(states, session, steps, i, j - 1, fact);
      MarkedAfter(states, session, steps, j - 1, fact);
    } else {
      MarkedAt(states, session, steps, i, fact);
    }
  }

  /** With crashes, torn writes and failed syncs at any point, in any run of database and file: once a fact
      is forgotten, its marker for a contributing session is queued in the database until it is durably in
      the session's file, which then holds it exactly once; and the fact stays forgotten. */
  lemma ForgottenReachesFile(
    states: seq<Joint>, session: nat, steps: seq<Step>, i: nat, j: nat, fact: F.FactId)
    requires Behaviour(states, session, steps) && i < j < |states|
    requires steps[i] == Forgets(fact) && Contributes(states[i].db, session, fact)
    ensures fact in states[j].db.forgotten && fact !in states[j].db.facts
    ensures states[j].disk.durable <= |states[j].disk.lines|
    ensures
      || (fact, session) in states[j].db.outbox
      || O.Delivered(ReadRecords(states[j].disk.lines[..states[j].disk.durable]), fact)
    ensures O.AtMostOne(O.RecordsOf(states[j].disk))
  {
    MarkedEverAfter(states, session, steps, i, j, fact);
    AlwaysTracks(states, session, steps, j);
  }
}
