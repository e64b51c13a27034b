/** Whole sessions, compactions included: what every file the store itself wrote can be relied on for. */
module Sessions {
  import opened Sequences
  import opened Records
  import opened Replay
  import opened Extension
  import opened SessionLog
  import opened Transcript
  import opened Compaction
  import opened Growth
  import opened Pairing
  import opened Repair

  /** One operation of the store, or a compaction: the plan is read and its event recorded. */
  datatype SessionOp = Plainly(op: Op) | Compacting(memory: Memory, budget: int, summary: string)

  /** Redo events are written by redo only, and compact events by compaction only. */
  predicate Allowed(op: SessionOp)
  {
    op.Plainly? ==> Legal(op.op) && (op.op.Note? ==> !op.op.kind.Compact?)
  }

  lemma PreparedIsRecordable(lines: seq<Line>, id: string, memory: Memory, budget: int, plan: Plan)
    requires Prepare(lines, id, memory, budget) == Some(plan)
    ensures Recordable(plan)
  {
    var messages := Unsummarized(lines, id, memory, false);
    var refs := PrepareParts(lines, id, memory, budget, plan);
    assert plan.prefix + plan.tail == messages;
  }

  /** The log after a compaction prepared from it, if there is anything to cover. */
  function Compacted(log: Log, id: string, memory: Memory, budget: int, summary: string): Log
  {
    match Prepare(log.lines, id, memory, budget)
    case None => log
    case Some(plan) =>
      PreparedIsRecordable(log.lines, id, memory, budget, plan);
      Put(log, CompactEvent(plan, summary))
  }

  function Perform(log: Log, id: string, op: SessionOp): Log
  {
    match op
    case Plainly(plain) => Apply(log, plain)
    case Compacting(memory, budget, summary) => Compacted(log, id, memory, budget, summary)
  }

  function History(id: string, ops: seq<SessionOp>): Log
  {
    if ops == [] then Create(id) else Perform(History(id, ops[..|ops| - 1]), id, ops[|ops| - 1])
  }

  /** What a file the store wrote guarantees: numbering is sound, the meta record is there, and the
      latest summary speaks of records that exist. */
  ghost predicate WellKept(log: Log)
  {
    Sound(log.Records(), log.next) && HasMeta(log.Records()) && Grounded(log.Records(), log.next)
  }

  // ---- one record at a time ----

  lemma MetaStays(records: seq<Record>, r: Record)
    requires HasMeta(records)
    ensures HasMeta(records + [r])
  {
    var meta :| meta in records && meta.Meta?;
    assert meta in records + [r];
  }

  lemma GroundedLater(records: seq<Record>, next: int, later: int)
    requires Grounded(records, next) && next <= later
    ensures Grounded(records, later)
  {
    var latest := LastCompact(records);
    if latest.Some? && latest.value.kind.data.refs.Some? {
      forall ref, n | ref in latest.value.kind.data.refs.value && n in ref.seqs ensures n < later {}
    }
  }

  lemma GroundedAppend(records: seq<Record>, r: Record, next: int)
    requires Grounded(records, next) && (r.Event? ==> !r.kind.Compact?)
    ensures Grounded(records + [r], next + 1)
  {
    assert (records + [r])[..|records|] == records;
    GroundedLater(records, next, next + 1);
  }

  /** Any record but a summary, numbered next; a redo cancels something earlier. */
  predicate MayAppend(r: Record, next: int)
  {
    && !r.Meta? && r.no == next
    && (r.Event? ==> !r.kind.Compact?)
    && (r.Event? && r.kind.Redo? && r.kind.cancels.Some? ==> r.kind.cancels.value < next)
  }

  lemma PutKeeps(log: Log, r: Record)
    requires WellKept(log) && MayAppend(r, log.next)
    ensures WellKept(Put(log, r))
  {
    ReadPut(log, r);
    SoundAppend(log.Records(), r);
    MetaStays(log.Records(), r);
    GroundedAppend(log.Records(), r, log.next);
  }

  lemma SummaryKeeps(log: Log, plan: Plan, id: string, summary: string)
    requires WellKept(log) && Faithful(plan, id) && plan.lines == log.lines
    ensures WellKept(Put(log, CompactEvent(plan, summary)))
  {
    var e := CompactEvent(plan, summary);
    ReadPut(log, e);
    SoundAppend(log.Records(), e);
    MetaStays(log.Records(), e);
    CompactionIsGrounded(plan, id, summary);
    GroundedLater(log.Records() + [e], e.no, e.no + 1);
  }

  lemma CompactedKeeps(log: Log, id: string, memory: Memory, budget: int, summary: string)
    requires WellKept(log)
    ensures WellKept(Compacted(log, id, memory, budget, summary))
  {
    var p := Prepare(log.lines, id, memory, budget);
    if p.Some? {
      PlanIsFaithful(log.lines, id, memory, budget, p.value);
      SummaryKeeps(log, p.value, id, summary);
    }
  }

  // ---- one operation at a time ----

  lemma UndoKeeps(log: Log)
    requires WellKept(log)
    ensures WellKept(Apply(log, Undo))
  {
    var messages := LoadMessages(log.Records());
    UndoIsCut(log, messages);
    var user := LastUser(messages);
    if user.Some? { PutKeeps(log, StoneFor(log.next, messages[user.value])); }
  }

  lemma {:induction false} LastSignificant(records: seq<Record>)
    ensures Significant(records) != [] ==> Significant(records)[|Significant(records)| - 1] in records
  {
    FilterIn(records, (r: Record) => !IsUsage(r));
  }

  lemma RedoKeeps(log: Log)
    requires WellKept(log)
    ensures WellKept(Apply(log, Op.Redo))
  {
    if CanRedo(log.Records()) {
      var kept := Significant(log.Records());
      var stone := kept[|kept| - 1];
      LastSignificant(log.Records());
      PutKeeps(log, RedoOf(log.next, stone));
    }
  }

  lemma RewindKeeps(log: Log, to: int)
    requires WellKept(log)
    ensures WellKept(Apply(log, Rewind(to)))
  {
    RewindIsTwoRecords(log, to);
    PutKeeps(log, Event(log.next, RestorePoint(to)));
    PutKeeps(Marked(log, to), Tombstone(Marked(log, to).next, to));
  }

  lemma CrashKeeps(log: Log)
    requires WellKept(log)
    ensures WellKept(Apply(log, CrashMidWrite))
  {
    ReadAppend(log.lines, [Corrupt]);
    assert [Corrupt][..0] == [];
    PlusNothing(log.Records(), ReadRecords([Corrupt]));
  }

  lemma ApplyKeeps(log: Log, op: Op)
    requires WellKept(log) && Legal(op) && (op.Note? ==> !op.kind.Compact?)
    ensures WellKept(Apply(log, op))
  {
    match op
    case Say(role, body, tag, generation) => PutKeeps(log, Message(log.next, role, body, tag, generation));
    case Note(kind) => PutKeeps(log, Event(log.next, kind));
    case Undo => UndoKeeps(log);
    case Redo => RedoKeeps(log);
    case Rewind(to) => RewindKeeps(log, to);
    case CrashMidWrite => CrashKeeps(log);
  }

  lemma PerformKeeps(log: Log, id: string, op: SessionOp)
    requires WellKept(log) && Allowed(op)
    ensures WellKept(Perform(log, id, op))
  {
    match op
    case Plainly(plain) => ApplyKeeps(log, plain);
    case Compacting(memory, budget, summary) => CompactedKeeps(log, id, memory, budget, summary);
  }

  lemma CreateIsWellKept(id: string)
    ensures WellKept(Create(id))
  {
    CreateReads(id);
    NothingSound([Meta(id)], Meta(id));
    assert Meta(id) in [Meta(id)];
    assert [Meta(id)][..0] == [];
  }

  // ---- every run ----

  /** Whatever is said, undone, redone, rewound, noted, torn by a crash or compacted, in any order: the
      file stays one that repairs, growth and further compactions can rely on. */
  lemma {:induction false} EverySessionIsWellKept(id: string, ops: seq<SessionOp>)
    requires forall op :: op in ops ==> Allowed(op)
    ensures WellKept(History(id, ops))
  {
    if ops == [] {
      CreateIsWellKept(id);
    } else {
      EverySessionIsWellKept(id, ops[..|ops| - 1]);
      PerformKeeps(History(id, ops[..|ops| - 1]), id, ops[|ops| - 1]);
    }
  }

  /** Exclusions name messages that exist. */
  predicate Excludes(memory: Memory, next: int)
  {
    forall n :: n in memory.excluded ==> n < next
  }

  lemma WellKeptIsReady(log: Log, memory: Memory)
    requires WellKept(log) && Excludes(memory, log.next)
    ensures Ready(log, memory)
  {
  }

  /** In every state a session can reach, compacting once more is decided by the tombstones alone: the
      summary takes the place of exactly what it covers, or nothing changes for the model. */
  lemma CompactingAgain(id: string, ops: seq<SessionOp>, memory: Memory, budget: int, summary: string)
    requires forall op :: op in ops ==> Allowed(op)
    ensures
      var log := History(id, ops);
      var after := LoadForModel(Compacted(log, id, memory, budget, summary).lines, id, memory);
      match Prepare(log.lines, id, memory, budget)
      case None => after == LoadForModel(log.lines, id, memory)
      case Some(plan) =>
        && Faithful(plan, id)
        && after == if IntersectsTombstone(CompactEvent(plan, summary), ActiveTombstones(log.Records()))
                    then RawAll(VisibleMessages(log.Records(), memory))
                    else [Summary(summary)] + RawAll(plan.tail)
  {
    var log := History(id, ops);
    EverySessionIsWellKept(id, ops);
    var p := Prepare(log.lines, id, memory, budget);
    if p.Some? {
      CompactionTakesHold(log.lines, id, memory, budget, summary, p.value);
      AsLinesOne(CompactEvent(p.value, summary));
    }
  }

  /** In every state a session can reach, the repair closes every open call exactly when there is none
      or nothing has been forgotten. */
  lemma RepairingAnySession(id: string, ops: seq<SessionOp>, memory: Memory)
    requires forall op :: op in ops ==> Allowed(op)
    requires Excludes(memory, History(id, ops).next)
    ensures
      var log := History(id, ops);
      var open := Outstanding(LoadForModel(log.lines, id, memory));
      Outstanding(LoadForModel(Repaired(log, id, memory).lines, id, memory)) == [] <==>
        open == [] || memory.generation == 0
  {
    EverySessionIsWellKept(id, ops);
    WellKeptIsReady(History(id, ops), memory);
    RepairClosesExactlyAtGenerationZero(History(id, ops), id, memory);
  }
}
