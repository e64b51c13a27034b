/** Delivering forget markers to a session file: crash-safe, at most once, acknowledged only when
    durable. */
module Outbox {
  import opened Sequences
  import opened Records
  import opened Replay
  import opened SessionLog
  import opened Transcript
  import F = FailedAppends
  import Facts

  /** One session's file, how many of its lines are known to be on disk, its attached handle, and the
      database's queue. `ready` is a marker that has just been synced but not yet acknowledged. */
  datatype Disk = Disk(
    lines: seq<Line>, durable: nat, next: int,
    pending: set<Facts.FactId>, acked: set<Facts.FactId>, ready: Option<Facts.FactId>)

  /** The write or the sync fails, leaving this much of the line; `reread` if the number can be read back
      from the file afterwards. */
  datatype Fault = NoFault | Breaks(left: F.Left, reread: bool)

  datatype Step =
    | Queue(fact: Facts.FactId)
    | Deliver(fact: Facts.FactId, fault: Fault)
    | SyncAgain(fact: Facts.FactId, fault: Fault)
    | Acknowledge(fact: Facts.FactId)
    | Write(op: Op)
    | WriteFails(payload: F.Payload, left: F.Left)
    | Crash(kept: nat, torn: bool)

  predicate IsMarker(r: Record, fact: Facts.FactId)
  {
    r.Event? && r.kind == Forget(fact)
  }

  predicate Delivered(records: seq<Record>, fact: Facts.FactId)
  {
    exists r :: r in records && IsMarker(r, fact)
  }

  function RecordsOf(d: Disk): seq<Record> { ReadRecords(d.lines) }

  function LogOf(d: Disk): Log { Log(d.lines, d.next) }

  function WithLog(d: Disk, log: Log): Disk { d.(lines := log.lines, next := log.next) }

  /** A flush starts by reading the number back from the file. */
  function Reread(d: Disk): Disk { WithLog(d, Reopen(d.lines)) }

  /** After an exception the attached writer's number is read back once more, if that is possible. */
  function Stopped(d: Disk, reread: bool): Disk { (if reread then Reread(d) else d).(ready := None) }

  predicate IsForget(p: F.Payload) { p.OfEvent? && p.kind.Forget? }

  predicate Enabled(d: Disk, s: Step)
  {
    match s
    case Queue(fact) => fact !in d.pending && fact !in d.acked
    case Deliver(fact, _) => fact in d.pending && !Delivered(RecordsOf(d), fact) && d.ready.None?
    case SyncAgain(fact, _) => fact in d.pending && Delivered(RecordsOf(d), fact) && d.ready.None?
    case Acknowledge(fact) => d.ready == Some(fact)
    case Write(op) => !op.CrashMidWrite? && (op.Note? ==> !op.kind.Forget?) && d.ready.None?
    case WriteFails(payload, _) => !IsForget(payload) && d.ready.None?
    case Crash(kept, _) => d.durable <= kept <= |d.lines|
  }

  function FailedWrite(d: Disk, payload: F.Payload, left: F.Left): Disk
  {
    WithLog(d, F.Step(LogOf(d), F.AppendFails(payload, left)))
  }

  function Synced(d: Disk, fact: Facts.FactId): Disk { d.(durable := |d.lines|, ready := Some(fact)) }

  /** A torn write leaves an unparseable line; a crash may lose any part of what was not synced. */
  function Next(d: Disk, s: Step): Disk
    requires Enabled(d, s)
  {
    match s
    case Queue(fact) => d.(pending := d.pending + {fact})
    case Deliver(fact, NoFault) =>
      Synced(WithLog(d, Put(Reopen(d.lines), Event(NextNo(RecordsOf(d)), Forget(fact)))), fact)
    case Deliver(fact, Breaks(left, reread)) =>
      Stopped(FailedWrite(Reread(d), F.OfEvent(Forget(fact)), left), reread)
    case SyncAgain(fact, NoFault) => Synced(Reread(d), fact)
    case SyncAgain(fact, Breaks(_, reread)) => Stopped(Reread(d), reread)
    case Acknowledge(fact) => d.(pending := d.pending - {fact}, acked := d.acked + {fact}, ready := None)
    case Write(op) => WithLog(d, Apply(LogOf(d), op))
    case WriteFails(payload, left) => FailedWrite(d, payload, left)
    case Crash(kept, torn) =>
      var left := d.lines[..kept] + (if torn then [Corrupt] else []);
      Disk(left, |left|, NextNo(ReadRecords(left)), d.pending, d.acked, None)
  }

  /** Each fact has at most one marker. */
  ghost predicate AtMostOne(records: seq<Record>)
  {
    forall i, j, fact :: 0 <= i < j < |records| && IsMarker(records[i], fact) ==> !IsMarker(records[j], fact)
  }

  ghost predicate Invariant(d: Disk)
  {
    && d.durable <= |d.lines|
    && AtMostOne(RecordsOf(d))
    && d.pending !! d.acked
    && (forall fact :: fact in d.acked ==> Delivered(ReadRecords(d.lines[..d.durable]), fact))
    && (d.ready.Some? ==> d.ready.value in d.pending && Delivered(ReadRecords(d.lines[..d.durable]), d.ready.value))
  }

  const START := Disk([], 0, 1, {}, {}, None)

  // ---- steps ----

  lemma DeliveredIn(lines: seq<Line>, k: nat, fact: Facts.FactId)
    requires k <= |lines| && Delivered(ReadRecords(lines[..k]), fact)
    ensures Delivered(ReadRecords(lines), fact)
  {
    TakeDrop(lines, k);
    ReadAppend(lines[..k], lines[k..]);
    var r :| r in ReadRecords(lines[..k]) && IsMarker(r, fact);
    assert r in ReadRecords(lines);
  }

  lemma OneMoreRecord(records: seq<Record>, r: Record)
    requires AtMostOne(records)
    requires r.Event? && r.kind.Forget? ==> !Delivered(records, r.kind.factId)
    ensures AtMostOne(records + [r])
  {
    var more := records + [r];
    forall i, j, fact | 0 <= i < j < |more| && IsMarker(more[i], fact) ensures !IsMarker(more[j], fact) {
      assert more[i] == records[i] && records[i] in records;
    }
  }

  /** What is synced stays a prefix of the file. */
  lemma DurablePrefix(lines: seq<Line>, line: Line, durable: nat)
    requires durable <= |lines|
    ensures (lines + [line])[..durable] == lines[..durable]
  {
  }

  lemma TornKeepsInvariant(d: Disk)
    requires Invariant(d)
    ensures Invariant(d.(lines := d.lines + [Corrupt]))
  {
    F.ReadLine(d.lines, Corrupt);
    DurablePrefix(d.lines, Corrupt, d.durable);
  }

  /** A line reaches the file but is not yet known to be on disk. */
  lemma LineKeepsInvariant(d: Disk, r: Record)
    requires Invariant(d)
    requires r.Event? && r.kind.Forget? ==> !Delivered(RecordsOf(d), r.kind.factId)
    ensures
      var landed := d.(lines := d.lines + [Parsed(r)]);
      Invariant(landed) && RecordsOf(landed) == RecordsOf(d) + [r]
  {
    OneMoreRecord(RecordsOf(d), r);
    F.ReadLine(d.lines, Parsed(r));
    DurablePrefix(d.lines, Parsed(r), d.durable);
  }

  lemma FailureKeepsInvariant(d: Disk, payload: F.Payload, left: F.Left)
    requires Invariant(d)
    requires IsForget(payload) ==> !Delivered(RecordsOf(d), payload.kind.factId)
    ensures Invariant(FailedWrite(d, payload, left))
  {
    match left
    case NoTrace =>
    case TornLine => TornKeepsInvariant(d);
    case WholeLine => LineKeepsInvariant(d, F.Stamp(payload, d.next));
  }

  /** A sync makes the whole file durable. */
  lemma SyncedKeepsInvariant(d: Disk, fact: Facts.FactId)
    requires Invariant(d) && fact in d.pending && Delivered(RecordsOf(d), fact)
    ensures Invariant(Synced(d, fact))
  {
    assert d.lines[..|d.lines|] == d.lines;
    forall f | f in d.acked ensures Delivered(RecordsOf(d), f) {
      DeliveredIn(d.lines, d.durable, f);
    }
  }

  lemma DeliverKeepsInvariant(d: Disk, fact: Facts.FactId, fault: Fault)
    requires Invariant(d) && Enabled(d, Deliver(fact, fault))
    ensures Invariant(Next(d, Deliver(fact, fault)))
  {
    match fault
    case NoFault =>
      var r := Event(NextNo(RecordsOf(d)), Forget(fact));
      LineKeepsInvariant(d, r);
      assert IsMarker(r, fact) && r in RecordsOf(d) + [r];
      SyncedKeepsInvariant(WithLog(d, Put(Reopen(d.lines), r)), fact);
    case Breaks(left, reread) =>
      FailureKeepsInvariant(Reread(d), F.OfEvent(Forget(fact)), left);
  }

  function PutOn(d: Disk, r: Record): Disk
    requires !r.Meta?
  {
    d.(lines := d.lines + [Parsed(r)], next := r.no + 1)
  }

  predicate MayPut(d: Disk, r: Record) { !r.Meta? && r.no == d.next && !(r.Event? && r.kind.Forget?) }

  /** The records an operation writes, in order; there are at most two. */
  lemma WrittenBy(d: Disk, op: Op) returns (written: seq<Record>)
    requires Enabled(d, Write(op))
    ensures |written| <= 2
    ensures |written| >= 1 ==> MayPut(d, written[0])
    ensures |written| == 2 ==> MayPut(PutOn(d, written[0]), written[1])
    ensures Next(d, Write(op)) ==
      if written == [] then d else if |written| == 1 then PutOn(d, written[0])
      else PutOn(PutOn(d, written[0]), written[1])
  {
    var records := RecordsOf(d);
    match op
    case Say(role, body, tag, generation) => return [Message(d.next, role, body, tag, generation)];
    case Note(kind) => return [Event(d.next, kind)];
    case Undo =>
      var messages := LoadMessages(records);
      var user := LastUser(messages);
      return if user.None? then [] else [Tombstone(d.next, messages[user.value].no - 1)];
    case Redo =>
      var kept := Significant(records);
      return if CanRedo(records) then [Event(d.next, Kind.Redo(Some(kept[|kept| - 1].no)))] else [];
    case Rewind(to) => return [Event(d.next, RestorePoint(to)), Tombstone(d.next + 1, to)];
  }

  lemma WriteKeepsInvariant(d: Disk, op: Op)
    requires Invariant(d) && Enabled(d, Write(op))
    ensures Invariant(Next(d, Write(op)))
  {
    var written := WrittenBy(d, op);
    if |written| >= 1 { LineKeepsInvariant(d, written[0]); }
    if |written| == 2 { LineKeepsInvariant(PutOn(d, written[0]), written[1]); }
  }

  lemma PrefixKeeps(records: seq<Record>, rest: seq<Record>)
    requires AtMostOne(records + rest)
    ensures AtMostOne(records)
  {
    var all := records + rest;
    forall i, j, fact | 0 <= i < j < |records| && IsMarker(records[i], fact) ensures !IsMarker(records[j], fact) {
      assert all[i] == records[i] && all[j] == records[j];
    }
  }

  lemma SurvivorKeepsInvariant(d: Disk, kept: nat)
    requires Invariant(d) && d.durable <= kept <= |d.lines|
    ensures
      var survived := d.lines[..kept];
      Invariant(Disk(survived, |survived|, NextNo(ReadRecords(survived)), d.pending, d.acked, None))
  {
    var survived := d.lines[..kept];
    TakeDrop(d.lines, kept);
    ReadAppend(survived, d.lines[kept..]);
    PrefixKeeps(ReadRecords(survived), ReadRecords(d.lines[kept..]));
    assert survived[..d.durable] == d.lines[..d.durable];
    assert survived[..|survived|] == survived;
    forall f | f in d.acked ensures Delivered(ReadRecords(survived), f) {
      DeliveredIn(survived, d.durable, f);
    }
  }

  lemma CrashKeepsInvariant(d: Disk, kept: nat, torn: bool)
    requires Invariant(d) && Enabled(d, Crash(kept, torn))
    ensures Invariant(Next(d, Crash(kept, torn)))
  {
    SurvivorKeepsInvariant(d, kept);
    var survived := d.lines[..kept];
    var clean := Disk(survived, |survived|, NextNo(ReadRecords(survived)), d.pending, d.acked, None);
    if torn {
      TornKeepsInvariant(clean);
      var left := survived + [Corrupt];
      F.ReadLine(survived, Corrupt);
      assert left[..|left|] == left;
    } else {
      assert d.lines[..kept] + [] == survived;
    }
  }

  lemma StepKeepsInvariant(d: Disk, s: Step)
    requires Invariant(d) && Enabled(d, s)
    ensures Invariant(Next(d, s))
  {
    match s
    case Queue(fact) =>
    case Deliver(fact, fault) => DeliverKeepsInvariant(d, fact, fault);
    case SyncAgain(fact, fault) => if fault.NoFault? { SyncedKeepsInvariant(Reread(d), fact); }
    case Acknowledge(fact) =>
    case Write(op) => WriteKeepsInvariant(d, op);
    case WriteFails(payload, left) => FailureKeepsInvariant(d, payload, left);
    case Crash(kept, torn) => CrashKeepsInvariant(d, kept, torn);
  }

  ghost predicate Behaviour(states: seq<Disk>, steps: seq<Step>)
  {
    && |states| == |steps| + 1 && states[0] == START
    && forall i :: 0 <= i < |steps| ==> Enabled(states[i], steps[i]) && states[i + 1] == Next(states[i], steps[i])
  }

  // ---- numbers ----

  /** A line whose append failed is in the file, and the number could not be read back at once. */
  predicate Lands(s: Step)
  {
    (s.WriteFails? && s.left.WholeLine?)
    || (s.Deliver? && s.fault.Breaks? && s.fault.left.WholeLine? && !s.fault.reread)
  }

  /** A flush reads the number back first, and so does opening the file after a crash. */
  predicate Rereads(s: Step) { s.Deliver? || s.SyncAgain? || s.Crash? }

  /** The handle's number may be taken. */
  predicate Stale(steps: seq<Step>)
  {
    steps != [] && (Lands(steps[|steps| - 1]) || (Stale(steps[..|steps| - 1]) && !Rereads(steps[|steps| - 1])))
  }

  /** Nothing is written under a number that may be taken. */
  predicate Careful(steps: seq<Step>)
  {
    steps == [] || (
      && Careful(steps[..|steps| - 1])
      && !(Stale(steps[..|steps| - 1]) && (steps[|steps| - 1].Write? || steps[|steps| - 1].WriteFails?)))
  }

  lemma PutTracks(log: Log, r: Record)
    requires F.Tracks(log, false) && !r.Meta? && r.no == log.next
    ensures F.Tracks(Put(log, r), false)
  {
    ReadPut(log, r);
    F.FreshLine(log.Records(), r);
  }

  lemma WriteTracks(d: Disk, op: Op)
    requires F.Tracks(LogOf(d), false) && Enabled(d, Write(op))
    ensures F.Tracks(LogOf(Next(d, Write(op))), false)
  {
    var written := WrittenBy(d, op);
    if |written| >= 1 { PutTracks(LogOf(d), written[0]); }
    if |written| == 2 { PutTracks(LogOf(PutOn(d, written[0])), written[1]); }
  }

  lemma DeliverTracks(d: Disk, stale: bool, fact: Facts.FactId, fault: Fault)
    requires F.Tracks(LogOf(d), stale) && Enabled(d, Deliver(fact, fault))
    ensures F.Tracks(LogOf(Next(d, Deliver(fact, fault))), Lands(Deliver(fact, fault)))
  {
    var read := Reopen(d.lines);
    F.StepTracks(LogOf(d), stale, F.Resync);
    match fault
    case NoFault => PutTracks(read, Event(read.next, Forget(fact)));
    case Breaks(left, reread) =>
      F.StepTracks(read, false, F.AppendFails(F.OfEvent(Forget(fact)), left));
      var failed := F.Step(read, F.AppendFails(F.OfEvent(Forget(fact)), left));
      if reread { F.StepTracks(failed, left.WholeLine?, F.Resync); }
  }

  lemma CrashTracks(d: Disk, kept: nat, torn: bool)
    requires Increasing(RecordsOf(d)) && Enabled(d, Crash(kept, torn))
    ensures F.Tracks(LogOf(Next(d, Crash(kept, torn))), false)
  {
    var survived := d.lines[..kept];
    TakeDrop(d.lines, kept);
    ReadAppend(survived, d.lines[kept..]);
    var all, records := RecordsOf(d), ReadRecords(survived);
    forall i, j | 0 <= i < j < |records| && !records[i].Meta? && !records[j].Meta?
      ensures records[i].no < records[j].no
    {
      assert all[i] == records[i] && all[j] == records[j];
    }
    F.ReadLine(survived, Corrupt);
    assert survived + [] == survived;
  }

  lemma StepTracks(d: Disk, stale: bool, s: Step)
    requires F.Tracks(LogOf(d), stale) && Enabled(d, s) && !(stale && (s.Write? || s.WriteFails?))
    ensures F.Tracks(LogOf(Next(d, s)), Lands(s) || (stale && !Rereads(s)))
  {
    match s
    case Queue(_) =>
    case Acknowledge(_) =>
    case Deliver(fact, fault) => DeliverTracks(d, stale, fact, fault);
    case SyncAgain(_, _) =>
    case Write(op) => WriteTracks(d, op);
    case WriteFails(payload, left) => F.StepTracks(LogOf(d), stale, F.AppendFails(payload, left));
    case Crash(kept, torn) => CrashTracks(d, kept, torn);
  }

  lemma {:induction false} NumbersTrack(states: seq<Disk>, steps: seq<Step>, i: nat)
    requires Behaviour(states, steps) && i < |states| && Careful(steps[..i])
    ensures F.Tracks(LogOf(states[i]), Stale(steps[..i]))
  {
    if i > 0 {
      assert steps[..i][..i - 1] == steps[..i - 1];
      NumbersTrack(states, steps, i - 1);
      StepTracks(states[i - 1], Stale(steps[..i - 1]), steps[i - 1]);
    }
  }

  // ---- runs ----

  /** With crashes, torn writes, failed syncs and failed appends of any other record at any point: each fact
      has at most one parseable marker and an acknowledged one is on disk; and as long as nothing is written
      under a number that a failed append may have taken, no sequence number appears twice. */
  lemma {:induction false} MarkersAreSafe(states: seq<Disk>, steps: seq<Step>, i: nat)
    requires Behaviour(states, steps) && i < |states|
    ensures Invariant(states[i])
    ensures AtMostOne(RecordsOf(states[i]))
    ensures
      var d := states[i];
      forall fact :: fact in d.acked ==> Delivered(ReadRecords(d.lines[..d.durable]), fact)
    ensures Careful(steps[..i]) ==> Increasing(RecordsOf(states[i]))
  {
    if i > 0 {
      MarkersAreSafe(states, steps, i - 1);
      StepKeepsInvariant(states[i - 1], steps[i - 1]);
    }
    if Careful(steps[..i]) { NumbersTrack(states, steps, i); }
  }

  /** A queued fact is lost by nothing but its acknowledgement, so delivery can always be retried. */
  lemma QueuedUntilAcknowledged(states: seq<Disk>, steps: seq<Step>, i: nat, fact: Facts.FactId)
    requires Behaviour(states, steps) && i < |steps| && fact in states[i].pending
    ensures fact in states[i + 1].pending || (fact in states[i + 1].acked && steps[i] == Acknowledge(fact))
    ensures fact in states[i + 1].pending && states[i + 1].ready.None? ==>
      Enabled(states[i + 1], Deliver(fact, NoFault)) || Enabled(states[i + 1], SyncAgain(fact, NoFault))
  {
  }

  // ---- the flush loop ----

  function FirstOf(order: seq<Facts.FactId>, i: nat): set<Facts.FactId>
    requires i <= |order|
  {
    set k | 0 <= k < i :: order[k]
  }

  /** The handle's number is the next free one. */
  predicate UpToDate(d: Disk) { d.next == NextNo(RecordsOf(d)) }

  /** What the loop has done when it is about to take `order[i]`. */
  ghost predicate Flushing(was: Disk, d: Disk, order: seq<Facts.FactId>, i: nat)
    requires i <= |order|
  {
    && Invariant(d) && d.ready.None? && UpToDate(d)
    && was.lines <= d.lines
    && d.acked == was.acked + FirstOf(order, i)
    && d.pending == was.pending - FirstOf(order, i)
    && forall k :: i <= k < |order| ==> (Delivered(RecordsOf(d), order[k]) <==> Delivered(RecordsOf(was), order[k]))
  }

  predicate Lists(order: seq<Facts.FactId>, facts: set<Facts.FactId>)
  {
    && (forall i, j :: 0 <= i < j < |order| ==> order[i] != order[j])
    && FirstOf(order, |order|) == facts
  }

  function DeliveryStep(d: Disk, fact: Facts.FactId, fault: Fault): Step
  {
    if Delivered(RecordsOf(d), fact) then SyncAgain(fact, fault) else Deliver(fact, fault)
  }

  lemma OneMore(order: seq<Facts.FactId>, i: nat)
    requires i < |order|
    ensures FirstOf(order, i + 1) == FirstOf(order, i) + {order[i]}
  {
  }

  lemma OthersUndisturbed(records: seq<Record>, r: Record, fact: Facts.FactId)
    requires !IsMarker(r, fact)
    ensures Delivered(records + [r], fact) <==> Delivered(records, fact)
  {
    if Delivered(records, fact) {
      var x :| x in records && IsMarker(x, fact);
      assert x in records + [r];
    }
  }

  lemma DeliveryKeepsOthers(d: Disk, fact: Facts.FactId, fault: Fault, other: Facts.FactId)
    requires Invariant(d) && fact in d.pending && d.ready.None? && other != fact
    ensures Delivered(RecordsOf(Next(d, DeliveryStep(d, fact, fault))), other) <==> Delivered(RecordsOf(d), other)
  {
    var r := Event(NextNo(RecordsOf(d)), Forget(fact));
    F.ReadLine(d.lines, Parsed(r));
    F.ReadLine(d.lines, Corrupt);
    OthersUndisturbed(RecordsOf(d), r, other);
  }

  lemma DeliveredIsUpToDate(d: Disk, fact: Facts.FactId)
    requires fact in d.pending && d.ready.None?
    ensures UpToDate(Next(d, DeliveryStep(d, fact, NoFault)))
  {
    var r := Event(NextNo(RecordsOf(d)), Forget(fact));
    NextNoIsFresh(RecordsOf(d));
    NextAfter(RecordsOf(d), r);
    F.ReadLine(d.lines, Parsed(r));
  }

  lemma DeliverOneMore(was: Disk, d: Disk, order: seq<Facts.FactId>, i: nat)
    requires i < |order| && Lists(order, was.pending) && Flushing(was, d, order, i)
    ensures order[i] in d.pending
    ensures
      var synced := Next(d, DeliveryStep(d, order[i], NoFault));
      Enabled(synced, Acknowledge(order[i])) && Flushing(was, Next(synced, Acknowledge(order[i])), order, i + 1)
  {
    var fact := order[i];
    assert fact in FirstOf(order, |order|);
    var step := DeliveryStep(d, fact, NoFault);
    StepKeepsInvariant(d, step);
    var synced := Next(d, step);
    DeliveredIsUpToDate(d, fact);
    StepKeepsInvariant(synced, Acknowledge(fact));
    OneMore(order, i);
    forall k | i + 1 <= k < |order|
      ensures Delivered(RecordsOf(Next(synced, Acknowledge(fact))), order[k]) <==> Delivered(RecordsOf(was), order[k])
    {
      DeliveryKeepsOthers(d, fact, NoFault, order[k]);
    }
  }

  /** Where a flush may stop: nothing queued at its start has been lost. */
  ghost predicate Kept(was: Disk, d: Disk)
  {
    && Invariant(d) && d.ready.None? && was.lines <= d.lines
    && was.acked <= d.acked && d.pending + d.acked == was.pending + was.acked
  }

  function Failed(d: Disk): Disk { d.(ready := None) }

  /** After whatever goes wrong, the number can be read back. */
  predicate Rereadable(fault: Fault) { fault.Breaks? ==> fault.reread }

  lemma FlushingKept(was: Disk, d: Disk, order: seq<Facts.FactId>, i: nat)
    requires i <= |order| && Lists(order, was.pending) && Flushing(was, d, order, i)
    ensures Kept(was, d)
    ensures i == |order| ==> d.pending == {}
  {
    assert FirstOf(order, i) <= FirstOf(order, |order|);
  }

  lemma StoppedKept(was: Disk, d: Disk, fact: Facts.FactId, fault: Fault)
    requires Kept(was, d) && fact in d.pending
    ensures Kept(was, Failed(Next(d, DeliveryStep(d, fact, fault))))
    ensures fault.Breaks? && fault.reread ==> UpToDate(Next(d, DeliveryStep(d, fact, fault)))
  {
    StepKeepsInvariant(d, DeliveryStep(d, fact, fault));
  }

  /** The attached writer of one session, with the database rows that concern it. */
  class AttachedSession {
    var lines: seq<Line>
    var durable: nat
    var next: int
    var pending: set<Facts.FactId>
    ghost var acked: set<Facts.FactId>
    ghost var ready: Option<Facts.FactId>

    ghost function State(): Disk
      reads this
    {
      Disk(lines, durable, next, pending, acked, ready)
    }

    /** Appends and syncs one marker, or syncs the one already there; `ok` unless the fault struck. */
    method Deliver(fact: Facts.FactId, delivered: bool, fault: Fault) returns (ok: bool)
      requires UpToDate(State()) && ready.None? && fact in pending
      requires delivered <==> Delivered(ReadRecords(lines), fact)
      modifies this
      ensures State() == Next(old(State()), DeliveryStep(old(State()), fact, fault))
      ensures !ok ==> ready.None?
      ensures ok <==> fault.NoFault?
    {
      if fault.Breaks? {
        if !delivered && fault.left.TornLine? { lines := lines + [Corrupt]; }
        if !delivered && fault.left.WholeLine? { lines := lines + [Parsed(Event(next, Forget(fact)))]; }
        if fault.reread { next := NextNo(ReadRecords(lines)); }
        return false;
      }
      if !delivered {
        lines := lines + [Parsed(Event(next, Forget(fact)))];
        next := next + 1;
      }
      durable := |lines|;
      ready := Some(fact);
      return true;
    }

    /** Takes the synced marker off the queue, unless the database fails. */
    method AcknowledgeForget(fact: Facts.FactId, lost: bool)
      requires ready == Some(fact)
      modifies `pending, `acked, `ready
      ensures State() == if lost then Failed(old(State())) else Next(old(State()), Acknowledge(fact))
    {
      ready := None;
      if !lost {
        pending := pending - {fact};
        acked := acked + {fact};
      }
    }

    /** One round of the flush. */
    method FlushOne(
      ghost was: Disk, order: seq<Facts.FactId>, i: nat, delivered: bool, fault: Fault, lost: bool) returns (ok: bool)
      requires i < |order| && Lists(order, was.pending) && Flushing(was, State(), order, i)
      requires delivered <==> Delivered(ReadRecords(lines), order[i])
      modifies this
      ensures ok <==> fault.NoFault? && !lost
      ensures ok ==> Flushing(was, State(), order, i + 1)
      ensures !ok ==> Kept(was, State()) && (Rereadable(fault) ==> UpToDate(State()))
    {
      ghost var before := State();
      FlushingKept(was, before, order, i);
      DeliverOneMore(was, before, order, i);
      StoppedKept(was, before, order[i], fault);
      ok := Deliver(order[i], delivered, fault);
      if ok {
        AcknowledgeForget(order[i], lost);
        ok := !lost;
      }
    }

    /** Delivers the queued markers in turn; `faults[k]` strikes the write or sync of the `k`-th and
        `lost[k]` its acknowledgement. Any fault ends the flush. Nothing is lost: what is not
        acknowledged stays queued, and a flush that meets no fault acknowledges everything. Whatever number
        the handle had, it has the next free one afterwards, if there was anything to deliver. */
    method FlushForgets(order: seq<Facts.FactId>, faults: seq<Fault>, lost: seq<bool>) returns (finished: bool)
      requires Invariant(State()) && ready.None? && Lists(order, pending)
      requires |faults| == |lost| == |order|
      modifies this
      ensures Kept(old(State()), State())
      ensures finished <==> forall k :: 0 <= k < |order| ==> faults[k].NoFault? && !lost[k]
      ensures finished ==> pending == {}
      ensures order == [] ==> State() == old(State())
      ensures order != [] && (forall k :: 0 <= k < |order| ==> Rereadable(faults[k])) ==> UpToDate(State())
    {
      ghost var was := State();
      if order == [] { return true; }
      var records := ReadRecords(lines);
      next := NextNo(records);
      var i := 0;
      while i < |order|
        invariant i <= |order|
        invariant Flushing(was, State(), order, i)
        invariant forall k :: 0 <= k < i ==> faults[k].NoFault? && !lost[k]
      {
        var ok := FlushOne(was, order, i, Delivered(records, order[i]), faults[i], lost[i]);
        if !ok { return false; }
        i := i + 1;
      }
      FlushingKept(was, State(), order, i);
      return true;
    }
  }
}
