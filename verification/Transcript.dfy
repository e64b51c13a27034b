/** The append-only log refines a plain transcript with a one-step restore slot. */
module Transcript {
  import opened Sequences
  import opened Records
  import opened Replay
  import opened ReplayLaws
  import opened SessionLog

  /** What a user thinks a session is: the messages, and what the last undo took away. */
  datatype Plain = Plain(messages: seq<Record>, undone: Option<seq<Record>>)

  /** The longest prefix of messages numbered at most `to`. */
  function Truncate(messages: seq<Record>, to: int): (kept: seq<Record>)
    ensures kept <= messages
  {
    if messages == [] || messages[0].Meta? || messages[0].no > to then []
    else [messages[0]] + Truncate(messages[1..], to)
  }

  predicate IsUsageKind(kind: Kind)
  {
    kind.MemoryUsage? || kind.ProviderUsage? || kind.Forget?
  }

  /** One operation on the plain transcript; `no` is the number a pushed message is filed under. */
  function PlainApply(t: Plain, op: Op, no: int): Plain
  {
    match op
    case Say(role, body, tag, generation) =>
      Plain(t.messages + [Message(no, role, body, tag, generation)], None)
    case Undo =>
      var user := LastUser(t.messages);
      if user.None? then t else Plain(t.messages[..user.value], Some(t.messages))
    case Redo =>
      if t.undone.None? then t else Plain(t.undone.value, None)
    case Rewind(to) => Plain(Truncate(t.messages, to), Some(t.messages))
    case Note(kind) => if IsUsageKind(kind) then t else t.(undone := None)
    case CrashMidWrite => t
  }

  /** Redo events are written by the redo operation only. */
  predicate Legal(op: Op) { op.Note? ==> !op.kind.Redo? }

  /** Every cancelled number is below `n`: redo only ever cancels records already written. */
  predicate CancelsBelow(records: seq<Record>, n: int)
  {
    forall c :: c in CancelledNos(records) ==> c < n
  }

  /** The tombstone at `k` can still be redone: nothing but usage records follows it. */
  predicate UndoneAt(records: seq<Record>, k: int)
    requires 0 <= k < |records|
  {
    && records[k].Tombstone?
    && records[k].no !in CancelledNos(records)
    && forall i :: k < i < |records| ==> IsUsage(records[i])
  }

  /** Where that tombstone is, if there is one. */
  function RestoreAt(records: seq<Record>, cancelled: set<int>): (k: Option<nat>)
    ensures k.Some? ==> k.value < |records|
  {
    if records == [] then None else
      var last := records[|records| - 1];
      if IsUsage(last) then RestoreAt(records[..|records| - 1], cancelled)
      else if last.Tombstone? && last.no !in cancelled then Some(|records| - 1)
      else None
  }

  /** The restore slot holds the messages there were before the tombstone that can be redone. */
  predicate SlotMatches(records: seq<Record>, undone: Option<seq<Record>>)
  {
    match RestoreAt(records, CancelledNos(records))
    case None => undone.None?
    case Some(k) => undone == Some(LoadMessages(records[..k]))
  }

  /** What every handle opened by the store relies on. */
  predicate Sound(records: seq<Record>, next: int)
  {
    && Increasing(records) && Below(records, next) && CancelsBelow(records, next)
    && next == NextNo(records) && next >= 1 && NumberedFromOne(records)
  }

  predicate NumberedFromOne(records: seq<Record>)
  {
    forall r :: r in records && !r.Meta? ==> r.no >= 1
  }

  ghost predicate Refines(log: Log, t: Plain)
  {
    && Sound(log.Records(), log.next)
    && LoadMessages(log.Records()) == t.messages
    && SlotMatches(log.Records(), t.undone)
  }

  // ---- what one appended record does to the message history ----

  lemma CancelledAppend(records: seq<Record>, r: Record)
    ensures CancelledNos(records + [r]) == CancelledNos(records)
      + (if r.Event? && r.kind.Redo? && r.kind.cancels.Some? then {r.kind.cancels.value} else {})
  {
    var more := records + [r];
    assert forall x :: x in more <==> x in records || x == r;
    assert forall x :: x in records ==> x in more;
    assert r in more;
  }

  lemma WindowsAppend(records: seq<Record>, r: Record)
    requires CancelledNos(records + [r]) == CancelledNos(records)
    ensures ActiveTombstones(records + [r]) == ActiveTombstones(records)
      + (if r.Tombstone? && r.no !in CancelledNos(records) then {Window(r.upTo, r.no)} else {})
  {
    var more := records + [r];
    assert forall x :: x in more <==> x in records || x == r;
    assert forall x :: x in records ==> x in more;
    assert r in more;
  }

  lemma FreshIsUncancelled(records: seq<Record>, n: int)
    requires Below(records, n) && CancelsBelow(records, n)
    ensures forall c :: c in CancelledNos(records) ==> c < n
    ensures forall w :: w in ActiveTombstones(records) ==> w.before < n
  {
  }

  lemma HistoryMessages(records: seq<Record>)
    requires Increasing(records)
    ensures Increasing(LoadMessages(records))
    ensures forall m :: m in LoadMessages(records) ==> m.Message? && m in records
  {
    FilterIncreasing(records, NotHidden(ActiveTombstones(records)));
    FilterIn(records, NotHidden(ActiveTombstones(records)));
  }

  lemma HistoryAppend(records: seq<Record>, r: Record)
    requires r.Message? || (r.Event? && !r.kind.Redo?)
    requires Below(records, r.no) && CancelsBelow(records, r.no)
    ensures LoadMessages(records + [r]) == LoadMessages(records) + (if r.Message? then [r] else [])
  {
    CancelledAppend(records, r);
    WindowsAppend(records, r);
    FreshIsUncancelled(records, r.no);
    var seen := NotHidden(ActiveTombstones(records));
    assert ActiveTombstones(records + [r]) == ActiveTombstones(records);
    assert (records + [r])[..|records|] == records;
    assert seen(r) == r.Message?;
  }

  lemma HistoryTombstone(records: seq<Record>, r: Record)
    requires r.Tombstone? && Below(records, r.no) && CancelsBelow(records, r.no)
    ensures LoadMessages(records + [r]) == Filter(LoadMessages(records), NoBelow(r.upTo + 1))
  {
    CancelledAppend(records, r);
    WindowsAppend(records, r);
    FreshIsUncancelled(records, r.no);
    var before, after := ActiveTombstones(records), ActiveTombstones(records + [r]);
    FilterAppend(records, [r], NotHidden(after));
    forall m | m in records && m.Message?
      ensures NotHidden(after)(m) == (NotHidden(before)(m) && NoBelow(r.upTo + 1)(m))
    {
      assert Window(r.upTo, r.no) in after;
      if IsHidden(m.no, before) {
        var w :| w in before && w.upTo < m.no < w.before;
        assert w in after;
      }
    }
    FilterTwice(records, NotHidden(before), NoBelow(r.upTo + 1), NotHidden(after));
  }

  lemma RisingRest(messages: seq<Record>)
    requires messages != [] && Increasing(messages) && forall m :: m in messages ==> m.Message?
    ensures Increasing(messages[1..])
    ensures forall m :: m in messages[1..] ==> m.Message? && messages[0].no < m.no
  {
    var rest := messages[1..];
    forall i | 0 <= i < |rest| ensures rest[i] in messages && rest[i] == messages[i + 1] {}
    forall m | m in rest ensures m.Message? && messages[0].no < m.no {
      var k :| 0 <= k < |rest| && rest[k] == m;
      assert messages[k + 1] == m && messages[0] in messages;
    }
  }

  lemma {:induction false} TruncateIsFilter(messages: seq<Record>, to: int)
    requires Increasing(messages) && forall m :: m in messages ==> m.Message?
    ensures Truncate(messages, to) == Filter(messages, NoBelow(to + 1))
  {
    if messages != [] {
      var first, rest, p := messages[0], messages[1..], NoBelow(to + 1);
      assert messages == [first] + rest;
      FilterAppend([first], rest, p);
      RisingRest(messages);
      assert first in messages;
      if first.no > to {
        FilterNone(rest, p);
        FilterNone([first], p);
      } else {
        TruncateIsFilter(rest, to);
        FilterAll([first], p);
      }
    }
  }

  lemma {:induction false} TruncateAt(messages: seq<Record>, to: int, i: nat)
    requires i < |messages|
    requires forall k :: 0 <= k < |messages| ==> messages[k].Message?
    requires forall k :: 0 <= k < i ==> messages[k].no <= to
    requires messages[i].no > to
    ensures Truncate(messages, to) == messages[..i]
    decreases i
  {
    if i > 0 {
      TruncateAt(messages[1..], to, i - 1);
      assert messages[..i] == [messages[0]] + messages[1..][..i - 1];
    }
  }

  // ---- the restore slot ----

  lemma SignificantAppend(records: seq<Record>, r: Record)
    ensures Significant(records + [r]) == Significant(records) + (if IsUsage(r) then [] else [r])
  {
    assert (records + [r])[..|records|] == records;
  }

  lemma {:induction false} UndoneLast(records: seq<Record>, k: nat)
    requires k < |records| && records[k].Tombstone? && forall i :: k < i < |records| ==> IsUsage(records[i])
    ensures Significant(records) != [] && Significant(records)[|Significant(records)| - 1] == records[k]
  {
    var init, last := records[..|records| - 1], records[|records| - 1];
    assert records == init + [last];
    SignificantAppend(init, last);
    if k < |records| - 1 {
      UndoneLast(init, k);
    }
  }

  lemma {:induction false} RestoreIsUndone(records: seq<Record>, cancelled: set<int>, k: nat)
    requires RestoreAt(records, cancelled) == Some(k)
    ensures records[k].Tombstone? && records[k].no !in cancelled
    ensures forall i :: k < i < |records| ==> IsUsage(records[i])
  {
    var last := records[|records| - 1];
    if IsUsage(last) {
      RestoreIsUndone(records[..|records| - 1], cancelled, k);
      forall i | k < i < |records| ensures IsUsage(records[i]) {
        assert i < |records| - 1 ==> records[i] == records[..|records| - 1][i];
      }
    }
  }

  /** Without such a tombstone the last significant record is none that redo takes. */
  lemma {:induction false} NothingToRestore(records: seq<Record>, cancelled: set<int>)
    requires RestoreAt(records, cancelled).None?
    ensures
      var kept := Significant(records);
      kept == [] || !kept[|kept| - 1].Tombstone? || kept[|kept| - 1].no in cancelled
  {
    if records != [] {
      var init, last := records[..|records| - 1], records[|records| - 1];
      assert records == init + [last];
      SignificantAppend(init, last);
      if IsUsage(last) { NothingToRestore(init, cancelled); }
    }
  }

  lemma SlotCanRedo(records: seq<Record>, undone: Option<seq<Record>>)
    requires SlotMatches(records, undone)
    ensures CanRedo(records) <==> undone.Some?
  {
    var cancelled := CancelledNos(records);
    var at := RestoreAt(records, cancelled);
    if at.Some? {
      RestoreIsUndone(records, cancelled, at.value);
      UndoneLast(records, at.value);
    } else {
      NothingToRestore(records, cancelled);
    }
  }

  /** A usage record leaves the slot as it is; any other record but a tombstone empties it. */
  lemma SlotAppend(records: seq<Record>, r: Record, undone: Option<seq<Record>>)
    requires SlotMatches(records, undone) && !r.Tombstone?
    requires IsUsage(r) ==> CancelledNos(records + [r]) == CancelledNos(records)
    ensures SlotMatches(records + [r], if IsUsage(r) then undone else None)
  {
    var more, cancelled := records + [r], CancelledNos(records + [r]);
    assert more[..|more| - 1] == records && more[|more| - 1] == r;
    if IsUsage(r) {
      var at := RestoreAt(records, cancelled);
      assert RestoreAt(more, cancelled) == at;
      if at.Some? { assert more[..at.value] == records[..at.value]; }
    }
  }

  lemma SlotTombstone(records: seq<Record>, r: Record)
    requires r.Tombstone? && Below(records, r.no) && CancelsBelow(records, r.no)
    ensures SlotMatches(records + [r], Some(LoadMessages(records)))
  {
    CancelledAppend(records, r);
    FreshIsUncancelled(records, r.no);
    var more := records + [r];
    assert more[..|records|] == records && more[|more| - 1] == r;
  }

  // ---- redo takes back exactly the last tombstone ----

  lemma {:induction false} UsageKeepsWindows(records: seq<Record>, usage: seq<Record>)
    requires forall u :: u in usage ==> IsUsage(u)
    ensures CancelledNos(records + usage) == CancelledNos(records)
    ensures ActiveTombstones(records + usage) == ActiveTombstones(records)
  {
    if usage == [] {
      assert records + usage == records;
    } else {
      var init, last := usage[..|usage| - 1], usage[|usage| - 1];
      assert usage == init + [last];
      assert records + usage == (records + init) + [last];
      UsageKeepsWindows(records, init);
      assert IsUsage(last);
      CancelledAppend(records + init, last);
      WindowsAppend(records + init, last);
    }
  }

  /** Cancelling a tombstone that only usage records follow leaves the windows there were before it. */
  lemma RedoRestoresWindows(before: seq<Record>, t: Record, usage: seq<Record>, redo: Record)
    requires t.Tombstone? && Below(before, t.no)
    requires forall u :: u in usage ==> IsUsage(u)
    requires redo.Event? && redo.kind == Kind.Redo(Some(t.no))
    ensures ActiveTombstones(before + [t] + usage + [redo]) == ActiveTombstones(before)
  {
    var all := before + [t] + usage;
    UsageKeepsWindows(before + [t], usage);
    CancelledAppend(before, t);
    CancelledAppend(all, redo);
    var done := all + [redo];
    assert CancelledNos(done) == CancelledNos(before) + {t.no};
    assert forall x :: x in done && x.Tombstone? ==> x in before || x == t;
    assert forall x :: x in before ==> x in done;
  }

  lemma HistoryRedo(records: seq<Record>, k: nat, redo: Record)
    requires k < |records| && UndoneAt(records, k)
    requires Increasing(records)
    requires redo.Event? && redo.kind == Kind.Redo(Some(records[k].no))
    ensures LoadMessages(records + [redo]) == LoadMessages(records[..k])
  {
    var before, t, usage := records[..k], records[k], records[k + 1..];
    assert records == before + [t] + usage;
    RedoRestoresWindows(before, t, usage, redo);
    var seen := NotHidden(ActiveTombstones(before));
    assert records + [redo] == before + ([t] + usage + [redo]);
    FilterAppend(before, [t] + usage + [redo], seen);
    FilterNone([t] + usage + [redo], seen);
  }

  // ---- the refinement ----

  lemma ReadPut(log: Log, r: Record)
    requires !r.Meta?
    ensures Put(log, r).Records() == log.Records() + [r]
  {
    ReadAppend(log.lines, [Parsed(r)]);
    assert [Parsed(r)][..0] == [];
    assert ReadRecords([Parsed(r)]) == [r];
  }

  lemma NextAfter(records: seq<Record>, r: Record)
    requires !r.Meta? && Below(records, r.no)
    ensures NextNo(records + [r]) == r.no + 1
  {
    var more := records + [r];
    assert more[..|more| - 1] == records && more[|more| - 1] == r;
    MaxBelow(records, r.no);
  }

  lemma SoundAppend(records: seq<Record>, r: Record)
    requires !r.Meta? && Sound(records, r.no)
    requires r.Event? && r.kind.Redo? && r.kind.cancels.Some? ==> r.kind.cancels.value < r.no
    ensures Sound(records + [r], r.no + 1)
  {
    IncreasingAppend(records, r);
    CancelledAppend(records, r);
    NextAfter(records, r);
    var more := records + [r];
    assert forall x :: x in more <==> x in records || x == r;
  }

  lemma StepSayRefines(log: Log, op: Op, t: Plain)
    requires Refines(log, t) && op.Say?
    ensures Refines(Apply(log, op), PlainApply(t, op, log.next))
  {
    var r := Message(log.next, op.role, op.body, op.tag, op.generation);
    ReadPut(log, r);
    SoundAppend(log.Records(), r);
    HistoryAppend(log.Records(), r);
    SlotAppend(log.Records(), r, t.undone);
  }

  lemma StepNoteRefines(log: Log, kind: Kind, t: Plain)
    requires Refines(log, t) && !kind.Redo?
    ensures Refines(Put(log, Event(log.next, kind)), if IsUsageKind(kind) then t else t.(undone := None))
  {
    var r := Event(log.next, kind);
    ReadPut(log, r);
    SoundAppend(log.Records(), r);
    HistoryAppend(log.Records(), r);
    CancelledAppend(log.Records(), r);
    SlotAppend(log.Records(), r, t.undone);
  }

  lemma TombstoneTruncates(records: seq<Record>, r: Record)
    requires r.Tombstone? && Sound(records, r.no)
    ensures LoadMessages(records + [r]) == Truncate(LoadMessages(records), r.upTo)
  {
    HistoryMessages(records);
    HistoryTombstone(records, r);
    TruncateIsFilter(LoadMessages(records), r.upTo);
  }

  lemma TombstoneRefines(log: Log, r: Record, t: Plain)
    requires Refines(log, t) && r.Tombstone? && r.no == log.next
    ensures Refines(Put(log, r), Plain(Truncate(t.messages, r.upTo), Some(t.messages)))
  {
    ReadPut(log, r);
    SoundAppend(log.Records(), r);
    TombstoneTruncates(log.Records(), r);
    SlotTombstone(log.Records(), r);
  }

  /** The tombstone that hides a message and everything after it. */
  function StoneFor(no: int, m: Record): Record
    requires !m.Meta?
  {
    Tombstone(no, m.no - 1)
  }

  lemma StoneTruncates(messages: seq<Record>, no: int, i: nat)
    requires Increasing(messages) && (forall k :: 0 <= k < |messages| ==> messages[k].Message?)
    requires i < |messages|
    ensures Truncate(messages, StoneFor(no, messages[i]).upTo) == messages[..i]
  {
    TruncateAt(messages, messages[i].no - 1, i);
  }

  lemma UndoTruncates(records: seq<Record>, messages: seq<Record>, no: int, i: nat)
    requires Increasing(records) && messages == LoadMessages(records)
    requires i < |messages| && messages[i].Message?
    ensures Truncate(messages, StoneFor(no, messages[i]).upTo) == messages[..i]
  {
    HistoryMessages(records);
    forall k | 0 <= k < |messages| ensures messages[k].Message? { assert messages[k] in messages; }
    StoneTruncates(messages, no, i);
  }

  /** What an undo writes. */
  lemma UndoIsCut(log: Log, messages: seq<Record>)
    requires messages == LoadMessages(log.Records())
    ensures
      var user := LastUser(messages);
      Apply(log, Undo) == if user.None? then log else Put(log, StoneFor(log.next, messages[user.value]))
  {
  }

  lemma UndoRefines(log: Log, i: nat, t: Plain)
    requires Refines(log, t) && i < |t.messages| && t.messages[i].Message?
    ensures Refines(Put(log, StoneFor(log.next, t.messages[i])), Plain(t.messages[..i], Some(t.messages)))
  {
    UndoTruncates(log.Records(), t.messages, log.next, i);
    TombstoneRefines(log, StoneFor(log.next, t.messages[i]), t);
  }

  lemma StepUndoRefines(log: Log, t: Plain, after: Log)
    requires Refines(log, t) && after == Apply(log, Undo)
    ensures Refines(after, PlainApply(t, Undo, log.next))
  {
    var user := LastUser(t.messages);
    UndoIsCut(log, t.messages);
    if user.Some? {
      UndoRefines(log, user.value, t);
    }
  }

  function Marked(log: Log, to: int): Log { Put(log, Event(log.next, RestorePoint(to))) }

  lemma RewindIsTwoRecords(log: Log, to: int)
    ensures Apply(log, Rewind(to)) == Put(Marked(log, to), Tombstone(Marked(log, to).next, to))
  {
  }

  lemma RewindRefines(log: Log, to: int, t: Plain)
    requires Refines(log, t)
    ensures Refines(Put(Marked(log, to), Tombstone(Marked(log, to).next, to)),
              Plain(Truncate(t.messages, to), Some(t.messages)))
  {
    StepNoteRefines(log, RestorePoint(to), t);
    TombstoneRefines(Marked(log, to), Tombstone(Marked(log, to).next, to), t.(undone := None));
  }

  lemma StepRewindRefines(log: Log, to: int, t: Plain, after: Log)
    requires Refines(log, t) && after == Apply(log, Rewind(to))
    ensures Refines(after, PlainApply(t, Rewind(to), log.next))
  {
    RewindIsTwoRecords(log, to);
    RewindRefines(log, to, t);
  }

  function RedoOf(no: int, t: Record): Record
    requires !t.Meta?
  {
    Event(no, Kind.Redo(Some(t.no)))
  }

  /** What a redo writes when there is something to restore. */
  lemma RedoIsEvent(log: Log, k: nat)
    requires RestoreAt(log.Records(), CancelledNos(log.Records())) == Some(k)
    ensures UndoneAt(log.Records(), k)
    ensures Apply(log, Op.Redo) == Put(log, RedoOf(log.next, log.Records()[k]))
  {
    var records := log.Records();
    RestoreIsUndone(records, CancelledNos(records), k);
    UndoneLast(records, k);
  }

  lemma RedoRefines(log: Log, k: nat, t: Plain)
    requires Refines(log, t) && RestoreAt(log.Records(), CancelledNos(log.Records())) == Some(k)
    requires UndoneAt(log.Records(), k)
    ensures Refines(Put(log, RedoOf(log.next, log.Records()[k])), Plain(LoadMessages(log.Records()[..k]), None))
  {
    var records, redo := log.Records(), RedoOf(log.next, log.Records()[k]);
    assert records[k] in records;
    ReadPut(log, redo);
    SoundAppend(records, redo);
    HistoryRedo(records, k, redo);
    SlotAppend(records, redo, t.undone);
  }

  lemma StepRedoRefines(log: Log, t: Plain, after: Log)
    requires Refines(log, t) && after == Apply(log, Op.Redo)
    ensures Refines(after, PlainApply(t, Op.Redo, log.next))
  {
    var records := log.Records();
    SlotCanRedo(records, t.undone);
    if t.undone.Some? {
      var k := RestoreAt(records, CancelledNos(records)).value;
      RedoIsEvent(log, k);
      RedoRefines(log, k, t);
    }
  }

  lemma StepCrashRefines(log: Log, t: Plain)
    requires Refines(log, t)
    ensures Refines(Apply(log, CrashMidWrite), PlainApply(t, CrashMidWrite, log.next))
  {
    ReadAppend(log.lines, [Corrupt]);
    assert [Corrupt][..0] == [];
    assert log.Records() + [] == log.Records();
    NextNoIsFresh(log.Records());
  }

  lemma StepRefines(log: Log, op: Op, t: Plain)
    requires Refines(log, t) && Legal(op)
    ensures Refines(Apply(log, op), PlainApply(t, op, log.next))
  {
    match op
    case Say(_, _, _, _) => StepSayRefines(log, op, t);
    case Note(kind) => StepNoteRefines(log, kind, t);
    case Undo => StepUndoRefines(log, t, Apply(log, op));
    case Redo => StepRedoRefines(log, t, Apply(log, op));
    case Rewind(to) => StepRewindRefines(log, to, t, Apply(log, op));
    case CrashMidWrite => StepCrashRefines(log, t);
  }

  /** The plain transcript after the same operations. */
  function PlainRun(id: string, ops: seq<Op>): Plain
  {
    if ops == [] then Plain([], None)
    else
      var earlier := ops[..|ops| - 1];
      PlainApply(PlainRun(id, earlier), ops[|ops| - 1], Run(Create(id), earlier).next)
  }

  /** Over any run, the messages replayed from the log are the plain transcript's, numbers rise
      strictly, and redo is possible exactly when the transcript has something to restore. */
  lemma {:induction false} LogRefinesTranscript(id: string, ops: seq<Op>)
    requires forall op :: op in ops ==> Legal(op)
    ensures Refines(Run(Create(id), ops), PlainRun(id, ops))
    ensures Increasing(Run(Create(id), ops).Records())
    ensures LoadMessages(Run(Create(id), ops).Records()) == PlainRun(id, ops).messages
    ensures CanRedo(Run(Create(id), ops).Records()) <==> PlainRun(id, ops).undone.Some?
  {
    if ops == [] {
      CreateRefines(id);
    } else {
      var earlier, op := ops[..|ops| - 1], ops[|ops| - 1];
      assert forall o :: o in earlier ==> o in ops;
      LogRefinesTranscript(id, earlier);
      assert op in ops;
      StepRefines(Run(Create(id), earlier), op, PlainRun(id, earlier));
    }
    SlotCanRedo(Run(Create(id), ops).Records(), PlainRun(id, ops).undone);
  }

  lemma CreateReads(id: string)
    ensures Create(id).Records() == [Meta(id)]
  {
    var lines := Create(id).lines;
    assert lines[..0] == [];
    assert ReadRecords(lines) == [] + [Meta(id)];
  }

  lemma NothingSound(records: seq<Record>, meta: Record)
    requires records == [meta] && meta.Meta?
    ensures Sound(records, 1)
  {
    assert forall r :: r in records ==> r == meta;
    assert records[..0] == [];
    assert MaxNo(records) == None;
  }

  lemma NothingYet(records: seq<Record>, meta: Record)
    requires records == [meta] && meta.Meta?
    ensures LoadMessages(records) == [] && SlotMatches(records, None)
  {
    assert forall r :: r in records ==> r == meta;
    FilterNone(records, NotHidden(ActiveTombstones(records)));
    assert records[..0] == [];
  }

  lemma CreateRefines(id: string)
    ensures Refines(Create(id), Plain([], None))
  {
    var log := Create(id);
    CreateReads(id);
    NothingSound(log.Records(), Meta(id));
    NothingYet(log.Records(), Meta(id));
  }

  /** What is said after an undo or a rewind stays visible until a later tombstone hides it. */
  lemma SaidAfterUndoIsVisible(id: string, ops: seq<Op>, say: Op)
    requires forall op :: op in ops ==> Legal(op)
    requires say.Say?
    ensures
      var log := Run(Create(id), ops);
      var said := Message(log.next, say.role, say.body, say.tag, say.generation);
      LoadMessages(Apply(log, say).Records()) == LoadMessages(log.Records()) + [said]
  {
    LogRefinesTranscript(id, ops);
    var log, t := Run(Create(id), ops), PlainRun(id, ops);
    StepSayRefines(log, say, t);
  }
}
