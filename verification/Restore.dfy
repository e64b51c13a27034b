/** Undoing or rewinding and then redoing gives back the identical replay, summary included. */
module Restore {
  import opened Sequences
  import opened Records
  import opened Replay
  import opened Extension
  import opened SessionLog
  import opened Transcript

  /** Events of the given kinds, numbered from `n`. */
  function Events(n: int, kinds: seq<Kind>): (events: seq<Record>)
    ensures |events| == |kinds|
    ensures forall i :: 0 <= i < |kinds| ==> events[i] == Event(n + i, kinds[i])
  {
    seq(|kinds|, i requires 0 <= i < |kinds| => Event(n + i, kinds[i]))
  }

  function NoteAll(log: Log, kinds: seq<Kind>): Log
  {
    if kinds == [] then log else Apply(NoteAll(log, kinds[..|kinds| - 1]), Note(kinds[|kinds| - 1]))
  }

  lemma {:induction false} NoteAllAppends(log: Log, kinds: seq<Kind>)
    ensures NoteAll(log, kinds) == Log(log.lines + AsLines(Events(log.next, kinds)), log.next + |kinds|)
  {
    if kinds == [] {
      assert log.lines + AsLines(Events(log.next, kinds)) == log.lines;
    } else {
      var n := |kinds| - 1;
      NoteAllAppends(log, kinds[..n]);
      var last := Parsed(Event(log.next + n, kinds[n]));
      assert AsLines(Events(log.next, kinds)) == AsLines(Events(log.next, kinds[..n])) + [last];
    }
  }

  /** `after` is `log` with `mark` and then the fresh tombstone `t` appended. */
  ghost predicate CutBy(log: Log, after: Log, mark: seq<Record>, t: Record)
  {
    var before := log.Records() + mark;
    && t.Tombstone?
    && after.lines == log.lines + AsLines(mark + [t]) && after.next == t.no + 1
    && (forall i :: 0 <= i < |mark| ==> mark[i].Event? && mark[i].kind.RestorePoint?)
    && (forall i :: 0 <= i < |mark| ==> mark[i].no == log.next + i)
    && t.no == log.next + |mark|
    && ActiveTombstones(before) == ActiveTombstones(log.Records())
    && t.no !in CancelledNos(before)
    && Below(before, t.no)
  }

  /** What is appended from the cut to the redo. */
  function Detour(mark: seq<Record>, t: Record, kinds: seq<Kind>): seq<Record>
    requires !t.Meta?
  {
    mark + [t] + Events(t.no + 1, kinds) + [RedoOf(t.no + 1 + |kinds|, t)]
  }

  lemma UsageEvents(n: int, kinds: seq<Kind>)
    requires forall kind :: kind in kinds ==> IsUsageKind(kind)
    ensures forall u :: u in Events(n, kinds) ==> IsUsage(u)
  {
    forall u | u in Events(n, kinds) ensures IsUsage(u) {
      var i :| 0 <= i < |kinds| && Events(n, kinds)[i] == u;
      assert kinds[i] in kinds;
    }
  }

  lemma NotedLines(base: seq<Line>, after: Log, head: seq<Record>, kinds: seq<Kind>)
    requires after.lines == base + AsLines(head)
    ensures NoteAll(after, kinds) == Log(base + AsLines(head + Events(after.next, kinds)), after.next + |kinds|)
    ensures NoteAll(after, kinds).Records() == ReadRecords(base) + (head + Events(after.next, kinds))
  {
    var usage := Events(after.next, kinds);
    NoteAllAppends(after, kinds);
    AsLinesAppend(head, usage);
    Associative(base, AsLines(head), AsLines(usage));
    ReadContinues(base, head + usage);
  }

  lemma StoneIsRedoable(before: seq<Record>, t: Record, usage: seq<Record>)
    requires t.Tombstone? && Below(before, t.no) && t.no !in CancelledNos(before)
    requires forall u :: u in usage ==> IsUsage(u)
    ensures
      var all := before + [t] + usage;
      && CanRedo(all)
      && Significant(all) != [] && Significant(all)[|Significant(all)| - 1] == t
  {
    UsageKeepsWindows(before + [t], usage);
    CancelledAppend(before, t);
    UndoneLast(before + [t] + usage, |before|);
  }

  lemma RedoWrites(noted: Log, before: seq<Record>, t: Record, usage: seq<Record>)
    requires t.Tombstone? && Below(before, t.no) && t.no !in CancelledNos(before)
    requires forall u :: u in usage ==> IsUsage(u)
    requires noted.Records() == before + [t] + usage
    ensures CanRedo(noted.Records())
    ensures Apply(noted, Op.Redo) == Put(noted, RedoOf(noted.next, t))
  {
    StoneIsRedoable(before, t, usage);
  }

  lemma NotedRecords(log: Log, after: Log, mark: seq<Record>, t: Record, kinds: seq<Kind>)
    requires CutBy(log, after, mark, t)
    ensures NoteAll(after, kinds).Records() == log.Records() + mark + [t] + Events(t.no + 1, kinds)
  {
    var usage := Events(t.no + 1, kinds);
    NotedLines(log.lines, after, mark + [t], kinds);
    Associative(log.Records(), mark + [t], usage);
    Associative(log.Records(), mark, [t]);
  }

  lemma PutLine(base: seq<Line>, path: seq<Record>, next: int, r: Record)
    requires !r.Meta?
    ensures Put(Log(base + AsLines(path), next), r).lines == base + AsLines(path + [r])
  {
    AsLinesAppend(path, [r]);
    AsLinesOne(r);
    Associative(base, AsLines(path), [Parsed(r)]);
  }

  lemma RedoIsPossible(log: Log, after: Log, mark: seq<Record>, t: Record, kinds: seq<Kind>)
    requires CutBy(log, after, mark, t)
    requires forall kind :: kind in kinds ==> IsUsageKind(kind)
    ensures
      var noted := NoteAll(after, kinds);
      && CanRedo(noted.Records())
      && Apply(noted, Op.Redo) == Put(noted, RedoOf(noted.next, t))
  {
    NotedRecords(log, after, mark, t, kinds);
    UsageEvents(t.no + 1, kinds);
    RedoWrites(NoteAll(after, kinds), log.Records() + mark, t, Events(t.no + 1, kinds));
  }

  lemma NotedPath(log: Log, after: Log, mark: seq<Record>, t: Record, kinds: seq<Kind>)
    requires CutBy(log, after, mark, t)
    ensures NoteAll(after, kinds) ==
      Log(log.lines + AsLines(mark + [t] + Events(t.no + 1, kinds)), t.no + 1 + |kinds|)
  {
    NotedLines(log.lines, after, mark + [t], kinds);
  }

  lemma RedoneLines(log: Log, after: Log, mark: seq<Record>, t: Record, kinds: seq<Kind>)
    requires CutBy(log, after, mark, t)
    ensures
      var noted := NoteAll(after, kinds);
      Put(noted, RedoOf(noted.next, t)).lines == log.lines + AsLines(Detour(mark, t, kinds))
  {
    NotedPath(log, after, mark, t, kinds);
    var next := t.no + 1 + |kinds|;
    hide CutBy, NoteAll, AsLines, Put;
    PutLine(log.lines, mark + [t] + Events(t.no + 1, kinds), next, RedoOf(next, t));
  }

  /** The detour is numbered without gaps from the first number after the file. */
  lemma DetourNumbers(mark: seq<Record>, t: Record, kinds: seq<Kind>, first: int)
    requires t.Tombstone? && t.no == first + |mark|
    requires forall i :: 0 <= i < |mark| ==> mark[i].Event? && mark[i].no == first + i
    ensures
      var detour := Detour(mark, t, kinds);
      && (forall i :: 0 <= i < |detour| ==> !detour[i].Meta? && detour[i].no == first + i)
      && Increasing(detour)
      && forall m :: m in detour ==> !m.Meta? && m.no >= first
  {
    var detour := Detour(mark, t, kinds);
    assert forall i :: 0 <= i < |detour| ==> !detour[i].Meta? && detour[i].no == first + i;
    forall m | m in detour ensures !m.Meta? && m.no >= first {
      var i :| 0 <= i < |detour| && detour[i] == m;
    }
  }

  lemma DetourKinds(mark: seq<Record>, t: Record, kinds: seq<Kind>)
    requires t.Tombstone? && forall kind :: kind in kinds ==> IsUsageKind(kind)
    requires forall i :: 0 <= i < |mark| ==> mark[i].Event? && mark[i].kind.RestorePoint?
    ensures forall r :: r in Detour(mark, t, kinds) ==> Bookkeeping(r)
    ensures forall r :: r in Detour(mark, t, kinds) && r.Event? ==> !r.kind.Compact?
  {
    UsageEvents(t.no + 1, kinds);
    forall r | r in Detour(mark, t, kinds) ensures Bookkeeping(r) && (r.Event? ==> !r.kind.Compact?) {
      assert r in mark || r == t || r in Events(t.no + 1, kinds) || r == RedoOf(t.no + 1 + |kinds|, t);
    }
  }

  lemma DetourWindows(records: seq<Record>, mark: seq<Record>, t: Record, kinds: seq<Kind>)
    requires t.Tombstone? && Below(records + mark, t.no) && forall kind :: kind in kinds ==> IsUsageKind(kind)
    requires ActiveTombstones(records + mark) == ActiveTombstones(records)
    ensures ActiveTombstones(records + Detour(mark, t, kinds)) == ActiveTombstones(records)
  {
    var usage, redo := Events(t.no + 1, kinds), RedoOf(t.no + 1 + |kinds|, t);
    UsageEvents(t.no + 1, kinds);
    RedoRestoresWindows(records + mark, t, usage, redo);
    assert records + Detour(mark, t, kinds) == records + mark + [t] + usage + [redo];
  }

  lemma DetourContinues(log: Log, after: Log, mark: seq<Record>, t: Record, kinds: seq<Kind>)
    requires CutBy(log, after, mark, t) && Below(log.Records(), log.next)
    requires forall kind :: kind in kinds ==> IsUsageKind(kind)
    ensures Continues(log.Records(), Detour(mark, t, kinds))
    ensures forall r :: r in Detour(mark, t, kinds) && r.Event? ==> !r.kind.Compact?
  {
    DetourNumbers(mark, t, kinds, log.next);
    DetourKinds(mark, t, kinds);
    DetourWindows(log.Records(), mark, t, kinds);
  }

  /** Something to cut: a rewind always cuts, an undo needs a user message. */
  predicate Cuts(log: Log, cut: Op)
  {
    cut.Rewind? || (cut.Undo? && LastUser(LoadMessages(log.Records())).Some?)
  }

  lemma StoneCuts(log: Log, t: Record)
    requires Sound(log.Records(), log.next) && t.Tombstone? && t.no == log.next
    ensures CutBy(log, Put(log, t), [], t)
  {
    FreshIsUncancelled(log.Records(), log.next);
    PlusNothing(log.Records(), []);
    assert [] + [t] == [t];
    AsLinesOne(t);
  }

  lemma UndoCuts(log: Log) returns (t: Record)
    requires Sound(log.Records(), log.next) && Cuts(log, Undo)
    ensures CutBy(log, Apply(log, Undo), [], t)
  {
    var messages := LoadMessages(log.Records());
    t := StoneFor(log.next, messages[LastUser(messages).value]);
    UndoIsCut(log, messages);
    StoneCuts(log, t);
  }

  lemma RewindCuts(log: Log, to: int) returns (mark: Record, t: Record)
    requires Sound(log.Records(), log.next)
    ensures CutBy(log, Apply(log, Rewind(to)), [mark], t)
  {
    mark, t := Event(log.next, RestorePoint(to)), Tombstone(log.next + 1, to);
    FreshIsUncancelled(log.Records(), log.next);
    CancelledAppend(log.Records(), mark);
    WindowsAppend(log.Records(), mark);
    AsLinesOne(mark);
    AsLinesOne(t);
    AsLinesAppend([mark], [t]);
    Associative(log.lines, [Parsed(mark)], [Parsed(t)]);
  }

  lemma CutThenRedo(log: Log, after: Log, mark: seq<Record>, t: Record, kinds: seq<Kind>, id: string, memory: Memory)
    requires Sound(log.Records(), log.next) && CutBy(log, after, mark, t)
    requires forall kind :: kind in kinds ==> IsUsageKind(kind)
    ensures
      var noted := NoteAll(after, kinds);
      && CanRedo(noted.Records())
      && LoadForModel(Apply(noted, Op.Redo).lines, id, memory) == LoadForModel(log.lines, id, memory)
      && WorkingSummary(Apply(noted, Op.Redo).lines, id, memory) == WorkingSummary(log.lines, id, memory)
  {
    RedoIsPossible(log, after, mark, t, kinds);
    RedoneLines(log, after, mark, t, kinds);
    DetourContinues(log, after, mark, t, kinds);
    ReplayContinues(log.lines, Detour(mark, t, kinds), id, memory);
    SummaryContinues(log.lines, Detour(mark, t, kinds), id, memory);
  }

  /** An undo or rewind, any usage and forget records, then redo: the redo succeeds and the model is
      handed exactly what it was handed before, working summary included. */
  lemma RedoRestoresReplay(log: Log, cut: Op, kinds: seq<Kind>, id: string, memory: Memory)
    requires Sound(log.Records(), log.next) && Cuts(log, cut)
    requires forall kind :: kind in kinds ==> IsUsageKind(kind)
    ensures
      var noted := NoteAll(Apply(log, cut), kinds);
      && CanRedo(noted.Records())
      && LoadForModel(Apply(noted, Op.Redo).lines, id, memory) == LoadForModel(log.lines, id, memory)
      && WorkingSummary(Apply(noted, Op.Redo).lines, id, memory) == WorkingSummary(log.lines, id, memory)
  {
    if cut.Undo? {
      var t := UndoCuts(log);
      CutThenRedo(log, Apply(log, cut), [], t, kinds, id, memory);
    } else {
      var mark, t := RewindCuts(log, cut.to);
      CutThenRedo(log, Apply(log, cut), [mark], t, kinds, id, memory);
    }
  }

  /** ... in particular in every state the store's own operations can reach. */
  lemma ReachableRedoRestoresReplay(id: string, ops: seq<Op>, cut: Op, kinds: seq<Kind>, memory: Memory)
    requires forall op :: op in ops ==> Legal(op)
    requires Cuts(Run(Create(id), ops), cut)
    requires forall kind :: kind in kinds ==> IsUsageKind(kind)
    ensures
      var log := Run(Create(id), ops);
      var noted := NoteAll(Apply(log, cut), kinds);
      && CanRedo(noted.Records())
      && LoadForModel(Apply(noted, Op.Redo).lines, id, memory) == LoadForModel(log.lines, id, memory)
  {
    LogRefinesTranscript(id, ops);
    RedoRestoresReplay(Run(Create(id), ops), cut, kinds, id, memory);
  }
}
