/** Compaction: summarize a closed prefix of the visible messages and record its exact lineage. */
module Compaction {
  import opened Sequences
  import opened Records
  import opened Replay
  import opened ReplayLaws
  import opened Extension
  import opened SessionLog
  import opened Transcript
  import opened Coverage
  import opened Sources

  // ---- one compaction ----

  /** What a compaction read before asking the model. */
  datatype Plan = Plan(
    lines: seq<Line>, memory: Memory, previous: Option<Record>,
    prefix: seq<Record>, tail: seq<Record>, refs: seq<SourceRef>)

  function After(messages: seq<Record>, previous: Option<Record>): seq<Record>
    requires previous.Some? ==> previous.value.Event? && previous.value.kind.Compact?
  {
    if previous.Some? then Filter(messages, NoFrom(previous.value.kind.data.keepFrom)) else messages
  }

  /** The messages not yet summarized, and the same with forgotten content kept for its structure. */
  function Unsummarized(lines: seq<Line>, id: string, memory: Memory, includeFiltered: bool): (m: seq<Record>)
    ensures AllMessages(m)
  {
    var all := VisibleThrough(ReadRecords(lines), memory, Working, includeFiltered);
    var previous := WorkingSummary(lines, id, memory);
    VisibleAreMessages(ReadRecords(lines), memory, Working, includeFiltered);
    if previous.Some? then
      FilterIn(all, NoFrom(previous.value.kind.data.keepFrom));
      After(all, previous)
    else After(all, previous)
  }

  lemma CoveredLeavesTail(messages: seq<Record>, budget: int, structure: seq<Record>)
    requires AllMessages(structure)
    ensures Covered(messages, budget, structure) != [] ==>
      |Covered(messages, budget, structure)| + COMPACT_KEEP_TAIL <= |messages|
  {
    CoveredIsLargestCut(messages, budget, structure);
  }

  /** The first half of a compaction; `budget` is what the model's window leaves for the transcript. */
  function Prepare(lines: seq<Line>, id: string, memory: Memory, budget: int): (p: Option<Plan>)
  {
    var messages := Unsummarized(lines, id, memory, false);
    var structure := Unsummarized(lines, id, memory, true);
    var previous := WorkingSummary(lines, id, memory);
    CoveredLeavesTail(messages, budget, structure);
    var covered := |Covered(messages, budget, structure)|;
    if covered == 0 then None else
      var prefix := messages[..covered];
      assert forall m :: m in prefix ==> m in messages;
      match Capture(lines, id, prefix, memory, 0)
      case None => None
      case Some(refs) =>
        Some(Plan(lines, memory, previous, prefix, messages[covered..],
          if previous.Some? && previous.value.kind.data.refs.Some?
          then previous.value.kind.data.refs.value + refs else refs))
  }

  predicate Recordable(plan: Plan)
  {
    && plan.prefix != [] && plan.tail != []
    && (forall m :: m in plan.prefix + plan.tail ==> m.Message?)
    && (plan.previous.Some? ==> !plan.previous.value.Meta?)
  }

  function CompactEvent(plan: Plan, summary: string): Record
    requires Recordable(plan)
  {
    var prefix, last := plan.prefix, |plan.prefix| - 1;
    assert prefix[0] in prefix + plan.tail && prefix[last] in prefix + plan.tail && plan.tail[0] in prefix + plan.tail;
    Event(NextNo(ReadRecords(plan.lines)), Compact(CompactData(
      summary, plan.tail[0].no, Some((prefix[0].no, prefix[last].no)), Some(plan.refs),
      if plan.previous.Some? then Some(Identity(plan.previous.value.no, plan.previous.value)) else None)))
  }

  // ---- a compaction that is recorded becomes the working summary ----

  lemma UnsummarizedSplits(lines: seq<Line>, id: string, memory: Memory)
    requires WellFormed(lines, id)
    ensures
      var records := ReadRecords(lines);
      var visible := VisibleMessages(records, memory);
      var messages := Unsummarized(lines, id, memory, false);
      && Increasing(visible) && AllMessages(visible)
      && |messages| <= |visible|
      && visible == visible[..|visible| - |messages|] + messages
      && match WorkingSummary(lines, id, memory)
         case None => messages == visible
         case Some(s) =>
           && s.kind.data.refs.Some?
           && RefsValid(lines, id, s.kind.data.refs.value, memory)
           && RefNos(s.kind.data.refs.value) == Nos(visible[..|visible| - |messages|])
  {
    var records := ReadRecords(lines);
    var visible := VisibleMessages(records, memory);
    VisibleAreMessages(records, memory, Working, false);
    FilterIncreasing(records, SeenBy(LensOf(records, memory, Working, false)));
    if WorkingSummary(lines, id, memory).Some? {
      var s := SummaryParts(lines, id, memory);
      SplitAt(visible, s.kind.data.keepFrom);
    }
  }

  lemma BelowTail(visible: seq<Record>, a: seq<Record>, b: seq<Record>)
    requires Increasing(visible) && AllMessages(visible) && visible == a + b
    requires b != [] && b[0].Message?
    ensures Filter(visible, NoBelow(b[0].no)) == a
  {
    assert forall i :: 0 <= i < |visible| ==> visible[i] in visible;
    forall m | m in a ensures NoBelow(b[0].no)(m) {
      var i :| 0 <= i < |a| && a[i] == m;
      assert visible[i] == m && visible[|a|] == b[0];
    }
    forall m | m in b ensures !NoBelow(b[0].no)(m) {
      var i :| 0 <= i < |b| && b[i] == m;
      assert visible[|a| + i] == m && visible[|a|] == b[0];
    }
    FilterAppend(a, b, NoBelow(b[0].no));
    FilterAll(a, NoBelow(b[0].no));
    FilterNone(b, NoBelow(b[0].no));
  }

  /** What a prepared plan says about the file it was read from. */
  ghost predicate Faithful(plan: Plan, id: string)
  {
    var records := ReadRecords(plan.lines);
    var visible := VisibleMessages(records, plan.memory);
    && WellFormed(plan.lines, id)
    && plan.previous == WorkingSummary(plan.lines, id, plan.memory)
    && (forall m :: m in plan.prefix + plan.tail ==> m.Message?)
    && plan.prefix != [] && |plan.tail| >= COMPACT_KEEP_TAIL
    && |plan.tail| <= |visible|
    && visible == visible[..|visible| - |plan.tail|] + plan.tail
    && Increasing(visible) && AllMessages(visible)
    && RefsValid(plan.lines, id, plan.refs, plan.memory)
    && RefNos(plan.refs) == Nos(visible[..|visible| - |plan.tail|])
    && RefNos(plan.refs) != []
  }

  lemma CaptureNeedsWellFormed(lines: seq<Line>, id: string, messages: seq<Record>, memory: Memory)
    requires AllMessages(messages) && messages != []
    requires Capture(lines, id, messages, memory, 0).Some?
    ensures WellFormed(lines, id)
  {
  }

  lemma PrefixIsCapturable(
    records: seq<Record>, memory: Memory, prefix: seq<Record>, rest: seq<Record>, below: seq<Record>)
    requires VisibleMessages(records, memory) == below + (prefix + rest)
    requires Increasing(VisibleMessages(records, memory)) && AllMessages(VisibleMessages(records, memory))
    requires NumberedFromOne(records)
    ensures Capturable(records, memory, prefix)
  {
    var visible := VisibleMessages(records, memory);
    VisibleAreMessages(records, memory, Working, false);
    forall m | m in prefix ensures m in visible {
      var i :| 0 <= i < |prefix| && prefix[i] == m;
      assert visible[|below| + i] == m;
    }
    forall i, j | 0 <= i < j < |prefix| && !prefix[i].Meta? && !prefix[j].Meta? ensures prefix[i].no < prefix[j].no {
      assert visible[|below| + i] == prefix[i] && visible[|below| + j] == prefix[j];
    }
  }

  function EarlierRefs(previous: Option<Record>): seq<SourceRef>
  {
    if previous.Some? && previous.value.Event? && previous.value.kind.Compact? && previous.value.kind.data.refs.Some?
    then previous.value.kind.data.refs.value else []
  }

  /** What preparing a plan computed, part by part; `refs` are the new snapshots. */
  ghost predicate Planned(plan: Plan, id: string, refs: seq<SourceRef>)
  {
    && plan.previous == WorkingSummary(plan.lines, id, plan.memory)
    && Unsummarized(plan.lines, id, plan.memory, false) == plan.prefix + plan.tail
    && plan.prefix != [] && |plan.tail| >= COMPACT_KEEP_TAIL
    && AllMessages(plan.prefix)
    && Capture(plan.lines, id, plan.prefix, plan.memory, 0) == Some(refs)
    && plan.refs == EarlierRefs(plan.previous) + refs
  }

  lemma PrepareParts(
    lines: seq<Line>, id: string, memory: Memory, budget: int, plan: Plan)
    returns (refs: seq<SourceRef>)
    requires Prepare(lines, id, memory, budget) == Some(plan)
    ensures plan.lines == lines && plan.memory == memory && Planned(plan, id, refs)
  {
    var messages := Unsummarized(lines, id, memory, false);
    CoveredLeavesTail(messages, budget, Unsummarized(lines, id, memory, true));
    TakeDrop(messages, |plan.prefix|);
    assert forall m :: m in plan.prefix ==> m in messages;
    refs := Capture(lines, id, plan.prefix, memory, 0).value;
    assert [] + refs == refs;
  }

  lemma SplitFaithful(visible: seq<Record>, messages: seq<Record>, prefix: seq<Record>, tail: seq<Record>)
    requires |messages| <= |visible| && visible == visible[..|visible| - |messages|] + messages
    requires messages == prefix + tail
    ensures visible == visible[..|visible| - |tail|] + tail
    ensures visible[..|visible| - |tail|] == visible[..|visible| - |messages|] + prefix
    ensures Nos(visible[..|visible| - |tail|]) == Nos(visible[..|visible| - |messages|]) + Nos(prefix)
  {
    NosAppend(visible[..|visible| - |messages|], prefix);
  }

  lemma EarlierRefsCover(lines: seq<Line>, id: string, memory: Memory)
    requires WellFormed(lines, id)
    ensures
      var visible := VisibleMessages(ReadRecords(lines), memory);
      var messages := Unsummarized(lines, id, memory, false);
      var earlier := EarlierRefs(WorkingSummary(lines, id, memory));
      && |messages| <= |visible|
      && RefsValid(lines, id, earlier, memory)
      && RefNos(earlier) == Nos(visible[..|visible| - |messages|])
  {
    UnsummarizedSplits(lines, id, memory);
  }

  lemma TailIsMessages(messages: seq<Record>, visible: seq<Record>)
    requires AllMessages(visible) && |messages| <= |visible| && visible == visible[..|visible| - |messages|] + messages
    ensures AllMessages(messages)
  {
    forall m | m in messages ensures m.Message? {
      assert m in visible;
    }
  }

  lemma PlanPartitions(plan: Plan, id: string, refs: seq<SourceRef>)
    requires Planned(plan, id, refs)
    ensures
      var visible := VisibleMessages(ReadRecords(plan.lines), plan.memory);
      && WellFormed(plan.lines, id)
      && AllMessages(plan.prefix + plan.tail)
      && Increasing(visible) && AllMessages(visible)
      && |plan.prefix + plan.tail| <= |visible|
      && visible == visible[..|visible| - |plan.prefix + plan.tail|] + (plan.prefix + plan.tail)
  {
    CaptureNeedsWellFormed(plan.lines, id, plan.prefix, plan.memory);
    UnsummarizedSplits(plan.lines, id, plan.memory);
    TailIsMessages(plan.prefix + plan.tail, VisibleMessages(ReadRecords(plan.lines), plan.memory));
  }

  lemma PlanCaptures(plan: Plan, id: string, refs: seq<SourceRef>)
    requires NumberedFromOne(ReadRecords(plan.lines)) && Planned(plan, id, refs)
    ensures RefNos(refs) == Nos(plan.prefix)
    ensures RefsValid(plan.lines, id, refs, plan.memory)
  {
    var visible := VisibleMessages(ReadRecords(plan.lines), plan.memory);
    PlanPartitions(plan, id, refs);
    PrefixIsCapturable(ReadRecords(plan.lines), plan.memory, plan.prefix, plan.tail,
      visible[..|visible| - |plan.prefix + plan.tail|]);
    CaptureCovers(plan.lines, id, plan.prefix, plan.memory, 0);
    assert plan.prefix[0..] == plan.prefix;
  }

  lemma PlanRefs(plan: Plan, id: string, refs: seq<SourceRef>)
    requires NumberedFromOne(ReadRecords(plan.lines)) && Planned(plan, id, refs)
    ensures
      var visible := VisibleMessages(ReadRecords(plan.lines), plan.memory);
      && |plan.tail| <= |visible|
      && visible == visible[..|visible| - |plan.tail|] + plan.tail
      && RefsValid(plan.lines, id, plan.refs, plan.memory)
      && RefNos(plan.refs) == Nos(visible[..|visible| - |plan.tail|])
      && RefNos(plan.refs) != []
  {
    var visible, earlier := VisibleMessages(ReadRecords(plan.lines), plan.memory), EarlierRefs(plan.previous);
    PlanPartitions(plan, id, refs);
    PlanCaptures(plan, id, refs);
    SplitFaithful(visible, plan.prefix + plan.tail, plan.prefix, plan.tail);
    EarlierRefsCover(plan.lines, id, plan.memory);
    RefsValidAppend(plan.lines, id, earlier, refs, plan.memory);
    RefNosAppend(earlier, refs);
  }

  lemma PlanIsFaithful(lines: seq<Line>, id: string, memory: Memory, budget: int, plan: Plan)
    requires NumberedFromOne(ReadRecords(lines))
    requires Prepare(lines, id, memory, budget) == Some(plan)
    ensures Faithful(plan, id) && plan.lines == lines && plan.memory == memory
  {
    var refs := PrepareParts(lines, id, memory, budget, plan);
    PlanPartitions(plan, id, refs);
    PlanRefs(plan, id, refs);
  }

  lemma CompactContinues(plan: Plan, id: string, summary: string)
    requires Faithful(plan, id)
    ensures Continues(ReadRecords(plan.lines), [CompactEvent(plan, summary)])
    ensures Below(ReadRecords(plan.lines), CompactEvent(plan, summary).no)
  {
    var records, e := ReadRecords(plan.lines), CompactEvent(plan, summary);
    NextNoIsFresh(records);
    CancelledAppend(records, e);
    WindowsAppend(records, e);
  }

  lemma {:induction false} EventAtFinds(records: seq<Record>, event: Record)
    requires Increasing(records) && event in records && event.Event?
    ensures EventAt(records, event.no) == Some(event)
  {
    var init, last := records[..|records| - 1], records[|records| - 1];
    assert records == init + [last];
    if last.Event? && last.no == event.no {
      SameNumber(records, last, event);
    } else {
      assert event in init;
      assert Increasing(init);
      EventAtFinds(init, event);
    }
  }

  /** The new summary's chain holds exactly when its own range meets no active tombstone. */
  lemma NewChain(plan: Plan, id: string, summary: string)
    requires Faithful(plan, id)
    ensures
      var e := CompactEvent(plan, summary);
      var windows := ActiveTombstones(ReadRecords(plan.lines));
      ChainHolds(e, ReadRecords(plan.lines) + [e], windows) <==> !IntersectsTombstone(e, windows)
  {
    var records, e := ReadRecords(plan.lines), CompactEvent(plan, summary);
    var windows := ActiveTombstones(records);
    CompactContinues(plan, id, summary);
    if plan.previous.Some? {
      var p := SummaryParts(plan.lines, id, plan.memory);
      assert p in records && p.no < e.no;
      EventAtContinues(records, [e], p.no);
      EventAtFinds(records, p);
      ChainContinues(p, records, [e], windows);
      assert e.kind.data.prior == Some(Identity(p.no, p));
    }
  }

  lemma NotClearedAfter(records: seq<Record>, e: Record)
    requires e.Event? && !e.kind.Clear? && Below(records, e.no)
    ensures !ClearedAfter(records + [e], e.no)
  {
  }

  lemma NewCovers(plan: Plan, id: string, summary: string)
    requires Faithful(plan, id)
    ensures
      var e := CompactEvent(plan, summary);
      var records := ReadRecords(plan.lines);
      && CoversBelow(records, plan.memory, e.kind.data)
      && CoversBelow(records + [e], plan.memory, e.kind.data)
      && VisibleMessages(records + [e], plan.memory) == VisibleMessages(records, plan.memory)
  {
    var records, e := ReadRecords(plan.lines), CompactEvent(plan, summary);
    var visible := VisibleMessages(records, plan.memory);
    CompactContinues(plan, id, summary);
    VisibleContinues(records, [e], plan.memory, Working, false);
    assert plan.tail[0] in plan.prefix + plan.tail;
    BelowTail(visible, visible[..|visible| - |plan.tail|], plan.tail);
  }

  lemma NewSummary(plan: Plan, id: string, summary: string)
    requires Faithful(plan, id)
    ensures
      var e := CompactEvent(plan, summary);
      WorkingSummary(plan.lines + AsLines([e]), id, plan.memory)
        == if IntersectsTombstone(e, ActiveTombstones(ReadRecords(plan.lines))) then None else Some(e)
  {
    var records, e := ReadRecords(plan.lines), CompactEvent(plan, summary);
    CompactContinues(plan, id, summary);
    ReadContinues(plan.lines, [e]);
    assert (records + [e])[..|records|] == records;
    NewChain(plan, id, summary);
    NotClearedAfter(records, e);
    NewCovers(plan, id, summary);
    RefsContinue(plan.lines, [e], id, plan.refs, plan.memory);
    assert LastCompact(records + [e]) == Some(e);
  }

  /** The same for any plan that is faithful to the file it was read from. */
  lemma FaithfulTakesHold(plan: Plan, id: string, summary: string)
    requires Faithful(plan, id)
    ensures
      var e := CompactEvent(plan, summary);
      var after := plan.lines + AsLines([e]);
      var visible := VisibleMessages(ReadRecords(plan.lines), plan.memory);
      && RefNos(plan.refs) == Nos(VisibleBelow(ReadRecords(plan.lines), plan.memory, e.kind.data.keepFrom))
      && RefNos(plan.refs) + Nos(plan.tail) == Nos(visible)
      && (if IntersectsTombstone(e, ActiveTombstones(ReadRecords(plan.lines)))
          then WorkingSummary(after, id, plan.memory).None? && LoadForModel(after, id, plan.memory) == RawAll(visible)
          else WorkingSummary(after, id, plan.memory) == Some(e)
               && LoadForModel(after, id, plan.memory) == [Summary(summary)] + RawAll(plan.tail))
  {
    var e := CompactEvent(plan, summary);
    var visible := VisibleMessages(ReadRecords(plan.lines), plan.memory);
    NewSummary(plan, id, summary);
    NewCovers(plan, id, summary);
    NosAppend(visible[..|visible| - |plan.tail|], plan.tail);
    ReadContinues(plan.lines, [e]);
    ReplayPartitionsVisible(plan.lines + AsLines([e]), id, plan.memory);
  }

  /** At any chain depth: a recorded compaction becomes the working summary if and only if its range
      meets no active tombstone. Its sources are exactly the visible messages below the kept tail,
      and the replay becomes the summary followed by that tail; otherwise every visible message is
      still replayed. */
  lemma CompactionTakesHold(
    lines: seq<Line>, id: string, memory: Memory, budget: int, summary: string, plan: Plan)
    requires NumberedFromOne(ReadRecords(lines))
    requires Prepare(lines, id, memory, budget) == Some(plan)
    ensures
      && Faithful(plan, id)
      && var e := CompactEvent(plan, summary);
      && var after := lines + AsLines([e]);
      && var visible := VisibleMessages(ReadRecords(lines), memory);
      && RefNos(plan.refs) == Nos(VisibleBelow(ReadRecords(lines), memory, e.kind.data.keepFrom))
      && RefNos(plan.refs) + Nos(plan.tail) == Nos(visible)
      && (if IntersectsTombstone(e, ActiveTombstones(ReadRecords(lines)))
          then WorkingSummary(after, id, memory).None? && LoadForModel(after, id, memory) == RawAll(visible)
          else WorkingSummary(after, id, memory) == Some(e)
               && LoadForModel(after, id, memory) == [Summary(summary)] + RawAll(plan.tail))
  {
    PlanIsFaithful(lines, id, memory, budget, plan);
    FaithfulTakesHold(plan, id, summary);
  }

  lemma EndsOf(visible: seq<Record>, below: seq<Record>, prefix: seq<Record>, tail: seq<Record>)
    requires visible == below + (prefix + tail) && prefix != []
    ensures prefix[0] in visible && prefix[|prefix| - 1] in visible
  {
    assert visible[|below|] == prefix[0] && visible[|below| + |prefix| - 1] == prefix[|prefix| - 1];
  }

  lemma StraddlesOrNot(windows: set<Window>, first: int, last: int)
    requires !IsHidden(first, windows) && !IsHidden(last, windows)
    ensures (exists w :: w in windows && first < w.before && last > w.upTo)
        <==> (exists w :: w in windows && first <= w.upTo && w.before <= last && first < w.before && w.upTo < last)
  {
  }

  lemma PlanEnds(plan: Plan, id: string, refs: seq<SourceRef>)
    requires Planned(plan, id, refs)
    ensures
      var windows := ActiveTombstones(ReadRecords(plan.lines));
      var first, last := plan.prefix[0], plan.prefix[|plan.prefix| - 1];
      first.Message? && last.Message? && !IsHidden(first.no, windows) && !IsHidden(last.no, windows)
  {
    var visible := VisibleMessages(ReadRecords(plan.lines), plan.memory);
    PlanPartitions(plan, id, refs);
    EndsOf(visible, visible[..|visible| - |plan.prefix + plan.tail|], plan.prefix, plan.tail);
    VisibleAreMessages(ReadRecords(plan.lines), plan.memory, Working, false);
  }

  lemma RangeMeets(e: Record, windows: set<Window>, first: int, last: int)
    requires e.Event? && e.kind.Compact? && e.kind.data.range == Some((first, last))
    requires forall w :: w in windows ==> w.before < e.no
    requires !IsHidden(first, windows) && !IsHidden(last, windows)
    ensures IntersectsTombstone(e, windows)
        <==> exists w :: w in windows && first <= w.upTo && w.before <= last && first < w.before && w.upTo < last
  {
    StraddlesOrNot(windows, first, last);
  }

  /** Some undone stretch lies between the first and the last covered message. */
  ghost predicate Straddles(plan: Plan)
    requires plan.prefix != [] && plan.prefix[0].Message? && plan.prefix[|plan.prefix| - 1].Message?
  {
    var first, last := plan.prefix[0].no, plan.prefix[|plan.prefix| - 1].no;
    exists w :: w in ActiveTombstones(ReadRecords(plan.lines))
      && first <= w.upTo && w.before <= last && first < w.before && w.upTo < last
  }

  lemma InertPlan(plan: Plan, id: string, summary: string)
    requires Faithful(plan, id)
    requires plan.prefix != [] && plan.prefix[0].Message? && plan.prefix[|plan.prefix| - 1].Message?
    requires !IsHidden(plan.prefix[0].no, ActiveTombstones(ReadRecords(plan.lines)))
    requires !IsHidden(plan.prefix[|plan.prefix| - 1].no, ActiveTombstones(ReadRecords(plan.lines)))
    ensures IntersectsTombstone(CompactEvent(plan, summary), ActiveTombstones(ReadRecords(plan.lines)))
        <==> Straddles(plan)
  {
    var e, windows := CompactEvent(plan, summary), ActiveTombstones(ReadRecords(plan.lines));
    NextNoIsFresh(ReadRecords(plan.lines));
    WindowsBefore(ReadRecords(plan.lines), e.no);
    RangeMeets(e, windows, plan.prefix[0].no, plan.prefix[|plan.prefix| - 1].no);
  }

  /** The condition in a caller's terms: a compaction is inert exactly when some undone stretch lies
      between its first and its last covered message. */
  lemma InertExactlyWhenStraddling(
    lines: seq<Line>, id: string, memory: Memory, budget: int, summary: string, plan: Plan)
    requires NumberedFromOne(ReadRecords(lines))
    requires Prepare(lines, id, memory, budget) == Some(plan)
    ensures
      && Faithful(plan, id)
      && plan.prefix[0].Message? && plan.prefix[|plan.prefix| - 1].Message?
      && (IntersectsTombstone(CompactEvent(plan, summary), ActiveTombstones(ReadRecords(lines))) <==> Straddles(plan))
  {
    var refs := PrepareParts(lines, id, memory, budget, plan);
    PlanIsFaithful(lines, id, memory, budget, plan);
    PlanEnds(plan, id, refs);
    InertPlan(plan, id, summary);
  }

  lemma WindowsBefore(records: seq<Record>, n: int)
    requires Below(records, n)
    ensures forall w :: w in ActiveTombstones(records) ==> w.before < n
  {
  }

  lemma RecordedAsNote(log: Log, e: Record)
    requires e.Event? && e.no == log.next
    ensures Apply(log, Note(e.kind)).lines == log.lines + AsLines([e])
  {
    AsLinesOne(e);
  }

  /** In every state the store's operations reach, earlier compactions included, recording a prepared
      compaction is one more event of the run, and it takes hold exactly when its range meets no
      active tombstone. */
  lemma ReachableCompactionTakesHold(
    id: string, ops: seq<Op>, memory: Memory, budget: int, summary: string, log: Log, plan: Plan)
    requires forall op :: op in ops ==> Legal(op)
    requires log == Run(Create(id), ops)
    requires Prepare(log.lines, id, memory, budget) == Some(plan)
    ensures
      && Faithful(plan, id)
      && var e := CompactEvent(plan, summary);
      && var after := Apply(log, Note(e.kind)).lines;
      && (if IntersectsTombstone(e, ActiveTombstones(log.Records()))
          then LoadForModel(after, id, memory) == RawAll(VisibleMessages(log.Records(), memory))
          else WorkingSummary(after, id, memory) == Some(e)
               && LoadForModel(after, id, memory) == [Summary(summary)] + RawAll(plan.tail))
  {
    LogRefinesTranscript(id, ops);
    CompactionTakesHold(log.lines, id, memory, budget, summary, plan);
    RecordedAsNote(log, CompactEvent(plan, summary));
  }

  /** The second half of a compaction, after the model has answered: the event is recorded only if
      neither the file nor the forget state has moved since the plan was read; otherwise only the
      call's usage is. */
  method Commit(file: SessionFile, plan: Plan, summary: string, memory: Memory) returns (recorded: bool)
    requires Recordable(plan)
    modifies file
    ensures recorded <==> old(file.lines) == plan.lines && memory == plan.memory
    ensures recorded ==> file.Contents() == Put(old(file.Contents()), CompactEvent(plan, summary))
    ensures !recorded ==>
      file.Contents() == Put(old(file.Contents()), Event(NextNo(ReadRecords(old(file.lines))), MemoryUsage))
  {
    if file.lines != plan.lines || memory != plan.memory {
      file.next := NextNo(ReadRecords(file.lines));
      var _ := file.AppendEvent(MemoryUsage);
      return false;
    }
    file.Append(CompactEvent(plan, summary));
    return true;
  }
}
