/** What one appended message does to the replay: it is added at the end, or not seen at all. */
module Growth {
  import opened Sequences
  import opened Records
  import opened Replay
  import opened ReplayLaws
  import opened Extension
  import opened Transcript
  import opened Compaction

  /** The latest compact event speaks of records that exist, as the store's own always do. */
  predicate Grounded(records: seq<Record>, next: int)
  {
    var latest := LastCompact(records);
    latest.Some? ==>
      && latest.value.kind.data.keepFrom <= next
      && (latest.value.kind.data.refs.Some? ==>
            forall ref, n :: ref in latest.value.kind.data.refs.value && n in ref.seqs ==> n < next)
  }

  lemma {:induction false} RefNosHas(refs: seq<SourceRef>, ref: SourceRef, n: int)
    requires ref in refs && n in ref.seqs
    ensures n in RefNos(refs)
  {
    var init, last := refs[..|refs| - 1], refs[|refs| - 1];
    assert refs == init + [last];
    if ref != last { RefNosHas(init, ref, n); }
  }

  lemma RefsBelow(refs: seq<SourceRef>, messages: seq<Record>, bound: int)
    requires RefNos(refs) == Nos(messages) && forall m :: m in messages ==> m.Message? && m.no < bound
    ensures forall ref, n :: ref in refs && n in ref.seqs ==> n < bound
  {
    forall ref, n | ref in refs && n in ref.seqs ensures n < bound {
      RefNosHas(refs, ref, n);
      NosBelow(messages, bound, n);
    }
  }

  /** The visible messages a plan splits into, all below the next number. */
  lemma PartsBelow(plan: Plan, id: string, bound: int) returns (below: seq<Record>)
    requires Faithful(plan, id) && bound == NextNo(ReadRecords(plan.lines))
    ensures RefNos(plan.refs) == Nos(below) && forall m :: m in below ==> m.Message? && m.no < bound
    ensures plan.tail[0].Message? && plan.tail[0].no < bound
  {
    var visible := VisibleMessages(ReadRecords(plan.lines), plan.memory);
    NextNoIsFresh(ReadRecords(plan.lines));
    VisibleAreMessages(ReadRecords(plan.lines), plan.memory, Working, false);
    below := visible[..|visible| - |plan.tail|];
    assert forall m :: m in below ==> m in visible;
    assert plan.tail[0] in visible by { assert visible[|below|] == plan.tail[0]; }
  }

  lemma LatestIsNew(records: seq<Record>, e: Record)
    requires e.Event? && e.kind.Compact?
    ensures LastCompact(records + [e]) == Some(e)
  {
    assert (records + [e])[..|records|] == records;
  }

  /** What a compaction records speaks of records that exist. */
  lemma CompactionIsGrounded(plan: Plan, id: string, summary: string)
    requires Faithful(plan, id)
    ensures
      var e := CompactEvent(plan, summary);
      Grounded(ReadRecords(plan.lines) + [e], e.no)
  {
    var e := CompactEvent(plan, summary);
    var below := PartsBelow(plan, id, e.no);
    RefsBelow(plan.refs, below, e.no);
    LatestIsNew(ReadRecords(plan.lines), e);
  }

  lemma NosBelow(messages: seq<Record>, bound: int, n: int)
    requires n in Nos(messages) && forall m :: m in messages ==> m.Message? && m.no < bound
    ensures n < bound
  {
    var i :| 0 <= i < |messages| && Nos(messages)[i] == n;
    assert messages[i] in messages;
  }

  /** A message numbered above everything in the file. */
  predicate Fresh(records: seq<Record>, m: Record)
  {
    m.Message? && Below(records, m.no)
  }

  function LensNow(records: seq<Record>, memory: Memory): Lens { LensOf(records, memory, Working, false) }

  lemma LastsGrow(records: seq<Record>, m: Record)
    requires m.Message?
    ensures LastClear(records + [m]) == LastClear(records)
    ensures LastCompact(records + [m]) == LastCompact(records)
    ensures ActiveTombstones(records + [m]) == ActiveTombstones(records)
  {
    assert (records + [m])[..|records|] == records;
    CancelledAppend(records, m);
    WindowsAppend(records, m);
  }

  lemma LensGrows(records: seq<Record>, m: Record, memory: Memory)
    requires m.Message?
    ensures LensNow(records + [m], memory) == LensNow(records, memory)
  {
    LastsGrow(records, m);
    if HasMeta(records) {
      var r :| r in records && r.Meta?;
      assert r in records + [m];
    }
  }

  lemma VisibleGrows(records: seq<Record>, m: Record, memory: Memory)
    requires m.Message?
    ensures Sees(LensNow(records, memory), m) ==>
      VisibleMessages(records + [m], memory) == VisibleMessages(records, memory) + [m]
    ensures !Sees(LensNow(records, memory), m) ==>
      VisibleMessages(records + [m], memory) == VisibleMessages(records, memory)
  {
    LensGrows(records, m, memory);
    var seen := SeenBy(LensNow(records, memory));
    if seen(m) { FilterTakes(records, m, seen); } else { FilterSkips(records, m, seen); }
  }

  /** A fresh message is hidden by no tombstone and no clear; only the forget state decides. */
  lemma FreshIsSeen(records: seq<Record>, m: Record, memory: Memory)
    requires Fresh(records, m) && HasMeta(records)
    ensures Sees(LensNow(records, memory), m) <==>
      && m.no !in memory.excluded
      && ((m.role == User && m.generation.None?)
          || (if m.generation.Some? then m.generation.value else 0) == memory.generation)
  {
    assert forall w :: w in ActiveTombstones(records) ==> w.before < m.no;
  }

  // ---- the working summary ----

  lemma WellFormedGrows(lines: seq<Line>, m: Record, id: string)
    requires Fresh(ReadRecords(lines), m) && ReadRecords(lines) != []
    ensures WellFormed(lines + [Parsed(m)], id) <==> WellFormed(lines, id)
  {
    AsLinesOne(m);
    ReadContinues(lines, [m]);
    AllParsedContinues(lines, [m]);
    IncreasingSplit(ReadRecords(lines), [m]);
    var records := ReadRecords(lines);
    var all := records + [m];
    assert all[0] == records[0];
    if MetaFirst(all, id) {
      forall i | 0 < i < |records| ensures !records[i].Meta? { assert all[i] == records[i]; }
    }
  }

  lemma JudgedAlike(id: string, selected: seq<Record>, visible: seq<Record>, m: Record, excluded: set<int>)
    requires m !in selected
    ensures Judge(id, selected, visible + [m], excluded) == Judge(id, selected, visible, excluded)
  {
    forall r | r in selected ensures r in visible + [m] <==> r in visible {}
  }

  lemma SnapshotGrows(lines: seq<Line>, m: Record, id: string, start: int, end: int, memory: Memory)
    requires Fresh(ReadRecords(lines), m) && ReadRecords(lines) != [] && end < m.no
    ensures SourceSnapshot(lines + [Parsed(m)], id, start, end, memory, Working)
         == SourceSnapshot(lines, id, start, end, memory, Working)
  {
    var records := ReadRecords(lines);
    AsLinesOne(m);
    ReadContinues(lines, [m]);
    WellFormedGrows(lines, m, id);
    VisibleGrows(records, m, memory);
    FilterSkips(records, m, InRange(start, end));
    FilterIn(records, InRange(start, end));
    JudgedAlike(id, Filter(records, InRange(start, end)), VisibleMessages(records, memory), m, memory.excluded);
  }

  /** A source is validated by its snapshot alone. */
  lemma SameSnapshotSameVerdict(a: seq<Line>, b: seq<Line>, id: string, ref: SourceRef, memory: Memory)
    requires ref.seqs != []
    requires SourceSnapshot(a, id, ref.seqs[0], ref.seqs[|ref.seqs| - 1], memory, Working)
          == SourceSnapshot(b, id, ref.seqs[0], ref.seqs[|ref.seqs| - 1], memory, Working)
    ensures RefValid(a, id, ref, memory) == RefValid(b, id, ref, memory)
  {
  }

  lemma RefGrows(lines: seq<Line>, m: Record, id: string, ref: SourceRef, memory: Memory)
    requires Fresh(ReadRecords(lines), m) && ReadRecords(lines) != []
    requires forall n :: n in ref.seqs ==> n < m.no
    ensures RefValid(lines + [Parsed(m)], id, ref, memory) == RefValid(lines, id, ref, memory)
  {
    if ref.seqs != [] {
      var start, end := ref.seqs[0], ref.seqs[|ref.seqs| - 1];
      assert end in ref.seqs;
      SnapshotGrows(lines, m, id, start, end, memory);
      SameSnapshotSameVerdict(lines + [Parsed(m)], lines, id, ref, memory);
    }
  }

  lemma RefsGrow(lines: seq<Line>, m: Record, id: string, refs: seq<SourceRef>, memory: Memory)
    requires Fresh(ReadRecords(lines), m) && ReadRecords(lines) != []
    requires forall ref, n :: ref in refs && n in ref.seqs ==> n < m.no
    ensures RefsValid(lines + [Parsed(m)], id, refs, memory) <==> RefsValid(lines, id, refs, memory)
  {
    forall ref | ref in refs
      ensures RefValid(lines + [Parsed(m)], id, ref, memory) == RefValid(lines, id, ref, memory)
    {
      RefGrows(lines, m, id, ref, memory);
    }
  }

  lemma ClearedGrows(records: seq<Record>, m: Record, no: int)
    requires m.Message?
    ensures ClearedAfter(records + [m], no) <==> ClearedAfter(records, no)
  {
    if ClearedAfter(records, no) {
      var r :| r in records && r.Event? && r.kind.Clear? && r.no > no;
      assert r in records + [m];
    }
  }

  lemma BelowGrows(records: seq<Record>, m: Record, memory: Memory, keepFrom: int)
    requires m.Message? && keepFrom <= m.no
    ensures VisibleBelow(records + [m], memory, keepFrom) == VisibleBelow(records, memory, keepFrom)
  {
    VisibleGrows(records, m, memory);
    if Sees(LensNow(records, memory), m) {
      FilterSkips(VisibleMessages(records, memory), m, NoBelow(keepFrom));
    }
  }

  lemma SummaryHoldsGrows(s: Record, lines: seq<Line>, m: Record, id: string, memory: Memory)
    requires Fresh(ReadRecords(lines), m) && Grounded(ReadRecords(lines), m.no)
    requires LastCompact(ReadRecords(lines)) == Some(s)
    ensures SummaryHolds(s, lines + [Parsed(m)], id, memory) <==> SummaryHolds(s, lines, id, memory)
  {
    var records := ReadRecords(lines);
    AsLinesOne(m);
    ReadContinues(lines, [m]);
    LastsGrow(records, m);
    ClearedGrows(records, m, s.no);
    ChainContinues(s, records, [m], ActiveTombstones(records));
    if s.kind.data.refs.Some? {
      RefsGrow(lines, m, id, s.kind.data.refs.value, memory);
      BelowGrows(records, m, memory, s.kind.data.keepFrom);
    }
  }

  /** A fresh message leaves the working summary as it was. */
  lemma SummaryGrows(lines: seq<Line>, m: Record, id: string, memory: Memory)
    requires Fresh(ReadRecords(lines), m) && Grounded(ReadRecords(lines), m.no)
    ensures WorkingSummary(lines + [Parsed(m)], id, memory) == WorkingSummary(lines, id, memory)
  {
    var records := ReadRecords(lines);
    AsLinesOne(m);
    ReadContinues(lines, [m]);
    LastsGrow(records, m);
    if LastCompact(records).Some? {
      SummaryHoldsGrows(LastCompact(records).value, lines, m, id, memory);
    }
  }

  // ---- the replay ----

  lemma RawAllAppend(a: seq<Record>, m: Record)
    ensures RawAll(a + [m]) == RawAll(a) + [AsRaw()(m)]
  {
  }

  function FromCut(visible: seq<Record>, cut: Option<int>): seq<Record>
  {
    if cut.Some? then Filter(visible, NoFrom(cut.value)) else visible
  }

  lemma FromCutGrows(visible: seq<Record>, cut: Option<int>, m: Record)
    requires m.Message? && (cut.Some? ==> cut.value <= m.no)
    ensures RawAll(FromCut(visible + [m], cut)) == RawAll(FromCut(visible, cut)) + [AsRaw()(m)]
  {
    if cut.Some? {
      FilterTakes(visible, m, NoFrom(cut.value));
    }
    RawAllAppend(FromCut(visible, cut), m);
  }

  lemma AssembleGrows(summary: Option<CompactData>, clearFrom: Option<int>, visible: seq<Record>, m: Record)
    requires m.Message?
    requires (summary.Some? ==> summary.value.keepFrom <= m.no) && (clearFrom.Some? ==> clearFrom.value <= m.no)
    ensures Assemble(summary, clearFrom, visible + [m]) == Assemble(summary, clearFrom, visible) + [AsRaw()(m)]
  {
    var keepFrom := if summary.Some? then Some(summary.value.keepFrom) else None;
    var cut :=
      if clearFrom.Some? && (keepFrom.None? || clearFrom.value >= keepFrom.value) then clearFrom else keepFrom;
    FromCutGrows(visible, cut, m);
    var first := if summary.Some? then [Summary(summary.value.summary)] else [];
    Associative(first, RawAll(FromCut(visible, cut)), [AsRaw()(m)]);
  }

  /** Appending a message appends it to the replay, or changes nothing if the forget state hides it;
      the summary stays in either case. */
  lemma ReplayGrows(lines: seq<Line>, m: Record, id: string, memory: Memory)
    requires Fresh(ReadRecords(lines), m) && Grounded(ReadRecords(lines), m.no)
    ensures Sees(LensNow(ReadRecords(lines), memory), m) ==>
      LoadForModel(lines + [Parsed(m)], id, memory) == LoadForModel(lines, id, memory) + [AsRaw()(m)]
    ensures !Sees(LensNow(ReadRecords(lines), memory), m) ==>
      LoadForModel(lines + [Parsed(m)], id, memory) == LoadForModel(lines, id, memory)
  {
    var records := ReadRecords(lines);
    AsLinesOne(m);
    ReadContinues(lines, [m]);
    LastsGrow(records, m);
    SummaryGrows(lines, m, id, memory);
    VisibleGrows(records, m, memory);
    var latest, clearFrom, visible := LastCompact(records), LastClear(records), VisibleMessages(records, memory);
    var summary :=
      if latest.Some? && (clearFrom.None? || latest.value.no > clearFrom.value)
         && WorkingSummary(lines, id, memory).Some?
      then Some(latest.value.kind.data) else None;
    if Sees(LensNow(records, memory), m) {
      AssembleGrows(summary, clearFrom, visible, m);
    }
  }
}
