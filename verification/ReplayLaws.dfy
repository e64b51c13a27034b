/** Laws of replay that hold for every file, whoever wrote it. */
module ReplayLaws {
  import opened Sequences
  import opened Records
  import opened Replay

  // ---- a summary and its tail partition the visible history ----

  lemma LastIsHighest(messages: seq<Record>)
    requires messages != [] && Increasing(messages) && forall m :: m in messages ==> m.Message?
    ensures
      var init, last := messages[..|messages| - 1], messages[|messages| - 1];
      Increasing(init) && last.Message? && forall m :: m in init ==> m.Message? && m.no < last.no
  {
    var init, last := messages[..|messages| - 1], messages[|messages| - 1];
    assert last in messages;
    forall m | m in init ensures m.Message? && m.no < last.no {
      var i :| 0 <= i < |init| && init[i] == m;
      assert messages[i] == m && m in messages;
    }
  }

  lemma {:induction false} SplitAt(messages: seq<Record>, k: int)
    requires Increasing(messages)
    requires forall m :: m in messages ==> m.Message?
    ensures messages == Filter(messages, NoBelow(k)) + Filter(messages, NoFrom(k))
  {
    if messages != [] {
      var init, last := messages[..|messages| - 1], messages[|messages| - 1];
      assert messages == init + [last];
      LastIsHighest(messages);
      if last.no < k {
        FilterNone(messages, NoFrom(k));
        FilterAll(messages, NoBelow(k));
      } else {
        SplitAt(init, k);
        FilterSkips(init, last, NoBelow(k));
        FilterTakes(init, last, NoFrom(k));
      }
    }
  }

  lemma FilterIncreasing(records: seq<Record>, p: Record -> bool)
    requires Increasing(records)
    ensures Increasing(Filter(records, p))
  {
    FilterPairs(records, p, (a: Record, b: Record) => !a.Meta? && !b.Meta? ==> a.no < b.no);
  }

  lemma VisibleAreMessages(records: seq<Record>, memory: Memory, purpose: Purpose, filtered: bool)
    ensures forall m :: m in VisibleThrough(records, memory, purpose, filtered) ==>
      m.Message? && m in records && Sees(LensOf(records, memory, purpose, filtered), m)
  {
    FilterIn(records, SeenBy(LensOf(records, memory, purpose, filtered)));
  }

  lemma SummaryParts(lines: seq<Line>, id: string, memory: Memory) returns (latest: Record)
    requires WorkingSummary(lines, id, memory).Some?
    ensures WorkingSummary(lines, id, memory) == Some(latest) == LastCompact(ReadRecords(lines))
    ensures latest.Event? && latest.kind.Compact? && SummaryHolds(latest, lines, id, memory)
  {
    latest := WorkingSummary(lines, id, memory).value;
  }

  /** A validated summary implies a well-formed file, and the last clear lies before it. */
  lemma SummaryNeedsWellFormed(lines: seq<Line>, id: string, memory: Memory, latest: Record)
    requires latest.Event? && latest.kind.Compact? && latest in ReadRecords(lines)
    requires latest.kind.data.refs.Some? && RefsValid(lines, id, latest.kind.data.refs.value, memory)
    requires RefNos(latest.kind.data.refs.value) != []
    requires !ClearedAfter(ReadRecords(lines), latest.no)
    ensures WellFormed(lines, id)
    ensures
      var clearFrom := LastClear(ReadRecords(lines));
      clearFrom.None? || latest.no > clearFrom.value
  {
    var refs := latest.kind.data.refs.value;
    assert RefValid(lines, id, refs[0], memory);
    var records := ReadRecords(lines);
    var clearFrom := LastClear(records);
    if clearFrom.Some? {
      var c :| c in records && c.Event? && c.kind.Clear? && c.no == clearFrom.value;
      var i :| 0 <= i < |records| && records[i] == c;
      var j :| 0 <= j < |records| && records[j] == latest;
    }
  }

  /** A clear that lies before every visible message does not decide where the tail starts. */
  lemma TailStart(below: seq<Record>, visible: seq<Record>, keepFrom: int, clearFrom: int)
    requires forall m :: m in visible ==> m.Message? && m.no > clearFrom
    requires below == Filter(visible, NoBelow(keepFrom)) && below != []
    ensures clearFrom < keepFrom
  {
    FilterIn(visible, NoBelow(keepFrom));
    assert below[0] in below;
  }

  lemma AssembleSplits(data: CompactData, clearFrom: Option<int>, visible: seq<Record>)
    requires Increasing(visible)
    requires forall m :: m in visible ==> m.Message? && (clearFrom.None? || m.no > clearFrom.value)
    ensures
      var below := Filter(visible, NoBelow(data.keepFrom));
      && |below| <= |visible| && visible[..|below|] == below
      && (below != [] ==>
            Assemble(Some(data), clearFrom, visible) == [Summary(data.summary)] + RawAll(visible[|below|..]))
  {
    SplitAt(visible, data.keepFrom);
    var below := Filter(visible, NoBelow(data.keepFrom));
    assert visible[|below|..] == Filter(visible, NoFrom(data.keepFrom));
    if below != [] && clearFrom.Some? {
      TailStart(below, visible, data.keepFrom, clearFrom.value);
    }
  }

  /** In every file, what is replayed is either exactly the visible messages, or one summary whose
      sources followed by the raw tail are exactly the visible messages: no gap and no overlap,
      whatever tombstones, clears and exclusions there are. */
  lemma ReplayPartitionsVisible(lines: seq<Line>, id: string, memory: Memory)
    ensures
      var visible := VisibleMessages(ReadRecords(lines), memory);
      var replay := LoadForModel(lines, id, memory);
      match WorkingSummary(lines, id, memory)
      case None => replay == RawAll(visible)
      case Some(s) =>
        && s.kind.data.refs.Some?
        && var sources := RefNos(s.kind.data.refs.value);
        && 0 < |sources| <= |visible|
        && sources == Nos(visible[..|sources|])
        && replay == [Summary(s.kind.data.summary)] + RawAll(visible[|sources|..])
  {
    var records := ReadRecords(lines);
    var visible := VisibleMessages(records, memory);
    VisibleAreMessages(records, memory, Working, false);
    var clearFrom := LastClear(records);
    if WorkingSummary(lines, id, memory).None? {
      if clearFrom.Some? {
        FilterAll(visible, NoFrom(clearFrom.value));
      }
    } else {
      var s := SummaryParts(lines, id, memory);
      SummaryNeedsWellFormed(lines, id, memory, s);
      FilterIncreasing(records, SeenBy(LensOf(records, memory, Working, false)));
      AssembleSplits(s.kind.data, clearFrom, visible);
    }
  }
}
