/** Appending bookkeeping leaves what the session means unchanged. */
module Extension {
  import opened Sequences
  import opened Records
  import opened Replay

  function AsLines(records: seq<Record>): (lines: seq<Line>)
    ensures |lines| == |records|
    ensures forall i :: 0 <= i < |lines| ==> lines[i] == Parsed(records[i])
  {
    Map(records, (r: Record) => Parsed(r))
  }

  lemma {:induction false} ReadAsLines(records: seq<Record>)
    ensures ReadRecords(AsLines(records)) == records
  {
    if records != [] {
      var init := records[..|records| - 1];
      assert AsLines(records)[..|records| - 1] == AsLines(init);
      ReadAsLines(init);
    }
  }

  lemma AsLinesAppend(a: seq<Record>, b: seq<Record>)
    ensures AsLines(a + b) == AsLines(a) + AsLines(b)
  {
  }

  lemma AsLinesOne(r: Record)
    ensures AsLines([r]) == [Parsed(r)]
  {
  }

  lemma ReadContinues(lines: seq<Line>, more: seq<Record>)
    ensures ReadRecords(lines + AsLines(more)) == ReadRecords(lines) + more
  {
    ReadAppend(lines, AsLines(more));
    ReadAsLines(more);
  }

  /** Records that carry no message and set no cut-off: events other than `clear`, and tombstones. */
  predicate Bookkeeping(r: Record)
  {
    r.Tombstone? || (r.Event? && !r.kind.Clear?)
  }

  /** `more` continues `records`: bookkeeping only, numbered above everything before it, and leaving
      the same tombstones active. */
  ghost predicate Continues(records: seq<Record>, more: seq<Record>)
  {
    && (forall r :: r in more ==> Bookkeeping(r))
    && Increasing(more)
    && (forall r, m :: r in records && !r.Meta? && m in more ==> r.no < m.no)
    && ActiveTombstones(records + more) == ActiveTombstones(records)
  }

  lemma IncreasingSplit(records: seq<Record>, more: seq<Record>)
    requires Increasing(more)
    requires forall r, m :: r in records && !r.Meta? && m in more && !m.Meta? ==> r.no < m.no
    ensures Increasing(records + more) <==> Increasing(records)
  {
    var both := records + more;
    if Increasing(both) {
      forall i, j | 0 <= i < j < |records| && !records[i].Meta? && !records[j].Meta?
        ensures records[i].no < records[j].no
      {
        assert both[i] == records[i] && both[j] == records[j];
      }
    }
    if Increasing(records) {
      forall i, j | 0 <= i < j < |both| && !both[i].Meta? && !both[j].Meta?
        ensures both[i].no < both[j].no
      {
        if i < |records| <= j {
          assert both[i] in records && both[j] in more;
        } else if |records| <= i {
          assert both[i] == more[i - |records|] && both[j] == more[j - |records|];
        }
      }
    }
  }

  lemma {:induction false} LastClearContinues(records: seq<Record>, more: seq<Record>)
    requires forall r :: r in more ==> Bookkeeping(r)
    ensures LastClear(records + more) == LastClear(records)
  {
    if more == [] {
      assert records + more == records;
    } else {
      var init := more[..|more| - 1];
      assert (records + more)[..|records + more| - 1] == records + init;
      LastClearContinues(records, init);
      assert Bookkeeping(more[|more| - 1]);
    }
  }

  lemma {:induction false} LastCompactContinues(records: seq<Record>, more: seq<Record>)
    requires forall r :: r in more && r.Event? ==> !r.kind.Compact?
    ensures LastCompact(records + more) == LastCompact(records)
  {
    if more == [] {
      assert records + more == records;
    } else {
      var init := more[..|more| - 1];
      assert (records + more)[..|records + more| - 1] == records + init;
      LastCompactContinues(records, init);
    }
  }

  lemma {:induction false} EventAtContinues(records: seq<Record>, more: seq<Record>, no: int)
    requires forall r :: r in more && !r.Meta? ==> no < r.no
    ensures EventAt(records + more, no) == EventAt(records, no)
  {
    if more == [] {
      assert records + more == records;
    } else {
      var init := more[..|more| - 1];
      assert (records + more)[..|records + more| - 1] == records + init;
      EventAtContinues(records, init, no);
    }
  }

  lemma VisibleContinues(records: seq<Record>, more: seq<Record>, memory: Memory, purpose: Purpose, filtered: bool)
    requires Continues(records, more)
    ensures LensOf(records + more, memory, purpose, filtered) == LensOf(records, memory, purpose, filtered)
    ensures VisibleThrough(records + more, memory, purpose, filtered)
         == VisibleThrough(records, memory, purpose, filtered)
  {
    LastClearContinues(records, more);
    if HasMeta(records) {
      var r :| r in records && r.Meta?;
      assert r in records + more;
    }
    var seen := SeenBy(LensOf(records, memory, purpose, filtered));
    FilterAppend(records, more, seen);
    FilterNone(more, seen);
  }

  lemma MetaFirstContinues(records: seq<Record>, more: seq<Record>, id: string)
    requires forall r :: r in more ==> Bookkeeping(r)
    ensures MetaFirst(records + more, id) <==> MetaFirst(records, id)
  {
    var all := records + more;
    if records == [] && more != [] {
      assert Bookkeeping(more[0]) && all[0] == more[0];
    }
    if MetaFirst(all, id) {
      if records != [] {
        forall i | 0 < i < |records| ensures !records[i].Meta? { assert all[i] == records[i]; }
      }
    }
    if MetaFirst(records, id) {
      forall i | 0 < i < |all| ensures !all[i].Meta? {
        assert i >= |records| ==> all[i] in more;
      }
    }
  }

  lemma WellFormedContinues(lines: seq<Line>, more: seq<Record>, id: string)
    requires Continues(ReadRecords(lines), more)
    ensures WellFormed(lines + AsLines(more), id) <==> WellFormed(lines, id)
  {
    ReadContinues(lines, more);
    IncreasingSplit(ReadRecords(lines), more);
    MetaFirstContinues(ReadRecords(lines), more, id);
    AllParsedContinues(lines, more);
  }

  lemma AllParsedContinues(lines: seq<Line>, more: seq<Record>)
    ensures AllParsed(lines + AsLines(more)) <==> AllParsed(lines)
  {
    if AllParsed(lines + AsLines(more)) {
      forall l | l in lines ensures l.Parsed? { assert l in lines + AsLines(more); }
    }
  }

  lemma SelectedContinues(records: seq<Record>, more: seq<Record>, start: int, end: int)
    requires forall r :: r in more ==> Bookkeeping(r)
    ensures Filter(records + more, InRange(start, end)) == Filter(records, InRange(start, end))
  {
    FilterAppend(records, more, InRange(start, end));
    FilterNone(more, InRange(start, end));
  }

  lemma SnapshotContinues(
    lines: seq<Line>, more: seq<Record>, id: string, start: int, end: int, memory: Memory, purpose: Purpose)
    requires Continues(ReadRecords(lines), more)
    ensures SourceSnapshot(lines + AsLines(more), id, start, end, memory, purpose)
         == SourceSnapshot(lines, id, start, end, memory, purpose)
  {
    ReadContinues(lines, more);
    WellFormedContinues(lines, more, id);
    VisibleContinues(ReadRecords(lines), more, memory, purpose, false);
    SelectedContinues(ReadRecords(lines), more, start, end);
  }

  lemma RefsContinue(lines: seq<Line>, more: seq<Record>, id: string, refs: seq<SourceRef>, memory: Memory)
    requires Continues(ReadRecords(lines), more)
    ensures RefsValid(lines + AsLines(more), id, refs, memory) <==> RefsValid(lines, id, refs, memory)
  {
    forall ref | ref in refs
      ensures RefValid(lines + AsLines(more), id, ref, memory) == RefValid(lines, id, ref, memory)
    {
      if ref.seqs != [] {
        SnapshotContinues(lines, more, id, ref.seqs[0], ref.seqs[|ref.seqs| - 1], memory, Working);
      }
    }
  }

  /** A chain is judged by the records up to its head alone. */
  lemma {:induction false} ChainContinues(
    current: Record, records: seq<Record>, more: seq<Record>, windows: set<Window>)
    requires current.Event?
    requires forall m :: m in more && !m.Meta? ==> current.no < m.no
    ensures ChainHolds(current, records + more, windows) <==> ChainHolds(current, records, windows)
    decreases current
  {
    if current.kind.Compact? && current.kind.data.prior.Some? {
      var parent := current.kind.data.prior.value;
      if parent.no < current.no {
        EventAtContinues(records, more, parent.no);
        if parent.digest.Event? && parent.digest.no == parent.no {
          ChainContinues(parent.digest, records, more, windows);
        }
      } else {
        NotEarlier(current, records, windows);
        NotEarlier(current, records + more, windows);
      }
    }
  }

  lemma NotEarlier(current: Record, records: seq<Record>, windows: set<Window>)
    requires current.Event? && current.kind.Compact? && current.kind.data.prior.Some?
    requires current.kind.data.prior.value.no >= current.no
    ensures !ChainHolds(current, records, windows)
  {
  }

  /** Bookkeeping that leaves the tombstones alone and adds no summary keeps the working summary. */
  lemma SummaryContinues(lines: seq<Line>, more: seq<Record>, id: string, memory: Memory)
    requires Continues(ReadRecords(lines), more)
    requires forall r :: r in more && r.Event? ==> !r.kind.Compact?
    ensures WorkingSummary(lines + AsLines(more), id, memory) == WorkingSummary(lines, id, memory)
  {
    var records := ReadRecords(lines);
    ReadContinues(lines, more);
    LastCompactContinues(records, more);
    var latest := LastCompact(records);
    if latest.Some? {
      var s := latest.value;
      ChainContinues(s, records, more, ActiveTombstones(records));
      if s.kind.data.refs.Some? {
        RefsContinue(lines, more, id, s.kind.data.refs.value, memory);
      }
      VisibleContinues(records, more, memory, Working, false);
      ClearedContinues(records, more, s.no);
    }
  }

  lemma ClearedContinues(records: seq<Record>, more: seq<Record>, no: int)
    requires forall r :: r in more ==> Bookkeeping(r)
    ensures ClearedAfter(records + more, no) <==> ClearedAfter(records, no)
  {
    if ClearedAfter(records, no) {
      var r :| r in records && r.Event? && r.kind.Clear? && r.no > no;
      assert r in records + more;
    }
  }

  /** Bookkeeping is invisible to the model: the whole replay, summary included, stays the same. */
  lemma ReplayContinues(lines: seq<Line>, more: seq<Record>, id: string, memory: Memory)
    requires Continues(ReadRecords(lines), more)
    requires forall r :: r in more && r.Event? ==> !r.kind.Compact?
    ensures LoadForModel(lines + AsLines(more), id, memory) == LoadForModel(lines, id, memory)
  {
    var records := ReadRecords(lines);
    ReadContinues(lines, more);
    SummaryContinues(lines, more, id, memory);
    LastCompactContinues(records, more);
    LastClearContinues(records, more);
    VisibleContinues(records, more, memory, Working, false);
  }
}
