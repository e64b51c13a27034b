/** What replay shows, said of the records one by one. */
module Visibility {
  import opened Sequences
  import opened Records
  import opened Replay
  import opened ReplayLaws
  import opened Sources

  // ---- which messages are visible ----

  predicate Redone(records: seq<Record>, no: int)
  {
    exists c :: c in records && c.Event? && c.kind == Kind.Redo(Some(no))
  }

  /** A tombstone no redo has cancelled lies over the number. */
  predicate Undone(records: seq<Record>, no: int)
  {
    exists t :: t in records && t.Tombstone? && t.upTo < no < t.no && !Redone(records, t.no)
  }

  lemma HiddenExactly(records: seq<Record>, no: int)
    ensures IsHidden(no, ActiveTombstones(records)) <==> Undone(records, no)
  {
    if IsHidden(no, ActiveTombstones(records)) {
      var w :| w in ActiveTombstones(records) && w.upTo < no < w.before;
      var t :| t in records && t.Tombstone? && t.no !in CancelledNos(records) && Window(t.upTo, t.no) == w;
      assert !Redone(records, t.no);
    }
    if Undone(records, no) {
      var t :| t in records && t.Tombstone? && t.upTo < no < t.no && !Redone(records, t.no);
      assert Window(t.upTo, t.no) in ActiveTombstones(records);
    }
  }

  /** The conversation has been cleared since. */
  predicate Cleared(records: seq<Record>, no: int)
  {
    exists c :: c in records && c.Event? && c.kind.Clear? && no <= c.no
  }

  lemma {:induction false} ClearedExactly(records: seq<Record>, no: int)
    requires Increasing(records)
    ensures LastClear(records).Some? && no <= LastClear(records).value <==> Cleared(records, no)
  {
    if records != [] {
      var init, last := records[..|records| - 1], records[|records| - 1];
      assert records == init + [last];
      RisingInit(init, last);
      ClearedExactly(init, no);
      assert forall c :: c in records <==> c in init || c == last;
      hide Increasing, LastClear;
      if last.Event? && last.kind.Clear? {
        LastIsClear(init, last);
        if Cleared(init, no) {
          var c :| c in init && c.Event? && c.kind.Clear? && no <= c.no;
          BelowLast(init, last, c);
        }
      } else {
        LastIsNotClear(init, last);
      }
    }
  }

  lemma LastIsClear(init: seq<Record>, last: Record)
    requires last.Event? && last.kind.Clear?
    ensures LastClear(init + [last]) == Some(last.no)
  {
  }

  lemma LastIsNotClear(init: seq<Record>, last: Record)
    requires !(last.Event? && last.kind.Clear?)
    ensures LastClear(init + [last]) == LastClear(init)
  {
    assert (init + [last])[..|init|] == init;
  }

  lemma RisingInit(init: seq<Record>, last: Record)
    requires Increasing(init + [last])
    ensures Increasing(init)
  {
    var records := init + [last];
    forall i, j | 0 <= i < j < |init| && !init[i].Meta? && !init[j].Meta? ensures init[i].no < init[j].no {
      assert records[i] == init[i] && records[j] == init[j];
    }
  }

  lemma BelowLast(init: seq<Record>, last: Record, r: Record)
    requires Increasing(init + [last]) && r in init && !r.Meta? && !last.Meta?
    ensures r.no < last.no
  {
    var i :| 0 <= i < |init| && init[i] == r;
    assert (init + [last])[i] == r && (init + [last])[|init|] == last;
  }

  /** Not excluded, and either a user's own words or generated under the present forget state. */
  predicate Lives(m: Record, memory: Memory)
    requires m.Message?
  {
    && m.no !in memory.excluded
    && match m.generation
       case None => m.role == User || memory.generation == 0
       case Some(g) => g == memory.generation
  }

  /** A message is visible exactly if it is in the file, not undone, not cleared away (which does not count for
      durable sources), and alive under the forget state, which a file without its meta record has none of and
      the structure of exchanges does not ask for. */
  lemma VisibleExactly(records: seq<Record>, memory: Memory, purpose: Purpose, filtered: bool, m: Record)
    requires Increasing(records)
    ensures m in VisibleThrough(records, memory, purpose, filtered) <==>
      && m in records && m.Message? && !Undone(records, m.no)
      && (purpose.Working? ==> !Cleared(records, m.no))
      && (filtered || Lives(m, if exists r :: r in records && r.Meta? then memory else Memory({}, 0)))
  {
    FilterIn(records, SeenBy(LensOf(records, memory, purpose, filtered)));
    if m.Message? {
      HiddenExactly(records, m.no);
      ClearedExactly(records, m.no);
    }
  }

  // ---- which source references are valid ----

  lemma {:induction false} ReadsEveryLine(lines: seq<Line>)
    requires AllParsed(lines)
    ensures |ReadRecords(lines)| == |lines|
    ensures forall i :: 0 <= i < |lines| ==> ReadRecords(lines)[i] == lines[i].record
  {
    if lines != [] {
      var init := lines[..|lines| - 1];
      forall l | l in init ensures l.Parsed? { assert l in lines; }
      ReadsEveryLine(init);
    }
  }

  /** A file is well formed exactly if every line parses, the first names the session and no other does, and each
      record has a number above the one before. */
  lemma WellFormedExactly(lines: seq<Line>, id: string)
    ensures WellFormed(lines, id) <==>
      && (forall i :: 0 <= i < |lines| ==> lines[i].Parsed?)
      && |lines| > 0 && lines[0].record == Meta(id)
      && (forall i :: 0 < i < |lines| ==> !lines[i].record.Meta?)
      && forall i, j :: 0 < i < j < |lines| ==> lines[i].record.no < lines[j].record.no
  {
    if AllParsed(lines) {
      ReadsEveryLine(lines);
      var records := ReadRecords(lines);
      if WellFormed(lines, id) {
        forall i, j | 0 < i < j < |lines| ensures lines[i].record.no < lines[j].record.no {
          assert records[i].no < records[j].no;
        }
      }
    }
  }

  /** `run` is the messages with these numbers, in order. */
  ghost predicate IsRange(run: seq<Record>, records: seq<Record>, first: int, last: int)
  {
    && Increasing(run) && (forall m :: m in run ==> m.Message?)
    && forall m :: m in run <==> m in records && m.Message? && first <= m.no <= last
  }

  lemma RangeExactly(run: seq<Record>, records: seq<Record>, first: int, last: int)
    requires Increasing(records)
    ensures IsRange(run, records, first, last) <==> run == Filter(records, InRange(first, last))
  {
    var selected := Filter(records, InRange(first, last));
    FilterIn(records, InRange(first, last));
    FilterIncreasing(records, InRange(first, last));
    if IsRange(run, records, first, last) { SameRising(run, selected); }
  }

  ghost predicate AllVisible(run: seq<Record>, lines: seq<Line>, memory: Memory)
  {
    forall m :: m in run ==>
      m in VisibleMessages(ReadRecords(lines), memory) && m.Message? && m.no !in memory.excluded
  }

  lemma SnapshotExactly(lines: seq<Line>, id: string, first: int, last: int, memory: Memory)
    ensures
      var records := ReadRecords(lines);
      var run := Filter(records, InRange(first, last));
      var snapshot := SourceSnapshot(lines, id, first, last, memory, Working);
      && (snapshot.Valid? ==> snapshot.ref == SourceRef(id, Nos(run), run))
      && (snapshot.Valid? <==>
            && 1 <= first <= last < first + 200 && WellFormed(lines, id) && run != []
            && AllVisible(run, lines, memory))
  {
    FilterIn(ReadRecords(lines), InRange(first, last));
    hide WellFormed, Filter, VisibleThrough;
  }

  /** What a reference says of itself: positions in rising order, and the messages they are the numbers of. */
  predicate WellTaken(ref: SourceRef)
  {
    ref.seqs != [] && StrictlyRising(ref.seqs) && Nos(ref.digest) == ref.seqs
  }

  /** The messages it was taken of are still the ones in its range, and the range is one a source can have. */
  ghost predicate StillThere(lines: seq<Line>, ref: SourceRef)
    requires ref.seqs != []
  {
    var first, last := ref.seqs[0], ref.seqs[|ref.seqs| - 1];
    1 <= first && last < first + 200 && IsRange(ref.digest, ReadRecords(lines), first, last)
  }

  lemma WellTakenEnds(ref: SourceRef)
    requires WellTaken(ref)
    ensures ref.digest != [] && ref.seqs[0] <= ref.seqs[|ref.seqs| - 1]
  {
    assert |Nos(ref.digest)| == |ref.digest|;
  }

  /** A snapshot of the range of a well-taken reference succeeds and equals it exactly if the messages are still
      there and visible. */
  lemma SameSnapshot(lines: seq<Line>, id: string, ref: SourceRef, memory: Memory)
    requires WellTaken(ref) && WellFormed(lines, id)
    ensures
      var snapshot := SourceSnapshot(lines, id, ref.seqs[0], ref.seqs[|ref.seqs| - 1], memory, Working);
      snapshot.Valid? && snapshot.ref.digest == ref.digest <==>
        StillThere(lines, ref) && AllVisible(ref.digest, lines, memory)
  {
    hide StrictlyRising, IsRange, Filter, Increasing, VisibleThrough, SourceSnapshot, Nos, AllVisible, ReadRecords;
    var first, last := ref.seqs[0], ref.seqs[|ref.seqs| - 1];
    WellTakenEnds(ref);
    SnapshotExactly(lines, id, first, last, memory);
    RangeExactly(ref.digest, ReadRecords(lines), first, last);
  }

  /** A reference is valid exactly if it is this session's, the file is well formed, and the messages in its
      range, at most 200 positions, are the very ones it was taken of, all of them visible. */
  lemma RefValidExactly(lines: seq<Line>, id: string, ref: SourceRef, memory: Memory)
    ensures RefValid(lines, id, ref, memory) <==>
      && ref.sessionId == id && WellFormed(lines, id)
      && WellTaken(ref) && StillThere(lines, ref) && AllVisible(ref.digest, lines, memory)
  {
    if ref.seqs != [] && StrictlyRising(ref.seqs) {
      SnapshotExactly(lines, id, ref.seqs[0], ref.seqs[|ref.seqs| - 1], memory);
      if WellFormed(lines, id) && WellTaken(ref) { SameSnapshot(lines, id, ref, memory); }
      hide WellFormed, SourceSnapshot, Nos, StillThere, AllVisible;
    }
  }

  // ---- which chains of summaries hold ----

  /** The event and the earlier summaries it rests on, as their successors recorded them. */
  function Ancestry(e: Record): (chain: seq<Record>)
    ensures chain != [] && chain[0] == e
    decreases e
  {
    if e.Event? && e.kind.Compact? && e.kind.data.prior.Some? then [e] + Ancestry(e.kind.data.prior.value.digest)
    else [e]
  }

  /** No tombstone undoes the event itself or overlaps what it covers. */
  predicate Undisturbed(e: Record, windows: set<Window>)
  {
    && e.Event? && !(exists w :: w in windows && w.upTo < e.no < w.before)
    && (e.kind.Compact? && e.kind.data.range.Some? ==>
          forall w :: w in windows ==> w.before <= e.kind.data.range.value.0 || e.kind.data.range.value.1 <= w.upTo)
  }

  /** The event is in the file, under the number its successor recorded and before it. */
  predicate Recorded(e: Record, successor: Record, records: seq<Record>)
  {
    && e in records && e.Event? && successor.Event? && e.no < successor.no
    && successor.kind.Compact? && successor.kind.data.prior == Some(Identity(e.no, e))
  }

  lemma {:induction false} EventIsFound(records: seq<Record>, no: int)
    requires Increasing(records)
    ensures EventAt(records, no).None? ==> forall e :: e in records && e.Event? ==> e.no != no
    ensures EventAt(records, no).Some? ==>
      forall e :: e in records && e.Event? && e.no == no ==> e == EventAt(records, no).value
  {
    if records != [] {
      var init, last := records[..|records| - 1], records[|records| - 1];
      assert records == init + [last] && forall e :: e in records <==> e in init || e == last;
      RisingInit(init, last);
      EventIsFound(init, no);
      if last.Event? && last.no == no {
        forall e | e in records && e.Event? && e.no == no ensures e == last { SameNumber(records, e, last); }
      }
    }
  }

  ghost predicate Intact(chain: seq<Record>, records: seq<Record>, windows: set<Window>)
  {
    && (forall i :: 0 <= i < |chain| ==> Undisturbed(chain[i], windows))
    && forall i :: 0 < i < |chain| ==> Recorded(chain[i], chain[i - 1], records)
  }

  lemma IntactMore(e: Record, rest: seq<Record>, records: seq<Record>, windows: set<Window>)
    requires rest != []
    ensures Intact([e] + rest, records, windows) <==>
      Undisturbed(e, windows) && Recorded(rest[0], e, records) && Intact(rest, records, windows)
  {
    var chain := [e] + rest;
    assert chain[0] == e && chain[1] == rest[0];
    if Intact(chain, records, windows) {
      forall i | 0 <= i < |rest| ensures Undisturbed(rest[i], windows) { assert chain[i + 1] == rest[i]; }
      forall i | 0 < i < |rest| ensures Recorded(rest[i], rest[i - 1], records) {
        assert Recorded(chain[i + 1], chain[i], records);
      }
    }
    if Undisturbed(e, windows) && Recorded(rest[0], e, records) && Intact(rest, records, windows) {
      forall i | 0 < i < |chain| ensures Recorded(chain[i], chain[i - 1], records) {
        if i > 1 { assert Recorded(rest[i - 1], rest[i - 2], records); }
      }
    }
  }

  /** A summary's chain holds exactly if every summary on it is undisturbed and is still in the file as its
      successor recorded it. */
  lemma {:induction false} ChainExactly(e: Record, records: seq<Record>, windows: set<Window>)
    requires Increasing(records) && e.Event?
    ensures ChainHolds(e, records, windows) <==> Intact(Ancestry(e), records, windows)
    decreases e
  {
    assert Undisturbed(e, windows) <==> !IntersectsTombstone(e, windows);
    if e.kind.Compact? && e.kind.data.prior.Some? {
      var prior := e.kind.data.prior.value;
      EventIsFound(records, prior.no);
      IntactMore(e, Ancestry(prior.digest), records, windows);
      if prior.digest.Event? { ChainExactly(prior.digest, records, windows); }
      hide Intact, Undisturbed, IntersectsTombstone, Increasing;
      if Recorded(prior.digest, e, records) { assert EventAt(records, prior.no) == Some(prior.digest); }
    } else {
      assert Ancestry(e) == [e];
    }
  }

  // ---- which summary is replayed ----

  predicate IsCompaction(r: Record) { r.Event? && r.kind.Compact? }

  lemma {:induction false} LastCompactExactly(records: seq<Record>, e: Record)
    requires Increasing(records) && e in records && IsCompaction(e)
    ensures LastCompact(records) == Some(e) <==> forall c :: c in records && IsCompaction(c) ==> c.no <= e.no
  {
    var init, last := records[..|records| - 1], records[|records| - 1];
    assert records == init + [last] && forall c :: c in records <==> c in init || c == last;
    RisingInit(init, last);
    hide Increasing;
    if IsCompaction(last) {
      if e in init { BelowLast(init, last, e); }
      forall c | c in init && IsCompaction(c) ensures c.no < last.no { BelowLast(init, last, c); }
    } else {
      LastCompactExactly(init, e);
    }
  }

  /** A summary is replayed exactly if no later one was recorded, the conversation has not been cleared since,
      its chain is intact, and the references it recorded are valid and are exactly the visible messages below
      the tail it keeps. */
  lemma SummaryExactly(lines: seq<Line>, id: string, memory: Memory, e: Record)
    requires Increasing(ReadRecords(lines)) && e in ReadRecords(lines) && IsCompaction(e)
    ensures WorkingSummary(lines, id, memory) == Some(e) <==>
      var records, data := ReadRecords(lines), e.kind.data;
      && (forall c :: c in records && IsCompaction(c) ==> c.no <= e.no)
      && (forall c :: c in records && c.Event? && c.kind.Clear? ==> c.no <= e.no)
      && Intact(Ancestry(e), records, ActiveTombstones(records))
      && data.refs.Some? && (forall ref :: ref in data.refs.value ==> RefValid(lines, id, ref, memory))
      && RefNos(data.refs.value) != []
      && RefNos(data.refs.value) == Nos(VisibleBelow(records, memory, data.keepFrom))
  {
    var records := ReadRecords(lines);
    LastCompactExactly(records, e);
    ChainExactly(e, records, ActiveTombstones(records));
    hide RefValid, VisibleBelow, RefNos, Nos, Intact, ChainHolds, ActiveTombstones, Ancestry, Increasing;
  }
}
