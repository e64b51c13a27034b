/** Capturing the exact lineage of a list of visible messages as bounded snapshots. */
module Sources {
  import opened Sequences
  import opened Records
  import opened Replay
  import opened ReplayLaws
  import opened Coverage

  // ---- capturing sources ----

  /** The end of the run of consecutive numbers from `offset`, at most 200 positions long. */
  function RunEnd(messages: seq<Record>, offset: nat, end: nat): (e: nat)
    requires offset < end <= |messages| && AllMessages(messages)
    ensures end <= e <= |messages|
    decreases |messages| - end
  {
    if end < |messages|
       && messages[end] in messages && messages[end - 1] in messages && messages[offset] in messages
       && messages[end].no == messages[end - 1].no + 1
       && messages[end].no - messages[offset].no < 200
    then RunEnd(messages, offset, end + 1) else end
  }

  /** The snapshot of the range from a run's first message to its last. */
  function SnapshotOf(lines: seq<Line>, id: string, run: seq<Record>, memory: Memory): Snapshot
    requires AllMessages(run) && run != []
  {
    assert run[0] in run && run[|run| - 1] in run;
    SourceSnapshot(lines, id, run[0].no, run[|run| - 1].no, memory, Working)
  }

  /** Snapshots covering `messages[offset..]`, or nothing if one of them is not valid. */
  function Capture(
    lines: seq<Line>, id: string, messages: seq<Record>, memory: Memory, offset: nat): Option<seq<SourceRef>>
    requires AllMessages(messages) && offset <= |messages|
    decreases |messages| - offset
  {
    if offset == |messages| then Some([]) else
      var end := RunEnd(messages, offset, offset + 1);
      match SnapshotOf(lines, id, messages[offset..end], memory)
      case Valid(ref) => Prepend([ref], Capture(lines, id, messages, memory, end))
      case _ => None
  }

  function Prepend(found: seq<SourceRef>, rest: Option<seq<SourceRef>>): Option<seq<SourceRef>>
  {
    if rest.Some? then Some(found + rest.value) else None
  }

  lemma PrependNothing(rest: Option<seq<SourceRef>>)
    ensures Prepend([], rest) == rest
  {
    if rest.Some? { assert [] + rest.value == rest.value; }
  }

  lemma PrependStep(found: seq<SourceRef>, ref: SourceRef, rest: Option<seq<SourceRef>>)
    ensures Prepend(found, Prepend([ref], rest)) == Prepend(found + [ref], rest)
  {
    if rest.Some? { Associative(found, [ref], rest.value); }
  }

  lemma PrependLast(found: seq<SourceRef>, rest: Option<seq<SourceRef>>)
    requires rest == Some([])
    ensures Prepend(found, rest) == Some(found)
  {
    PlusNothing(found, rest.value);
  }

  method FindRunEnd(messages: seq<Record>, offset: nat) returns (end: nat)
    requires AllMessages(messages) && offset < |messages|
    ensures end == RunEnd(messages, offset, offset + 1)
  {
    assert forall i :: 0 <= i < |messages| ==> messages[i] in messages;
    end := offset + 1;
    while end < |messages| && messages[end].no == messages[end - 1].no + 1
          && messages[end].no - messages[offset].no < 200
      invariant offset < end <= |messages|
      invariant RunEnd(messages, offset, end) == RunEnd(messages, offset, offset + 1)
    {
      end := end + 1;
    }
  }

  method CaptureSources(lines: seq<Line>, id: string, messages: seq<Record>, memory: Memory)
    returns (refs: Option<seq<SourceRef>>)
    requires AllMessages(messages)
    ensures refs == Capture(lines, id, messages, memory, 0)
  {
    var found: seq<SourceRef> := [];
    var offset := 0;
    ghost var goal := Capture(lines, id, messages, memory, 0);
    PrependNothing(goal);
    while offset < |messages|
      invariant 0 <= offset <= |messages|
      invariant goal == Prepend(found, Capture(lines, id, messages, memory, offset))
    {
      var end := FindRunEnd(messages, offset);
      var snapshot := SnapshotOf(lines, id, messages[offset..end], memory);
      if !snapshot.Valid? { return None; }
      PrependStep(found, snapshot.ref, Capture(lines, id, messages, memory, end));
      found := found + [snapshot.ref];
      offset := end;
    }
    PrependLast(found, Capture(lines, id, messages, memory, offset));
    return Some(found);
  }

  lemma {:induction false} RunIsConsecutive(messages: seq<Record>, offset: nat, end: nat)
    requires offset < end <= |messages| && AllMessages(messages)
    requires forall i :: 0 <= i < |messages| ==> messages[i].Message?
    requires forall k :: offset <= k < end ==> messages[k].no == messages[offset].no + (k - offset)
    requires messages[end - 1].no - messages[offset].no < 200
    ensures
      var e := RunEnd(messages, offset, end);
      && messages[e - 1].no - messages[offset].no < 200
      && forall k :: offset <= k < e ==> messages[k].no == messages[offset].no + (k - offset)
    decreases |messages| - end
  {
    if RunEnd(messages, offset, end) != end {
      RunIsConsecutive(messages, offset, end + 1);
    }
  }

  /** ... and no longer run starts there. */
  lemma {:induction false} RunIsLongest(messages: seq<Record>, offset: nat, end: nat)
    requires offset < end <= |messages| && AllMessages(messages)
    requires forall i :: 0 <= i < |messages| ==> messages[i].Message?
    ensures
      var e := RunEnd(messages, offset, end);
      || e == |messages| || messages[e].no != messages[e - 1].no + 1 || messages[e].no - messages[offset].no >= 200
    decreases |messages| - end
  {
    assert forall i :: 0 <= i < |messages| ==> messages[i] in messages;
    if RunEnd(messages, offset, end) != end { RunIsLongest(messages, offset, end + 1); }
  }

  lemma SameLast(a: seq<Record>, b: seq<Record>)
    requires AllMessages(a) && AllMessages(b) && Increasing(a) && Increasing(b)
    requires (forall m :: m in a <==> m in b) && a != [] && b != []
    ensures a[|a| - 1] == b[|b| - 1]
  {
    assert a[|a| - 1] in a && b[|b| - 1] in b;
    var i :| 0 <= i < |b| && b[i] == a[|a| - 1];
    var j :| 0 <= j < |a| && a[j] == b[|b| - 1];
    assert i == |b| - 1 && j == |a| - 1;
  }

  lemma SameParts(a: seq<Record>, b: seq<Record>)
    requires a != [] && b != []
    requires a[..|a| - 1] == b[..|b| - 1] && a[|a| - 1] == b[|b| - 1]
    ensures a == b
  {
    TakeDrop(a, |a| - 1);
    TakeDrop(b, |b| - 1);
  }

  /** Rising message sequences with the same members are equal. */
  lemma {:induction false} SameRising(a: seq<Record>, b: seq<Record>)
    requires AllMessages(a) && AllMessages(b) && Increasing(a) && Increasing(b)
    requires forall m :: m in a <==> m in b
    ensures a == b
  {
    assert a != [] ==> a[0] in a;
    assert b != [] ==> b[0] in b;
    if a != [] && b != [] {
      SameLast(a, b);
      DropLast(a);
      DropLast(b);
      var a', b', last := a[..|a| - 1], b[..|b| - 1], a[|a| - 1];
      forall m ensures m in a' <==> m in b' {
        assert (m in a' <==> m in a && m != last) && (m in b' <==> m in b && m != last);
      }
      SameRising(a', b');
      SameParts(a, b);
    }
  }

  lemma DropLast(a: seq<Record>)
    requires a != [] && AllMessages(a) && Increasing(a)
    ensures AllMessages(a[..|a| - 1]) && Increasing(a[..|a| - 1])
    ensures forall m :: m in a[..|a| - 1] <==> m in a && m != a[|a| - 1]
  {
    var init := a[..|a| - 1];
    assert a == init + [a[|a| - 1]];
    assert forall i :: 0 <= i < |a| ==> a[i] in a;
  }

  /** A run of consecutive visible messages is exactly what its snapshot selects. */
  lemma RunSelects(records: seq<Record>, run: seq<Record>)
    requires Increasing(records) && run != [] && AllMessages(run) && Increasing(run)
    requires forall m :: m in run ==> m in records
    requires forall k :: 0 <= k < |run| && run[k].Message? ==> run[0].Message? && run[k].no == run[0].no + k
    requires run[0] in run && run[|run| - 1] in run
    ensures Filter(records, InRange(run[0].no, run[|run| - 1].no)) == run
  {
    var range := InRange(run[0].no, run[|run| - 1].no);
    var selected := Filter(records, range);
    FilterIn(records, range);
    FilterIncreasing(records, range);
    forall m ensures m in selected <==> m in run {
      if m in run {
        var k :| 0 <= k < |run| && run[k] == m;
      }
      if m in selected {
        var k := m.no - run[0].no;
        assert run[k] in run && run[k].no == m.no;
        SameNumber(records, m, run[k]);
      }
    }
    SameRising(selected, run);
  }

  lemma SameNumber(records: seq<Record>, a: Record, b: Record)
    requires Increasing(records) && a in records && b in records
    requires !a.Meta? && !b.Meta? && a.no == b.no
    ensures a == b
  {
    var i :| 0 <= i < |records| && records[i] == a;
    var j :| 0 <= j < |records| && records[j] == b;
    if i < j { assert records[i].no < records[j].no; }
    if j < i { assert records[j].no < records[i].no; }
  }

  lemma {:induction false} RefNosAppend(a: seq<SourceRef>, b: seq<SourceRef>)
    ensures RefNos(a + b) == RefNos(a) + RefNos(b)
  {
    if b == [] {
      assert a + b == a;
    } else {
      assert (a + b)[..|a + b| - 1] == a + b[..|b| - 1];
      RefNosAppend(a, b[..|b| - 1]);
    }
  }

  /** What capturing needs of the messages: visible, numbered from 1, in file order. */
  ghost predicate Capturable(records: seq<Record>, memory: Memory, messages: seq<Record>)
  {
    && AllMessages(messages) && Increasing(messages)
    && forall m :: m in messages ==> m in VisibleMessages(records, memory) && m.no >= 1
  }

  /** Visible messages with consecutive numbers, few enough for one snapshot. */
  ghost predicate Consecutive(records: seq<Record>, memory: Memory, run: seq<Record>)
  {
    && run != [] && Capturable(records, memory, run)
    && (forall k :: 0 <= k < |run| ==> run[k].Message?)
    && (forall k :: 0 <= k < |run| ==> run[k].no == run[0].no + k)
    && |run| <= 200
  }

  /** A slice of capturable messages is capturable. */
  lemma SliceCapturable(records: seq<Record>, memory: Memory, messages: seq<Record>, offset: nat, end: nat)
    requires Capturable(records, memory, messages) && offset <= end <= |messages|
    ensures Capturable(records, memory, messages[offset..end])
  {
    var run := messages[offset..end];
    forall k | 0 <= k < |run| ensures run[k] == messages[offset + k] && run[k] in messages {}
  }

  lemma RunAt(records: seq<Record>, memory: Memory, messages: seq<Record>, offset: nat)
    requires Capturable(records, memory, messages) && offset < |messages|
    ensures Consecutive(records, memory, messages[offset..RunEnd(messages, offset, offset + 1)])
  {
    forall i | 0 <= i < |messages| ensures messages[i].Message? { assert messages[i] in messages; }
    RunIsConsecutive(messages, offset, offset + 1);
    var end := RunEnd(messages, offset, offset + 1);
    SliceCapturable(records, memory, messages, offset, end);
    SliceConsecutive(messages, offset, end);
  }

  lemma SliceConsecutive(messages: seq<Record>, offset: nat, end: nat)
    requires offset < end <= |messages| && forall i :: 0 <= i < |messages| ==> messages[i].Message?
    requires forall k :: offset <= k < end ==> messages[k].no == messages[offset].no + (k - offset)
    requires messages[end - 1].no - messages[offset].no < 200
    ensures
      var run := messages[offset..end];
      && |run| <= 200
      && (forall k :: 0 <= k < |run| ==> run[k].Message?)
      && (forall k :: 0 <= k < |run| ==> run[k].no == run[0].no + k)
  {
    var run := messages[offset..end];
    assert forall k :: 0 <= k < |run| ==> run[k] == messages[offset + k];
  }

  lemma JudgeRun(records: seq<Record>, memory: Memory, run: seq<Record>, id: string)
    requires HasMeta(records) && Consecutive(records, memory, run)
    ensures Judge(id, run, VisibleMessages(records, memory), memory.excluded) == Valid(SourceRef(id, Nos(run), run))
  {
    VisibleAreMessages(records, memory, Working, false);
  }

  /** One run of visible messages has a valid snapshot, which is exactly the run. */
  lemma RunSnapshot(lines: seq<Line>, id: string, memory: Memory, run: seq<Record>)
    requires WellFormed(lines, id) && Consecutive(ReadRecords(lines), memory, run)
    ensures SnapshotOf(lines, id, run, memory) == Valid(SourceRef(id, Nos(run), run))
  {
    var records := ReadRecords(lines);
    VisibleAreMessages(records, memory, Working, false);
    assert forall k :: 0 <= k < |run| ==> run[k] in run;
    assert records[0] in records;
    JudgeRun(records, memory, run, id);
    RunSelects(records, run);
  }

  lemma RunNos(run: seq<Record>)
    requires run != [] && forall k :: 0 <= k < |run| ==> run[k].Message?
    requires forall k :: 0 <= k < |run| ==> run[k].no == run[0].no + k
    ensures Nos(run)[0] == run[0].no && Nos(run)[|run| - 1] == run[|run| - 1].no
    ensures StrictlyRising(Nos(run))
  {
  }

  lemma RunValidates(lines: seq<Line>, id: string, memory: Memory, run: seq<Record>)
    requires WellFormed(lines, id) && Consecutive(ReadRecords(lines), memory, run)
    ensures RefValid(lines, id, SourceRef(id, Nos(run), run), memory)
  {
    RunSnapshot(lines, id, memory, run);
    RunNos(run);
  }

  lemma RefNosPrepend(ref: SourceRef, rest: seq<SourceRef>)
    ensures RefNos([ref] + rest) == ref.seqs + RefNos(rest)
  {
    RefNosAppend([ref], rest);
    assert [ref][..0] == [];
    assert RefNos([ref]) == [] + ref.seqs;
  }

  lemma RefsValidPrepend(lines: seq<Line>, id: string, ref: SourceRef, rest: seq<SourceRef>, memory: Memory)
    requires RefValid(lines, id, ref, memory) && RefsValid(lines, id, rest, memory)
    ensures RefsValid(lines, id, [ref] + rest, memory)
  {
    forall r | r in [ref] + rest ensures RefValid(lines, id, r, memory) {
      assert r == ref || r in rest;
    }
  }

  lemma RefsValidAppend(lines: seq<Line>, id: string, a: seq<SourceRef>, b: seq<SourceRef>, memory: Memory)
    requires RefsValid(lines, id, a, memory) && RefsValid(lines, id, b, memory)
    ensures RefsValid(lines, id, a + b, memory)
  {
    forall ref | ref in a + b ensures RefValid(lines, id, ref, memory) {
      assert ref in a || ref in b;
    }
  }

  /** In a well-formed file, capturing visible messages succeeds, loses none and adds none. */
  lemma {:induction false} CaptureCovers(
    lines: seq<Line>, id: string, messages: seq<Record>, memory: Memory, offset: nat)
    requires WellFormed(lines, id) && offset <= |messages|
    requires Capturable(ReadRecords(lines), memory, messages)
    ensures
      var refs := Capture(lines, id, messages, memory, offset);
      && refs.Some?
      && RefNos(refs.value) == Nos(messages[offset..])
      && RefsValid(lines, id, refs.value, memory)
    decreases |messages| - offset
  {
    if offset < |messages| {
      var end := RunEnd(messages, offset, offset + 1);
      var run := messages[offset..end];
      var ref := SourceRef(id, Nos(run), run);
      CaptureRun(lines, id, messages, memory, offset);
      CaptureCovers(lines, id, messages, memory, end);
      var rest := Capture(lines, id, messages, memory, end).value;
      RefsValidPrepend(lines, id, ref, rest, memory);
      RefNosPrepend(ref, rest);
      SplitTail(messages, offset, end);
      NosAppend(run, messages[end..]);
    }
  }

  lemma NosAppend(a: seq<Record>, b: seq<Record>)
    ensures Nos(a + b) == Nos(a) + Nos(b)
  {
  }

  lemma CaptureRun(lines: seq<Line>, id: string, messages: seq<Record>, memory: Memory, offset: nat)
    requires WellFormed(lines, id) && offset < |messages|
    requires Capturable(ReadRecords(lines), memory, messages)
    ensures
      var end := RunEnd(messages, offset, offset + 1);
      var run := messages[offset..end];
      var ref := SourceRef(id, Nos(run), run);
      && Capture(lines, id, messages, memory, offset) == Prepend([ref], Capture(lines, id, messages, memory, end))
      && RefValid(lines, id, ref, memory)
  {
    var run := messages[offset..RunEnd(messages, offset, offset + 1)];
    RunAt(ReadRecords(lines), memory, messages, offset);
    RunSnapshot(lines, id, memory, run);
    RunValidates(lines, id, memory, run);
  }

  // ---- the runs are as long as they can be ----

  /** At least one position and at most 200. */
  predicate Sized(ref: SourceRef) { 1 <= |ref.seqs| <= 200 }

  /** The second snapshot could not have been part of the first. */
  predicate Apart(first: SourceRef, second: SourceRef)
  {
    first.seqs != [] && second.seqs != [] &&
      (|first.seqs| == 200 || second.seqs[0] != first.seqs[|first.seqs| - 1] + 1)
  }

  ghost predicate Tight(refs: seq<SourceRef>)
  {
    && (forall i :: 0 <= i < |refs| ==> Sized(refs[i]))
    && forall i :: 0 <= i < |refs| - 1 ==> Apart(refs[i], refs[i + 1])
  }

  lemma TightPrepend(ref: SourceRef, rest: seq<SourceRef>)
    requires Sized(ref) && Tight(rest) && (rest != [] ==> Apart(ref, rest[0]))
    ensures Tight([ref] + rest)
  {
    var refs := [ref] + rest;
    forall i | 0 <= i < |refs| - 1 ensures Apart(refs[i], refs[i + 1]) {
      if i > 0 { assert refs[i] == rest[i - 1] && refs[i + 1] == rest[i]; }
    }
  }

  /** The run of messages one snapshot is taken of, by its numbers. */
  lemma RunSpans(messages: seq<Record>, offset: nat, end: nat)
    requires AllMessages(messages) && offset < |messages| && end == RunEnd(messages, offset, offset + 1)
    ensures offset < end <= |messages| && |Nos(messages[offset..end])| == end - offset
    ensures forall i :: 0 <= i < |messages| ==> messages[i].Message?
    ensures Nos(messages[offset..end])[0] == messages[offset].no
    ensures Nos(messages[offset..end])[end - offset - 1] == messages[end - 1].no
    ensures end - offset <= 200
    ensures end < |messages| ==> end - offset == 200 || messages[end].no != messages[end - 1].no + 1
  {
    forall i | 0 <= i < |messages| ensures messages[i].Message? { assert messages[i] in messages; }
    RunIsConsecutive(messages, offset, offset + 1);
    RunIsLongest(messages, offset, offset + 1);
  }

  lemma CapturableAreMessages(records: seq<Record>, memory: Memory, messages: seq<Record>)
    requires Capturable(records, memory, messages)
    ensures AllMessages(messages)
  {
  }

  /** Snapshots are split only where the numbers are, or after 200 positions. */
  lemma {:induction false} CaptureIsTight(
    lines: seq<Line>, id: string, messages: seq<Record>, memory: Memory, offset: nat)
    requires WellFormed(lines, id) && offset <= |messages|
    requires Capturable(ReadRecords(lines), memory, messages)
    ensures
      var refs := Capture(lines, id, messages, memory, offset);
      && refs.Some? && Tight(refs.value)
      && (offset < |messages| ==>
            && refs.value != [] && refs.value[0].seqs != [] && messages[offset].Message?
            && refs.value[0].seqs[0] == messages[offset].no)
    decreases |messages| - offset
  {
    if offset < |messages| {
      hide Capturable, WellFormed, RunEnd, Tight, Nos, AllMessages;
      assert AllMessages(messages) by { CapturableAreMessages(ReadRecords(lines), memory, messages); }
      var end := RunEnd(messages, offset, offset + 1);
      var run := messages[offset..end];
      var ref := SourceRef(id, Nos(run), run);
      RunSpans(messages, offset, end);
      CaptureRun(lines, id, messages, memory, offset);
      CaptureIsTight(lines, id, messages, memory, end);
      hide Capture;
      TightPrepend(ref, Capture(lines, id, messages, memory, end).value);
    }
  }
}
