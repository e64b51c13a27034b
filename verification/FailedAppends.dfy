/** Appends that fail: the handle's number moves only after an append has succeeded, so a line that reached
    the file nevertheless leaves it behind. */
module FailedAppends {
  import opened Sequences
  import opened Records
  import opened SessionLog
  import opened Transcript

  /** A record before it has its number. */
  datatype Payload =
    | OfMessage(role: Role, body: Body, tag: Tag, generation: Option<int>)
    | OfEvent(kind: Kind)
    | OfTombstone(upTo: int)

  function Stamp(p: Payload, no: int): (r: Record)
    ensures !r.Meta? && r.no == no
  {
    match p
    case OfMessage(role, body, tag, generation) => Message(no, role, body, tag, generation)
    case OfEvent(kind) => Event(no, kind)
    case OfTombstone(upTo) => Tombstone(no, upTo)
  }

  /** What a failed append left in the file. */
  datatype Left = NoTrace | TornLine | WholeLine

  /** `Resync` reads the number back from the file: reopening does, and so does a flush that has forget
      markers to deliver, or a compaction. */
  datatype Act = Append(payload: Payload) | AppendFails(payload: Payload, left: Left) | Resync

  function Step(log: Log, act: Act): Log
  {
    match act
    case Append(payload) => Put(log, Stamp(payload, log.next))
    case AppendFails(payload, NoTrace) => log
    case AppendFails(payload, TornLine) => Log(log.lines + [Corrupt], log.next)
    case AppendFails(payload, WholeLine) => Log(log.lines + [Parsed(Stamp(payload, log.next))], log.next)
    case Resync => Reopen(log.lines)
  }

  function RunActs(id: string, acts: seq<Act>): Log
  {
    if acts == [] then Create(id) else Step(RunActs(id, acts[..|acts| - 1]), acts[|acts| - 1])
  }

  /** The append failed, but its line is there. */
  predicate Lands(act: Act) { act.AppendFails? && act.left.WholeLine? }

  /** A whole line reaches the file. */
  predicate Writes(act: Act) { act.Append? || Lands(act) }

  /** The number was read back between two acts. */
  predicate Resynced(acts: seq<Act>, i: int, j: int)
  {
    exists k :: 0 <= i < k < j <= |acts| && acts[k].Resync?
  }

  /** Some landed failure has not been followed by reading the number back. */
  predicate Stale(acts: seq<Act>)
  {
    exists i :: 0 <= i < |acts| && Lands(acts[i]) && !Resynced(acts, i, |acts|)
  }

  /** Between a landed failure and the next written line the number is always read back. */
  predicate Careful(acts: seq<Act>)
  {
    forall i, j :: 0 <= i < j < |acts| && Lands(acts[i]) && Writes(acts[j]) ==> Resynced(acts, i, j)
  }

  // ---- one more act ----

  lemma ResyncedEarlier(init: seq<Act>, last: Act, i: nat, j: nat)
    requires j <= |init|
    ensures Resynced(init + [last], i, j) <==> Resynced(init, i, j)
  {
    var acts := init + [last];
    if Resynced(acts, i, j) {
      var k :| 0 <= i < k < j <= |acts| && acts[k].Resync?;
      assert init[k] == acts[k];
    }
    if Resynced(init, i, j) {
      var k :| 0 <= i < k < j <= |init| && init[k].Resync?;
      assert acts[k] == init[k];
    }
  }

  lemma ResyncedLast(init: seq<Act>, last: Act, i: nat)
    requires i < |init|
    ensures Resynced(init + [last], i, |init| + 1) <==> Resynced(init, i, |init|) || last.Resync?
  {
    var acts := init + [last];
    assert acts[|init|] == last;
    ResyncedEarlier(init, last, i, |init|);
    if Resynced(acts, i, |init| + 1) && !last.Resync? {
      var k :| 0 <= i < k < |init| + 1 <= |acts| && acts[k].Resync?;
      assert k < |init|;
    }
    if Resynced(acts, i, |init|) {
      var k :| 0 <= i < k < |init| <= |acts| && acts[k].Resync?;
      assert k < |init| + 1;
    }
  }

  lemma StaleLast(init: seq<Act>, last: Act)
    ensures Stale(init + [last]) <==> Lands(last) || (Stale(init) && !last.Resync?)
  {
    var acts := init + [last];
    assert acts[|init|] == last && |acts| == |init| + 1;
    assert !Resynced(acts, |init|, |acts|);
    forall i: nat | i < |init|
      ensures acts[i] == init[i] && (Resynced(acts, i, |acts|) <==> Resynced(init, i, |init|) || last.Resync?)
    {
      ResyncedLast(init, last, i);
    }
  }

  lemma CarefulLast(init: seq<Act>, last: Act)
    ensures Careful(init + [last]) <==> Careful(init) && !(Stale(init) && Writes(last))
  {
    var acts := init + [last];
    assert acts[|init|] == last;
    forall i: nat, j: nat | i < j <= |init|
      ensures acts[i] == init[i] && (Resynced(acts, i, j) <==> Resynced(init, i, j))
    {
      ResyncedEarlier(init, last, i, j);
    }
    assert forall j :: 0 <= j < |init| ==> acts[j] == init[j];
  }

  // ---- what the file looks like ----

  /** The handle's number is free, or was taken by the line of a failed append. */
  ghost predicate Tracks(log: Log, stale: bool)
  {
    var records := log.Records();
    && Increasing(records)
    && (if stale then log.next + 1 == NextNo(records) && exists r :: r in records && !r.Meta? && r.no == log.next
        else log.next == NextNo(records))
  }

  lemma ReadLine(lines: seq<Line>, line: Line)
    ensures ReadRecords(lines + [line]) == ReadRecords(lines) + (if line.Parsed? then [line.record] else [])
  {
    assert (lines + [line])[..|lines|] == lines;
  }

  lemma FreshLine(records: seq<Record>, r: Record)
    requires Increasing(records) && !r.Meta? && r.no == NextNo(records)
    ensures Increasing(records + [r]) && NextNo(records + [r]) == r.no + 1
  {
    NextNoIsFresh(records);
    IncreasingAppend(records, r);
    NextAfter(records, r);
  }

  lemma StepTracks(log: Log, stale: bool, act: Act)
    requires Tracks(log, stale) && !(stale && Writes(act))
    ensures Tracks(Step(log, act), Lands(act) || (stale && !act.Resync?))
  {
    var records := log.Records();
    match act
    case Append(payload) =>
      ReadPut(log, Stamp(payload, log.next));
      FreshLine(records, Stamp(payload, log.next));
    case AppendFails(payload, TornLine) =>
      ReadLine(log.lines, Corrupt);
      PlusNothing(records, []);
    case AppendFails(payload, WholeLine) =>
      var r := Stamp(payload, log.next);
      ReadLine(log.lines, Parsed(r));
      FreshLine(records, r);
      assert r in records + [r];
    case AppendFails(payload, NoTrace) =>
    case Resync =>
  }

  /** A number already taken is given out again. */
  lemma StepRepeats(log: Log, act: Act)
    requires Tracks(log, true) && Writes(act)
    ensures !Increasing(Step(log, act).Records())
  {
    var records, r := log.Records(), Stamp(act.payload, log.next);
    ReadLine(log.lines, Parsed(r));
    var taken :| taken in records && !taken.Meta? && taken.no == log.next;
    var i :| 0 <= i < |records| && records[i] == taken;
    var more := records + [r];
    assert more[i] == taken && more[|records|] == r;
  }

  lemma NeverHeals(log: Log, act: Act)
    requires !Increasing(log.Records())
    ensures !Increasing(Step(log, act).Records())
  {
    var records, after := log.Records(), Step(log, act).Records();
    if act.Append? || act.AppendFails? {
      ReadLine(log.lines, Parsed(Stamp(act.payload, log.next)));
      ReadLine(log.lines, Corrupt);
    }
    var i, j :| 0 <= i < j < |records| && !records[i].Meta? && !records[j].Meta? && records[i].no >= records[j].no;
    assert after[i] == records[i] && after[j] == records[j];
  }

  lemma StartTracks(id: string)
    ensures Tracks(Create(id), false)
  {
    CreateReads(id);
    NothingSound([Meta(id)], Meta(id));
  }

  lemma {:induction false} CarefulTracks(id: string, acts: seq<Act>)
    ensures Careful(acts) ==> Tracks(RunActs(id, acts), Stale(acts))
    ensures !Careful(acts) ==> !Increasing(RunActs(id, acts).Records())
  {
    if acts == [] {
      StartTracks(id);
    } else {
      var init, last := acts[..|acts| - 1], acts[|acts| - 1];
      assert acts == init + [last];
      CarefulTracks(id, init);
      CarefulLast(init, last);
      StaleLast(init, last);
      var log := RunActs(id, init);
      if !Careful(init) {
        NeverHeals(log, last);
      } else if Stale(init) && Writes(last) {
        StepRepeats(log, last);
      } else {
        StepTracks(log, Stale(init), last);
      }
    }
  }

  /** Whatever fails and whatever a failure leaves behind: the numbers in a file rise strictly if and only if
      the number was read back between every landed failure and the next line written. */
  lemma NumbersRiseExactlyWhenCareful(id: string, acts: seq<Act>)
    ensures Increasing(RunActs(id, acts).Records()) <==> Careful(acts)
  {
    CarefulTracks(id, acts);
  }

  /** A message whose append fails after its line is written, and the next message, share a number. */
  lemma NumberIsReused(id: string, a: Payload, b: Payload)
    ensures !Increasing(RunActs(id, [AppendFails(a, WholeLine), Append(b)]).Records())
    ensures Increasing(RunActs(id, [AppendFails(a, WholeLine), Resync, Append(b)]).Records())
  {
    var short, long := [AppendFails(a, WholeLine), Append(b)], [AppendFails(a, WholeLine), Resync, Append(b)];
    assert Lands(short[0]) && Writes(short[1]);
    assert long[1].Resync?;
    NumbersRiseExactlyWhenCareful(id, short);
    NumbersRiseExactlyWhenCareful(id, long);
  }
}
