/** The records of a session file. A digest is modelled by the very value it digests, so that it
    is injective and nothing else. */
module Records {
  import opened Sequences
  import Facts

  datatype Role = User | Assistant | Tool | System | OtherRole(name: string)

  datatype Call = Call(id: string, name: string)

  /** A chat message; `size` is the byte length of its encoded transcript line. */
  datatype Body = Body(content: string, incomplete: bool, calls: seq<Call>, callId: Option<string>, size: nat)

  /** The delivery identity a message record's usage field may carry. */
  datatype Tag = Untagged | Inbox(id: nat) | Notification(noteId: nat)

  datatype SourceRef = SourceRef(sessionId: string, seqs: seq<int>, digest: seq<Record>)

  /** A compact event's identity: its sequence number and the digest of the whole event. */
  datatype Identity = Identity(no: int, digest: Record)

  datatype CompactData = CompactData(
    summary: string,
    keepFrom: int,
    range: Option<(int, int)>,
    refs: Option<seq<SourceRef>>,
    prior: Option<Identity>)

  datatype Kind =
    | Redo(cancels: Option<int>)
    | Clear
    | Compact(data: CompactData)
    | Forget(factId: Facts.FactId)
    | MemoryUsage
    | ProviderUsage
    | RestorePoint(at: int)
    | WorkerInbox(inboxId: nat, text: string)
    | OtherKind(name: string)

  datatype Record =
    | Meta(id: string)
    | Message(no: int, role: Role, body: Body, tag: Tag, generation: Option<int>)
    | Event(no: int, kind: Kind)
    | Tombstone(no: int, upTo: int)

  /** One line of the file: a record, or text that does not parse as one. */
  datatype Line = Parsed(record: Record) | Corrupt

  /** What a tolerant reader sees: corrupt lines are skipped. */
  function ReadRecords(lines: seq<Line>): (records: seq<Record>)
  {
    if lines == [] then [] else
      var last := lines[|lines| - 1];
      ReadRecords(lines[..|lines| - 1]) + (if last.Parsed? then [last.record] else [])
  }

  /** The highest sequence number in use. */
  function MaxNo(records: seq<Record>): (m: Option<int>)
  {
    if records == [] then None else
      var last := records[|records| - 1];
      var rest := MaxNo(records[..|records| - 1]);
      if last.Meta? then rest
      else if rest.Some? && rest.value > last.no then rest
      else Some(last.no)
  }

  /** The number the next appended record gets. */
  function NextNo(records: seq<Record>): (n: int)
  {
    match MaxNo(records)
    case None => 1
    case Some(m) => m + 1
  }

  /** Sequence numbers rise strictly in file order. */
  predicate Increasing(records: seq<Record>)
  {
    forall i, j :: 0 <= i < j < |records| && !records[i].Meta? && !records[j].Meta? ==>
      records[i].no < records[j].no
  }

  /** Every sequence number in use is below `n`. */
  predicate Below(records: seq<Record>, n: int)
  {
    forall r :: r in records && !r.Meta? ==> r.no < n
  }

  lemma {:induction false} ReadAppend(lines: seq<Line>, more: seq<Line>)
    ensures ReadRecords(lines + more) == ReadRecords(lines) + ReadRecords(more)
  {
    if more == [] {
      assert lines + more == lines;
    } else {
      var init := more[..|more| - 1];
      assert (lines + more)[..|lines + more| - 1] == lines + init;
      ReadAppend(lines, init);
    }
  }

  /** The number given to a new record is above every number in the file. */
  lemma {:induction false} NextNoIsFresh(records: seq<Record>)
    ensures Below(records, NextNo(records))
    ensures MaxNo(records).None? ==> forall r :: r in records ==> r.Meta?
  {
    if records != [] {
      var init, last := records[..|records| - 1], records[|records| - 1];
      assert records == init + [last];
      NextNoIsFresh(init);
    }
  }

  lemma {:induction false} MaxBelow(records: seq<Record>, n: int)
    requires Below(records, n)
    ensures MaxNo(records).Some? ==> MaxNo(records).value < n
  {
    if records != [] {
      var init, last := records[..|records| - 1], records[|records| - 1];
      assert records == init + [last];
      MaxBelow(init, n);
    }
  }

  lemma IncreasingAppend(records: seq<Record>, r: Record)
    requires Increasing(records)
    requires r.Meta? || Below(records, r.no)
    ensures Increasing(records + [r])
  {
    var more := records + [r];
    forall i, j | 0 <= i < j < |more| && !more[i].Meta? && !more[j].Meta?
      ensures more[i].no < more[j].no
    {
      assert more[i] == records[i] && records[i] in records;
    }
  }
}
