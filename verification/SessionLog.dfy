/** The append-only session file: every change, undo included, is one more record. */
module SessionLog {
  import opened Sequences
  import opened Records
  import opened Replay

  /** The file's lines and the open handle's next sequence number. */
  datatype Log = Log(lines: seq<Line>, next: int)
  {
    function Records(): seq<Record> { ReadRecords(lines) }
  }

  datatype Op =
    | Say(role: Role, body: Body, tag: Tag, generation: Option<int>)
    | Undo
    | Redo
    | Rewind(to: int)
    | Note(kind: Kind)
    | CrashMidWrite

  function Put(log: Log, r: Record): Log
    requires !r.Meta?
  {
    Log(log.lines + [Parsed(r)], r.no + 1)
  }

  function Create(id: string): Log { Log([Parsed(Meta(id))], 1) }

  /** Opening a file reads the numbers in use from the records that parse. */
  function Reopen(lines: seq<Line>): Log { Log(lines, NextNo(ReadRecords(lines))) }

  function LastUser(messages: seq<Record>): (u: Option<nat>)
    ensures u.Some? ==> u.value < |messages| && messages[u.value].Message? && messages[u.value].role == User
    ensures u.Some? ==> forall i :: u.value < i < |messages| && messages[i].Message? ==> messages[i].role != User
    ensures u.None? ==> forall i :: 0 <= i < |messages| && messages[i].Message? ==> messages[i].role != User
  {
    if messages == [] then None else
      var last := |messages| - 1;
      if messages[last].Message? && messages[last].role == User then Some(last)
      else LastUser(messages[..last])
  }

  /** Usage and forget records, which may follow an undo without consuming the redo. */
  predicate IsUsage(r: Record)
  {
    r.Event? && (r.kind.MemoryUsage? || r.kind.ProviderUsage? || r.kind.Forget?)
  }

  function Significant(records: seq<Record>): seq<Record>
  {
    Filter(records, (r: Record) => !IsUsage(r))
  }

  predicate CanRedo(records: seq<Record>)
  {
    var kept := Significant(records);
    && kept != []
    && kept[|kept| - 1].Tombstone?
    && kept[|kept| - 1].no !in CancelledNos(records)
  }

  /** The log after one operation. */
  function Apply(log: Log, op: Op): Log
  {
    var records := log.Records();
    match op
    case Say(role, body, tag, generation) => Put(log, Message(log.next, role, body, tag, generation))
    case Note(kind) => Put(log, Event(log.next, kind))
    case Undo =>
      var messages := LoadMessages(records);
      var user := LastUser(messages);
      if user.None? then log else Put(log, Tombstone(log.next, messages[user.value].no - 1))
    case Redo =>
      var kept := Significant(records);
      if CanRedo(records) then Put(log, Event(log.next, Kind.Redo(Some(kept[|kept| - 1].no)))) else log
    case Rewind(to) =>
      Put(Put(log, Event(log.next, RestorePoint(to))), Tombstone(log.next + 1, to))
    case CrashMidWrite => Reopen(log.lines + [Corrupt])
  }

  function Run(log: Log, ops: seq<Op>): Log
  {
    if ops == [] then log else Apply(Run(log, ops[..|ops| - 1]), ops[|ops| - 1])
  }

  /** An open session file with its handle; the methods are the store's. */
  class SessionFile {
    var lines: seq<Line>
    var next: int

    ghost function Contents(): Log
      reads this
    {
      Log(lines, next)
    }

    constructor (id: string)
      ensures Contents() == Create(id)
    {
      lines, next := [Parsed(Meta(id))], 1;
    }

    method Append(r: Record)
      requires !r.Meta?
      modifies this
      ensures Contents() == Put(old(Contents()), r)
    {
      lines := lines + [Parsed(r)];
      next := r.no + 1;
    }

    method AppendMessage(role: Role, body: Body, tag: Tag, generation: Option<int>) returns (r: Record)
      modifies this
      ensures Contents() == Apply(old(Contents()), Say(role, body, tag, generation))
      ensures r == Message(old(next), role, body, tag, generation)
    {
      r := Message(next, role, body, tag, generation);
      Append(r);
    }

    method AppendEvent(kind: Kind) returns (r: Record)
      modifies this
      ensures Contents() == Apply(old(Contents()), Note(kind))
      ensures r == Event(old(next), kind)
    {
      r := Event(next, kind);
      Append(r);
    }

    /** Hide the last user turn: the user message and everything after it. */
    method UndoLastTurn() returns (r: Option<Record>)
      modifies this
      ensures Contents() == Apply(old(Contents()), Undo)
      ensures r.None? <==> forall m :: m in LoadMessages(old(Contents()).Records()) && m.Message? ==> m.role != User
    {
      var messages := LoadMessages(ReadRecords(lines));
      ghost var user := LastUser(messages);
      var i := |messages|;
      while i > 0
        invariant 0 <= i <= |messages|
        invariant forall k :: i <= k < |messages| && messages[k].Message? ==> messages[k].role != User
      {
        i := i - 1;
        if messages[i].Message? && messages[i].role == User {
          assert messages[i] in messages;
          assert user == Some(i);
          var t := Tombstone(next, messages[i].no - 1);
          Append(t);
          return Some(t);
        }
      }
      assert user.None?;
      r := None;
    }

    /** Cancel the latest tombstone, unless something but usage records followed it. */
    method RedoLast() returns (done: bool)
      modifies this
      ensures Contents() == Apply(old(Contents()), Op.Redo)
      ensures done <==> CanRedo(old(Contents()).Records())
    {
      var records := ReadRecords(lines);
      var kept := Significant(records);
      if kept == [] || !kept[|kept| - 1].Tombstone? || kept[|kept| - 1].no in CancelledNos(records) {
        return false;
      }
      var _ := AppendEvent(Kind.Redo(Some(kept[|kept| - 1].no)));
      return true;
    }

    /** Hide everything after `to`, leaving a restore point first. */
    method RewindTo(to: int) returns (r: Record)
      modifies this
      ensures Contents() == Apply(old(Contents()), Rewind(to))
    {
      var _ := AppendEvent(RestorePoint(to));
      r := Tombstone(next, to);
      Append(r);
    }
  }
}
