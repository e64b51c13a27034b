/** A session in which refreshing the live conversation drops a message that is still visible: an interrupted
    answer repeats, word for word, one that was taken back. */
module Echo {
  import opened Sequences
  import opened Records
  import opened Replay
  import opened SessionLog
  import opened Transcript
  import opened Coverage
  import opened Sessions
  import opened Dialogue
  import opened Refresh
  import opened LiveHistory
  import opened Straddling

  /** The beginning of an answer, kept when a run is cancelled. */
  function Partial(): Body { Body([], true, [], None, 1) }

  /** What is once in the file stays there. */
  lemma RecordStays(id: string, ops: seq<SessionOp>, r: Record, role: Role, body: Body)
    requires r in History(id, ops).Records()
    ensures r in History(id, ops + [Saying(role, body)]).Records()
  {
    HistoryMore(id, ops, Saying(role, body));
    ReadPut(History(id, ops), Said(History(id, ops).next, role, body));
  }

  lemma RecordStaysUndone(id: string, ops: seq<SessionOp>, r: Record)
    requires r in History(id, ops).Records()
    ensures r in History(id, ops + [SessionOp.Plainly(Undo)]).Records()
  {
    var log := History(id, ops);
    HistoryMore(id, ops, SessionOp.Plainly(Undo));
    UndoIsCut(log, LoadMessages(log.Records()));
    var messages := LoadMessages(log.Records());
    var user := LastUser(messages);
    if user.Some? { ReadPut(log, StoneFor(log.next, messages[user.value])); }
  }

  /** A request with an interrupted answer is taken back; the same request is interrupted at the same point. */
  lemma TwiceInterrupted(id: string) returns (ops: seq<SessionOp>)
    ensures Stage(id, ops, [Said(4, User, Words()), Said(5, Assistant, Partial())], {Window(0, 3)}, None, 6)
    ensures Said(2, Assistant, Partial()) in History(id, ops).Records()
  {
    hide Stage, History;
    var u, p, undo := Saying(User, Words()), Saying(Assistant, Partial()), SessionOp.Plainly(Undo);
    var gone := Said(2, Assistant, Partial());
    StageStart(id);
    StageSay(id, [], [], {}, None, 1, User, Words());
    StageSay(id, [] + [u], [] + [Said(1, User, Words())], {}, None, 2, Assistant, Partial());
    ops := [] + [u] + [p];
    LastIsThere(id, ops, [] + [Said(1, User, Words())], gone, {}, 3);
    StageUndo(id, ops, [], {}, Said(1, User, Words()), [gone], 3);
    RecordStaysUndone(id, ops, gone);
    ops := ops + [undo];
    assert {} + {Window(0, 3)} == {Window(0, 3)};
    StageSay(id, ops, [], {Window(0, 3)}, None, 4, User, Words());
    RecordStays(id, ops, gone, User, Words());
    ops := ops + [u];
    StageSay(id, ops, [] + [Said(4, User, Words())], {Window(0, 3)}, None, 5, Assistant, Partial());
    RecordStays(id, ops, gone, Assistant, Partial());
    ops := ops + [p];
    assert [] + [Said(4, User, Words())] + [Said(5, Assistant, Partial())]
      == [Said(4, User, Words()), Said(5, Assistant, Partial())];
  }

  lemma LastIsThere(
    id: string, ops: seq<SessionOp>, messages: seq<Record>, last: Record, windows: set<Window>, next: int)
    requires Stage(id, ops, messages + [last], windows, None, next)
    ensures last in History(id, ops).Records()
  {
    HistoryMessages(History(id, ops).Records());
    assert last in messages + [last];
  }

  lemma ReplayIs(id: string, ops: seq<SessionOp>, messages: seq<Record>, windows: set<Window>, next: int)
    requires Stage(id, ops, messages, windows, None, next)
    ensures VisibleMessages(History(id, ops).Records(), NOTHING_FORGOTTEN) == messages
    ensures LoadForModel(History(id, ops).lines, id, NOTHING_FORGOTTEN) == RawAll(messages)
  {
    AllIsVisible(History(id, ops).Records(), false);
    ReplayIsTail(History(id, ops), id, NOTHING_FORGOTTEN);
  }

  lemma PartialIsEchoed(lines: seq<Line>, id: string)
    requires Said(2, Assistant, Partial()) in ReadRecords(lines)
    requires VisibleMessages(ReadRecords(lines), NOTHING_FORGOTTEN)
          == [Said(4, User, Words()), Said(5, Assistant, Partial())]
    ensures
      var known, answer := KnownOf(lines, id, NOTHING_FORGOTTEN), Raw(Assistant, Words());
      answer in known.hidden && answer !in known.shown
  {
    var gone := Said(2, Assistant, Partial());
    assert AsRaw()(gone) == Raw(Assistant, Words());
    assert gone.no !in NosOf([Said(4, User, Words()), Said(5, Assistant, Partial())]);
  }

  /** The live conversation is exactly the replay, nothing has been forgotten, and yet refreshing it loses the
      visible answer. */
  lemma EchoIsDropped(id: string) returns (ops: seq<SessionOp>)
    ensures forall op :: op in ops ==> Allowed(op)
    ensures
      var lines := History(id, ops).lines;
      var replay := LoadForModel(lines, id, NOTHING_FORGOTTEN);
      && replay == [Raw(User, Words()), Raw(Assistant, Words())]
      && !NothingEchoed(KnownOf(lines, id, NOTHING_FORGOTTEN))
      && !Mirrors(Refreshed(replay, KnownOf(lines, id, NOTHING_FORGOTTEN)), replay)
  {
    hide KnownOf, LoadForModel, History, VisibleMessages, Refreshed;
    ops := TwiceInterrupted(id);
    var messages := [Said(4, User, Words()), Said(5, Assistant, Partial())];
    var lines := History(id, ops).lines;
    ReplayIs(id, ops, messages, {Window(0, 3)}, 6);
    assert RawAll(messages) == [Raw(User, Words()), Raw(Assistant, Words())];
    PartialIsEchoed(lines, id);
    AnswerLost(lines, id, LoadForModel(lines, id, NOTHING_FORGOTTEN));
  }

  lemma AnswerLost(lines: seq<Line>, id: string, replay: seq<Replayed>)
    requires replay == LoadForModel(lines, id, NOTHING_FORGOTTEN) == [Raw(User, Words()), Raw(Assistant, Words())]
    requires Raw(Assistant, Words()) in KnownOf(lines, id, NOTHING_FORGOTTEN).hidden
    requires Raw(Assistant, Words()) !in KnownOf(lines, id, NOTHING_FORGOTTEN).shown
    ensures !NothingEchoed(KnownOf(lines, id, NOTHING_FORGOTTEN))
    ensures !Mirrors(Refreshed(replay, KnownOf(lines, id, NOTHING_FORGOTTEN)), replay)
  {
    var known := KnownOf(lines, id, NOTHING_FORGOTTEN);
    assert replay[1] in known.replay && !Transient(replay[1]);
    RefreshKeepsMirror(replay, known);
  }
}
