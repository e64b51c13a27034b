/** A session interrupted in the middle of a tool call after something had been forgotten: the repair
    answers the call over and over, and the model never sees an answer. */
module Interrupted {
  import opened Sequences
  import opened Records
  import opened Replay
  import opened SessionLog
  import opened Transcript
  import opened Pairing
  import opened Repair
  import opened Sessions
  import opened LiveHistory

  /** The forget state after one fact from another session has been forgotten. */
  const FORGOTTEN_ONCE := Memory({}, 1)

  function Request(): Replayed { Raw(User, Body([], false, [], None, 1)) }
  function ToolCall(): Replayed { Raw(Assistant, Body([], false, [Call([], [])], None, 1)) }

  /** One request, and the call the model made before the run was interrupted. */
  function Interruption(): seq<Op>
  {
    [Say(Request().role, Request().body, Untagged, None), Say(ToolCall().role, ToolCall().body, Untagged, Some(1))]
  }

  lemma NothingShown(log: Log, meta: Record)
    requires log.Records() == [meta] && meta.Meta?
    ensures Shown(log, FORGOTTEN_ONCE) == []
  {
    FilterNone([meta], SeenBy(LensOf([meta], FORGOTTEN_ONCE, Working, false)));
  }

  lemma NothingReplayed(log: Log, id: string, meta: Record)
    requires log.Records() == [meta] && meta.Meta?
    ensures LoadForModel(log.lines, id, FORGOTTEN_ONCE) == []
  {
    hide LoadForModel, WorkingSummary;
    NothingShown(log, meta);
    ReplayIsTail(log, id, FORGOTTEN_ONCE);
  }

  lemma StartIsFiled(id: string)
    ensures Filed(Create(id), FORGOTTEN_ONCE)
  {
    hide WellKept;
    CreateIsWellKept(id);
    CreateReads(id);
  }

  lemma TwoSteps(log: Log, ops: seq<Op>)
    requires |ops| == 2
    ensures Run(log, ops) == Apply(Apply(log, ops[0]), ops[1])
  {
    assert ops[..1][..0] == [];
    assert Run(log, ops[..1]) == Apply(log, ops[0]);
  }

  lemma SayIsSave(log: Log, m: Replayed, generation: Option<int>)
    requires m.Raw?
    ensures Apply(log, Say(m.role, m.body, Untagged, generation)) == Put(log, RecordOf(log, m, generation))
  {
  }

  lemma InterruptedReplay(id: string)
    ensures
      var log := Run(Create(id), Interruption());
      && Filed(log, FORGOTTEN_ONCE)
      && LoadForModel(log.lines, id, FORGOTTEN_ONCE) == [Request(), ToolCall()]
  {
    hide Filed, LoadForModel, Apply;
    var start, ops := Create(id), Interruption();
    CreateReads(id);
    StartIsFiled(id);
    NothingReplayed(start, id, Meta(id));
    TwoSteps(start, ops);
    var one := Apply(start, ops[0]);
    SayIsSave(start, Request(), None);
    SayIsSave(one, ToolCall(), Some(1));
    SaveGrows(start, Request(), None, id, FORGOTTEN_ONCE, one);
    SaveGrows(one, ToolCall(), Some(1), id, FORGOTTEN_ONCE, Apply(one, ops[1]));
    assert [] + [Request()] + [ToolCall()] == [Request(), ToolCall()];
  }

  /** A message that does not concern calls, then one that makes a call. */
  lemma OpenAfter(first: Replayed, second: Replayed, call: Call)
    requires CallsOf(first) == [] && Answers(first).None?
    requires CallsOf(second) == [call] && Answers(second).None?
    ensures Outstanding([first, second]) == [call]
  {
    assert [] + [first] == [first] && [first] + [second] == [first, second];
    OutstandingLast([], [], first);
    OutstandingLast([], [first], second);
  }

  lemma CallIsOpen(replay: seq<Replayed>)
    requires replay == [Request(), ToolCall()]
    ensures Outstanding(replay) != []
  {
    hide Outstanding;
    OpenAfter(Request(), ToolCall(), Call([], []));
  }

  /** The call stays open whatever the repair writes, and the next repair writes its answer again. */
  lemma RepairIsNeverSeen(id: string)
    ensures
      var log := Run(Create(id), Interruption());
      var once := Repaired(log, id, FORGOTTEN_ONCE);
      && Outstanding(LoadForModel(log.lines, id, FORGOTTEN_ONCE)) != []
      && Outstanding(LoadForModel(once.lines, id, FORGOTTEN_ONCE)) != []
      && Repaired(once, id, FORGOTTEN_ONCE) != once
  {
    hide Repaired, LoadForModel, Outstanding;
    var log := Run(Create(id), Interruption());
    InterruptedReplay(id);
    CallIsOpen([Request(), ToolCall()]);
    WellKeptIsReady(log, FORGOTTEN_ONCE);
    RepairClosesExactlyAtGenerationZero(log, id, FORGOTTEN_ONCE);
    RepairIsIdempotent(log, id, FORGOTTEN_ONCE);
  }
}
