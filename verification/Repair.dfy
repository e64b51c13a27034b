/** Answering the tool calls an interrupted run left open. */
module Repair {
  import opened Sequences
  import opened Records
  import opened Replay
  import opened SessionLog
  import opened Pairing
  import opened Growth

  const INTERRUPTED := "Worker interrupted; tool outcome unknown. Inspect state before retrying."

  function AnswerBody(call: Call): Body { Body(INTERRUPTED, false, [], Some(call.id), |INTERRUPTED|) }

  function Answer(call: Call): Replayed { Raw(Tool, AnswerBody(call)) }

  function AnswersTo(calls: seq<Call>): seq<Replayed> { Map(calls, Answer) }

  function AnswerOp(call: Call): Op { Say(Tool, AnswerBody(call), Untagged, None) }

  function AnswerAll(log: Log, calls: seq<Call>): Log
  {
    if calls == [] then log else Apply(AnswerAll(log, calls[..|calls| - 1]), AnswerOp(calls[|calls| - 1]))
  }

  /** The log after the repair: one result for every call the replay leaves open. */
  function Repaired(log: Log, id: string, memory: Memory): Log
  {
    AnswerAll(log, Outstanding(LoadForModel(log.lines, id, memory)))
  }

  /** A session as the store hands it out. */
  predicate Ready(log: Log, memory: Memory)
  {
    && Below(log.Records(), log.next) && HasMeta(log.Records()) && Grounded(log.Records(), log.next)
    && forall n :: n in memory.excluded ==> n < log.next
  }

  // ---- one result ----

  lemma GroundedGrows(records: seq<Record>, m: Record)
    requires m.Message? && Grounded(records, m.no)
    ensures Grounded(records + [m], m.no + 1)
  {
    LastsGrow(records, m);
    var latest := LastCompact(records);
    if latest.Some? && latest.value.kind.data.refs.Some? {
      forall ref, n | ref in latest.value.kind.data.refs.value && n in ref.seqs ensures n < m.no + 1 {}
    }
  }

  lemma ReadyGrows(log: Log, m: Record, memory: Memory)
    requires Ready(log, memory) && m.Message? && m.no == log.next
    ensures Ready(Put(log, m), memory)
  {
    var records := log.Records();
    assert (log.lines + [Parsed(m)])[..|log.lines|] == log.lines;
    assert Put(log, m).Records() == records + [m];
    var meta :| meta in records && meta.Meta?;
    assert meta in records + [m];
    GroundedGrows(records, m);
  }

  /** One result is seen at generation 0 and hidden at any later one. */
  lemma AnswerAppears(log: Log, call: Call, id: string, memory: Memory)
    requires Ready(log, memory)
    ensures Ready(Apply(log, AnswerOp(call)), memory)
    ensures memory.generation == 0 ==>
      LoadForModel(Apply(log, AnswerOp(call)).lines, id, memory) == LoadForModel(log.lines, id, memory) + [Answer(call)]
    ensures memory.generation != 0 ==>
      LoadForModel(Apply(log, AnswerOp(call)).lines, id, memory) == LoadForModel(log.lines, id, memory)
  {
    var m := Message(log.next, Tool, AnswerBody(call), Untagged, None);
    ReadyGrows(log, m, memory);
    FreshIsSeen(log.Records(), m, memory);
    ReplayGrows(log.lines, m, id, memory);
    assert AsRaw()(m) == Answer(call);
  }

  lemma {:induction false} AnswersReady(log: Log, calls: seq<Call>, memory: Memory)
    requires Ready(log, memory)
    ensures Ready(AnswerAll(log, calls), memory)
  {
    if calls != [] {
      var before, last := AnswerAll(log, calls[..|calls| - 1]), calls[|calls| - 1];
      AnswersReady(log, calls[..|calls| - 1], memory);
      ReadyGrows(before, Message(before.next, Tool, AnswerBody(last), Untagged, None), memory);
    }
  }

  lemma OneMoreAnswer(history: seq<Replayed>, calls: seq<Call>)
    requires calls != []
    ensures
      var init, last := calls[..|calls| - 1], calls[|calls| - 1];
      history + AnswersTo(calls) == history + AnswersTo(init) + [Answer(last)]
  {
    assert AnswersTo(calls) == AnswersTo(calls[..|calls| - 1]) + [Answer(calls[|calls| - 1])];
  }

  lemma {:induction false} AnswersAppear(log: Log, calls: seq<Call>, id: string, memory: Memory)
    requires Ready(log, memory) && memory.generation == 0
    ensures
      LoadForModel(AnswerAll(log, calls).lines, id, memory) == LoadForModel(log.lines, id, memory) + AnswersTo(calls)
  {
    if calls != [] {
      var init, last := calls[..|calls| - 1], calls[|calls| - 1];
      AnswersAppear(log, init, id, memory);
      AnswersReady(log, init, memory);
      AnswerAppears(AnswerAll(log, init), last, id, memory);
      OneMoreAnswer(LoadForModel(log.lines, id, memory), calls);
    } else {
      PlusNothing(LoadForModel(log.lines, id, memory), AnswersTo(calls));
    }
  }

  lemma {:induction false} AnswersAreHidden(log: Log, calls: seq<Call>, id: string, memory: Memory)
    requires Ready(log, memory) && memory.generation != 0
    ensures LoadForModel(AnswerAll(log, calls).lines, id, memory) == LoadForModel(log.lines, id, memory)
  {
    if calls != [] {
      var init, last := calls[..|calls| - 1], calls[|calls| - 1];
      AnswersAreHidden(log, init, id, memory);
      AnswersReady(log, init, memory);
      AnswerAppears(AnswerAll(log, init), last, id, memory);
    }
  }

  // ---- what results close ----

  /** One result for each call, in order. */
  ghost predicate Pairs(results: seq<Replayed>, calls: seq<Call>)
  {
    && |results| == |calls|
    && forall k :: 0 <= k < |calls| ==> CallsOf(results[k]) == [] && Answers(results[k]) == Some(calls[k].id)
  }

  /** Results close exactly the calls they answer. */
  lemma {:induction false} ResultsClose(open: seq<Call>, results: seq<Replayed>, calls: seq<Call>)
    requires Pairs(results, calls)
    ensures Ids(OutstandingFrom(open, results)) == Ids(open) - Ids(calls)
  {
    if calls != [] {
      var init, last := calls[..|calls| - 1], calls[|calls| - 1];
      ResultsClose(open, results[..|results| - 1], init);
      assert calls == init + [last];
      assert forall c :: c in calls <==> c in init || c == last;
      assert Ids(calls) == Ids(init) + {last.id};
    } else {
      assert Ids(calls) == {};
    }
  }

  lemma AnswersClose(open: seq<Call>, calls: seq<Call>)
    ensures Ids(OutstandingFrom(open, AnswersTo(calls))) == Ids(open) - Ids(calls)
  {
    ResultsClose(open, AnswersTo(calls), calls);
  }

  // ---- the repair ----

  /** The repair pairs every open call exactly when the session has not forgotten anything yet: later
      on its results belong to an old generation, and the model never sees them. */
  lemma RepairClosesExactlyAtGenerationZero(log: Log, id: string, memory: Memory)
    requires Ready(log, memory)
    ensures
      var open := Outstanding(LoadForModel(log.lines, id, memory));
      var after := LoadForModel(Repaired(log, id, memory).lines, id, memory);
      && (Outstanding(after) == [] <==> open == [] || memory.generation == 0)
      && (memory.generation == 0 ==> after == LoadForModel(log.lines, id, memory) + AnswersTo(open))
      && (memory.generation != 0 ==> after == LoadForModel(log.lines, id, memory))
  {
    var replay := LoadForModel(log.lines, id, memory);
    var open := Outstanding(replay);
    if memory.generation != 0 {
      AnswersAreHidden(log, open, id, memory);
    } else {
      AnswersAppear(log, open, id, memory);
      OutstandingAppend([], replay, AnswersTo(open));
      AnswersClose(open, open);
      NothingOpen(OutstandingFrom(open, AnswersTo(open)));
    }
  }

  lemma {:induction false} OneLineEach(log: Log, calls: seq<Call>)
    ensures |AnswerAll(log, calls).lines| == |log.lines| + |calls|
  {
    if calls != [] { OneLineEach(log, calls[..|calls| - 1]); }
  }

  /** Repairing again writes nothing under the same condition; otherwise it writes every result again. */
  lemma RepairIsIdempotent(log: Log, id: string, memory: Memory)
    requires Ready(log, memory)
    ensures
      var open := Outstanding(LoadForModel(log.lines, id, memory));
      var once := Repaired(log, id, memory);
      Repaired(once, id, memory) == once <==> open == [] || memory.generation == 0
  {
    var open := Outstanding(LoadForModel(log.lines, id, memory));
    var once := Repaired(log, id, memory);
    RepairClosesExactlyAtGenerationZero(log, id, memory);
    OneLineEach(once, Outstanding(LoadForModel(once.lines, id, memory)));
  }

  predicate UniqueIds(calls: seq<Call>)
  {
    forall i, j :: 0 <= i < j < |calls| ==> calls[i].id != calls[j].id
  }

  lemma {:induction false} AssignKeepsUnique(open: seq<Call>, call: Call)
    requires UniqueIds(open)
    ensures UniqueIds(Assign(open, call))
  {
    if open != [] && open[0].id != call.id {
      var rest := Assign(open[1..], call);
      AssignKeepsUnique(open[1..], call);
      forall j | 0 <= j < |rest| ensures open[0].id != rest[j].id {
        assert rest[j].id in Ids(rest);
        if rest[j].id != call.id {
          var c :| c in open[1..] && c.id == rest[j].id;
        }
      }
    }
  }

  lemma {:induction false} AssignAllKeepsUnique(open: seq<Call>, calls: seq<Call>)
    requires UniqueIds(open)
    ensures UniqueIds(AssignAll(open, calls))
    decreases |calls|
  {
    if calls != [] {
      AssignKeepsUnique(open, calls[0]);
      AssignAllKeepsUnique(Assign(open, calls[0]), calls[1..]);
    }
  }

  lemma DropKeepsUnique(open: seq<Call>, id: Option<string>)
    requires UniqueIds(open)
    ensures UniqueIds(Drop(open, id))
  {
    if id.Some? {
      FilterPairs(open, (c: Call) => c.id != id.value, (a: Call, b: Call) => a.id != b.id);
    }
  }

  lemma {:induction false} OutstandingIsUnique(history: seq<Replayed>)
    ensures UniqueIds(Outstanding(history))
  {
    if history != [] {
      var m, before := history[|history| - 1], history[..|history| - 1];
      OutstandingIsUnique(before);
      AssignAllKeepsUnique(Outstanding(before), CallsOf(m));
      DropKeepsUnique(AssignAll(Outstanding(before), CallsOf(m)), Answers(m));
    }
  }

  /** Every result of the repair answers a call that is still open, so the replay stays well paired. */
  lemma RepairLeavesNoOrphans(replay: seq<Replayed>)
    requires NoOrphans(replay)
    ensures NoOrphans(replay + AnswersTo(Outstanding(replay)))
  {
    var open := Outstanding(replay);
    var answers := AnswersTo(open);
    var all := replay + answers;
    OutstandingIsUnique(replay);
    forall j | 0 <= j < |all| && Answers(all[j]).Some? ensures Answers(all[j]).value in Ids(Outstanding(all[..j])) {
      if j < |replay| {
        assert all[..j] == replay[..j];
      } else {
        var k := j - |replay|;
        assert all[..j] == replay + AnswersTo(open[..k]);
        OutstandingAppend([], replay, AnswersTo(open[..k]));
        AnswersClose(open, open[..k]);
        assert open[k].id in Ids(open);
        assert open[k].id !in Ids(open[..k]);
      }
    }
  }

  // ---- the repair as it runs, with a live history beside the file ----

  function IsLive(live: set<string>): Call -> bool { (c: Call) => c.id in live }

  function LiveAnswers(open: seq<Call>, live: set<string>): seq<Replayed>
  {
    AnswersTo(Filter(open, IsLive(live)))
  }

  lemma LiveStep(history: seq<Replayed>, open: seq<Call>, i: nat, live: set<string>)
    requires i < |open|
    ensures open[i].id in live ==>
      history + LiveAnswers(open[..i + 1], live) == history + LiveAnswers(open[..i], live) + [Answer(open[i])]
    ensures open[i].id !in live ==> LiveAnswers(open[..i + 1], live) == LiveAnswers(open[..i], live)
  {
    var p := IsLive(live);
    assert open[..i + 1] == open[..i] + [open[i]];
    if open[i].id in live {
      FilterTakes(open[..i], open[i], p);
      var chosen := Filter(open[..i + 1], p);
      assert chosen[..|chosen| - 1] == Filter(open[..i], p) && chosen[|chosen| - 1] == open[i];
      OneMoreAnswer(history, chosen);
    } else {
      FilterSkips(open[..i], open[i], p);
    }
  }

  /** Where the loop is after `i` results. */
  ghost predicate Answered(
    start: Log, now: Log, history: seq<Replayed>, live: seq<Replayed>, open: seq<Call>, wanted: set<string>, i: nat)
    requires i <= |open|
  {
    now == AnswerAll(start, open[..i]) && live == history + LiveAnswers(open[..i], wanted)
  }

  lemma AnsweredStep(
    start: Log, now: Log, history: seq<Replayed>, live: seq<Replayed>, open: seq<Call>, wanted: set<string>, i: nat)
    requires i < |open| && Answered(start, now, history, live, open, wanted, i)
    ensures Answered(start, Apply(now, AnswerOp(open[i])), history,
              if open[i].id in wanted then live + [Answer(open[i])] else live, open, wanted, i + 1)
  {
    assert open[..i + 1][..i] == open[..i];
    LiveStep(history, open, i, wanted);
  }

  lemma AnsweredStart(start: Log, history: seq<Replayed>, open: seq<Call>, wanted: set<string>)
    ensures Answered(start, start, history, history, open, wanted, 0)
  {
    PlusNothing(history, LiveAnswers(open[..0], wanted));
  }

  method AnswerOpen(file: SessionFile, open: seq<Call>, wanted: set<string>, history: seq<Replayed>)
    returns (live: seq<Replayed>)
    modifies file
    ensures file.Contents() == AnswerAll(old(file.Contents()), open)
    ensures live == history + LiveAnswers(open, wanted)
  {
    ghost var start := file.Contents();
    live := history;
    AnsweredStart(start, history, open, wanted);
    for i := 0 to |open|
      invariant Answered(start, file.Contents(), history, live, open, wanted, i)
    {
      AnsweredStep(start, file.Contents(), history, live, open, wanted, i);
      var _ := file.AppendMessage(Tool, AnswerBody(open[i]), Untagged, None);
      if open[i].id in wanted { live := live + [Answer(open[i])]; }
    }
    assert open[..|open|] == open;
  }

  method RepairInterruptedTools(file: SessionFile, id: string, memory: Memory, history: seq<Replayed>)
    returns (live: seq<Replayed>)
    modifies file
    ensures file.Contents() == Repaired(old(file.Contents()), id, memory)
    ensures live == history + LiveAnswers(
      Outstanding(LoadForModel(old(file.lines), id, memory)), Ids(Outstanding(history)))
  {
    live := AnswerOpen(file, Outstanding(LoadForModel(file.lines, id, memory)), Ids(Outstanding(history)), history);
  }

  /** The live history is closed too, exactly when the file knows every call it left open. */
  lemma LiveHistoryCloses(history: seq<Replayed>, open: seq<Call>)
    ensures
      var wanted := Ids(Outstanding(history));
      Outstanding(history + LiveAnswers(open, wanted)) == [] <==> wanted <= Ids(open)
  {
    var left := Outstanding(history);
    var wanted := Ids(left);
    var p := IsLive(wanted);
    var chosen := Filter(open, p);
    FilterIn(open, p);
    OutstandingAppend([], history, AnswersTo(chosen));
    AnswersClose(left, chosen);
    NothingOpen(Outstanding(history + AnswersTo(chosen)));
    assert Ids(chosen) <= Ids(open);
    assert wanted <= Ids(open) ==> wanted <= Ids(chosen);
  }
}
