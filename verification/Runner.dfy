/** The agent loop: requests, tool batches, queued input and compaction between turns. */
module Runner {
  import opened Sequences
  import opened Records
  import opened Replay
  import opened Pairing
  import opened SessionLog
  import opened Repair
  import opened Compaction
  import opened Sessions
  import opened Dialogue
  import opened Refresh
  import opened LiveHistory
  import opened AnswerText

  datatype Tokens = Tokens(input: nat, output: nat)

  datatype Finish = Stopped | Length

  /** Whether the loop compacts, and from what estimate on after the first turn. */
  datatype Threshold = Threshold(enabled: bool, midTurn: Option<int>)

  /** One assembled model response. */
  datatype Completed = Completed(content: string, calls: seq<Call>, finish: Finish, usage: Tokens)

  /** How one request ended. */
  datatype Attempt =
    | Answered(completed: Completed)
    | Failed(partial: Tokens, retryable: bool)
    | Limited(partial: Tokens)
    | Paused

  /** What a response is: a batch of tool calls, nothing, text the output limit cut short, or an answer. */
  predicate IsBatch(c: Completed) { c.calls != [] }

  predicate IsEmpty(c: Completed) { c.calls == [] && c.content == "" }

  predicate IsCut(c: Completed) { c.calls == [] && c.content != "" && c.finish.Length? }

  predicate IsComplete(c: Completed) { c.calls == [] && c.content != "" && c.finish.Stopped? }

  /** The text responses since the last tool batch. */
  function TextsOf(responses: seq<Completed>): seq<Piece>
  {
    if responses == [] then [] else
      var init, last := responses[..|responses| - 1], responses[|responses| - 1];
      if IsBatch(last) then []
      else if IsEmpty(last) then TextsOf(init)
      else TextsOf(init) + [Piece(last.content, IsCut(last))]
  }

  /** The empty responses since the last text; tool batches do not count. */
  function EmptiesOf(responses: seq<Completed>): nat
  {
    if responses == [] then 0 else
      var init, last := responses[..|responses| - 1], responses[|responses| - 1];
      if IsBatch(last) then EmptiesOf(init)
      else if IsEmpty(last) then EmptiesOf(init) + 1
      else 0
  }

  lemma OneMoreResponse(responses: seq<Completed>, c: Completed)
    ensures
      var more := responses + [c];
      && TextsOf(more) == (if IsBatch(c) then [] else if IsEmpty(c) then TextsOf(responses)
                           else TextsOf(responses) + [Piece(c.content, IsCut(c))])
      && EmptiesOf(more) == (if IsBatch(c) then EmptiesOf(responses)
                             else if IsEmpty(c) then EmptiesOf(responses) + 1 else 0)
  {
    assert (responses + [c])[..|responses|] == responses;
  }

  lemma NothingYet()
    ensures TextsOf([]) == [] && EmptiesOf([]) == 0 && FinalText([]) == "" && !AnyCut([])
    ensures Count([]) == Tally(0, 0, 0, 0, 0)
  {
  }

  lemma {:induction false} TextsHaveText(responses: seq<Completed>)
    ensures forall p :: p in TextsOf(responses) ==> p.text != ""
  {
    if responses != [] { TextsHaveText(responses[..|responses| - 1]); }
  }

  /** The text a run reports is its last answer exactly if nothing was cut short since the last tool batch or
      there was only this one answer; otherwise earlier text stands in front of it. */
  lemma ReportedTextIsLastAnswer(responses: seq<Completed>)
    ensures
      var texts := TextsOf(responses);
      && (FinalText(texts) == LastAnswer(texts) <==> !AnyCut(texts) || OneAnswer(texts))
      && EndsWith(FinalText(texts), LastAnswer(texts))
  {
    TextsHaveText(responses);
    FinalTextIsLastAnswer(TextsOf(responses));
  }

  /** How the tries of one request follow each other: only a failure worth retrying is retried, and it is
      retried until the attempts are used up. */
  ghost predicate Tried(before: seq<Attempt>, after: seq<Attempt>)
  {
    && |before| < |after| <= |before| + MAX_ATTEMPTS && before == after[..|before|]
    && (forall k :: |before| <= k < |after| - 1 ==> after[k].Failed? && after[k].retryable)
    && var last := after[|after| - 1];
    last.Failed? && last.retryable ==> |after| == |before| + MAX_ATTEMPTS
  }

  datatype StopReason = Done | MaxTurns | Empty | ContextOverflow | CostLimit | Raised

  /** What a run reports; `MemoryCall` is a compaction's own model call. */
  datatype Event =
    | LlmCall(turn: nat)
    | LlmResponse(turn: nat, usage: Tokens, completed: bool)
    | MemoryCall(usage: Tokens)
    | Queued(text: string)
    | ToolResult(callId: string)
    | Finished(reason: StopReason, turns: nat)

  const MAX_ATTEMPTS := 5
  const EMPTY_NUDGE_LIMIT := 3
  const EMPTY_NUDGE :=
    "Your last response was empty. Reply to the user now — either with a text answer or with tool calls."

  /** Token sums and counts over a run's events. */
  datatype Tally = Tally(input: nat, output: nat, completed: nat, calls: nat, tools: nat)

  function Add(t: Tally, e: Event): Tally
  {
    match e
    case LlmCall(_) => t.(calls := t.calls + 1)
    case LlmResponse(_, usage, completed) =>
      var more := if completed then 1 else 0;
      Tally(t.input + usage.input, t.output + usage.output, t.completed + more, t.calls, t.tools)
    case MemoryCall(usage) => t.(input := t.input + usage.input, output := t.output + usage.output)
    case ToolResult(_) => t.(tools := t.tools + 1)
    case Queued(_) => t
    case Finished(_, _) => t
  }

  function Count(events: seq<Event>): Tally
  {
    if events == [] then Tally(0, 0, 0, 0, 0) else Add(Count(events[..|events| - 1]), events[|events| - 1])
  }

  lemma ResultAnswers(call: Call, content: string)
    ensures
      var result := ResultMessage(call, content);
      CallsOf(result) == [] && Answers(result) == Some(call.id) && !IsSystem(result)
  {
  }

  function WithTools(t: Tally, n: nat): Tally { t.(tools := t.tools + n) }

  lemma PairsMore(results: seq<Replayed>, calls: seq<Call>, i: nat, result: Replayed)
    requires i < |calls| && Pairs(results, calls[..i])
    requires CallsOf(result) == [] && Answers(result) == Some(calls[i].id)
    ensures Pairs(results + [result], calls[..i + 1])
  {
  }

  lemma CountMore(events: seq<Event>, e: Event)
    ensures Count(events + [e]) == Add(Count(events), e)
  {
    assert (events + [e])[..|events|] == events;
  }

  function AssistantMessage(c: Completed): Replayed
  {
    Raw(Assistant, Body(c.content, false, c.calls, None, |c.content|))
  }

  function UserMessage(text: string): Replayed { Raw(User, Body(text, false, [], None, |text|)) }

  function SystemMessage(text: string): Replayed { Raw(System, Body(text, false, [], None, |text|)) }

  function ResultMessage(call: Call, content: string): Replayed
  {
    Raw(Tool, Body(content, false, [], Some(call.id), |content|))
  }

  /** A request: the conversation it carried, and whether that mirrored the file. */
  datatype Sent = Sent(history: seq<Replayed>, mirrored: bool)

  /** Every request whose conversation mirrored the file had a result for every call; without a slip, that
      is every request. */
  ghost predicate AllClosed(requests: seq<Sent>, slips: nat)
  {
    forall r :: r in requests ==> (r.mirrored ==> Outstanding(r.history) == []) && (slips == 0 ==> r.mirrored)
  }

  lemma OneMoreClosed(
    requests: seq<Sent>, slips: nat, history: seq<Replayed>, log: Log, id: string, memory: Memory, refreshes: bool)
    requires AllClosed(requests, slips) && Settled(history, log, id, memory, refreshes, slips)
    ensures AllClosed(requests + [Sent(history, Mirrors(history, LoadForModel(log.lines, id, memory)))], slips)
  {
    if Mirrors(history, LoadForModel(log.lines, id, memory)) { MirroredIsClosed(history, log, id, memory); }
  }

  /** Where a batch stands: the file holds what it held before, and then `more`. */
  ghost predicate Appended(log: Log, after: Log, id: string, memory: Memory, more: seq<Replayed>)
  {
    && Filed(after, memory)
    && Shown(after, memory) == Shown(log, memory) + more
    && LoadForModel(after.lines, id, memory) == LoadForModel(log.lines, id, memory) + more
  }

  lemma AppendedMore(
    log: Log, now: Log, after: Log, id: string, memory: Memory, more: seq<Replayed>, m: Replayed,
    generation: Option<int>)
    requires Appended(log, now, id, memory, more) && Storable(m, generation, memory)
    requires after == Put(now, RecordOf(now, m, generation))
    ensures Appended(log, after, id, memory, more + [m])
  {
    SaveGrows(now, m, generation, id, memory, after);
    Associative(Shown(log, memory), more, [m]);
    Associative(LoadForModel(log.lines, id, memory), more, [m]);
  }

  lemma AppendedNothing(
    history: seq<Replayed>, log: Log, id: string, memory: Memory, refreshes: bool, slips: nat)
    requires Settled(history, log, id, memory, refreshes, slips)
    ensures Appended(log, log, id, memory, [])
  {
    PlusNothing(Shown(log, memory), []);
    PlusNothing(LoadForModel(log.lines, id, memory), []);
  }

  lemma PromptIsTransient(text: string)
    ensures IsPrompt(SystemMessage(text)) && Transient(SystemMessage(text))
  {
  }

  lemma ContinueIsTransient()
    ensures Transient(UserMessage(CONTINUE_PROMPT))
  {
  }

  function Placeholder(): Replayed { SystemMessage("") }

  lemma PlaceholderIsTransient()
    ensures IsPrompt(Placeholder()) && Transient(Placeholder())
  {
    PromptIsTransient("");
  }

  function Start(replay: seq<Replayed>, prompts: seq<Replayed>, refreshes: bool): seq<Replayed>
  {
    var messages := prompts + replay;
    if refreshes && replay != [] && IsSystem(replay[0]) && messages[0] == replay[0] then [Placeholder()] + messages
    else messages
  }

  lemma StartSettled(log: Log, id: string, memory: Memory, prompts: seq<Replayed>, refreshes: bool)
    requires Filed(log, memory) && Outstanding(Shown(log, memory)) == []
    requires forall m :: m in prompts ==> IsPrompt(m) && Quiet(m)
    requires refreshes ==> prompts != [] || Summarized(log.lines, id, memory) > 0
    ensures Settled(Start(LoadForModel(log.lines, id, memory), prompts, refreshes), log, id, memory, refreshes, 0)
  {
    var replay := LoadForModel(log.lines, id, memory);
    ReplayIsTail(log, id, memory);
    StartMirrors(replay, prompts, refreshes);
    if refreshes { StartIsLed(replay, prompts); }
  }

  lemma StartMirrors(replay: seq<Replayed>, prompts: seq<Replayed>, refreshes: bool)
    requires forall m :: m in prompts ==> IsPrompt(m) && Quiet(m)
    ensures Mirrors(Start(replay, prompts, refreshes), replay)
  {
    FilterNone(prompts, IsLasting());
    LastingConcat(prompts, replay);
    PlaceholderIsTransient();
    LastingCons(Placeholder(), prompts + replay);
  }

  lemma StartIsLed(replay: seq<Replayed>, prompts: seq<Replayed>)
    requires forall m :: m in prompts ==> IsPrompt(m)
    requires prompts != [] || (replay != [] && replay[0].Summary?)
    ensures Led(Start(replay, prompts, true))
  {
    PlaceholderIsTransient();
    if prompts == [] { assert prompts + replay == replay; } else { assert (prompts + replay)[0] in prompts; }
  }

  /** Why a run ends when a request brings no response it can use. */
  function StopOf(outcome: Attempt): StopReason
  {
    match outcome
    case Failed(_, _) => Raised
    case Limited(_) => CostLimit
    case Paused => ContextOverflow
    case Answered(_) => ContextOverflow
  }

  /** The last try failed: for good, or for the fifth time in a row. */
  ghost predicate GaveUp(outcomes: seq<Attempt>)
    requires outcomes != []
  {
    var n := |outcomes|;
    && outcomes[n - 1].Failed?
    && (outcomes[n - 1].retryable ==>
          n >= MAX_ATTEMPTS && forall k :: n - MAX_ATTEMPTS <= k < n ==> outcomes[k].Failed? && outcomes[k].retryable)
  }

  lemma TriedGaveUp(before: seq<Attempt>, after: seq<Attempt>)
    requires Tried(before, after) && after[|after| - 1].Failed?
    ensures GaveUp(after)
  {
  }

  /** The note a run that ended without an answer leaves. */
  const STOPPED := OtherKind("run_stopped")

  lemma NotEmptyAnyMore(responses: seq<Completed>, c: Completed)
    ensures EmptiesOf(responses + [c]) <= EmptiesOf(responses) + if IsEmpty(c) then 1 else 0
  {
    OneMoreResponse(responses, c);
  }

  /** Nothing but queued messages has been reported since. */
  ghost predicate Delivered(before: seq<Event>, after: seq<Event>)
  {
    && |before| <= |after| && before == after[..|before|]
    && forall k :: |before| <= k < |after| ==> after[k].Queued?
  }

  /** The assistant's message, and one result per call. */
  ghost predicate Batched(before: seq<Replayed>, after: seq<Replayed>, c: Completed)
  {
    && |after| > |before| && before == after[..|before|] && after[|before|] == AssistantMessage(c)
    && Pairs(after[|before| + 1..], c.calls)
  }

  /** One run of the agent on its session file. `memory` is the forget state as last read; `slips` counts
      the steps that left the live conversation different from the saved one. The model, the tools, the
      queues and the estimator are nondeterministic. */
  class AgentRun {
    const id: string
    const refreshes: bool
    const budgeted: bool
    const compaction: Threshold
    var history: seq<Replayed>
    var log: Log
    var memory: Memory
    var events: seq<Event>
    var inputTokens: nat
    var outputTokens: nat
    var turns: nat
    var toolCalls: nat
    var emptyRetries: nat
    var finalText: string
    var continuing: bool
    ghost var requests: seq<Sent>
    ghost var slips: nat
    ghost var responses: seq<Completed>
    ghost var outcomes: seq<Attempt>

    ghost predicate Accounted()
      reads this
    {
      inputTokens == Count(events).input && outputTokens == Count(events).output
    }

    /** The text so far is made of the text responses since the last tool batch, and empty responses are
        counted. */
    ghost predicate Told()
      reads this
    {
      && finalText == FinalText(TextsOf(responses)) && (continuing <==> AnyCut(TextsOf(responses)))
      && emptyRetries == EmptiesOf(responses)
    }

    ghost predicate Steady()
      reads this
    {
      Accounted() && Ready()
    }

    ghost predicate Ready()
      reads this
    {
      Settled(history, log, id, memory, refreshes, slips)
    }

    ghost predicate Valid()
      reads this
    {
      AllClosed(requests, slips) && Steady()
    }

    /** A run starts from a repaired session, in which nothing is open, with the caller's prompts and the
        replay. A placeholder keeps a leading summary from being taken for the prompt. Who has the prompt
        refreshed hands one in, or a summary. */
    constructor (id: string, log: Log, memory: Memory, prompts: seq<Replayed>, refreshes: bool, budgeted: bool,
      compaction: Threshold)
      requires Filed(log, memory) && Outstanding(Shown(log, memory)) == []
      requires forall m :: m in prompts ==> IsPrompt(m) && Quiet(m)
      requires refreshes ==> prompts != [] || Summarized(log.lines, id, memory) > 0
      ensures turns == 0 && slips == 0 && responses == [] && Told() && forall maxTurns :: Running(maxTurns)
    {
      hide Settled, Filed, Start, Shown, LoadForModel, FinalText, TextsOf, EmptiesOf, AnyCut, Count;
      NothingYet();
      this.id, this.log, this.memory, this.refreshes := id, log, memory, refreshes;
      this.budgeted, this.compaction := budgeted, compaction;
      events, requests, outcomes, slips := [], [], [], 0;
      inputTokens, outputTokens, turns, toolCalls, emptyRetries := 0, 0, 0, 0, 0;
      finalText, continuing, responses := "", false, [];
      var replay := LoadForModel(log.lines, id, memory);
      StartSettled(log, id, memory, prompts, refreshes);
      this.history := Start(replay, prompts, refreshes);
    }

    method Emit(e: Event)
      modifies `events
      ensures events == old(events) + [e] && Count(events) == Add(Count(old(events)), e)
    {
      CountMore(events, e);
      events := events + [e];
    }

    method RecordUsage(turn: nat, usage: Tokens, completed: bool)
      requires Accounted()
      modifies `events, `inputTokens, `outputTokens
      ensures Accounted() && Count(events) == Add(Count(old(events)), LlmResponse(turn, usage, completed))
    {
      inputTokens, outputTokens := inputTokens + usage.input, outputTokens + usage.output;
      Emit(LlmResponse(turn, usage, completed));
    }

    /** One queued item, for both histories; what was derived carries the generation it came from. */
    method Deliver()
      requires Steady()
      modifies `history, `log, `events
      ensures Steady() && Count(events) == Count(old(events))
      ensures |events| == |old(events)| + 1 && events[..|old(events)|] == old(events) && events[|old(events)|].Queued?
    {
      hide Settled;
      var m, generation := Receive(memory);
      Keep(m, generation);
      Emit(Queued(m.body.content));
    }

    /** What arrives is up to the user, the background tasks and the workers. */
    static method Receive(memory: Memory) returns (m: Replayed, generation: Option<int>)
      ensures Quiet(m) && Storable(m, generation, memory)
    {
      var text: string := *;
      var derived: bool := *;
      m, generation := UserMessage(text), if derived then Some(memory.generation) else None;
    }

    /** A message for both histories that neither makes nor answers a call. */
    method Keep(m: Replayed, generation: Option<int>)
      requires Ready() && Quiet(m) && Storable(m, generation, memory)
      modifies `history, `log
      ensures Ready() && history == old(history) + [m] && log == Put(old(log), RecordOf(old(log), m, generation))
    {
      hide Settled;
      ghost var live, before := history, log;
      Save(m, generation);
      SettledSave(live, before, id, memory, refreshes, slips, m, generation, log);
      history := history + [m];
    }

    method Save(m: Replayed, generation: Option<int>)
      requires m.Raw?
      modifies `log
      ensures log == Put(old(log), RecordOf(old(log), m, generation))
    {
      log := Put(log, Message(log.next, m.role, m.body, Untagged, generation));
    }

    /** The usage of a failed call goes to the file. */
    method NoteUsage(kind: Kind)
      requires Steady() && UsageKind(kind)
      modifies `log
      ensures Steady() && log == Put(old(log), Record.Event(old(log).next, kind))
    {
      hide Settled;
      var noted := Put(log, Record.Event(log.next, kind));
      SettledNote(history, log, id, memory, refreshes, slips, kind, noted);
      log := noted;
    }

    /** Steered input, queued input, background results and worker messages all arrive like this. */
    method DrainQueues() returns (any: bool)
      requires Steady()
      modifies `history, `log, `events
      ensures Steady() && Count(events) == Count(old(events)) && Delivered(old(events), events)
      ensures any <==> events != old(events)
      ensures !any ==> history == old(history) && log == old(log)
    {
      hide Settled;
      any := false;
      var more: bool := *;
      var left: nat := *;
      while more && left > 0
        invariant Steady() && Count(events) == Count(old(events)) && Delivered(old(events), events)
        invariant any <==> events != old(events)
        invariant !any ==> history == old(history) && log == old(log)
      {
        Deliver();
        any, left := true, left - 1;
        more := *;
      }
    }

    method RefreshSystem()
      requires Ready()
      modifies `history
      ensures Ready()
    {
      hide Settled;
      if refreshes {
        var text: string := *;
        var prompt := SystemMessage(text);
        PromptIsTransient(text);
        SettledPrompt(history, log, id, memory, slips, prompt);
        history := WithPrompt(history, prompt);
      }
    }

    /** Reads the forget state again. If it has moved, or `force` asks for it, the live history is rebuilt
        from the replay; otherwise what the file hides is dropped. */
    method SyncMemory(force: bool) returns (ok: bool)
      requires Valid()
      modifies `history, `memory, `slips
      ensures Valid() && old(slips) <= slips <= old(slips) + 1
      ensures slips > old(slips) ==> !NothingEchoed(KnownOf(log.lines, id, memory))
      ensures !ok ==> history == old(history) && memory == old(memory)
      ensures ok && refreshes && (force || memory.generation != old(memory.generation)) ==>
        Mirrors(history, LoadForModel(log.lines, id, memory))
      ensures ok && !force && memory.generation == old(memory.generation) ==>
        memory == old(memory) && history == Refreshed(old(history), KnownOf(log.lines, id, memory))
    {
      hide Settled, KnownOf, NothingEchoed, Refreshed, LoadForModel, Mirrors;
      var now: Memory := *;
      var refused: bool := *;
      if refused { return false; }
      if !MayBecome(memory, now, log.next) { now := memory; }
      if force || now.generation != memory.generation {
        ResetHistory(now);
      } else {
        RefreshHistory();
      }
      return true;
    }

    method ResetHistory(now: Memory)
      requires Valid() && MayBecome(memory, now, log.next)
      modifies `history, `memory
      ensures Valid() && memory == now
      ensures refreshes ==> Mirrors(history, LoadForModel(log.lines, id, now))
    {
      hide Settled, KnownOf, Reset, WithPrompt, LoadForModel;
      var text: string := *;
      var known, prompt := KnownOf(log.lines, id, now), SystemMessage(text);
      PromptIsTransient(text);
      SettledReset(history, log, id, memory, now, refreshes, slips, prompt);
      history := if refreshes then WithPrompt(Reset(history, known), prompt) else Reset(history, known);
      memory := now;
    }

    method RefreshHistory()
      requires Valid()
      modifies `history, `slips
      ensures Valid() && history == Refreshed(old(history), KnownOf(log.lines, id, memory))
      ensures slips == old(slips) + if NothingEchoed(KnownOf(log.lines, id, memory)) then 0 else 1
    {
      hide Settled, KnownOf, NothingEchoed, Refreshed;
      var known := KnownOf(log.lines, id, memory);
      SettledRefresh(history, log, id, memory, refreshes, slips);
      if !NothingEchoed(known) { slips := slips + 1; }
      history := Refreshed(history, known);
    }

    /** The estimate has reached the threshold, which may be lower after the first turn. */
    predicate Due(estimated: nat, window: nat, headroom: nat)
      reads this
    {
      var limit := window - headroom;
      && compaction.enabled
      && estimated >= if turns >= 1 && compaction.midTurn.Some? && compaction.midTurn.value < limit
                      then compaction.midTurn.value else limit
    }

    /** The planned prefix has been summarized, in the file and in the live history. */
    ghost predicate Compacted(log0: Log, history0: seq<Replayed>, budget: int, summary: string)
      reads this
    {
      var plan := Prepare(log0.lines, id, memory, budget);
      && plan.Some? && Recordable(plan.value) && log == Put(log0, CompactEvent(plan.value, summary))
      && var replay := LoadForModel(log.lines, id, memory);
      replay != [] && history == Rebuilt(history0, LoadForModel(log0.lines, id, memory), replay)
    }

    /** Summarizes what the covered prefix allows, once it is due, or leaves everything alone; its model call
        is paid for either way. */
    method MaybeCompact(estimated: nat, window: nat, headroom: nat) returns (compacted: bool)
      requires Valid()
      modifies `history, `log, `events, `inputTokens, `outputTokens, `slips
      ensures Valid() && slips >= old(slips)
      ensures Count(events) == Count(old(events)).(input := inputTokens, output := outputTokens)
      ensures compacted ==>
        Due(estimated, window, headroom) && exists budget, summary :: Compacted(old(log), old(history), budget, summary)
      ensures !compacted ==> history == old(history) && slips == old(slips)
      ensures !compacted ==> log == old(log) || log == Put(old(log), Record.Event(old(log).next, MemoryUsage))
      ensures !Due(estimated, window, headroom) ==> log == old(log) && events == old(events)
    {
      hide Settled, Prepare, AllClosed, Recordable, Rebuilt, LoadForModel, StaysInStep, Count;
      var budget: int := *;
      if !compaction.enabled { return false; }
      var threshold := window - headroom;
      if compaction.midTurn.Some? && turns >= 1 && compaction.midTurn.value < threshold {
        threshold := compaction.midTurn.value;
      }
      if estimated < threshold { return false; }
      var prepared := Prepare(log.lines, id, memory, budget);
      var fits: bool := *;
      if prepared.None? || !fits { return false; }
      var summary := AskForSummary();
      if summary.None? {
        NoteUsage(MemoryUsage);
        return false;
      }
      ghost var before, live := log, history;
      Replace(budget, prepared.value, summary.value);
      assert Compacted(before, live, budget, summary.value);
      return true;
    }

    /** The model's summary, unless it failed or is no use; its tokens count in any case. */
    method AskForSummary() returns (summary: Option<string>)
      requires Accounted()
      modifies `events, `inputTokens, `outputTokens
      ensures Accounted()
      ensures Count(events) == Count(old(events)).(input := inputTokens, output := outputTokens)
    {
      hide Count;
      var input: nat, output: nat := *, *;
      inputTokens, outputTokens := inputTokens + input, outputTokens + output;
      Emit(MemoryCall(Tokens(input, output)));
      summary := Summarize();
    }

    /** What the model writes is up to it. */
    static method Summarize() returns (summary: Option<string>)
    {
      summary := *;
    }

    /** Records the summary, then takes the covered messages out of the live history, or what the loop
        takes for them. */
    method Replace(budget: int, plan: Plan, summary: string)
      requires Valid() && Prepare(log.lines, id, memory, budget) == Some(plan)
      modifies `history, `log, `slips
      ensures Valid()
      ensures Recordable(plan) && log == Put(old(log), CompactEvent(plan, summary))
      ensures plan.prefix[0].Message? && plan.prefix[|plan.prefix| - 1].Message?
      ensures slips == old(slips) + if StaysInStep(old(log), id, memory, plan) then 0 else 1
      ensures LoadForModel(log.lines, id, memory) != []
      ensures history
        == Rebuilt(old(history), LoadForModel(old(log).lines, id, memory), LoadForModel(log.lines, id, memory))
    {
      hide Settled, Prepare, LoadForModel, StaysInStep, Rebuilt;
      PreparedIsRecordable(log.lines, id, memory, budget, plan);
      var after := Put(log, CompactEvent(plan, summary));
      SettledCompact(history, log, id, memory, refreshes, slips, budget, plan, summary, after);
      var before, replay := LoadForModel(log.lines, id, memory), LoadForModel(after.lines, id, memory);
      if !StaysInStep(log, id, memory, plan) { slips := slips + 1; }
      history, log := Rebuilt(history, before, replay), after;
    }

    /** Sends the request, retrying what may be retried. A partial answer's tokens are counted too. */
    method StreamTurn(turn: nat) returns (outcome: Attempt)
      requires Valid()
      modifies `history, `log, `events, `inputTokens, `outputTokens, `requests, `outcomes
      ensures Valid() && outcomes != [] && Tried(old(outcomes), outcomes) && outcome == outcomes[|outcomes| - 1]
      ensures |requests| <= |old(requests)| + MAX_ATTEMPTS
      ensures |requests| == |old(requests)| + |outcomes| - |old(outcomes)| - if outcome.Paused? then 1 else 0
      ensures Count(events) == Count(old(events)).(input := inputTokens, output := outputTokens)
    {
      hide Settled, LoadForModel, Mirrors;
      var attempt := 0;
      while true
        invariant attempt < MAX_ATTEMPTS && |requests| == |old(requests)| + attempt
        invariant |outcomes| == |old(outcomes)| + attempt && old(outcomes) == outcomes[..|old(outcomes)|]
        invariant forall k :: |old(outcomes)| <= k < |outcomes| ==> outcomes[k].Failed? && outcomes[k].retryable
        invariant Valid()
        invariant Count(events) == Count(old(events)).(input := inputTokens, output := outputTokens)
        decreases MAX_ATTEMPTS - attempt
      {
        attempt := attempt + 1;
        RefreshSystem();
        outcome := *;
        outcomes := outcomes + [outcome];
        if outcome.Paused? { return; }
        OneMoreClosed(requests, slips, history, log, id, memory, refreshes);
        requests := requests + [Sent(history, Mirrors(history, LoadForModel(log.lines, id, memory)))];
        match outcome
        case Answered(_) => return;
        case Limited(partial) =>
          RecordUsage(turn, partial, false);
          return;
        case Failed(partial, retryable) =>
          NoteUsage(ProviderUsage);
          RecordUsage(turn, partial, false);
          if !retryable || attempt >= MAX_ATTEMPTS { return; }
      }
    }

    /** Runs the calls and saves one result for each, in call order; `start` and `more` say what the file
        held before and has gained so far. */
    method RunTools(calls: seq<Call>, ghost start: Log, ghost more: seq<Replayed>) returns (results: seq<Replayed>)
      requires Accounted() && Appended(start, log, id, memory, more)
      modifies `log, `events
      ensures Pairs(results, calls) && NoSystems(results)
      ensures Appended(start, log, id, memory, more + results)
      ensures Accounted() && Count(events) == WithTools(Count(old(events)), |calls|)
    {
      hide Appended;
      results := [];
      PlusNothing(more, results);
      for i := 0 to |calls|
        invariant Pairs(results, calls[..i]) && NoSystems(results)
        invariant Appended(start, log, id, memory, more + results)
        invariant Accounted() && Count(events) == WithTools(Count(old(events)), i)
      {
        var result := CallTool(calls[i]);
        RecordResult(calls[i], result, start, more + results);
        Associative(more, results, [result]);
        PairsMore(results, calls, i, result);
        results := results + [result];
      }
      assert calls[..|calls|] == calls;
    }

    /** What a tool answers is up to it; the result always carries the call's id. */
    method CallTool(call: Call) returns (result: Replayed)
      ensures CallsOf(result) == [] && Answers(result) == Some(call.id) && !IsSystem(result)
      ensures result.Raw? && !result.body.incomplete && result.role == Tool
    {
      var content: string := *;
      result := ResultMessage(call, content);
      ResultAnswers(call, content);
    }

    method RecordResult(call: Call, result: Replayed, ghost start: Log, ghost more: seq<Replayed>)
      requires Accounted() && Appended(start, log, id, memory, more)
      requires result.Raw? && !result.body.incomplete && result.role == Tool
      modifies `log, `events
      ensures Appended(start, log, id, memory, more + [result])
      ensures Accounted() && Count(events) == WithTools(Count(old(events)), 1)
    {
      hide Filed, Shown, LoadForModel;
      ghost var before := log;
      Save(result, Some(memory.generation));
      AppendedMore(start, before, log, id, memory, more, result, Some(memory.generation));
      Emit(ToolResult(call.id));
    }

    /** The assistant's message, then one result per call, before anything else is appended. */
    method RunBatch(completed: Completed)
      requires Steady()
      modifies `history, `log, `events
      ensures Steady() && Batched(old(history), history, completed)
      ensures Count(events) == WithTools(Count(old(events)), |completed.calls|)
    {
      hide Settled, Appended;
      var assistant := AssistantMessage(completed);
      ghost var live, before := history, log;
      AppendedNothing(history, log, id, memory, refreshes, slips);
      Save(assistant, Some(memory.generation));
      AppendedMore(before, before, log, id, memory, [], assistant, Some(memory.generation));
      var results := RunTools(completed.calls, before, [] + [assistant]);
      assert [] + [assistant] == [assistant];
      FinishBatch(live, before, assistant, completed.calls, results);
    }

    method FinishBatch(
      ghost live: seq<Replayed>, ghost before: Log, assistant: Replayed, calls: seq<Call>, results: seq<Replayed>)
      requires Accounted() && history == live && Settled(live, before, id, memory, refreshes, slips)
      requires !IsSystem(assistant) && CallsOf(assistant) == calls && Answers(assistant).None?
      requires Pairs(results, calls) && NoSystems(results)
      requires Appended(before, log, id, memory, [assistant] + results)
      modifies `history
      ensures Steady() && history == live + [assistant] + results
    {
      hide Settled, Filed, Shown, LoadForModel;
      Associative(Shown(before, memory), [assistant], results);
      Associative(LoadForModel(before.lines, id, memory), [assistant], results);
      SettledBatch(live, before, id, memory, refreshes, slips, assistant, calls, results, log);
      history := history + [assistant] + results;
    }

    method AppendAnswer(completed: Completed)
      requires Ready() && completed.calls == []
      modifies `history, `log
      ensures Ready() && history == old(history) + [AssistantMessage(completed)]
      ensures log == Put(old(log), RecordOf(old(log), AssistantMessage(completed), Some(memory.generation)))
    {
      hide Settled;
      Keep(AssistantMessage(completed), Some(memory.generation));
    }

    /** A prompt for the next turn only; it is not saved. */
    method Nudge(m: Replayed)
      requires Ready() && Transient(m)
      modifies `history
      ensures Ready() && history == old(history) + [m]
    {
      hide Settled;
      SettledTransient(history, log, id, memory, refreshes, slips, m);
      history := history + [m];
    }

    method AskToContinue()
      requires Ready()
      modifies `history
      ensures Ready() && history == old(history) + [UserMessage(CONTINUE_PROMPT)]
    {
      hide Settled;
      var prompt := UserMessage(CONTINUE_PROMPT);
      ContinueIsTransient();
      Nudge(prompt);
    }

    method AskAgain()
      requires Ready()
      modifies `history
      ensures Ready() && history == old(history) + [SystemMessage(EMPTY_NUDGE)]
    {
      hide Settled;
      var prompt := SystemMessage(EMPTY_NUDGE);
      PromptIsTransient(EMPTY_NUDGE);
      Nudge(prompt);
    }

    /** Compacts until the estimate stops falling. */
    method FitContext(window: nat, headroom: nat) returns (fits: bool, estimated: nat)
      requires Valid()
      modifies `history, `log, `events, `inputTokens, `outputTokens, `slips
      ensures Valid() && slips >= old(slips)
      ensures Count(events) == Count(old(events)).(input := inputTokens, output := outputTokens)
      ensures fits <==> estimated + headroom <= window
    {
      hide Settled;
      RefreshSystem();
      estimated := *;
      while true
        invariant Valid() && slips >= old(slips)
        invariant Count(events) == Count(old(events)).(input := inputTokens, output := outputTokens)
        decreases estimated
      {
        var compacted := MaybeCompact(estimated, window, headroom);
        if !compacted { break; }
        var updated: nat := *;
        if updated >= estimated {
          estimated := updated;
          break;
        }
        estimated := updated;
      }
      fits := estimated + headroom <= window;
    }

    /** The run's counters against its events, with a limit on turns; one below zero allows nothing. */
    ghost predicate Counted(maxTurns: int)
      reads this
    {
      var tally := Count(events);
      && Valid()
      && tally.completed == |responses| <= turns <= tally.calls <= (if maxTurns > 0 then maxTurns else 0)
      && |requests| <= MAX_ATTEMPTS * tally.calls
      && toolCalls == tally.tools
    }

    ghost predicate Running(maxTurns: int)
      reads this
    {
      Counted(maxTurns) && turns == Count(events).calls
    }

    /** A response has been counted, but not yet digested. */
    ghost predicate Answering(maxTurns: int)
      reads this
    {
      var tally := Count(events);
      && Valid()
      && tally.completed == |responses| + 1 <= turns == tally.calls <= maxTurns
      && |requests| <= MAX_ATTEMPTS * tally.calls
      && toolCalls == tally.tools
    }

    /** One request and its bookkeeping; without an answer, `stop` says why the run ends. */
    method Request(maxTurns: int) returns (answer: Option<Completed>, stop: StopReason)
      requires Running(maxTurns) && turns < maxTurns
      modifies `history, `log, `events, `inputTokens, `outputTokens, `requests, `turns, `outcomes
      ensures outcomes != [] && Tried(old(outcomes), outcomes)
      ensures answer.None? ==> Counted(maxTurns) && stop == StopOf(outcomes[|outcomes| - 1])
      ensures answer.Some? ==> Answering(maxTurns) && turns == old(turns) + 1
      ensures answer.Some? ==> outcomes[|outcomes| - 1] == Answered(answer.value)
    {
      hide Settled, Tried, Count, AllClosed, FinalText, TextsOf, EmptiesOf, AnyCut;
      Emit(LlmCall(turns + 1));
      var outcome := StreamTurn(turns + 1);
      if !outcome.Answered? {
        return None, if outcome.Paused? then ContextOverflow else if outcome.Limited? then CostLimit else Raised;
      }
      turns := turns + 1;
      var stale: bool := *;
      if stale { return None, ContextOverflow; }
      RecordUsage(turns, outcome.completed.usage, true);
      return Some(outcome.completed), ContextOverflow;
    }

    /** What a complete answer leads to: the end of the run, unless something queued came in meanwhile. */
    ghost predicate AfterComplete(
      stop: Option<StopReason>, maxTurns: int, events0: seq<Event>, history0: seq<Replayed>, c: Completed)
      reads this
    {
      && Delivered(events0, events)
      && (stop.None? ==> turns < maxTurns && events != events0)
      && (stop.Some? ==> events == events0 && history == history0 + [AssistantMessage(c)])
      && (stop.Some? ==> stop.value.Done? || (stop.value.MaxTurns? && turns >= maxTurns))
    }

    /** What the loop does with a response; `None` means another turn. */
    method Digest(completed: Completed, maxTurns: int) returns (stop: Option<StopReason>)
      requires Answering(maxTurns) && Told()
      modifies `history, `log, `events, `toolCalls, `emptyRetries, `finalText, `continuing, `responses
      ensures Running(maxTurns) && Told() && responses == old(responses) + [completed]
      ensures IsBatch(completed) ==> stop.None? && Batched(old(history), history, completed)
      ensures IsEmpty(completed) ==> AfterNothing(stop, old(history), completed)
      ensures IsCut(completed) ==> stop.None? && finalText != ""
      ensures IsCut(completed) ==>
        history == old(history) + [AssistantMessage(completed), UserMessage(CONTINUE_PROMPT)]
      ensures IsComplete(completed) ==>
        AfterComplete(stop, maxTurns, old(events), old(history), completed) && finalText != ""
      ensures !IsBatch(completed) && !IsComplete(completed) ==>
        log == Put(old(log), RecordOf(old(log), AssistantMessage(completed), Some(memory.generation)))
    {
      hide Settled, FinalText, TextsOf, EmptiesOf, AnyCut, Batched, Delivered, Count, Put, RecordOf;
      if completed.calls != [] {
        ForgetText(completed);
        RunBatch(completed);
        toolCalls := toolCalls + |completed.calls|;
        stop := None;
      } else {
        AppendAnswer(completed);
        if completed.content == "" {
          stop := DigestNothing(completed);
        } else {
          stop := DigestText(completed, maxTurns);
        }
      }
    }

    /** An empty response is asked about until the limit is passed. */
    ghost predicate AfterNothing(stop: Option<StopReason>, history0: seq<Replayed>, c: Completed)
      reads this
    {
      if EmptiesOf(responses) > EMPTY_NUDGE_LIMIT
      then stop == Some(Empty) && history == history0 + [AssistantMessage(c)]
      else stop.None? && history == history0 + [AssistantMessage(c), SystemMessage(EMPTY_NUDGE)]
    }

    /** A tool batch starts the text over. */
    method ForgetText(c: Completed)
      requires Told() && IsBatch(c)
      modifies `finalText, `continuing, `responses
      ensures Told() && responses == old(responses) + [c]
    {
      OneMoreResponse(responses, c);
      finalText, continuing, responses := "", false, responses + [c];
    }

    method AddText(c: Completed)
      requires Told() && (IsCut(c) || IsComplete(c))
      modifies `finalText, `continuing, `responses, `emptyRetries
      ensures Told() && responses == old(responses) + [c] && finalText != ""
    {
      ghost var pieces := TextsOf(responses);
      TextMore(pieces, Piece(c.content, IsCut(c)));
      CutMore(pieces, Piece(c.content, IsCut(c)));
      OneMoreResponse(responses, c);
      emptyRetries := 0;
      if c.finish.Length? {
        finalText := finalText + c.content;
        continuing := true;
      } else {
        finalText := (if continuing then finalText else "") + c.content;
      }
      responses := responses + [c];
    }

    method DigestNothing(c: Completed) returns (stop: Option<StopReason>)
      requires Ready() && Told() && IsEmpty(c)
      modifies `history, `emptyRetries, `responses
      ensures Ready() && Told() && responses == old(responses) + [c]
      ensures if EmptiesOf(responses) > EMPTY_NUDGE_LIMIT then stop == Some(Empty) && history == old(history)
        else stop.None? && history == old(history) + [SystemMessage(EMPTY_NUDGE)]
    {
      hide Settled;
      OneMoreResponse(responses, c);
      emptyRetries, responses := emptyRetries + 1, responses + [c];
      if emptyRetries > EMPTY_NUDGE_LIMIT {
        stop := Some(Empty);
      } else {
        AskAgain();
        stop := None;
      }
    }

    method DigestText(c: Completed, maxTurns: int) returns (stop: Option<StopReason>)
      requires Steady() && Told() && (IsCut(c) || IsComplete(c))
      modifies `history, `log, `events, `emptyRetries, `finalText, `continuing, `responses
      ensures Steady() && Told() && responses == old(responses) + [c] && finalText != ""
      ensures Count(events) == Count(old(events)) && Delivered(old(events), events)
      ensures IsCut(c) ==> stop.None? && log == old(log) && history == old(history) + [UserMessage(CONTINUE_PROMPT)]
      ensures IsComplete(c) && stop.None? ==> turns < maxTurns && events != old(events)
      ensures IsComplete(c) && stop.Some? ==> events == old(events) && history == old(history)
      ensures IsComplete(c) && stop.Some? ==> stop.value.Done? || (stop.value.MaxTurns? && turns >= maxTurns)
    {
      hide Settled, FinalText, Count, TextsOf, EmptiesOf, AnyCut;
      AddText(c);
      if c.finish.Length? {
        AskToContinue();
        stop := None;
      } else {
        stop := AfterAnswer(maxTurns);
      }
    }

    /** A final answer may still have to wait for queued input or for delegated work. */
    method AfterAnswer(maxTurns: int) returns (stop: Option<StopReason>)
      requires Steady()
      modifies `history, `log, `events
      ensures Steady() && Count(events) == Count(old(events)) && Delivered(old(events), events)
      ensures stop.None? ==> turns < maxTurns && events != old(events)
      ensures stop.Some? ==> events == old(events) && history == old(history)
      ensures stop.Some? ==> stop.value.Done? || (stop.value.MaxTurns? && turns >= maxTurns)
    {
      hide Settled;
      var workLeft: bool := *;
      stop := if turns >= maxTurns && workLeft then Some(MaxTurns) else Some(Done);
      if turns < maxTurns {
        var consumed := DrainQueues();
        if consumed { stop := None; }
      }
    }

    /** Between turns: queued input first, then the forget state. */
    method PrepareTurn(maxTurns: int) returns (ok: bool)
      requires Running(maxTurns)
      modifies `history, `log, `memory, `events, `slips
      ensures Running(maxTurns) && slips >= old(slips)
    {
      hide Settled;
      if turns > 0 { var _ := DrainQueues(); }
      ok := SyncMemory(false);
    }

    /** A run that is paused or hits the cost limit reports no text. */
    method Abandon()
      modifies `finalText
      ensures finalText == ""
    {
      finalText := "";
    }

    /** Reports why the run ended; anything but an answer is noted in the file. */
    method Finish(maxTurns: int, reason: StopReason)
      requires Counted(maxTurns)
      modifies `events, `log
      ensures Counted(maxTurns)
      ensures |events| > 0 && events[|events| - 1] == Finished(reason, turns)
      ensures log == if reason.Done? then old(log) else Put(old(log), Record.Event(old(log).next, STOPPED))
    {
      hide Settled;
      if !reason.Done? { NoteUsage(STOPPED); }
      Emit(Finished(reason, turns));
    }

    method GiveUp(failure: StopReason, maxTurns: int, ghost earlier: seq<Attempt>)
      requires outcomes != [] && Tried(earlier, outcomes) && failure == StopOf(outcomes[|outcomes| - 1])
      requires Counted(maxTurns)
      modifies `finalText
      ensures Counted(maxTurns) && Stopped(failure, maxTurns)
    {
      hide Settled, FinalText, TextsOf, EmptiesOf, AnyCut, Count, Tried, GaveUp;
      if failure.Raised? { TriedGaveUp(earlier, outcomes); } else { Abandon(); }
    }

    /** One round of the loop; `None` means another one. */
    method Turn(maxTurns: int, window: nat, headroom: nat) returns (stop: Option<StopReason>)
      requires Running(maxTurns) && Told() && turns < maxTurns && EmptiesOf(responses) <= EMPTY_NUDGE_LIMIT
      modifies this
      ensures Counted(maxTurns) && slips >= old(slips)
      ensures stop.None? ==> Running(maxTurns) && Told() && turns == old(turns) + 1
      ensures stop.None? ==> EmptiesOf(responses) <= EMPTY_NUDGE_LIMIT
      ensures stop.Some? ==> Stopped(stop.value, maxTurns)
    {
      hide Settled, FinalText, TextsOf, EmptiesOf, AnyCut, Batched, Delivered, Count, Tried, GaveUp;
      ghost var earlier, texts := outcomes, responses;
      var ok := PrepareTurn(maxTurns);
      if !ok {
        Abandon();
        return Some(ContextOverflow);
      }
      var fits, _ := FitContext(window, headroom);
      if !fits { return Some(ContextOverflow); }
      var answer, failure := Request(maxTurns);
      if answer.None? {
        GiveUp(failure, maxTurns, earlier);
        return Some(failure);
      }
      stop := Digest(answer.value, maxTurns);
      NotEmptyAnyMore(texts, answer.value);
    }

    /** What each reason to stop says about the responses and the text. */
    ghost predicate Stopped(reason: StopReason, maxTurns: int)
      reads this
    {
      match reason
      case Done => Told() && finalText != "" && responses != [] && IsComplete(responses[|responses| - 1])
      case MaxTurns => Told() && (maxTurns <= 0 || turns >= maxTurns)
      case Empty => Told() && EmptiesOf(responses) == EMPTY_NUDGE_LIMIT + 1
      case ContextOverflow => Told() || finalText == ""
      case CostLimit => finalText == "" && outcomes != [] && outcomes[|outcomes| - 1].Limited?
      case Raised => outcomes != [] && GaveUp(outcomes)
    }

    /** What happens before the first turn: whatever arrived meanwhile, then the forget state. */
    method Begin(maxTurns: int) returns (ok: bool)
      requires Running(maxTurns)
      modifies `history, `log, `memory, `events, `slips
      ensures Running(maxTurns) && slips >= old(slips)
    {
      hide Settled;
      var _ := DrainQueues();
      ok := SyncMemory(memory.generation > 0);
    }

    /** The outer loop. */
    method Loop(maxTurns: int, window: nat, headroom: nat) returns (reason: StopReason)
      requires Running(maxTurns) && Told() && turns == 0 && responses == []
      modifies this
      ensures Counted(maxTurns) && slips >= old(slips) && Stopped(reason, maxTurns)
    {
      hide Settled, FinalText, TextsOf;
      var ok := Begin(maxTurns);
      if !ok {
        Abandon();
        return ContextOverflow;
      }
      while turns < maxTurns
        invariant Running(maxTurns) && Told() && slips >= old(slips)
        invariant EmptiesOf(responses) <= EMPTY_NUDGE_LIMIT
        decreases maxTurns - turns
      {
        var stop := Turn(maxTurns, window, headroom);
        if stop.Some? { return stop.value; }
      }
      reason := MaxTurns;
    }

    /** The run: it ends, within its limit on turns, for a reason its responses bear out, and every token it
        reports was an event. Without a slip every request carried the saved conversation, with a result for
        every call. A crossed budget, or a forget while the run is being finished, changes the reason at the
        last moment; only without a budget can what was reported differ from it. */
    method Run(maxTurns: int, window: nat, headroom: nat) returns (reason: StopReason)
      requires Running(maxTurns) && Told() && turns == 0 && responses == []
      modifies this
      ensures Counted(maxTurns) && slips >= old(slips)
      ensures slips == 0 ==> forall r :: r in requests ==> r.mirrored && Outstanding(r.history) == []
      ensures Stopped(reason, maxTurns) || (reason.CostLimit? && budgeted)
      ensures !reason.Raised? ==> events != [] && events[|events| - 1].Finished?
      ensures !reason.Raised? && events[|events| - 1] != Finished(reason, turns) ==>
        !budgeted && reason.ContextOverflow? && finalText == ""
    {
      hide Settled, FinalText, TextsOf, EmptiesOf, Count;
      reason := Loop(maxTurns, window, headroom);
      if reason.Raised? { return; }
      var crossed: bool, moved: bool, crossedLater: bool := *, *, *;
      if budgeted && crossed { reason := CostLimit; }
      if !budgeted { Finish(maxTurns, reason); }
      if moved {
        Abandon();
        reason := ContextOverflow;
      }
      if budgeted {
        if crossedLater { reason := CostLimit; }
        Finish(maxTurns, reason);
      }
    }
  }
}
