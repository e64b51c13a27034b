/** The live conversation of a run against its session file: saving, compacting and forgetting. */
module LiveHistory {
  import opened Sequences
  import opened Records
  import opened Replay
  import opened ReplayLaws
  import opened Extension
  import opened SessionLog
  import opened Transcript
  import opened Pairing
  import opened Compaction
  import opened Growth
  import opened Repair
  import opened Sessions
  import opened KeptTail
  import opened Dialogue
  import opened Refresh

  /** Messages as the agent saves them: no system messages, users make no calls, and nothing claims a
      generation that is still to come. */
  predicate Agentic(records: seq<Record>, generation: int)
  {
    && generation >= 0
    && forall r :: r in records && r.Message? ==>
         && r.role != System && (r.role == User ==> r.body.calls == [])
         && (r.generation.Some? ==> r.generation.value <= generation)
  }

  ghost predicate Filed(log: Log, memory: Memory)
  {
    WellKept(log) && Excludes(memory, log.next) && Agentic(log.Records(), memory.generation)
  }

  /** Everything the session still shows, as if nothing had been summarized. */
  function Shown(log: Log, memory: Memory): seq<Replayed> { RawAll(VisibleMessages(log.Records(), memory)) }

  /** How many messages the working summary stands for; 0 without one. */
  function Summarized(lines: seq<Line>, id: string, memory: Memory): nat
  {
    match WorkingSummary(lines, id, memory)
    case None => 0
    case Some(s) => |RefNos(s.kind.data.refs.value)|
  }

  // ---- the shape of a replay ----

  lemma RawAllTail(messages: seq<Record>, k: nat)
    requires k <= |messages|
    ensures RawAll(messages[k..]) == RawAll(messages)[k..]
  {
  }

  /** The replay is everything shown, or one summary and what it does not stand for. */
  lemma ReplayIsTail(log: Log, id: string, memory: Memory)
    ensures
      var s := Summarized(log.lines, id, memory);
      var replay, shown := LoadForModel(log.lines, id, memory), Shown(log, memory);
      && s <= |shown|
      && (s == 0 <==> WorkingSummary(log.lines, id, memory).None?)
      && (s == 0 ==> replay == shown)
      && (s > 0 ==> replay != [] && replay[0].Summary? && replay == [replay[0]] + shown[s..])
  {
    ReplayPartitionsVisible(log.lines, id, memory);
    var s := Summarized(log.lines, id, memory);
    if s > 0 { RawAllTail(VisibleMessages(log.Records(), memory), s); }
  }

  lemma ShownIsPlain(log: Log, memory: Memory)
    requires Agentic(log.Records(), memory.generation)
    ensures NoSystems(Shown(log, memory))
  {
    VisibleAreMessages(log.Records(), memory, Working, false);
    var visible := VisibleMessages(log.Records(), memory);
    forall m | m in RawAll(visible) ensures !IsSystem(m) {
      var i :| 0 <= i < |visible| && RawAll(visible)[i] == m;
      assert visible[i] in visible;
    }
  }

  lemma ReplayHasShape(log: Log, id: string, memory: Memory)
    requires Agentic(log.Records(), memory.generation)
    ensures ReplayShape(LoadForModel(log.lines, id, memory))
  {
    ReplayIsTail(log, id, memory);
    ShownIsPlain(log, memory);
    var s := Summarized(log.lines, id, memory);
    if s > 0 {
      var replay, rest := LoadForModel(log.lines, id, memory), Shown(log, memory)[s..];
      assert replay[1..] == rest;
      assert NoSystems(rest);
    }
  }

  /** When nothing shown is left open, nothing replayed is: a summary takes both halves of what it covers,
      or at worst a call whose result stays. */
  lemma ClosedReplay(log: Log, id: string, memory: Memory)
    requires Outstanding(Shown(log, memory)) == []
    ensures Outstanding(LoadForModel(log.lines, id, memory)) == []
  {
    ReplayIsTail(log, id, memory);
    var s, shown := Summarized(log.lines, id, memory), Shown(log, memory);
    if s > 0 {
      TakeDrop(shown, s);
      TailIsPaired(shown[..s], shown[s..]);
      SummaryIsNoCall(LoadForModel(log.lines, id, memory)[0], shown[s..]);
    }
  }

  // ---- saving ----

  /** A message as the agent saves it: a user's own words without a generation, anything else with the
      current one. */
  predicate Storable(m: Replayed, generation: Option<int>, memory: Memory)
  {
    && m.Raw? && !m.body.incomplete && m.role != System && (m.role == User ==> m.body.calls == [])
    && (generation == Some(memory.generation) || (generation.None? && m.role == User))
  }

  function RecordOf(log: Log, m: Replayed, generation: Option<int>): Record
    requires m.Raw?
  {
    Message(log.next, m.role, m.body, Untagged, generation)
  }

  lemma AgenticGrows(records: seq<Record>, r: Record, generation: int)
    requires Agentic(records, generation)
    requires r.Message? ==> r.role != System && (r.role == User ==> r.body.calls == [])
    requires r.Message? && r.generation.Some? ==> r.generation.value <= generation
    ensures Agentic(records + [r], generation)
  {
  }

  /** A saved message is shown and replayed, after everything else. */
  lemma SaveGrows(log: Log, m: Replayed, generation: Option<int>, id: string, memory: Memory, after: Log)
    requires Filed(log, memory) && Storable(m, generation, memory)
    requires after == Put(log, RecordOf(log, m, generation))
    ensures Filed(after, memory)
    ensures Shown(after, memory) == Shown(log, memory) + [m]
    ensures LoadForModel(after.lines, id, memory) == LoadForModel(log.lines, id, memory) + [m]
  {
    var r := RecordOf(log, m, generation);
    PutKeeps(log, r);
    ReadPut(log, r);
    AgenticGrows(log.Records(), r, memory.generation);
    FreshIsSeen(log.Records(), r, memory);
    VisibleGrows(log.Records(), r, memory);
    RawAllAppend(VisibleMessages(log.Records(), memory), r);
    ReplayGrows(log.lines, r, id, memory);
    assert AsRaw()(r) == m;
  }

  // ---- bookkeeping ----

  /** The usage of a call that came to nothing, or a note replay does not look at. */
  predicate UsageKind(kind: Kind) { kind.MemoryUsage? || kind.ProviderUsage? || kind.OtherKind? }

  lemma EventContinues(records: seq<Record>, e: Record)
    requires e.Event? && !e.kind.Redo? && !e.kind.Clear? && Below(records, e.no)
    ensures Continues(records, [e])
  {
    CancelledAppend(records, e);
    WindowsAppend(records, e);
  }

  lemma NoteKeeps(log: Log, kind: Kind, id: string, memory: Memory, after: Log)
    requires Filed(log, memory) && UsageKind(kind)
    requires after == Put(log, Event(log.next, kind))
    ensures Filed(after, memory)
    ensures Shown(after, memory) == Shown(log, memory)
    ensures LoadForModel(after.lines, id, memory) == LoadForModel(log.lines, id, memory)
  {
    var e := Event(log.next, kind);
    PutKeeps(log, e);
    ReadPut(log, e);
    AgenticGrows(log.Records(), e, memory.generation);
    EventContinues(log.Records(), e);
    VisibleContinues(log.Records(), [e], memory, Working, false);
    AsLinesOne(e);
    ReplayContinues(log.lines, [e], id, memory);
  }

  // ---- compacting ----

  lemma CompactFiles(log: Log, plan: Plan, id: string, memory: Memory, summary: string, after: Log)
    requires Filed(log, memory) && Faithful(plan, id) && plan.lines == log.lines && plan.memory == memory
    requires after == Put(log, CompactEvent(plan, summary))
    ensures Filed(after, memory)
    ensures Shown(after, memory) == Shown(log, memory)
  {
    var e := CompactEvent(plan, summary);
    SummaryKeeps(log, plan, id, summary);
    ReadPut(log, e);
    AgenticGrows(log.Records(), e, memory.generation);
    NewCovers(plan, id, summary);
  }

  /** After a compaction: the summary and the kept tail, or everything shown if it is inert. */
  lemma CompactReplays(
    log: Log, id: string, memory: Memory, budget: int, plan: Plan, summary: string, after: Log)
    requires Filed(log, memory) && Prepare(log.lines, id, memory, budget) == Some(plan) && Recordable(plan)
    requires after == Put(log, CompactEvent(plan, summary))
    ensures Filed(after, memory) && Shown(after, memory) == Shown(log, memory)
    ensures LoadForModel(after.lines, id, memory)
      == if IntersectsTombstone(CompactEvent(plan, summary), ActiveTombstones(log.Records()))
         then Shown(log, memory) else [Summary(summary)] + RawAll(plan.tail)
  {
    CompactionTakesHold(log.lines, id, memory, budget, summary, plan);
    AsLinesOne(CompactEvent(plan, summary));
    CompactFiles(log, plan, id, memory, summary, after);
  }

  /** When the loop's rebuilt history will mirror the replay again: the compaction takes hold, or there was
      no earlier summary, or dropping that summary happens to realign the two. */
  ghost predicate StaysInStep(log: Log, id: string, memory: Memory, plan: Plan)
    requires plan.prefix != [] && plan.prefix[0].Message? && plan.prefix[|plan.prefix| - 1].Message?
  {
    var s, shown := Summarized(log.lines, id, memory), Shown(log, memory);
    !Straddles(plan) || s == 0 || (s < |shown| && Realigned(shown, s))
  }

  lemma TailIsPlain(log: Log, memory: Memory, tail: seq<Record>)
    requires Agentic(log.Records(), memory.generation)
    requires forall m :: m in tail ==> m.Message? && m in log.Records()
    ensures NoSystems(RawAll(tail))
  {
    forall m | m in RawAll(tail) ensures !IsSystem(m) {
      var i :| 0 <= i < |tail| && RawAll(tail)[i] == m;
      assert tail[i] in tail;
    }
  }

  lemma HeldInStep(
    log: Log, id: string, memory: Memory, budget: int, plan: Plan, summary: string, history: seq<Replayed>)
    requires Filed(log, memory) && Prepare(log.lines, id, memory, budget) == Some(plan)
    requires Mirrors(history, LoadForModel(log.lines, id, memory))
    ensures
      var after := [Summary(summary)] + RawAll(plan.tail);
      Mirrors(Rebuilt(history, LoadForModel(log.lines, id, memory), after), after)
  {
    PrepareNeedsWellFormed(log.lines, id, memory, budget, plan);
    UnsummarizedRises(log.lines, id, memory, false);
    TailIsPlain(log, memory, plan.tail);
    ReplayBefore(log.lines, id, memory, budget, plan);
    RebuiltWhenHeld(history, Headed(WorkingSummary(log.lines, id, memory)) + RawAll(plan.prefix), RawAll(plan.tail),
      Summary(summary));
  }

  lemma UnsummarizedLength(lines: seq<Line>, id: string, memory: Memory)
    requires WellFormed(lines, id)
    ensures
      |VisibleMessages(ReadRecords(lines), memory)|
        == Summarized(lines, id, memory) + |Unsummarized(lines, id, memory, false)|
  {
    UnsummarizedSplits(lines, id, memory);
    ReplayPartitionsVisible(lines, id, memory);
  }

  /** Something stays visible beyond what the working summary stands for. */
  lemma TailIsLeft(log: Log, id: string, memory: Memory, budget: int, plan: Plan)
    requires Prepare(log.lines, id, memory, budget) == Some(plan)
    ensures Summarized(log.lines, id, memory) < |Shown(log, memory)|
  {
    PrepareNeedsWellFormed(log.lines, id, memory, budget, plan);
    UnsummarizedLength(log.lines, id, memory);
    var refs := PrepareParts(log.lines, id, memory, budget, plan);
  }

  lemma InertInStep(log: Log, id: string, memory: Memory, budget: int, plan: Plan, history: seq<Replayed>)
    requires Filed(log, memory) && Prepare(log.lines, id, memory, budget) == Some(plan)
    requires Mirrors(history, LoadForModel(log.lines, id, memory))
    ensures
      var s, shown := Summarized(log.lines, id, memory), Shown(log, memory);
      && s < |shown|
      && var rebuilt := Rebuilt(history, LoadForModel(log.lines, id, memory), shown);
      Mirrors(rebuilt, shown) <==> s == 0 || Realigned(shown, s)
  {
    var s, shown, replay := Summarized(log.lines, id, memory), Shown(log, memory), LoadForModel(log.lines, id, memory);
    TailIsLeft(log, id, memory, budget, plan);
    ReplayIsTail(log, id, memory);
    ShownIsPlain(log, memory);
    if s == 0 {
      RebuiltWhenUnsummarized(history, shown);
    } else {
      RebuiltWhenInert(history, replay[0], shown, s);
    }
  }

  /** A compaction during a run, exactly: the rebuilt live history mirrors the new replay if and only if no
      undone stretch lies between the covered messages, or there was no earlier summary, or the messages
      the loop drops in its place happen to be the right ones. */
  lemma CompactionStaysInStep(
    log: Log, id: string, memory: Memory, budget: int, plan: Plan, summary: string, history: seq<Replayed>, after: Log)
    requires Filed(log, memory) && Prepare(log.lines, id, memory, budget) == Some(plan) && Recordable(plan)
    requires after == Put(log, CompactEvent(plan, summary))
    requires Mirrors(history, LoadForModel(log.lines, id, memory))
    ensures
      var replay := LoadForModel(after.lines, id, memory);
      && replay != []
      && plan.prefix[0].Message? && plan.prefix[|plan.prefix| - 1].Message?
      && (StaysInStep(log, id, memory, plan) <==>
            Mirrors(Rebuilt(history, LoadForModel(log.lines, id, memory), replay), replay))
  {
    CompactReplays(log, id, memory, budget, plan, summary, after);
    InertExactlyWhenStraddling(log.lines, id, memory, budget, summary, plan);
    HeldInStep(log, id, memory, budget, plan, summary, history);
    InertInStep(log, id, memory, budget, plan, history);
  }

  /** As long as every shown message matters, an inert compaction on top of a summary of two messages or
      more always leaves the live history out of step. */
  lemma RealignedOnlyForOne(shown: seq<Replayed>, s: nat)
    requires 1 <= s < |shown| && forall m :: m in shown ==> !Transient(m)
    ensures Realigned(shown, s) <==> s == 1
  {
    var c := TakenOut(s, |shown|);
    if c >= 1 && s > 1 {
      var middle := shown[1..s + c - 1];
      assert middle[0] == shown[1] && shown[1] in shown;
      LastingFront(middle);
    } else if s == 1 {
      assert shown[1..1] == [];
    }
  }

  // ---- forgetting ----

  lemma {:induction false} QuietIsClosed(history: seq<Replayed>)
    requires forall m :: m in history ==> Quiet(m)
    ensures Outstanding(history) == []
  {
    if history != [] {
      var init, last := history[..|history| - 1], history[|history| - 1];
      assert history == init + [last];
      QuietIsClosed(init);
      assert last in history;
      QuietLast([], init, last);
    }
  }

  /** Once something has been forgotten, everything generated before is hidden, so nothing is left open. */
  lemma ForgettingCloses(log: Log, memory: Memory, now: Memory)
    requires Filed(log, memory) && now.generation > memory.generation && Excludes(now, log.next)
    ensures Filed(log, now) && Outstanding(Shown(log, now)) == []
  {
    var visible := VisibleMessages(log.Records(), now);
    VisibleAreMessages(log.Records(), now, Working, false);
    forall m | m in RawAll(visible) ensures Quiet(m) {
      var i :| 0 <= i < |visible| && RawAll(visible)[i] == m;
      assert visible[i] in visible;
    }
    QuietIsClosed(RawAll(visible));
  }

  // ---- refreshing ----

  lemma KnownShape(log: Log, id: string, memory: Memory)
    requires Agentic(log.Records(), memory.generation)
    ensures
      var known := KnownOf(log.lines, id, memory);
      && HidesNoPrompt(known)
      && (forall m :: m in known.summaries ==> m.Summary?)
      && known.replay == LoadForModel(log.lines, id, memory)
  {
  }

  /** What the forget state may have become meanwhile: the same, or a later one. */
  predicate MayBecome(memory: Memory, now: Memory, next: int)
  {
    now == memory || (now.generation > memory.generation && Excludes(now, next))
  }

  // ---- the refresh after an inert compaction ----

  lemma SummariesStay(log: Log, r: Record, id: string, memory: Memory)
    requires !r.Meta?
    ensures KnownOf(log.lines, id, memory).summaries <= KnownOf(Put(log, r).lines, id, memory).summaries
  {
    ReadPut(log, r);
  }

  lemma SummaryIsKnown(log: Log, id: string, memory: Memory, now: Memory)
    ensures
      var replay := LoadForModel(log.lines, id, memory);
      forall m :: m in replay && m.Summary? && m !in Shown(log, memory) ==> m in KnownOf(log.lines, id, now).summaries
  {
    ReplayPartitionsVisible(log.lines, id, memory);
    var latest := WorkingSummary(log.lines, id, memory);
    if latest.Some? {
      assert latest.value in log.Records();
      var s, visible := latest.value, VisibleMessages(log.Records(), memory);
      var sources := RefNos(s.kind.data.refs.value);
      RawAllTail(visible, |sources|);
    }
  }

  /** No interrupted answer is visible. */
  predicate Complete(log: Log, memory: Memory)
  {
    forall r :: r in VisibleMessages(log.Records(), memory) && r.Message? ==> !r.body.incomplete
  }

  lemma CompleteIsShown(log: Log, id: string, memory: Memory)
    requires Complete(log, memory)
    ensures
      var known := KnownOf(log.lines, id, memory);
      forall m :: m in Shown(log, memory) ==> m in known.shown && m in known.saved
  {
    var visible := VisibleMessages(log.Records(), memory);
    VisibleAreMessages(log.Records(), memory, Working, false);
    forall m | m in Shown(log, memory)
      ensures m in KnownOf(log.lines, id, memory).shown && m in KnownOf(log.lines, id, memory).saved
    {
      var i :| 0 <= i < |visible| && RawAll(visible)[i] == m;
      assert visible[i] in visible && Stored(visible[i]) == m;
    }
  }

  lemma InertKnown(log: Log, id: string, memory: Memory, budget: int, plan: Plan, summary: string, after: Log)
    requires Filed(log, memory) && Prepare(log.lines, id, memory, budget) == Some(plan) && Recordable(plan)
    requires after == Put(log, CompactEvent(plan, summary))
    requires IntersectsTombstone(CompactEvent(plan, summary), ActiveTombstones(log.Records()))
    requires Summarized(log.lines, id, memory) > 0
    ensures
      var known, replay := KnownOf(after.lines, id, memory), LoadForModel(log.lines, id, memory);
      && known.replay == Shown(log, memory) == Shown(after, memory) && Filed(after, memory)
      && replay != [] && replay[0].Summary? && replay[0] in known.summaries
  {
    CompactReplays(log, id, memory, budget, plan, summary, after);
    ReplayIsTail(log, id, memory);
    ShownIsPlain(log, memory);
    SummaryIsKnown(log, id, memory, memory);
    SummariesStay(log, CompactEvent(plan, summary), id, memory);
    KnownShape(after, id, memory);
  }

  /** The refresh before the next turn, as long as no interrupted answer is visible: it puts the live history
      right exactly where the inert compaction left the old summary behind, or had realigned the two. */
  lemma NextRefreshRepairs(
    log: Log, id: string, memory: Memory, budget: int, plan: Plan, summary: string, history: seq<Replayed>, after: Log)
    requires Filed(log, memory) && Prepare(log.lines, id, memory, budget) == Some(plan) && Recordable(plan)
    requires after == Put(log, CompactEvent(plan, summary)) && Summarized(log.lines, id, memory) > 0
    requires IntersectsTombstone(CompactEvent(plan, summary), ActiveTombstones(log.Records()))
    requires Mirrors(history, LoadForModel(log.lines, id, memory)) && Complete(after, memory)
    ensures
      var s, shown, known := Summarized(log.lines, id, memory), Shown(log, memory), KnownOf(after.lines, id, memory);
      && s < |shown| && LoadForModel(after.lines, id, memory) == shown
      && var rebuilt := Rebuilt(history, LoadForModel(log.lines, id, memory), shown);
      Mirrors(Refreshed(rebuilt, known), shown) <==> TakenOut(s, |shown|) == 0 || Realigned(shown, s)
  {
    var s, shown, known := Summarized(log.lines, id, memory), Shown(log, memory), KnownOf(after.lines, id, memory);
    var replay := LoadForModel(log.lines, id, memory);
    InertKnown(log, id, memory, budget, plan, summary, after);
    TailIsLeft(log, id, memory, budget, plan);
    ReplayIsTail(log, id, memory);
    ShownIsPlain(log, memory);
    KnownShape(after, id, memory);
    CompleteIsShown(after, id, memory);
    hide KnownOf, Filed, Shown, LoadForModel, Summarized, Prepare, Complete, Agentic;
    AfterInert(history, replay[0], shown, s, known);
    if TakenOut(s, |shown|) == 0 { LeftBehindIsSaved(history, replay[0], shown, s, known); }
  }

  lemma LeftBehindIsSaved(history: seq<Replayed>, summary: Replayed, shown: seq<Replayed>, s: nat, known: Known)
    requires summary.Summary? && 1 <= s < |shown| && Mirrors(history, [summary] + shown[s..])
    requires summary in known.summaries && forall m :: m in shown ==> m in known.saved
    ensures NothingUnsaved(Rebuilt(history, [summary] + shown[s..], shown), known)
  {
    var before := [summary] + shown[s..];
    var gone := before[..Upto(before, |before| - |shown| + 1)];
    var left := RemoveAll(history, gone);
    RemoveAllKeeps(history, gone);
    TakeDrop(left, Leading(left));
    LastingIn(history);
    LastingIn(before);
    assert forall m :: m in before ==> m == summary || m in shown;
  }

  lemma {:induction false} RemoveFirstKeeps(s: seq<Replayed>, x: Replayed)
    ensures forall m :: m in RemoveFirst(s, x) ==> m in s
  {
    if s != [] && s[0] != x { RemoveFirstKeeps(s[1..], x); }
  }

  lemma {:induction false} RemoveAllKeeps(s: seq<Replayed>, gone: seq<Replayed>)
    ensures forall m :: m in RemoveAll(s, gone) ==> m in s
  {
    if gone != [] {
      RemoveAllKeeps(s, gone[..|gone| - 1]);
      RemoveFirstKeeps(RemoveAll(s, gone[..|gone| - 1]), gone[|gone| - 1]);
    }
  }

  // ---- what the loop keeps between turns ----

  /** Nothing shown is open, a prompt stands first if prompts are refreshed, and unless something slipped the
      live history mirrors the replay. */
  ghost predicate Settled(history: seq<Replayed>, log: Log, id: string, memory: Memory, refreshes: bool, slips: nat)
  {
    && Filed(log, memory) && Outstanding(Shown(log, memory)) == []
    && (refreshes ==> Led(history))
    && (slips == 0 ==> Mirrors(history, LoadForModel(log.lines, id, memory)))
  }

  lemma MirroredIsClosed(history: seq<Replayed>, log: Log, id: string, memory: Memory)
    requires Outstanding(Shown(log, memory)) == [] && Mirrors(history, LoadForModel(log.lines, id, memory))
    ensures Outstanding(history) == []
  {
    ClosedReplay(log, id, memory);
    MirrorsOpenAlike(history, LoadForModel(log.lines, id, memory));
  }

  /** A quiet message goes to both histories. */
  lemma SettledSave(
    history: seq<Replayed>, log: Log, id: string, memory: Memory, refreshes: bool, slips: nat,
    m: Replayed, generation: Option<int>, after: Log)
    requires Settled(history, log, id, memory, refreshes, slips)
    requires Quiet(m) && Storable(m, generation, memory) && after == Put(log, RecordOf(log, m, generation))
    ensures Settled(history + [m], after, id, memory, refreshes, slips)
  {
    hide Filed, Shown, LoadForModel, Storable;
    SaveGrows(log, m, generation, id, memory, after);
    QuietLast([], Shown(log, memory), m);
    if slips == 0 { MirrorsGrow(history, LoadForModel(log.lines, id, memory), [m]); }
  }

  lemma SettledNote(
    history: seq<Replayed>, log: Log, id: string, memory: Memory, refreshes: bool, slips: nat, kind: Kind, after: Log)
    requires Settled(history, log, id, memory, refreshes, slips)
    requires UsageKind(kind) && after == Put(log, Event(log.next, kind))
    ensures Settled(history, after, id, memory, refreshes, slips)
  {
    NoteKeeps(log, kind, id, memory, after);
  }

  /** A prompt for the next turn goes to the live history alone. */
  lemma SettledTransient(
    history: seq<Replayed>, log: Log, id: string, memory: Memory, refreshes: bool, slips: nat, m: Replayed)
    requires Settled(history, log, id, memory, refreshes, slips) && Transient(m)
    ensures Settled(history + [m], log, id, memory, refreshes, slips)
  {
    if slips == 0 { TransientUnnoticed(history, LoadForModel(log.lines, id, memory), m); }
  }

  lemma SettledPrompt(
    history: seq<Replayed>, log: Log, id: string, memory: Memory, slips: nat, prompt: Replayed)
    requires Settled(history, log, id, memory, true, slips) && IsPrompt(prompt) && Transient(prompt)
    ensures Settled(WithPrompt(history, prompt), log, id, memory, true, slips)
  {
    ReplayHasShape(log, id, memory);
    if slips == 0 { PromptKeepsMirror(history, LoadForModel(log.lines, id, memory), prompt); }
  }

  /** The assistant's message and its results, saved and live. */
  lemma SettledBatch(
    history: seq<Replayed>, log: Log, id: string, memory: Memory, refreshes: bool, slips: nat,
    assistant: Replayed, calls: seq<Call>, results: seq<Replayed>, after: Log)
    requires Settled(history, log, id, memory, refreshes, slips)
    requires !IsSystem(assistant) && CallsOf(assistant) == calls && Answers(assistant).None?
    requires Pairs(results, calls) && NoSystems(results)
    requires Filed(after, memory)
    requires Shown(after, memory) == Shown(log, memory) + [assistant] + results
    requires LoadForModel(after.lines, id, memory) == LoadForModel(log.lines, id, memory) + [assistant] + results
    ensures Settled(history + [assistant] + results, after, id, memory, refreshes, slips)
  {
    BatchCloses(Shown(log, memory), assistant, calls, results);
    if slips == 0 {
      MirrorsGrow(history, LoadForModel(log.lines, id, memory), [assistant]);
      MirrorsGrow(history + [assistant], LoadForModel(log.lines, id, memory) + [assistant], results);
    }
  }

  // ---- the prompt stays in front ----

  lemma {:induction false} RemoveAllKeepsFirst(s: seq<Replayed>, gone: seq<Replayed>)
    requires s != [] && s[0] !in gone
    ensures RemoveAll(s, gone) != [] && RemoveAll(s, gone)[0] == s[0]
  {
    if gone != [] { RemoveAllKeepsFirst(s, gone[..|gone| - 1]); }
  }

  lemma RebuiltStaysLed(history: seq<Replayed>, before: seq<Replayed>, after: seq<Replayed>)
    requires Led(history) && ReplayShape(before) && after != []
    ensures Led(Rebuilt(history, before, after))
  {
    forall m | m in before ensures !IsPrompt(m) {
      assert before != [] && before == [before[0]] + before[1..];
    }
    var gone := before[..Upto(before, |before| - |after| + 1)];
    assert history[0] !in gone;
    RemoveAllKeepsFirst(history, gone);
  }

  /** The loop's own compaction: either everything stays settled, or the slip is counted. */
  lemma SettledCompact(
    history: seq<Replayed>, log: Log, id: string, memory: Memory, refreshes: bool, slips: nat,
    budget: int, plan: Plan, summary: string, after: Log)
    requires Settled(history, log, id, memory, refreshes, slips)
    requires Prepare(log.lines, id, memory, budget) == Some(plan) && Recordable(plan)
    requires after == Put(log, CompactEvent(plan, summary))
    ensures
      var replay := LoadForModel(after.lines, id, memory);
      && replay != [] && plan.prefix[0].Message? && plan.prefix[|plan.prefix| - 1].Message?
      && var rebuilt := Rebuilt(history, LoadForModel(log.lines, id, memory), replay);
      && Settled(rebuilt, after, id, memory, refreshes,
           if StaysInStep(log, id, memory, plan) then slips else slips + 1)
  {
    CompactReplays(log, id, memory, budget, plan, summary, after);
    TailIsLeft(log, id, memory, budget, plan);
    assert plan.prefix[0] in plan.prefix + plan.tail && plan.prefix[|plan.prefix| - 1] in plan.prefix + plan.tail;
    ReplayHasShape(log, id, memory);
    if refreshes {
      RebuiltStaysLed(history, LoadForModel(log.lines, id, memory), LoadForModel(after.lines, id, memory));
    }
    if slips == 0 { CompactionStaysInStep(log, id, memory, budget, plan, summary, history, after); }
  }

  // ---- before each turn ----

  lemma SettledRefresh(history: seq<Replayed>, log: Log, id: string, memory: Memory, refreshes: bool, slips: nat)
    requires Settled(history, log, id, memory, refreshes, slips)
    ensures
      var known := KnownOf(log.lines, id, memory);
      Settled(Refreshed(history, known), log, id, memory, refreshes, if NothingEchoed(known) then slips else slips + 1)
  {
    var known := KnownOf(log.lines, id, memory);
    KnownShape(log, id, memory);
    ReplayHasShape(log, id, memory);
    if refreshes { RefreshKeepsLed(history, known); }
    if slips == 0 { RefreshKeepsMirror(history, known); }
  }

  lemma BaseIsTransient(history: seq<Replayed>, log: Log, id: string, memory: Memory, now: Memory)
    requires Agentic(log.Records(), memory.generation) && Mirrors(history, LoadForModel(log.lines, id, memory))
    requires history != [] && IsSystem(history[0]) && history[0] !in KnownOf(log.lines, id, now).summaries
    ensures Transient(history[0])
  {
    hide KnownOf, LoadForModel, Agentic;
    var replay := LoadForModel(log.lines, id, memory);
    LastingIn(history);
    LastingIn(replay);
    ReplayHasShape(log, id, memory);
    ShownIsPlain(log, memory);
    SummaryIsKnown(log, id, memory, now);
    assert replay != [] ==> replay == [replay[0]] + replay[1..];
    assert history[0] in history;
  }

  lemma ResetInStep(history: seq<Replayed>, log: Log, id: string, memory: Memory, now: Memory)
    requires Agentic(log.Records(), memory.generation) && Mirrors(history, LoadForModel(log.lines, id, memory))
    ensures Mirrors(Reset(history, KnownOf(log.lines, id, now)), LoadForModel(log.lines, id, now))
  {
    var known := KnownOf(log.lines, id, now);
    if history != [] && IsSystem(history[0]) && history[0] !in known.summaries {
      BaseIsTransient(history, log, id, memory, now);
    }
    ResetMirrors(history, known);
  }

  /** After a forget the live history is rebuilt from the replay and in step with it, whatever summary the
      replay starts with. */
  lemma SettledReset(
    history: seq<Replayed>, log: Log, id: string, memory: Memory, now: Memory, refreshes: bool, slips: nat,
    prompt: Replayed)
    requires Settled(history, log, id, memory, refreshes, slips) && MayBecome(memory, now, log.next)
    requires IsPrompt(prompt) && Transient(prompt)
    ensures
      var rebuilt := Reset(history, KnownOf(log.lines, id, now));
      && Settled(rebuilt, log, id, now, refreshes, slips)
      && (refreshes ==> Settled(WithPrompt(rebuilt, prompt), log, id, now, refreshes, slips))
      && (refreshes ==> Mirrors(WithPrompt(rebuilt, prompt), LoadForModel(log.lines, id, now)))
  {
    var known := KnownOf(log.lines, id, now);
    if now != memory { ForgettingCloses(log, memory, now); }
    KnownShape(log, id, now);
    if refreshes {
      ResetKeepsLed(history, known);
      LastingCons(prompt, known.replay);
    }
    if slips == 0 { ResetInStep(history, log, id, memory, now); }
    if refreshes { SettledPrompt(Reset(history, known), log, id, now, slips, prompt); }
  }
}
