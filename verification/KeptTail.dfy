/** What a compaction covers is a prefix of the visible messages, and what it keeps is still paired. */
module KeptTail {
  import opened Sequences
  import opened Records
  import opened Replay
  import opened ReplayLaws
  import opened Extension
  import opened Transcript
  import opened Pairing
  import opened Coverage
  import opened Sources
  import opened Compaction

  // ---- the covered sequence is a prefix ----

  /** Content hidden by the forget state is the only difference between the two views of a file. */
  lemma VisibleIsStructure(records: seq<Record>, memory: Memory, m: Record)
    requires m in VisibleThrough(records, memory, Working, false)
    ensures m in VisibleThrough(records, memory, Working, true)
  {
    VisibleAreMessages(records, memory, Working, false);
    FilterIn(records, SeenBy(LensOf(records, memory, Working, true)));
  }

  lemma UnsummarizedRises(lines: seq<Line>, id: string, memory: Memory, filtered: bool)
    requires Increasing(ReadRecords(lines))
    ensures Increasing(Unsummarized(lines, id, memory, filtered))
    ensures forall m :: m in Unsummarized(lines, id, memory, filtered) ==> m.Message? && m in ReadRecords(lines)
  {
    var records := ReadRecords(lines);
    var all := VisibleThrough(records, memory, Working, filtered);
    VisibleAreMessages(records, memory, Working, filtered);
    FilterIncreasing(records, SeenBy(LensOf(records, memory, Working, filtered)));
    var previous := WorkingSummary(lines, id, memory);
    if previous.Some? {
      FilterIn(all, NoFrom(previous.value.kind.data.keepFrom));
      FilterIncreasing(all, NoFrom(previous.value.kind.data.keepFrom));
    }
  }

  lemma UnsummarizedIsStructure(lines: seq<Line>, id: string, memory: Memory)
    ensures forall m :: m in Unsummarized(lines, id, memory, false) ==> m in Unsummarized(lines, id, memory, true)
  {
    var records := ReadRecords(lines);
    var previous := WorkingSummary(lines, id, memory);
    forall m | m in Unsummarized(lines, id, memory, false) ensures m in Unsummarized(lines, id, memory, true) {
      if previous.Some? {
        var keep := NoFrom(previous.value.kind.data.keepFrom);
        FilterIn(VisibleThrough(records, memory, Working, false), keep);
        VisibleIsStructure(records, memory, m);
        FilterIn(VisibleThrough(records, memory, Working, true), keep);
      } else {
        VisibleIsStructure(records, memory, m);
      }
    }
  }

  /** Picking the visible numbers out of the structure gives back the visible messages. */
  lemma VisiblePicked(records: seq<Record>, messages: seq<Record>, structure: seq<Record>)
    requires Increasing(records) && Increasing(messages) && Increasing(structure)
    requires forall m :: m in messages ==> m.Message? && m in structure
    requires forall m :: m in structure ==> m.Message? && m in records
    ensures Filter(structure, IsVisible(NosOf(messages))) == messages
  {
    var p := IsVisible(NosOf(messages));
    var picked := Filter(structure, p);
    FilterIn(structure, p);
    FilterIncreasing(structure, p);
    forall m ensures m in picked <==> m in messages {
      if m in picked {
        var same :| same in messages && same.no == m.no;
        SameNumber(records, m, same);
      }
    }
    SameRising(picked, messages);
  }

  lemma CoveredAtIsPrefix(messages: seq<Record>, structure: seq<Record>, n: nat)
    requires n <= |structure| && Filter(structure, IsVisible(NosOf(messages))) == messages
    ensures CoveredAt(structure, NosOf(messages), n) <= messages
  {
    var p := IsVisible(NosOf(messages));
    TakeDrop(structure, n);
    FilterAppend(structure[..n], structure[n..], p);
  }

  /** What the summarizer reads is exactly the front of the visible messages: the number it reports
      is a position in them. */
  lemma CoveredIsPrefix(lines: seq<Line>, id: string, memory: Memory, budget: int)
    requires Increasing(ReadRecords(lines))
    ensures
      var messages := Unsummarized(lines, id, memory, false);
      Covered(messages, budget, Unsummarized(lines, id, memory, true)) <= messages
  {
    var messages, structure := Unsummarized(lines, id, memory, false), Unsummarized(lines, id, memory, true);
    UnsummarizedRises(lines, id, memory, false);
    UnsummarizedRises(lines, id, memory, true);
    UnsummarizedIsStructure(lines, id, memory);
    VisiblePicked(ReadRecords(lines), messages, structure);
    CoveredIsLargestCut(messages, budget, structure);
    if |messages| > COMPACT_KEEP_TAIL {
      CoveredAtIsPrefix(messages, structure,
        LargestCut(structure, NosOf(messages), |messages| - COMPACT_KEEP_TAIL, budget, |structure|));
    }
  }

  lemma PrepareNeedsWellFormed(lines: seq<Line>, id: string, memory: Memory, budget: int, plan: Plan)
    requires Prepare(lines, id, memory, budget) == Some(plan)
    ensures WellFormed(lines, id) && AllMessages(plan.prefix + plan.tail)
    ensures Unsummarized(lines, id, memory, false) == plan.prefix + plan.tail
  {
    var refs := PrepareParts(lines, id, memory, budget, plan);
    PlanPartitions(plan, id, refs);
  }

  /** The recorded prefix is the sequence the summarizer read. */
  lemma PlanCoversWhatWasRead(lines: seq<Line>, id: string, memory: Memory, budget: int, plan: Plan)
    requires Prepare(lines, id, memory, budget) == Some(plan)
    ensures plan.prefix ==
      Covered(Unsummarized(lines, id, memory, false), budget, Unsummarized(lines, id, memory, true))
  {
    PrepareNeedsWellFormed(lines, id, memory, budget, plan);
    CoveredIsPrefix(lines, id, memory, budget);
  }

  // ---- the replay before and after ----

  function Headed(summary: Option<Record>): seq<Replayed>
    requires summary.Some? ==> summary.value.Event? && summary.value.kind.Compact?
  {
    if summary.Some? then [Summary(summary.value.kind.data.summary)] else []
  }

  lemma RawAllConcat(a: seq<Record>, b: seq<Record>)
    ensures RawAll(a + b) == RawAll(a) + RawAll(b)
  {
  }

  /** Before a compaction the model is handed the earlier summary, if any, and everything since. */
  lemma ReplayIsUnsummarized(lines: seq<Line>, id: string, memory: Memory)
    requires WellFormed(lines, id)
    ensures LoadForModel(lines, id, memory)
         == Headed(WorkingSummary(lines, id, memory)) + RawAll(Unsummarized(lines, id, memory, false))
  {
    var visible := VisibleMessages(ReadRecords(lines), memory);
    var messages := Unsummarized(lines, id, memory, false);
    ReplayPartitionsVisible(lines, id, memory);
    UnsummarizedSplits(lines, id, memory);
    if WorkingSummary(lines, id, memory).Some? {
      assert visible[|visible| - |messages|..] == messages;
    }
  }

  lemma ReplayBefore(lines: seq<Line>, id: string, memory: Memory, budget: int, plan: Plan)
    requires Prepare(lines, id, memory, budget) == Some(plan)
    ensures LoadForModel(lines, id, memory)
         == (Headed(WorkingSummary(lines, id, memory)) + RawAll(plan.prefix)) + RawAll(plan.tail)
  {
    PrepareNeedsWellFormed(lines, id, memory, budget, plan);
    ReplayIsUnsummarized(lines, id, memory);
    RawAllConcat(plan.prefix, plan.tail);
    Associative(Headed(WorkingSummary(lines, id, memory)), RawAll(plan.prefix), RawAll(plan.tail));
  }

  // ---- pairing ----

  lemma LoneSummary(m: Replayed)
    requires m.Summary?
    ensures Outstanding([m]) == [] && Answers(m).None?
  {
    assert [] + [m] == [m];
    OutstandingLast([], [], m);
  }

  lemma BehindSummary(m: Replayed, rest: seq<Replayed>, j: nat)
    requires m.Summary? && 0 < j < |[m] + rest|
    ensures ([m] + rest)[j] == rest[j - 1]
    ensures Outstanding(([m] + rest)[..j]) == Outstanding(rest[..j - 1])
  {
    assert ([m] + rest)[..j] == [m] + rest[..j - 1];
    LoneSummary(m);
    TailOfClosedPrefix([m], rest[..j - 1]);
  }

  /** A summary in front takes no part in pairing. */
  lemma SummaryIsNoCall(m: Replayed, rest: seq<Replayed>)
    requires m.Summary?
    ensures Outstanding([m] + rest) == Outstanding(rest)
    ensures NoOrphans([m] + rest) <==> NoOrphans(rest)
  {
    LoneSummary(m);
    TailOfClosedPrefix([m], rest);
    if NoOrphans(rest) {
      var all := [m] + rest;
      forall j | 0 <= j < |all| && Answers(all[j]).Some? ensures Answers(all[j]).value in Ids(Outstanding(all[..j])) {
        BehindSummary(m, rest, j);
      }
    }
  }

  lemma HeadIsNoCall(summary: Option<Record>, rest: seq<Replayed>)
    requires summary.Some? ==> summary.value.Event? && summary.value.kind.Compact?
    ensures Outstanding(Headed(summary) + rest) == Outstanding(rest)
    ensures NoOrphans(Headed(summary) + rest) <==> NoOrphans(rest)
  {
    if summary.Some? {
      SummaryIsNoCall(Summary(summary.value.kind.data.summary), rest);
    } else {
      assert Headed(summary) + rest == rest;
    }
  }

  /** Compacting a well-paired replay: no call of the kept tail is left open, and no result of it is
      orphaned exactly when the tail repeats the calls whose results the covered part has lost. */
  lemma KeptTailIsPaired(lines: seq<Line>, id: string, memory: Memory, budget: int, plan: Plan, summary: string)
    requires Prepare(lines, id, memory, budget) == Some(plan)
    ensures
      var before := LoadForModel(lines, id, memory);
      var after := [Summary(summary)] + RawAll(plan.tail);
      && (Outstanding(before) == [] ==> Outstanding(after) == [])
      && (NoOrphans(before) ==> (NoOrphans(after) <==> MadeAgain(RawAll(plan.prefix), RawAll(plan.tail))))
  {
    var front := Headed(WorkingSummary(lines, id, memory));
    var a, b := RawAll(plan.prefix), RawAll(plan.tail);
    ReplayBefore(lines, id, memory, budget, plan);
    Associative(front, a, b);
    HeadIsNoCall(WorkingSummary(lines, id, memory), a + b);
    TailIsPaired(a, b);
    SummaryIsNoCall(Summary(summary), b);
  }

  // ---- when nothing covered was forgotten ----

  lemma NothingToRepeat(a: seq<Replayed>, b: seq<Replayed>)
    requires Outstanding(a) == []
    ensures MadeAgain(a, b)
  {
    assert Ids(Outstanding(a)) == {};
  }

  /** The forget state hides none of the messages since the last summary. */
  predicate NothingForgotten(lines: seq<Line>, id: string, memory: Memory)
  {
    Unsummarized(lines, id, memory, true) == Unsummarized(lines, id, memory, false)
  }

  lemma AllPicked(messages: seq<Record>, n: nat)
    requires AllMessages(messages) && n <= |messages|
    ensures CoveredAt(messages, NosOf(messages), n) == messages[..n]
  {
    var p := IsVisible(NosOf(messages));
    forall m | m in messages[..n] ensures p(m) { assert m in messages; }
    FilterAll(messages[..n], p);
  }

  lemma FullPrefixIsClosed(messages: seq<Record>, budget: int)
    requires AllMessages(messages) && ChatShape(messages)
    ensures Outstanding(RawAll(Covered(messages, budget, messages))) == []
  {
    CoveredIsLargestCut(messages, budget, messages);
    var visible, limit := NosOf(messages), |messages| - COMPACT_KEEP_TAIL;
    if limit > 0 {
      var n := LargestCut(messages, visible, limit, budget, |messages|);
      AllPicked(messages, n);
      if n > 0 { CutLeavesNothingOpen(messages, visible, limit, budget, n); }
    }
  }

  /** ... so as long as nothing since the last summary has been forgotten, a well-paired replay stays
      well paired through every compaction. */
  lemma UnforgottenStaysPaired(lines: seq<Line>, id: string, memory: Memory, budget: int, plan: Plan, summary: string)
    requires Prepare(lines, id, memory, budget) == Some(plan)
    requires NothingForgotten(lines, id, memory) && ChatShape(Unsummarized(lines, id, memory, false))
    requires Outstanding(LoadForModel(lines, id, memory)) == [] && NoOrphans(LoadForModel(lines, id, memory))
    ensures
      var after := [Summary(summary)] + RawAll(plan.tail);
      Outstanding(after) == [] && NoOrphans(after)
  {
    var messages := Unsummarized(lines, id, memory, false);
    PrepareNeedsWellFormed(lines, id, memory, budget, plan);
    PlanCoversWhatWasRead(lines, id, memory, budget, plan);
    FullPrefixIsClosed(messages, budget);
    NothingToRepeat(RawAll(plan.prefix), RawAll(plan.tail));
    KeptTailIsPaired(lines, id, memory, budget, plan, summary);
  }

  /** What the model is handed once a compaction has taken hold. */
  lemma CompactionKeepsPairing(lines: seq<Line>, id: string, memory: Memory, budget: int, plan: Plan, summary: string)
    requires NumberedFromOne(ReadRecords(lines))
    requires Prepare(lines, id, memory, budget) == Some(plan)
    ensures
      && Faithful(plan, id)
      && var e := CompactEvent(plan, summary);
      && var before, after := LoadForModel(lines, id, memory), LoadForModel(lines + AsLines([e]), id, memory);
      !IntersectsTombstone(e, ActiveTombstones(ReadRecords(lines))) ==>
        && (Outstanding(before) == [] ==> Outstanding(after) == [])
        && (NoOrphans(before) ==> (NoOrphans(after) <==> MadeAgain(RawAll(plan.prefix), RawAll(plan.tail))))
  {
    CompactionTakesHold(lines, id, memory, budget, summary, plan);
    KeptTailIsPaired(lines, id, memory, budget, plan, summary);
  }
}
