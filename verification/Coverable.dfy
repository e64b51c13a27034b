/** When a compaction has something to cover, said of the messages alone. */
module Coverable {
  import opened Sequences
  import opened Records
  import opened Replay
  import opened Transcript
  import opened Coverage
  import opened Sources
  import opened Compaction
  import opened KeptTail

  /** An assistant's message that makes no call. */
  predicate IsAnswer(r: Record) { r.Message? && r.role == Assistant && r.body.calls == [] }

  /** A user has spoken, and no answer has come since. */
  ghost predicate InExchange(prefix: seq<Record>)
  {
    exists i :: 0 <= i < |prefix| && Unanswered(prefix, i)
  }

  ghost predicate Unanswered(prefix: seq<Record>, i: nat)
    requires i < |prefix|
  {
    prefix[i].Message? && prefix[i].role == User && forall j :: i < j < |prefix| ==> !IsAnswer(prefix[j])
  }

  /** A complete message in its place: a user only speaks between exchanges, a result answers a call that is
      open, and the assistant only goes on when no call is. */
  ghost predicate InPlace(prefix: seq<Record>, r: Record)
  {
    && r.Message? && !r.body.incomplete
    && (r.role == User ==> !InExchange(prefix))
    && (r.role == Tool ==> r.body.callId.Some? && exists i :: OpenSince(prefix, r.body.callId.value, i))
    && (r.role == Assistant ==> forall id, i :: !OpenSince(prefix, id, i))
  }

  ghost predicate Orderly(prefix: seq<Record>)
  {
    forall j :: 0 <= j < |prefix| ==> InPlace(prefix[..j], prefix[j])
  }

  lemma OrderlyMore(init: seq<Record>, last: Record)
    ensures Orderly(init + [last]) <==> Orderly(init) && InPlace(init, last)
  {
    var prefix := init + [last];
    assert prefix[|init|] == last && prefix[..|init|] == init;
    forall j | 0 <= j < |init| ensures prefix[..j] == init[..j] && prefix[j] == init[j] {}
  }

  lemma ExchangeMore(init: seq<Record>, last: Record)
    requires last.Message?
    ensures InExchange(init + [last]) <==> !IsAnswer(last) && (last.role == User || InExchange(init))
  {
    var prefix, n := init + [last], |init|;
    assert prefix[n] == last;
    assert forall j :: 0 <= j < n ==> init[j] == prefix[j];
    if InExchange(prefix) {
      var i :| 0 <= i < |prefix| && Unanswered(prefix, i);
      assert i < n ==> Unanswered(init, i);
    }
    if !IsAnswer(last) && last.role == User { assert Unanswered(prefix, n); }
    if !IsAnswer(last) && InExchange(init) {
      var i :| 0 <= i < n && Unanswered(init, i);
      assert Unanswered(prefix, i);
    }
  }

  lemma AdmitsInPlace(init: seq<Record>, last: Record)
    requires AllMessages(init) && ScanOf(init).Some? && last.Message?
    requires ScanOf(init).value.inExchange <==> InExchange(init)
    ensures Admits(ScanOf(init).value, last) <==> InPlace(init, last)
  {
    hide InExchange;
    var pending := ScanOf(init).value.pending;
    PendingIsOpen(init);
    if pending != {} {
      var id :| id in pending;
      assert exists i :: OpenSince(init, id, i);
    }
  }

  /** The scan passes exactly the orderly prefixes. */
  lemma {:induction false} ScanIsOrderly(prefix: seq<Record>)
    requires AllMessages(prefix)
    ensures ScanOf(prefix).Some? <==> Orderly(prefix)
    ensures ScanOf(prefix).Some? ==> (ScanOf(prefix).value.inExchange <==> InExchange(prefix))
  {
    if prefix != [] {
      hide Orderly, InPlace, InExchange, Admits;
      var init, last := prefix[..|prefix| - 1], prefix[|prefix| - 1];
      assert prefix == init + [last] && last in prefix;
      ScanIsOrderly(init);
      OrderlyMore(init, last);
      ExchangeMore(init, last);
      if ScanOf(init).Some? { AdmitsInPlace(init, last); }
    } else {
      assert Orderly(prefix) && !InExchange(prefix);
    }
  }

  /** The bytes of the lines once they are joined by newlines. */
  function JoinedSize(covered: seq<Record>): nat
    requires covered != [] && AllMessages(covered)
  {
    var last := covered[|covered| - 1];
    assert last in covered;
    if |covered| == 1 then last.body.size
    else JoinedSize(covered[..|covered| - 1]) + 1 + last.body.size
  }

  lemma {:induction false} CostIsJoined(covered: seq<Record>)
    requires covered != [] && AllMessages(covered)
    ensures Cost(covered) == JoinedSize(covered) + 1
  {
    assert covered[|covered| - 1] in covered;
    if |covered| > 1 { CostIsJoined(covered[..|covered| - 1]); } else { assert covered[..0] == []; }
  }

  /** The first `n` records of the structure can be summarized: they are orderly and end with an answer, the
      visible ones among them leave enough messages raw, and their text fits the budget. */
  ghost predicate Summarizable(messages: seq<Record>, structure: seq<Record>, budget: int, n: nat)
    requires AllMessages(structure)
  {
    && 0 < n <= |structure| && IsAnswer(structure[n - 1]) && Orderly(structure[..n])
    && var covered := CoveredAt(structure, NosOf(messages), n);
    && covered != [] && |covered| + COMPACT_KEEP_TAIL <= |messages|
    && AllMessages(covered) && JoinedSize(covered) < budget
  }

  lemma CutIsSummarizable(messages: seq<Record>, structure: seq<Record>, budget: int, n: nat)
    requires AllMessages(structure) && n <= |structure|
    ensures
      var visible := NosOf(messages);
      Summarizable(messages, structure, budget, n) <==>
        Cut(structure, visible, |messages| - COMPACT_KEEP_TAIL, budget, n) && CoveredAt(structure, visible, n) != []
  {
    var covered := CoveredAt(structure, NosOf(messages), n);
    FilterIn(structure[..n], IsVisible(NosOf(messages)));
    ScanIsOrderly(structure[..n]);
    if covered != [] { CostIsJoined(covered); }
  }

  /** A later place covers no less. */
  lemma CoversMore(structure: seq<Record>, messages: seq<Record>, m: nat, n: nat)
    requires m <= n <= |structure|
    ensures |CoveredAt(structure, NosOf(messages), m)| <= |CoveredAt(structure, NosOf(messages), n)|
  {
    CostPrefix(structure, NosOf(messages), m, n);
  }

  /** The reader covers something exactly if some prefix can be summarized, and then the longest such. */
  lemma CoversExactly(messages: seq<Record>, structure: seq<Record>, budget: int)
    requires AllMessages(structure)
    ensures
      var covered := Covered(messages, budget, structure);
      && (covered != [] <==> exists n :: Summarizable(messages, structure, budget, n))
      && (covered != [] ==> exists n ::
            && Summarizable(messages, structure, budget, n) && covered == CoveredAt(structure, NosOf(messages), n)
            && forall m :: Summarizable(messages, structure, budget, m) ==> m <= n)
  {
    var visible, limit := NosOf(messages), |messages| - COMPACT_KEEP_TAIL;
    CoveredIsLargestCut(messages, budget, structure);
    var cut := LargestCut(structure, visible, limit, budget, |structure|);
    assert structure[..0] == [];
    CutIsSummarizable(messages, structure, budget, cut);
    forall m: nat | Summarizable(messages, structure, budget, m)
      ensures m <= cut && CoveredAt(structure, visible, cut) != [] && limit > 0
    {
      CutIsSummarizable(messages, structure, budget, m);
      CoversMore(structure, messages, m, cut);
    }
  }

  /** A compaction has something to do exactly if the file is well formed and some prefix of what has not
      been summarized yet can be. */
  lemma PreparesExactly(lines: seq<Line>, id: string, memory: Memory, budget: int)
    requires NumberedFromOne(ReadRecords(lines))
    ensures
      var messages, structure := Unsummarized(lines, id, memory, false), Unsummarized(lines, id, memory, true);
      Prepare(lines, id, memory, budget).Some? <==>
        WellFormed(lines, id) && exists n :: Summarizable(messages, structure, budget, n)
  {
    var messages, structure := Unsummarized(lines, id, memory, false), Unsummarized(lines, id, memory, true);
    CoversExactly(messages, structure, budget);
    CoveredLeavesTail(messages, budget, structure);
    var prefix := messages[..|Covered(messages, budget, structure)|];
    if prefix != [] {
      if WellFormed(lines, id) {
        CapturesFront(lines, id, memory, messages, |prefix|);
      } else if Prepare(lines, id, memory, budget).Some? {
        CaptureNeedsWellFormed(lines, id, prefix, memory);
      }
    }
  }

  lemma CapturesFront(lines: seq<Line>, id: string, memory: Memory, messages: seq<Record>, n: nat)
    requires WellFormed(lines, id) && NumberedFromOne(ReadRecords(lines))
    requires messages == Unsummarized(lines, id, memory, false) && n <= |messages|
    ensures AllMessages(messages[..n]) && Capture(lines, id, messages[..n], memory, 0).Some?
  {
    var visible := VisibleMessages(ReadRecords(lines), memory);
    UnsummarizedSplits(lines, id, memory);
    TakeDrop(messages, n);
    PrefixIsCapturable(ReadRecords(lines), memory, messages[..n], messages[n..], visible[..|visible| - |messages|]);
    CaptureCovers(lines, id, messages[..n], memory, 0);
  }

  /** ... and it covers the longest one. */
  lemma PreparesLongest(lines: seq<Line>, id: string, memory: Memory, budget: int, plan: Plan)
    requires Prepare(lines, id, memory, budget) == Some(plan)
    ensures
      var messages, structure := Unsummarized(lines, id, memory, false), Unsummarized(lines, id, memory, true);
      exists n ::
        && Summarizable(messages, structure, budget, n) && plan.prefix == CoveredAt(structure, NosOf(messages), n)
        && forall m :: Summarizable(messages, structure, budget, m) ==> m <= n
  {
    PlanCoversWhatWasRead(lines, id, memory, budget, plan);
    CoversExactly(Unsummarized(lines, id, memory, false), Unsummarized(lines, id, memory, true), budget);
  }
}
