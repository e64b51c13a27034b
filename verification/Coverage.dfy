/** How much of the visible history a summary may cover: the largest closed prefix that fits. */
module Coverage {
  import opened Sequences
  import opened Records
  import opened Replay
  import opened Pairing

  const COMPACT_KEEP_TAIL: nat := 4

  // ---- the scan over the exchange structure ----

  /** Calls still waiting for a result, and whether a user turn is still open. */
  datatype Scan = Scan(pending: set<string>, inExchange: bool)

  const FRESH := Scan({}, false)

  predicate Admits(s: Scan, r: Record)
    requires r.Message?
  {
    && !r.body.incomplete
    && !(r.role == User && s.inExchange)
    && (r.role == Tool ==> r.body.callId.Some? && r.body.callId.value in s.pending)
    && (r.role == Assistant ==> s.pending == {})
  }

  predicate ClosesExchange(r: Record)
    requires r.Message?
  {
    r.role == Assistant && r.body.calls == []
  }

  function Advance(s: Scan, r: Record): Scan
    requires r.Message?
  {
    Scan(
      if r.role == Tool && r.body.callId.Some? then s.pending - {r.body.callId.value}
      else if r.role == Assistant then s.pending + Ids(r.body.calls)
      else s.pending,
      if ClosesExchange(r) then false else if r.role == User then true else s.inExchange)
  }

  predicate AllMessages(records: seq<Record>)
  {
    forall r :: r in records ==> r.Message?
  }

  /** The scan state after `prefix`, or nothing if some record stops it. */
  function ScanOf(prefix: seq<Record>): Option<Scan>
    requires AllMessages(prefix)
  {
    if prefix == [] then Some(FRESH) else
      var init, last := prefix[..|prefix| - 1], prefix[|prefix| - 1];
      assert last in prefix;
      match ScanOf(init)
      case None => None
      case Some(s) => if Admits(s, last) then Some(Advance(s, last)) else None
  }

  // ---- what a prefix costs ----

  function IsVisible(visible: set<int>): Record -> bool { (r: Record) => !r.Meta? && r.no in visible }

  /** Bytes of the encoded lines, one newline each. */
  function Cost(covered: seq<Record>): nat
  {
    if covered == [] then 0 else
      var last := covered[|covered| - 1];
      Cost(covered[..|covered| - 1]) + (if last.Message? then last.body.size + 1 else 0)
  }

  /** A point where the summary may end: the exchange is complete, every call is paired, enough
      messages stay raw and the covered lines fit. */
  predicate Cut(structure: seq<Record>, visible: set<int>, limit: int, budget: int, n: nat)
    requires AllMessages(structure) && n <= |structure|
  {
    var covered := Filter(structure[..n], IsVisible(visible));
    && n > 0
    && structure[n - 1] in structure && ClosesExchange(structure[n - 1])
    && ScanOf(structure[..n]).Some?
    && |covered| <= limit
    && (covered == [] || Cost(covered) <= budget)
  }

  lemma {:induction false} ScanPrefix(structure: seq<Record>, m: nat, n: nat)
    requires AllMessages(structure) && m <= n <= |structure|
    requires ScanOf(structure[..n]).Some?
    ensures ScanOf(structure[..m]).Some?
  {
    if m < n {
      assert structure[..n][..n - 1] == structure[..n - 1];
      ScanPrefix(structure, m, n - 1);
    }
  }

  lemma {:induction false} CostPrefix(structure: seq<Record>, visible: set<int>, m: nat, n: nat)
    requires m <= n <= |structure|
    ensures |Filter(structure[..m], IsVisible(visible))| <= |Filter(structure[..n], IsVisible(visible))|
    ensures Cost(Filter(structure[..m], IsVisible(visible))) <= Cost(Filter(structure[..n], IsVisible(visible)))
  {
    if m < n {
      assert structure[..n][..n - 1] == structure[..n - 1];
      CostPrefix(structure, visible, m, n - 1);
      CostAppend(Filter(structure[..n - 1], IsVisible(visible)), structure[n - 1]);
    }
  }

  lemma CostAppend(covered: seq<Record>, r: Record)
    ensures Cost(covered + [r]) == Cost(covered) + (if r.Message? then r.body.size + 1 else 0)
    ensures covered + [] == covered
  {
    assert (covered + [r])[..|covered|] == covered;
  }

  /** A record the scan cannot pass blocks every later cut. */
  lemma Blocked(structure: seq<Record>, visible: set<int>, limit: int, budget: int, i: nat)
    requires AllMessages(structure) && i < |structure|
    requires
      var covered := Filter(structure[..i + 1], IsVisible(visible));
      ScanOf(structure[..i + 1]).None? || |covered| > limit || (covered != [] && Cost(covered) > budget)
    ensures forall n: nat :: i < n <= |structure| ==> !Cut(structure, visible, limit, budget, n)
  {
    forall n: nat | i < n <= |structure| ensures !Cut(structure, visible, limit, budget, n) {
      CostPrefix(structure, visible, i + 1, n);
      if ScanOf(structure[..n]).Some? {
        ScanPrefix(structure, i + 1, n);
      }
    }
  }

  function NosOf(messages: seq<Record>): set<int> { set m | m in messages && !m.Meta? :: m.no }

  /** The prefix a cut covers, as the summarizer will read it. */
  function CoveredAt(structure: seq<Record>, visible: set<int>, n: nat): seq<Record>
    requires n <= |structure|
  {
    Filter(structure[..n], IsVisible(visible))
  }

  /** The largest cut among the first `upTo` positions; 0, where nothing is covered, if there is none. */
  function LargestCut(structure: seq<Record>, visible: set<int>, limit: int, budget: int, upTo: nat): (n: nat)
    requires AllMessages(structure) && upTo <= |structure|
    ensures n <= upTo && (n > 0 ==> Cut(structure, visible, limit, budget, n))
  {
    if upTo == 0 || Cut(structure, visible, limit, budget, upTo) then upTo
    else LargestCut(structure, visible, limit, budget, upTo - 1)
  }

  /** No cut lies beyond it. */
  lemma {:induction false} NoCutBeyond(
    structure: seq<Record>, visible: set<int>, limit: int, budget: int, upTo: nat, n: nat)
    requires AllMessages(structure) && n <= upTo <= |structure|
    requires Cut(structure, visible, limit, budget, n)
    ensures n <= LargestCut(structure, visible, limit, budget, upTo)
  {
    if n < upTo && !Cut(structure, visible, limit, budget, upTo) {
      NoCutBeyond(structure, visible, limit, budget, upTo - 1, n);
    }
  }

  /** Positions without a cut add nothing. */
  lemma {:induction false} NoCutBetween(
    structure: seq<Record>, visible: set<int>, limit: int, budget: int, i: nat, upTo: nat)
    requires AllMessages(structure) && i <= upTo <= |structure|
    requires forall n: nat :: i < n <= upTo ==> !Cut(structure, visible, limit, budget, n)
    ensures LargestCut(structure, visible, limit, budget, upTo) == LargestCut(structure, visible, limit, budget, i)
  {
    if i < upTo {
      assert !Cut(structure, visible, limit, budget, upTo);
      NoCutBetween(structure, visible, limit, budget, i, upTo - 1);
    }
  }

  /** `transcript` is what the largest of the first `upTo` cuts covers. */
  predicate Best(
    structure: seq<Record>, visible: set<int>, limit: int, budget: int, upTo: nat, transcript: seq<Record>)
    requires AllMessages(structure) && upTo <= |structure|
  {
    transcript == CoveredAt(structure, visible, LargestCut(structure, visible, limit, budget, upTo))
  }

  lemma BestSoFar(
    structure: seq<Record>, visible: set<int>, limit: int, budget: int, i: nat, transcript: seq<Record>)
    requires AllMessages(structure) && i < |structure|
    requires Best(structure, visible, limit, budget, i, transcript)
    ensures
      !Cut(structure, visible, limit, budget, i + 1) ==> Best(structure, visible, limit, budget, i + 1, transcript)
    ensures Cut(structure, visible, limit, budget, i + 1) ==>
      Best(structure, visible, limit, budget, i + 1, CoveredAt(structure, visible, i + 1))
  {
  }

  /** The covered lines, the budget left and the best transcript after one more record. */
  function WithLine(lines: seq<Record>, visible: set<int>, r: Record): seq<Record>
  {
    if !r.Meta? && r.no in visible then lines + [r] else lines
  }

  function Left(remaining: int, visible: set<int>, r: Record): int
  {
    if r.Message? && r.no in visible then remaining - (r.body.size + 1) else remaining
  }

  function Safe(transcript: seq<Record>, lines: seq<Record>, r: Record): seq<Record>
    requires r.Message?
  {
    if ClosesExchange(r) then lines else transcript
  }

  /** The loop's state after reading the first `i` records. */
  ghost predicate Reading(structure: seq<Record>, visible: set<int>, i: nat, lines: seq<Record>, s: Scan)
    requires AllMessages(structure) && i <= |structure|
  {
    ScanOf(structure[..i]) == Some(s) && lines == CoveredAt(structure, visible, i)
  }

  lemma ReadingNext(structure: seq<Record>, visible: set<int>, i: nat, lines: seq<Record>, s: Scan)
    requires AllMessages(structure) && i < |structure| && structure[i] in structure
    requires Reading(structure, visible, i, lines, s)
    ensures !Admits(s, structure[i]) ==> ScanOf(structure[..i + 1]).None?
    ensures Admits(s, structure[i]) ==> ScanOf(structure[..i + 1]) == Some(Advance(s, structure[i]))
    ensures CoveredAt(structure, visible, i + 1) == WithLine(lines, visible, structure[i])
  {
    assert structure[..i + 1][..i] == structure[..i] && structure[..i + 1][i] == structure[i];
    PlusNothing(lines, []);
  }

  lemma CostOfLine(lines: seq<Record>, visible: set<int>, r: Record, budget: int)
    requires r.Message?
    ensures budget - Cost(WithLine(lines, visible, r)) == Left(budget - Cost(lines), visible, r)
  {
    CostAppend(lines, r);
  }

  /** What holds after the first `i` records have been read without stopping. */
  ghost predicate Progress(
    structure: seq<Record>, visible: set<int>, limit: int, budget: int,
    i: nat, lines: seq<Record>, scan: Scan, remaining: int, transcript: seq<Record>)
  {
    && AllMessages(structure) && i <= |structure|
    && Reading(structure, visible, i, lines, scan)
    && |lines| <= limit && remaining == budget - Cost(lines) && (lines == [] || remaining >= 0)
    && Best(structure, visible, limit, budget, i, transcript)
  }

  predicate Stops(visible: set<int>, limit: int, lines: seq<Record>, scan: Scan, remaining: int, r: Record)
    requires r.Message?
  {
    || (r.no in visible && |lines| >= limit)
    || !Admits(scan, r)
    || (r.no in visible && r.body.size > remaining - 1)
  }

  /** Whether a record stops the reader decides whether the next position can be covered at all. */
  lemma StoppedOrNot(
    structure: seq<Record>, visible: set<int>, limit: int, budget: int,
    i: nat, lines: seq<Record>, scan: Scan, remaining: int, transcript: seq<Record>)
    requires Progress(structure, visible, limit, budget, i, lines, scan, remaining, transcript)
    requires i < |structure| && structure[i] in structure
    ensures
      var more := CoveredAt(structure, visible, i + 1);
      Stops(visible, limit, lines, scan, remaining, structure[i]) <==>
        ScanOf(structure[..i + 1]).None? || |more| > limit || (more != [] && Cost(more) > budget)
  {
    ReadingNext(structure, visible, i, lines, scan);
    CostOfLine(lines, visible, structure[i], budget);
  }

  lemma StopIsFinal(
    structure: seq<Record>, visible: set<int>, limit: int, budget: int,
    i: nat, lines: seq<Record>, scan: Scan, remaining: int, transcript: seq<Record>)
    requires Progress(structure, visible, limit, budget, i, lines, scan, remaining, transcript)
    requires i < |structure| && structure[i] in structure && Stops(visible, limit, lines, scan, remaining, structure[i])
    ensures Best(structure, visible, limit, budget, |structure|, transcript)
  {
    StoppedOrNot(structure, visible, limit, budget, i, lines, scan, remaining, transcript);
    Blocked(structure, visible, limit, budget, i);
    NoCutBetween(structure, visible, limit, budget, i, |structure|);
  }

  lemma ReadOneMore(
    structure: seq<Record>, visible: set<int>, limit: int, budget: int,
    i: nat, lines: seq<Record>, scan: Scan, remaining: int, transcript: seq<Record>)
    requires Progress(structure, visible, limit, budget, i, lines, scan, remaining, transcript)
    requires i < |structure| && structure[i] in structure
    requires !Stops(visible, limit, lines, scan, remaining, structure[i])
    ensures
      var r := structure[i];
      var more := WithLine(lines, visible, r);
      Progress(structure, visible, limit, budget, i + 1, more, Advance(scan, r), Left(remaining, visible, r),
        Safe(transcript, more, r))
  {
    hide ScanOf, Cost, Best, Admits, Advance;
    StoppedOrNot(structure, visible, limit, budget, i, lines, scan, remaining, transcript);
    ReadingNext(structure, visible, i, lines, scan);
    CostOfLine(lines, visible, structure[i], budget);
    BestSoFar(structure, visible, limit, budget, i, transcript);
  }

  /** Reading on from record `i`: the covered lines once some record stops the reader. */
  function ReadOn(
    structure: seq<Record>, visible: set<int>, limit: int,
    i: nat, lines: seq<Record>, scan: Scan, remaining: int, transcript: seq<Record>): seq<Record>
    requires AllMessages(structure) && i <= |structure|
    decreases |structure| - i
  {
    if i == |structure| then transcript else
      var r := structure[i];
      assert r in structure;
      if Stops(visible, limit, lines, scan, remaining, r) then transcript else
        var more := WithLine(lines, visible, r);
        ReadOn(structure, visible, limit, i + 1, more, Advance(scan, r), Left(remaining, visible, r),
          Safe(transcript, more, r))
  }

  lemma {:induction false} ReadOnIsBest(
    structure: seq<Record>, visible: set<int>, limit: int, budget: int,
    i: nat, lines: seq<Record>, scan: Scan, remaining: int, transcript: seq<Record>)
    requires Progress(structure, visible, limit, budget, i, lines, scan, remaining, transcript)
    ensures Best(structure, visible, limit, budget, |structure|,
      ReadOn(structure, visible, limit, i, lines, scan, remaining, transcript))
    decreases |structure| - i
  {
    if i < |structure| {
      var r := structure[i];
      assert r in structure;
      if Stops(visible, limit, lines, scan, remaining, r) {
        StopIsFinal(structure, visible, limit, budget, i, lines, scan, remaining, transcript);
      } else {
        ReadOneMore(structure, visible, limit, budget, i, lines, scan, remaining, transcript);
        var more := WithLine(lines, visible, r);
        ReadOnIsBest(structure, visible, limit, budget, i + 1, more, Advance(scan, r), Left(remaining, visible, r),
          Safe(transcript, more, r));
      }
    }
  }

  /** The leading visible messages the summarizer covers. */
  function Covered(messages: seq<Record>, budget: int, structure: seq<Record>): seq<Record>
    requires AllMessages(structure)
  {
    var limit := |messages| - COMPACT_KEEP_TAIL;
    if limit <= 0 then [] else ReadOn(structure, NosOf(messages), limit, 0, [], FRESH, budget, [])
  }

  /** The covered prefix is what the largest cut covers, and empty if there is no cut. */
  lemma CoveredIsLargestCut(messages: seq<Record>, budget: int, structure: seq<Record>)
    requires AllMessages(structure)
    ensures
      var visible, limit := NosOf(messages), |messages| - COMPACT_KEEP_TAIL;
      var cut := LargestCut(structure, visible, limit, budget, |structure|);
      && (limit > 0 ==> Covered(messages, budget, structure) == CoveredAt(structure, visible, cut))
      && (forall n: nat :: n <= |structure| && Cut(structure, visible, limit, budget, n) ==> n <= cut)
      && (limit <= 0 ==> Covered(messages, budget, structure) == [])
  {
    var visible, limit := NosOf(messages), |messages| - COMPACT_KEEP_TAIL;
    if limit > 0 {
      assert structure[..0] == [];
      ReadOnIsBest(structure, visible, limit, budget, 0, [], FRESH, budget, []);
    }
    forall n: nat | n <= |structure| && Cut(structure, visible, limit, budget, n)
      ensures n <= LargestCut(structure, visible, limit, budget, |structure|)
    {
      NoCutBeyond(structure, visible, limit, budget, |structure|, n);
    }
  }

  /** The store's loop computes exactly that prefix. */
  method Cover(messages: seq<Record>, budget: int, structure: seq<Record>)
    returns (safe: nat, transcript: seq<Record>)
    requires AllMessages(structure)
    ensures transcript == Covered(messages, budget, structure) && safe == |transcript|
  {
    var limit := |messages| - COMPACT_KEEP_TAIL;
    var visible := NosOf(messages);
    safe, transcript := 0, [];
    if limit <= 0 {
      return;
    }
    var lines: seq<Record>, remaining, pending: set<string>, inExchange := [], budget, {}, false;
    var i := 0;
    while i < |structure|
      invariant 0 <= i <= |structure| && |transcript| == safe
      invariant ReadOn(structure, visible, limit, i, lines, Scan(pending, inExchange), remaining, transcript)
             == ReadOn(structure, visible, limit, 0, [], FRESH, budget, [])
    {
      var r := structure[i];
      assert r in structure;
      ghost var scan, before := Scan(pending, inExchange), lines;
      if r.no in visible && |lines| >= limit {
        break;
      }
      if r.body.incomplete || (r.role == User && inExchange) {
        break;
      }
      if r.role == User {
        inExchange := true;
      }
      if r.role == Tool {
        if r.body.callId.None? || r.body.callId.value !in pending {
          break;
        }
        pending := pending - {r.body.callId.value};
      } else if r.role == Assistant {
        if pending != {} {
          break;
        }
        pending := pending + Ids(r.body.calls);
      }
      if r.no in visible {
        if r.body.size > remaining - 1 {
          break;
        }
        remaining := remaining - (r.body.size + 1);
        lines := lines + [r];
      }
      if r.role == Assistant && pending == {} && r.body.calls == [] {
        safe, transcript := |lines|, lines;
        inExchange := false;
      }
      assert Advance(scan, r) == Scan(pending, inExchange);
      assert lines == WithLine(before, visible, r);
      i := i + 1;
    }
  }

  // ---- what a cut guarantees ----

  predicate Calls(r: Record, id: string)
  {
    r.Message? && r.role == Assistant && id in Ids(r.body.calls)
  }

  predicate Returns(r: Record, id: string)
  {
    r.Message? && r.role == Tool && r.body.callId == Some(id)
  }

  /** `id` was called at `i` and no result has come since. */
  predicate OpenSince(prefix: seq<Record>, id: string, i: int)
  {
    0 <= i < |prefix| && Calls(prefix[i], id) && forall j :: i < j < |prefix| ==> !Returns(prefix[j], id)
  }

  /** Nothing incomplete, every call answered later, and every result answering a call still open. */
  ghost predicate Closed(prefix: seq<Record>)
  {
    && (forall r :: r in prefix ==> r.Message? && !r.body.incomplete)
    && (forall i, id :: 0 <= i < |prefix| && Calls(prefix[i], id) ==>
          exists j :: i < j < |prefix| && Returns(prefix[j], id))
    && (forall j, id :: 0 <= j < |prefix| && Returns(prefix[j], id) ==>
          exists i :: OpenSince(prefix[..j], id, i))
  }

  lemma {:induction false} PendingIsOpen(prefix: seq<Record>)
    requires AllMessages(prefix) && ScanOf(prefix).Some?
    ensures forall id :: id in ScanOf(prefix).value.pending ==> exists i :: OpenSince(prefix, id, i)
    ensures forall id, i :: OpenSince(prefix, id, i) ==> id in ScanOf(prefix).value.pending
    ensures forall r :: r in prefix ==> !r.body.incomplete
    ensures forall j, id :: 0 <= j < |prefix| && Returns(prefix[j], id) ==> exists i :: OpenSince(prefix[..j], id, i)
  {
    if prefix != [] {
      var n := |prefix| - 1;
      var init, last := prefix[..n], prefix[n];
      assert prefix == init + [last];
      PendingIsOpen(init);
      var before, after := ScanOf(init).value, ScanOf(prefix).value;
      forall id | id in after.pending ensures exists i :: OpenSince(prefix, id, i) {
        if id in before.pending {
          var i :| OpenSince(init, id, i);
          assert OpenSince(prefix, id, i);
        } else {
          assert OpenSince(prefix, id, n);
        }
      }
      forall id, i | OpenSince(prefix, id, i) ensures id in after.pending {
        if i < n {
          assert OpenSince(init, id, i);
        }
      }
      forall j, id | 0 <= j < |prefix| && Returns(prefix[j], id) ensures exists i :: OpenSince(prefix[..j], id, i) {
        if j < n {
          assert init[..j] == prefix[..j];
          assert Returns(init[j], id);
        }
      }
    }
  }

  /** A summary ends only where the covered structure is closed. */
  lemma CutIsClosed(structure: seq<Record>, visible: set<int>, limit: int, budget: int, n: nat)
    requires AllMessages(structure) && n <= |structure| && Cut(structure, visible, limit, budget, n)
    ensures Closed(structure[..n])
    ensures |CoveredAt(structure, visible, n)| <= limit
    ensures CoveredAt(structure, visible, n) != [] ==> Cost(CoveredAt(structure, visible, n)) <= budget
  {
    var prefix := structure[..n];
    assert prefix[..n - 1] == structure[..n - 1] && prefix[n - 1] == structure[n - 1];
    PendingIsOpen(prefix);
    assert ScanOf(prefix).value.pending == {};
    forall i, id | 0 <= i < |prefix| && Calls(prefix[i], id)
      ensures exists j :: i < j < |prefix| && Returns(prefix[j], id)
    {
      assert !OpenSince(prefix, id, i);
    }
  }

  /** Only assistant messages carry calls, and every message with a call id is a tool message. */
  predicate ChatShape(records: seq<Record>)
  {
    forall r :: r in records ==> r.Message? && (r.body.calls != [] ==> r.role == Assistant)
  }

  lemma {:induction false} PendingIsOutstanding(prefix: seq<Record>)
    requires AllMessages(prefix) && ScanOf(prefix).Some? && ChatShape(prefix)
    ensures Ids(Outstanding(RawAll(prefix))) == ScanOf(prefix).value.pending
  {
    if prefix != [] {
      var n := |prefix| - 1;
      var init, last := prefix[..n], prefix[n];
      assert last in prefix;
      PendingIsOutstanding(init);
      assert RawAll(prefix)[..n] == RawAll(init);
      assert RawAll(prefix)[n] == Raw(last.role, last.body.(incomplete := false));
    }
  }

  /** At a cut no call of the covered structure is waiting for its result. */
  lemma CutLeavesNothingOpen(structure: seq<Record>, visible: set<int>, limit: int, budget: int, n: nat)
    requires AllMessages(structure) && n <= |structure| && Cut(structure, visible, limit, budget, n)
    requires ChatShape(structure)
    ensures Outstanding(RawAll(structure[..n])) == []
  {
    var prefix := structure[..n];
    assert prefix[..n - 1] == structure[..n - 1] && prefix[n - 1] == structure[n - 1];
    PendingIsOutstanding(prefix);
    var open := Outstanding(RawAll(prefix));
    assert open != [] ==> open[0].id in Ids(open);
  }
}
