/** A session in which a compaction is inert on top of an earlier summary, and what the agent's loop then
    makes of the live conversation. */
module Straddling {
  import opened Sequences
  import opened Records
  import opened Replay
  import opened ReplayLaws
  import opened Extension
  import opened SessionLog
  import opened Transcript
  import opened Pairing
  import opened Coverage
  import opened Sources
  import opened Compaction
  import opened Growth
  import opened Sessions
  import opened KeptTail
  import opened Dialogue
  import opened LiveHistory

  const NOTHING_FORGOTTEN := Memory({}, 0)
  const BUDGET := 100

  /** Plain words, a call, and its result; what they say plays no part. */
  function Words(): Body { Body([], false, [], None, 1) }
  function Asking(): Body { Body([], false, [Call([], [])], None, 1) }
  function Answering(): Body { Body([], false, [], Some([]), 1) }

  /** The agent saves a user's words without a generation, everything else with the current one. */
  function GenerationFor(role: Role): Option<int> { if role == User then None else Some(0) }

  function Said(no: int, role: Role, body: Body): Record { Message(no, role, body, Untagged, GenerationFor(role)) }

  function Saying(role: Role, body: Body): SessionOp
  {
    SessionOp.Plainly(Say(role, body, Untagged, GenerationFor(role)))
  }

  /** Where a session stands: the messages left by its undos, what is undone, the working summary and the
      next number. */
  ghost predicate Stage(
    id: string, ops: seq<SessionOp>, messages: seq<Record>, windows: set<Window>, summary: Option<Record>, next: int)
  {
    var log := History(id, ops);
    && (forall op :: op in ops ==> Allowed(op))
    && WellKept(log) && WellFormed(log.lines, id) && log.next == next
    && LoadMessages(log.Records()) == messages && ActiveTombstones(log.Records()) == windows
    && WorkingSummary(log.lines, id, NOTHING_FORGOTTEN) == summary
    && Untouched(log.Records())
    && (summary.None? ==> LastCompact(log.Records()).None?)
  }

  /** Nothing cleared, and no message belongs to a later generation than the first. */
  predicate Untouched(records: seq<Record>)
  {
    LastClear(records).None? && forall r :: r in records && r.Message? ==> FirstGeneration(r)
  }

  predicate FirstGeneration(r: Record)
    requires r.Message?
  {
    r.generation.None? || r.generation.value == 0
  }

  lemma HistoryMore(id: string, ops: seq<SessionOp>, op: SessionOp)
    ensures History(id, ops + [op]) == Perform(History(id, ops), id, op)
  {
    assert (ops + [op])[..|ops|] == ops;
  }

  lemma AllowedMore(ops: seq<SessionOp>, op: SessionOp)
    requires (forall o :: o in ops ==> Allowed(o)) && Allowed(op)
    ensures forall o :: o in ops + [op] ==> Allowed(o)
  {
  }

  lemma StageStart(id: string)
    ensures Stage(id, [], [], {}, None, 1)
  {
    CreateIsWellKept(id);
    CreateReads(id);
    NothingYet([Meta(id)], Meta(id));
    assert [Meta(id)][..0] == [];
  }

  lemma WellFormedMore(log: Log, id: string, r: Record)
    requires WellFormed(log.lines, id) && !r.Meta? && Below(log.Records(), r.no)
    ensures WellFormed(Put(log, r).lines, id)
  {
    ReadPut(log, r);
    IncreasingAppend(log.Records(), r);
    var more := log.Records() + [r];
    assert more[0] == log.Records()[0];
  }

  lemma UntouchedMore(records: seq<Record>, r: Record)
    requires Untouched(records) && (r.Event? ==> !r.kind.Clear?) && (r.Message? ==> FirstGeneration(r))
    ensures Untouched(records + [r])
  {
    assert (records + [r])[..|records|] == records;
  }

  lemma StageSay(
    id: string, ops: seq<SessionOp>, messages: seq<Record>, windows: set<Window>, summary: Option<Record>, next: int,
    role: Role, body: Body)
    requires Stage(id, ops, messages, windows, summary, next)
    ensures Stage(id, ops + [Saying(role, body)], messages + [Said(next, role, body)], windows, summary, next + 1)
  {
    hide WellFormed, WorkingSummary, Untouched, LoadMessages, ActiveTombstones;
    var log, r := History(id, ops), Said(next, role, body);
    HistoryMore(id, ops, Saying(role, body));
    AllowedMore(ops, Saying(role, body));
    PutKeeps(log, r);
    ReadPut(log, r);
    WellFormedMore(log, id, r);
    HistoryAppend(log.Records(), r);
    CancelledAppend(log.Records(), r);
    WindowsAppend(log.Records(), r);
    SummaryGrows(log.lines, r, id, NOTHING_FORGOTTEN);
    LastsGrow(log.Records(), r);
    UntouchedMore(log.Records(), r);
  }

  lemma LastUserAt(messages: seq<Record>, last: Record, rest: seq<Record>)
    requires last.Message? && last.role == User && forall m :: m in rest ==> m.Message? && m.role != User
    ensures LastUser(messages + [last] + rest) == Some(|messages|)
  {
    var all := messages + [last] + rest;
    assert all[|messages|] == last;
    assert forall i :: |messages| < i < |all| ==> all[i] == rest[i - |messages| - 1] && all[i] in rest;
  }

  lemma StoneTakesBack(log: Log, messages: seq<Record>, last: Record, rest: seq<Record>, r: Record)
    requires WellKept(log) && LoadMessages(log.Records()) == messages + [last] + rest
    requires last.Message? && last.role == User && forall m :: m in rest ==> m.Message? && m.role != User
    requires r == StoneFor(log.next, last) && Untouched(log.Records()) && LastCompact(log.Records()).None?
    ensures Apply(log, Undo) == Put(log, r) && WellKept(Put(log, r))
    ensures
      var after := Put(log, r).Records();
      && LoadMessages(after) == messages && Untouched(after) && LastCompact(after).None?
      && ActiveTombstones(after) == ActiveTombstones(log.Records()) + {Window(r.upTo, r.no)}
  {
    var all := messages + [last] + rest;
    LastUserAt(messages, last, rest);
    assert all[|messages|] == last;
    UndoIsCut(log, all);
    PutKeeps(log, r);
    ReadPut(log, r);
    TombstoneTruncates(log.Records(), r);
    UndoTruncates(log.Records(), all, log.next, |messages|);
    assert all[..|messages|] == messages;
    CancelledAppend(log.Records(), r);
    WindowsAppend(log.Records(), r);
    FreshIsUncancelled(log.Records(), log.next);
    UntouchedMore(log.Records(), r);
    assert (log.Records() + [r])[..|log.Records()|] == log.Records();
  }

  lemma NoSummaryYet(lines: seq<Line>, id: string)
    requires LastCompact(ReadRecords(lines)).None?
    ensures WorkingSummary(lines, id, NOTHING_FORGOTTEN).None?
  {
  }

  /** Undoing the last turn before anything has been summarized. */
  lemma StageUndo(
    id: string, ops: seq<SessionOp>, messages: seq<Record>, windows: set<Window>, last: Record, rest: seq<Record>,
    next: int)
    requires Stage(id, ops, messages + [last] + rest, windows, None, next)
    requires last.Message? && last.role == User && forall m :: m in rest ==> m.Message? && m.role != User
    ensures Stage(id, ops + [SessionOp.Plainly(Undo)], messages, windows + {Window(last.no - 1, next)}, None, next + 1)
  {
    hide WellFormed, WorkingSummary, Untouched, LoadMessages, ActiveTombstones;
    var log, r := History(id, ops), StoneFor(next, last);
    HistoryMore(id, ops, SessionOp.Plainly(Undo));
    AllowedMore(ops, SessionOp.Plainly(Undo));
    StoneTakesBack(log, messages, last, rest, r);
    WellFormedMore(log, id, r);
    NoSummaryYet(Put(log, r).lines, id);
  }

  // ---- what is visible ----

  lemma {:induction false} FilterSame<T>(s: seq<T>, p: T -> bool, q: T -> bool)
    requires forall x :: x in s ==> p(x) == q(x)
    ensures Filter(s, p) == Filter(s, q)
  {
    if s != [] {
      var init, last := s[..|s| - 1], s[|s| - 1];
      assert s == init + [last];
      FilterSame(init, p, q);
    }
  }

  /** With nothing cleared and nothing forgotten, what is visible is what the undos have left. */
  lemma AllIsVisible(records: seq<Record>, filtered: bool)
    requires Untouched(records)
    ensures VisibleThrough(records, NOTHING_FORGOTTEN, Working, filtered) == LoadMessages(records)
  {
    FilterSame(records, SeenBy(LensOf(records, NOTHING_FORGOTTEN, Working, filtered)),
      NotHidden(ActiveTombstones(records)));
  }

  lemma UnsummarizedIs(
    id: string, ops: seq<SessionOp>, messages: seq<Record>, windows: set<Window>, summary: Option<Record>, next: int)
    requires Stage(id, ops, messages, windows, summary, next)
    ensures
      var lines := History(id, ops).lines;
      var s := Summarized(lines, id, NOTHING_FORGOTTEN);
      && VisibleMessages(History(id, ops).Records(), NOTHING_FORGOTTEN) == messages
      && s <= |messages|
      && Unsummarized(lines, id, NOTHING_FORGOTTEN, false) == messages[s..]
      && Unsummarized(lines, id, NOTHING_FORGOTTEN, true) == messages[s..]
  {
    var log := History(id, ops);
    AllIsVisible(log.Records(), false);
    AllIsVisible(log.Records(), true);
    UnsummarizedSplits(log.lines, id, NOTHING_FORGOTTEN);
    UnsummarizedLength(log.lines, id, NOTHING_FORGOTTEN);
    ReplayPartitionsVisible(log.lines, id, NOTHING_FORGOTTEN);
  }

  // ---- what is covered ----

  /** Two complete exchanges, with four more messages behind them. */
  predicate TwoExchanges(messages: seq<Record>)
  {
    && |messages| == 8 && AllMessages(messages)
    && (forall i :: 0 <= i < 4 ==> messages[i].Message? && messages[i].body == Words())
    && messages[0].role == User && messages[1].role == Assistant
    && messages[2].role == User && messages[3].role == Assistant
  }

  lemma ScanOne(messages: seq<Record>, n: nat, before: Scan)
    requires AllMessages(messages) && n < |messages| && messages[n].Message?
    requires ScanOf(messages[..n]) == Some(before) && Admits(before, messages[n])
    ensures ScanOf(messages[..n + 1]) == Some(Advance(before, messages[n]))
  {
    assert messages[..n + 1][..n] == messages[..n] && messages[..n + 1][n] == messages[n];
  }

  lemma CostOne(messages: seq<Record>, n: nat)
    requires n < |messages| && messages[n].Message? && messages[n].body == Words()
    ensures Cost(messages[..n + 1]) == Cost(messages[..n]) + 2
  {
    CostAppend(messages[..n], messages[n]);
    assert messages[..n + 1] == messages[..n] + [messages[n]];
  }

  lemma FourIsCut(messages: seq<Record>)
    requires TwoExchanges(messages)
    ensures Cut(messages, NosOf(messages), 4, BUDGET, 4)
  {
    var none: seq<Call> := [];
    assert messages[..0] == [] && Ids(none) == {};
    ScanOne(messages, 0, FRESH);
    ScanOne(messages, 1, Scan({}, true));
    assert FRESH.pending + Ids(none) == FRESH.pending;
    assert Advance(Scan({}, true), messages[1]) == FRESH;
    ScanOne(messages, 2, FRESH);
    ScanOne(messages, 3, Scan({}, true));
    CostOne(messages, 0);
    CostOne(messages, 1);
    CostOne(messages, 2);
    CostOne(messages, 3);
    AllPicked(messages, 4);
    assert messages[3] in messages;
  }

  /** The two exchanges are covered, the rest is the tail. */
  lemma FourCovered(messages: seq<Record>)
    requires TwoExchanges(messages)
    ensures Covered(messages, BUDGET, messages) == messages[..4]
  {
    var visible := NosOf(messages);
    FourIsCut(messages);
    CoveredIsLargestCut(messages, BUDGET, messages);
    var n := LargestCut(messages, visible, 4, BUDGET, 8);
    AllPicked(messages, n);
  }

  lemma CaptureFor(lines: seq<Line>, id: string, below: seq<Record>, prefix: seq<Record>, rest: seq<Record>)
    requires WellFormed(lines, id) && NumberedFromOne(ReadRecords(lines))
    requires VisibleMessages(ReadRecords(lines), NOTHING_FORGOTTEN) == below + (prefix + rest)
    ensures AllMessages(prefix) && Capture(lines, id, prefix, NOTHING_FORGOTTEN, 0).Some?
  {
    var records := ReadRecords(lines);
    VisibleAreMessages(records, NOTHING_FORGOTTEN, Working, false);
    FilterIncreasing(records, SeenBy(LensOf(records, NOTHING_FORGOTTEN, Working, false)));
    PrefixIsCapturable(records, NOTHING_FORGOTTEN, prefix, rest, below);
    CaptureCovers(lines, id, prefix, NOTHING_FORGOTTEN, 0);
  }

  lemma PlanFrom(lines: seq<Line>, id: string, below: seq<Record>, messages: seq<Record>) returns (plan: Plan)
    requires WellFormed(lines, id) && NumberedFromOne(ReadRecords(lines))
    requires VisibleMessages(ReadRecords(lines), NOTHING_FORGOTTEN) == below + messages
    requires Unsummarized(lines, id, NOTHING_FORGOTTEN, false) == messages
    requires Unsummarized(lines, id, NOTHING_FORGOTTEN, true) == messages
    requires TwoExchanges(messages)
    ensures Prepare(lines, id, NOTHING_FORGOTTEN, BUDGET) == Some(plan)
    ensures plan.prefix == messages[..4] && plan.tail == messages[4..]
  {
    hide WellFormed, NumberedFromOne, Unsummarized, VisibleMessages, Capture, Covered;
    FourCovered(messages);
    TakeDrop(messages, 4);
    CaptureFor(lines, id, below, messages[..4], messages[4..]);
    plan := Prepare(lines, id, NOTHING_FORGOTTEN, BUDGET).value;
  }

  /** The next plan of a session whose last eight messages are not summarized yet. */
  lemma PlanFor(
    id: string, ops: seq<SessionOp>, below: seq<Record>, messages: seq<Record>, windows: set<Window>,
    summary: Option<Record>, next: int)
    returns (plan: Plan)
    requires Stage(id, ops, below + messages, windows, summary, next)
    requires Summarized(History(id, ops).lines, id, NOTHING_FORGOTTEN) == |below| && TwoExchanges(messages)
    ensures Prepare(History(id, ops).lines, id, NOTHING_FORGOTTEN, BUDGET) == Some(plan)
    ensures plan.prefix == messages[..4] && plan.tail == messages[4..]
  {
    UnsummarizedIs(id, ops, below + messages, windows, summary, next);
    assert (below + messages)[|below|..] == messages;
    plan := PlanFrom(History(id, ops).lines, id, below, messages);
  }

  function Summarizing(summary: string): SessionOp { Compacting(NOTHING_FORGOTTEN, BUDGET, summary) }

  lemma SummaryChangesNothingElse(log: Log, id: string, e: Record)
    requires WellKept(log) && WellFormed(log.lines, id) && Untouched(log.Records())
    requires e.Event? && e.kind.Compact? && e.no == log.next
    ensures
      var after := Put(log, e);
      && WellFormed(after.lines, id) && Untouched(after.Records())
      && LoadMessages(after.Records()) == LoadMessages(log.Records())
      && ActiveTombstones(after.Records()) == ActiveTombstones(log.Records())
  {
    hide WellFormed, Untouched, LoadMessages, ActiveTombstones, CancelledNos, Grounded;
    ReadPut(log, e);
    WellFormedMore(log, id, e);
    HistoryAppend(log.Records(), e);
    CancelledAppend(log.Records(), e);
    WindowsAppend(log.Records(), e);
    UntouchedMore(log.Records(), e);
  }

  lemma SummaryStands(log: Log, id: string, plan: Plan, summary: string)
    requires WellKept(log) && Prepare(log.lines, id, NOTHING_FORGOTTEN, BUDGET) == Some(plan) && Recordable(plan)
    requires plan.prefix[0].Message? && plan.prefix[|plan.prefix| - 1].Message? && !Straddles(plan)
    ensures
      var e := CompactEvent(plan, summary);
      var visible := VisibleMessages(log.Records(), NOTHING_FORGOTTEN);
      && e.no == log.next && WellKept(Put(log, e))
      && WorkingSummary(Put(log, e).lines, id, NOTHING_FORGOTTEN) == Some(e)
      && |plan.tail| <= |visible| && |RefNos(plan.refs)| == |visible| - |plan.tail|
  {
    CompactionTakesHold(log.lines, id, NOTHING_FORGOTTEN, BUDGET, summary, plan);
    InertExactlyWhenStraddling(log.lines, id, NOTHING_FORGOTTEN, BUDGET, summary, plan);
    SummaryKeeps(log, plan, id, summary);
    AsLinesOne(CompactEvent(plan, summary));
  }

  /** A compaction with no undone stretch in its range becomes the working summary. */
  lemma StageCompact(
    id: string, ops: seq<SessionOp>, messages: seq<Record>, windows: set<Window>, next: int, plan: Plan,
    summary: string)
    returns (e: Record)
    requires Stage(id, ops, messages, windows, None, next)
    requires Prepare(History(id, ops).lines, id, NOTHING_FORGOTTEN, BUDGET) == Some(plan)
    requires plan.prefix != [] && plan.prefix[0].Message? && plan.prefix[|plan.prefix| - 1].Message? && !Straddles(plan)
    ensures Stage(id, ops + [Summarizing(summary)], messages, windows, Some(e), next + 1)
    ensures |plan.tail| <= |messages| && e.Event? && e.kind.Compact?
    ensures e.kind.data.refs.Some? && |RefNos(e.kind.data.refs.value)| == |messages| - |plan.tail|
  {
    hide WellKept, WellFormed, WorkingSummary, Untouched, LoadMessages, ActiveTombstones, Prepare;
    hide Straddles, Recordable;
    var log, op := History(id, ops), Summarizing(summary);
    HistoryMore(id, ops, op);
    AllowedMore(ops, op);
    PreparedIsRecordable(log.lines, id, NOTHING_FORGOTTEN, BUDGET, plan);
    SummaryStands(log, id, plan, summary);
    e := CompactEvent(plan, summary);
    SummaryChangesNothingElse(log, id, e);
    AllIsVisible(log.Records(), false);
  }

  // ---- the session ----

  function Early(): seq<Record>
  {
    [Said(1, User, Words()), Said(2, Assistant, Words()), Said(3, User, Words()), Said(4, Assistant, Words())]
  }

  function Around(): seq<Record>
  {
    [Said(5, User, Words()), Said(6, Assistant, Words()), Said(9, User, Words()), Said(10, Assistant, Words())]
  }

  function Late(): seq<Record>
  {
    [Said(12, User, Words()), Said(13, Assistant, Asking()), Said(14, Tool, Answering()), Said(15, Assistant, Words())]
  }

  /** Four exchanges; before the last one the user took back a message. */
  lemma FirstPart(id: string) returns (ops: seq<SessionOp>)
    ensures Stage(id, ops, Early() + Around(), {Window(6, 8)}, None, 11)
  {
    hide Stage;
    StageStart(id);
    ops := [];
    var so: seq<Record> := [];
    var u, a := Saying(User, Words()), Saying(Assistant, Words());
    StageSay(id, ops, so, {}, None, 1, User, Words());
    ops, so := ops + [u], so + [Said(1, User, Words())];
    StageSay(id, ops, so, {}, None, 2, Assistant, Words());
    ops, so := ops + [a], so + [Said(2, Assistant, Words())];
    StageSay(id, ops, so, {}, None, 3, User, Words());
    ops, so := ops + [u], so + [Said(3, User, Words())];
    StageSay(id, ops, so, {}, None, 4, Assistant, Words());
    ops, so := ops + [a], so + [Said(4, Assistant, Words())];
    StageSay(id, ops, so, {}, None, 5, User, Words());
    ops, so := ops + [u], so + [Said(5, User, Words())];
    StageSay(id, ops, so, {}, None, 6, Assistant, Words());
    ops, so := ops + [a], so + [Said(6, Assistant, Words())];
    StageSay(id, ops, so, {}, None, 7, User, Words());
    PlusNothing(so + [Said(7, User, Words())], []);
    StageUndo(id, ops + [u], so, {}, Said(7, User, Words()), [], 8);
    ops := ops + [u] + [SessionOp.Plainly(Undo)];
    assert {} + {Window(6, 8)} == {Window(6, 8)};
    StageSay(id, ops, so, {Window(6, 8)}, None, 9, User, Words());
    ops, so := ops + [u], so + [Said(9, User, Words())];
    StageSay(id, ops, so, {Window(6, 8)}, None, 10, Assistant, Words());
    ops, so := ops + [a], so + [Said(10, Assistant, Words())];
    assert so == Early() + Around();
  }

  lemma LastPart(
    id: string, before: seq<SessionOp>, messages: seq<Record>, summary: Record)
    returns (ops: seq<SessionOp>)
    requires Stage(id, before, messages, {Window(6, 8)}, Some(summary), 12)
    ensures Stage(id, ops, messages + Late(), {Window(6, 8)}, Some(summary), 16)
  {
    hide Stage;
    ops := before;
    var so := messages;
    StageSay(id, ops, so, {Window(6, 8)}, Some(summary), 12, User, Words());
    ops, so := ops + [Saying(User, Words())], so + [Said(12, User, Words())];
    StageSay(id, ops, so, {Window(6, 8)}, Some(summary), 13, Assistant, Asking());
    ops, so := ops + [Saying(Assistant, Asking())], so + [Said(13, Assistant, Asking())];
    StageSay(id, ops, so, {Window(6, 8)}, Some(summary), 14, Tool, Answering());
    ops, so := ops + [Saying(Tool, Answering())], so + [Said(14, Tool, Answering())];
    StageSay(id, ops, so, {Window(6, 8)}, Some(summary), 15, Assistant, Words());
    ops, so := ops + [Saying(Assistant, Words())], so + [Said(15, Assistant, Words())];
    assert so == messages + Late();
  }

  // ---- what goes wrong ----

  lemma {:induction false} RemoveOwnPrefix(s: seq<Replayed>, k: nat)
    requires k <= |s|
    ensures RemoveAll(s, s[..k]) == s[k..]
  {
    if k == 0 {
      assert s[..0] == [] && s[0..] == s;
    } else {
      RemoveOwnPrefix(s, k - 1);
      assert s[..k][..k - 1] == s[..k - 1];
      assert s[k - 1..][1..] == s[k..];
    }
  }

  lemma SumUp(summary: Record, lines: seq<Line>, id: string)
    requires summary.Event? && summary.kind.Compact? && summary.kind.data.refs.Some?
    requires WorkingSummary(lines, id, NOTHING_FORGOTTEN) == Some(summary)
    ensures Summarized(lines, id, NOTHING_FORGOTTEN) == |RefNos(summary.kind.data.refs.value)|
  {
  }

  lemma TwoAtFirst(messages: seq<Record>)
    requires messages == Early() + Around()
    ensures [] + messages == messages && |messages| == 8 && TwoExchanges(messages)
    ensures messages[..4] == Early() && |messages[4..]| == 4
    ensures Early() != [] && Early()[0].Message? && Early()[|Early()| - 1].Message?
  {
  }

  /** The session after its first compaction, which stands for the first two exchanges. */
  lemma FirstSummary(id: string) returns (ops: seq<SessionOp>, summary: Record)
    ensures Stage(id, ops, Early() + Around(), {Window(6, 8)}, Some(summary), 12)
    ensures summary.Event? && summary.kind.Compact?
    ensures summary.kind.data.refs.Some? && |RefNos(summary.kind.data.refs.value)| == 4
  {
    hide Stage, Prepare, WorkingSummary, Straddles, History, TwoExchanges, RefNos;
    var first := FirstPart(id);
    var messages := Early() + Around();
    TwoAtFirst(messages);
    hide Early, Around;
    FirstIsUnsummarized(id, first);
    var plan := PlanFor(id, first, [], messages, {Window(6, 8)}, None, 11);
    FirstIsClear(id, first, plan);
    summary := StageCompact(id, first, messages, {Window(6, 8)}, 11, plan, []);
    ops := first + [Summarizing([])];
  }

  /** The session up to where the second compaction is asked for, and its plan. */
  lemma WholeSession(id: string) returns (ops: seq<SessionOp>, plan: Plan, summary: Record)
    ensures Stage(id, ops, Early() + (Around() + Late()), {Window(6, 8)}, Some(summary), 16)
    ensures Summarized(History(id, ops).lines, id, NOTHING_FORGOTTEN) == 4
    ensures Prepare(History(id, ops).lines, id, NOTHING_FORGOTTEN, BUDGET) == Some(plan)
    ensures plan.prefix == Around() && plan.lines == History(id, ops).lines
  {
    hide Prepare, WellKept, WellFormed, WorkingSummary, LoadMessages, ActiveTombstones, Untouched;
    var first: seq<SessionOp>;
    first, summary := FirstSummary(id);
    ops := LastPart(id, first, Early() + Around(), summary);
    Associative(Early(), Around(), Late());
    SumUp(summary, History(id, ops).lines, id);
    assert (Around() + Late())[..4] == Around();
    plan := PlanFor(id, ops, Early(), Around() + Late(), {Window(6, 8)}, Some(summary), 16);
    var refs := PrepareParts(History(id, ops).lines, id, NOTHING_FORGOTTEN, BUDGET, plan);
  }

  lemma FirstIsUnsummarized(id: string, ops: seq<SessionOp>)
    requires Stage(id, ops, Early() + Around(), {Window(6, 8)}, None, 11)
    ensures Summarized(History(id, ops).lines, id, NOTHING_FORGOTTEN) == 0
  {
  }

  lemma FirstIsClear(id: string, ops: seq<SessionOp>, plan: Plan)
    requires Stage(id, ops, Early() + Around(), {Window(6, 8)}, None, 11)
    requires Prepare(History(id, ops).lines, id, NOTHING_FORGOTTEN, BUDGET) == Some(plan) && plan.prefix == Early()
    ensures !Straddles(plan)
  {
    var refs := PrepareParts(History(id, ops).lines, id, NOTHING_FORGOTTEN, BUDGET, plan);
  }

  lemma SecondStraddles(id: string, ops: seq<SessionOp>, messages: seq<Record>, summary: Option<Record>, plan: Plan)
    requires Stage(id, ops, messages, {Window(6, 8)}, summary, 16)
    requires plan.prefix == Around() && plan.lines == History(id, ops).lines
    ensures Straddles(plan)
  {
    assert Window(6, 8) in ActiveTombstones(ReadRecords(plan.lines));
  }

  lemma ShownAre()
    ensures
      var shown := RawAll(Early() + (Around() + Late()));
      && |shown| == 12 && shown[0] == Raw(User, Words()) && shown[1] == Raw(Assistant, Words())
      && shown[10..] == [Raw(Tool, Answering()), Raw(Assistant, Words())]
  {
  }

  lemma NeverRealigned(shown: seq<Replayed>)
    requires |shown| == 12 && shown[1] == Raw(Assistant, Words())
    ensures !Realigned(shown, 4)
  {
    var middle := shown[1..10];
    assert TakenOut(4, 12) == 7;
    assert middle[0] == shown[1] && middle[0] in middle;
    LastingIn(middle);
  }

  /** What the loop makes of a live history that was the replay itself. */
  lemma LiveLoses(before: seq<Replayed>, shown: seq<Replayed>)
    requires |shown| == 12 && before != [] && before == [before[0]] + shown[4..]
    requires shown[0] == Raw(User, Words())
    requires shown[10..] == [Raw(Tool, Answering()), Raw(Assistant, Words())]
    ensures Rebuilt(before, before, shown) == [Raw(User, Words()), Raw(Tool, Answering()), Raw(Assistant, Words())]
  {
    assert |before| == 9 && Upto(before, |before| - |shown| + 1) == 7;
    RemoveOwnPrefix(before, 7);
    assert before[7..] == shown[10..];
    var left := shown[10..];
    assert Leading(left) == 0;
    assert left[..0] == [] && left[0..] == left;
  }

  lemma ResultIsOrphaned(live: seq<Replayed>)
    requires live == [Raw(User, Words()), Raw(Tool, Answering()), Raw(Assistant, Words())]
    ensures !NoOrphans(live)
  {
    assert live[..1] == [] + [live[0]];
    OutstandingLast([], [], live[0]);
    assert Outstanding(live[..1]) == [];
    assert Answers(live[1]) == Some([]);
  }

  /** Two exchanges are summarized; then a turn is taken back, and a second compaction reaches across the
      gap. It is prepared and recorded but inert: the first summary is lost with it, and the loop leaves a
      live conversation that does not mirror the replay and holds a tool result without its call. */
  lemma InertCompactionLosesStep(id: string) returns (ops: seq<SessionOp>, plan: Plan)
    ensures forall op :: op in ops ==> Allowed(op)
    ensures Prepare(History(id, ops).lines, id, NOTHING_FORGOTTEN, BUDGET) == Some(plan)
    ensures plan.prefix == Around() && Straddles(plan)
    ensures !StaysInStep(History(id, ops), id, NOTHING_FORGOTTEN, plan)
    ensures
      var log := History(id, ops);
      var before, shown := LoadForModel(log.lines, id, NOTHING_FORGOTTEN), Shown(log, NOTHING_FORGOTTEN);
      && LoadForModel(Compacted(log, id, NOTHING_FORGOTTEN, BUDGET, []).lines, id, NOTHING_FORGOTTEN) == shown
      && shown != []
      && !Mirrors(Rebuilt(before, before, shown), shown)
      && !NoOrphans(Rebuilt(before, before, shown))
  {
    hide Prepare, WellKept, WellFormed, WorkingSummary, LoadMessages, ActiveTombstones, Untouched, LoadForModel;
    hide Straddles, VisibleMessages, History, Compacted, Rebuilt, NoOrphans;
    var summary: Record;
    ops, plan, summary := WholeSession(id);
    var messages := Early() + (Around() + Late());
    UnsummarizedIs(id, ops, messages, {Window(6, 8)}, Some(summary), 16);
    SecondStraddles(id, ops, messages, Some(summary), plan);
    ShownAre();
    NeverRealigned(RawAll(messages));
    ReplayIsTail(History(id, ops), id, NOTHING_FORGOTTEN);
    LiveLoses(LoadForModel(History(id, ops).lines, id, NOTHING_FORGOTTEN), RawAll(messages));
    ResultIsOrphaned([Raw(User, Words()), Raw(Tool, Answering()), Raw(Assistant, Words())]);
    CompactionIsInert(id, ops, plan);
    LiveIsShort([Raw(User, Words()), Raw(Tool, Answering()), Raw(Assistant, Words())], RawAll(messages));
  }

  lemma CompactionIsInert(id: string, ops: seq<SessionOp>, plan: Plan)
    requires (forall op :: op in ops ==> Allowed(op)) && plan.prefix == Around() && Straddles(plan)
    requires Prepare(History(id, ops).lines, id, NOTHING_FORGOTTEN, BUDGET) == Some(plan)
    ensures LoadForModel(Compacted(History(id, ops), id, NOTHING_FORGOTTEN, BUDGET, []).lines, id, NOTHING_FORGOTTEN)
         == Shown(History(id, ops), NOTHING_FORGOTTEN)
  {
    EverySessionIsWellKept(id, ops);
    CompactingAgain(id, ops, NOTHING_FORGOTTEN, BUDGET, []);
    InertExactlyWhenStraddling(History(id, ops).lines, id, NOTHING_FORGOTTEN, BUDGET, [], plan);
  }

  lemma LiveIsShort(live: seq<Replayed>, shown: seq<Replayed>)
    requires |live| == 3 && |shown| == 12 && shown == RawAll(Early() + (Around() + Late()))
    ensures !Mirrors(live, shown)
  {
    forall m | m in shown ensures !Transient(m) { assert !IsPrompt(m); }
    FilterAll(shown, IsLasting());
    LastingIsShorter(live);
  }

  lemma {:induction false} LastingIsShorter(s: seq<Replayed>)
    ensures |Lasting(s)| <= |s|
  {
    if s != [] { LastingIsShorter(s[..|s| - 1]); }
  }
}
