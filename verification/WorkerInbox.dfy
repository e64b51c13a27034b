/** A worker's durable inbox: every queued input is delivered once, in order, across crashes. */
module WorkerInbox {
  import opened Sequences
  import opened Records
  import opened Replay
  import opened SessionLog
  import opened Transcript
  import F = FailedAppends
  import P = Pairing

  function IsQueued(windows: set<Window>): Record -> bool
  {
    (r: Record) => r.Event? && r.kind.WorkerInbox? && !IsHidden(r.no, windows)
  }

  function IsDelivery(): Record -> bool
  {
    (r: Record) => r.Message? && r.tag.Inbox?
  }

  /** The inbox events of the session, tombstones applied, in append order. */
  function Queued(records: seq<Record>): seq<Record> { Filter(records, IsQueued(ActiveTombstones(records))) }

  function Deliveries(records: seq<Record>): seq<Record> { Filter(records, IsDelivery()) }

  function InboxId(r: Record): nat
  {
    if r.Event? && r.kind.WorkerInbox? then r.kind.inboxId
    else if r.Message? && r.tag.Inbox? then r.tag.id else 0
  }

  function Ids(items: seq<Record>): (ids: seq<nat>)
    ensures |ids| == |items|
    ensures forall i :: 0 <= i < |items| ==> ids[i] == InboxId(items[i])
  {
    Map(items, (r: Record) => InboxId(r))
  }

  function Unconsumed(consumed: seq<nat>): Record -> bool { (r: Record) => InboxId(r) !in consumed }

  /** Queued items whose id no message of the transcript carries. */
  function Pending(records: seq<Record>): seq<Record>
  {
    Filter(Queued(records), Unconsumed(Ids(Deliveries(records))))
  }

  function TextBody(text: string): Body { Body(text, false, [], None, |text|) }

  function TextOf(item: Record): string
  {
    if item.Event? && item.kind.WorkerInbox? then item.kind.text else ""
  }

  function Delivery(item: Record): Op
  {
    Say(User, TextBody(TextOf(item)), Inbox(InboxId(item)), None)
  }

  /** Append deliveries for `items`, the first one first. */
  function DeliverAll(log: Log, items: seq<Record>): Log
  {
    if items == [] then log
    else Apply(DeliverAll(log, items[..|items| - 1]), Delivery(items[|items| - 1]))
  }

  /** What can happen to a child session: an input is queued, a consumer delivers pending items and
      may crash after any number of records, some other record is written, or any one of these appends
      fails and leaves nothing, a torn line, or its whole line behind. */
  datatype Act =
    | Enqueue(id: nat, text: string)
    | EnqueueFails(id: nat, text: string, left: F.Left)
    | Consume(crashAfter: nat)
    | DeliveryFails(after: nat, left: F.Left)
    | Other(op: Op)
    | OtherFails(op: Op, left: F.Left)

  predicate Unrelated(op: Op)
  {
    (op.Say? && !op.tag.Inbox?) || (op.Note? && !op.kind.WorkerInbox? && !op.kind.Redo?)
  }

  predicate Allowed(log: Log, act: Act)
  {
    match act
    case Enqueue(id, _) => id !in Ids(Queued(log.Records()))
    case EnqueueFails(id, _, _) => id !in Ids(Queued(log.Records()))
    case Consume(_) => true
    case DeliveryFails(after, _) => after < |Pending(log.Records())|
    case Other(op) => Unrelated(op) || op.CrashMidWrite?
    case OtherFails(op, _) => Unrelated(op)
  }

  function Min(a: nat, b: nat): nat { if a <= b then a else b }

  function Queueing(id: nat, text: string): Op { Note(Kind.WorkerInbox(id, text)) }

  function Failing(log: Log, op: Op, left: F.Left): Log
    requires op.Say? || op.Note?
  {
    var payload := if op.Say? then F.OfMessage(op.role, op.body, op.tag, op.generation) else F.OfEvent(op.kind);
    F.Step(log, F.AppendFails(payload, left))
  }

  function Do(log: Log, act: Act): Log
    requires Allowed(log, act)
  {
    var pending := Pending(log.Records());
    match act
    case Enqueue(id, text) => Apply(log, Queueing(id, text))
    case EnqueueFails(id, text, left) => Failing(log, Queueing(id, text), left)
    case Consume(k) => DeliverAll(log, pending[..Min(k, |pending|)])
    case DeliveryFails(k, left) => Failing(DeliverAll(log, pending[..k]), Delivery(pending[k]), left)
    case Other(op) => Apply(log, op)
    case OtherFails(op, left) => Failing(log, op, left)
  }

  predicate AllAllowed(log: Log, acts: seq<Act>)
    decreases |acts|
  {
    acts == [] || (Allowed(log, acts[0]) && AllAllowed(Do(log, acts[0]), acts[1..]))
  }

  function Run(log: Log, acts: seq<Act>): Log
    requires AllAllowed(log, acts)
    decreases |acts|
  {
    if acts == [] then log else Run(Do(log, acts[0]), acts[1..])
  }

  ghost predicate Distinct(ids: seq<nat>)
  {
    forall i, j :: 0 <= i < j < |ids| ==> ids[i] != ids[j]
  }

  /** The transcript holds the first so many queued inputs, in order, each with its own text. */
  ghost predicate Prefix(records: seq<Record>)
  {
    var queued, delivered := Queued(records), Deliveries(records);
    && ActiveTombstones(records) == {}
    && Distinct(Ids(queued))
    && |delivered| <= |queued|
    && forall i :: 0 <= i < |delivered| ==> Carries(delivered[i], queued[i])
  }

  predicate Carries(message: Record, item: Record)
  {
    && message.Message? && item.Event? && item.kind.WorkerInbox?
    && message.role == User
    && message.tag == Inbox(item.kind.inboxId) && message.body.content == item.kind.text
  }

  lemma QueuedAppend(records: seq<Record>, r: Record)
    requires !r.Meta? && !r.Tombstone? && (r.Event? ==> !r.kind.Redo?)
    requires ActiveTombstones(records) == {}
    ensures ActiveTombstones(records + [r]) == {}
    ensures Queued(records + [r]) == Queued(records) + (if r.Event? && r.kind.WorkerInbox? then [r] else [])
    ensures Deliveries(records + [r]) == Deliveries(records) + (if r.Message? && r.tag.Inbox? then [r] else [])
  {
    CancelledAppend(records, r);
    WindowsAppend(records, r);
    assert (records + [r])[..|records|] == records;
  }

  lemma ConsumedPart(items: seq<Record>, consumed: seq<nat>)
    requires |items| == |consumed| && Ids(items) == consumed
    ensures Filter(items, Unconsumed(consumed)) == []
  {
    forall x | x in items ensures !Unconsumed(consumed)(x) {
      var i :| 0 <= i < |items| && items[i] == x;
      assert consumed[i] == InboxId(x);
    }
    FilterNone(items, Unconsumed(consumed));
  }

  lemma FreshPart(items: seq<Record>, consumed: seq<nat>)
    requires forall j, i :: 0 <= j < |items| && 0 <= i < |consumed| ==> InboxId(items[j]) != consumed[i]
    ensures Filter(items, Unconsumed(consumed)) == items
  {
    FilterAll(items, Unconsumed(consumed));
  }

  lemma SecondPart(a: seq<Record>, b: seq<Record>, p: Record -> bool)
    requires Filter(a, p) == [] && Filter(b, p) == b
    ensures Filter(a + b, p) == b
  {
    FilterAppend(a, b, p);
  }

  lemma LaterAreFresh(ids: seq<nat>, n: nat, later: seq<Record>)
    requires Distinct(ids) && n <= |ids| && Ids(later) == ids[n..]
    ensures forall j, i :: 0 <= j < |later| && 0 <= i < n ==> InboxId(later[j]) != ids[..n][i]
  {
    forall j, i | 0 <= j < |later| && 0 <= i < n ensures InboxId(later[j]) != ids[..n][i] {
      assert InboxId(later[j]) == ids[n..][j] == ids[n + j];
    }
  }

  lemma IdsOfParts(items: seq<Record>, n: nat)
    requires n <= |items|
    ensures Ids(items[..n]) == Ids(items)[..n] && Ids(items[n..]) == Ids(items)[n..]
  {
  }

  lemma LeftOver(queued: seq<Record>, consumed: seq<nat>)
    requires |consumed| <= |queued| && Distinct(Ids(queued))
    requires consumed == Ids(queued)[..|consumed|]
    ensures Filter(queued, Unconsumed(consumed)) == queued[|consumed|..]
  {
    var n := |consumed|;
    var before, after := queued[..n], queued[n..];
    TakeDrop(queued, n);
    IdsOfParts(queued, n);
    ConsumedPart(before, consumed);
    LaterAreFresh(Ids(queued), n, after);
    FreshPart(after, consumed);
    SecondPart(before, after, Unconsumed(consumed));
  }

  lemma CarriedIds(records: seq<Record>)
    requires Prefix(records)
    ensures forall i :: 0 <= i < |Deliveries(records)| ==> Ids(Deliveries(records))[i] == Ids(Queued(records))[i]
  {
    forall i | 0 <= i < |Deliveries(records)| ensures Ids(Deliveries(records))[i] == Ids(Queued(records))[i] {
      assert Carries(Deliveries(records)[i], Queued(records)[i]);
    }
  }

  /** Then what is pending is exactly the rest of the queue. */
  lemma PendingIsRest(records: seq<Record>)
    requires Prefix(records)
    ensures Pending(records) == Queued(records)[|Deliveries(records)|..]
  {
    CarriedIds(records);
    LeftOver(Queued(records), Ids(Deliveries(records)));
  }

  lemma DeliverOne(log: Log, item: Record)
    requires Prefix(log.Records())
    requires |Deliveries(log.Records())| < |Queued(log.Records())|
    requires item == Queued(log.Records())[|Deliveries(log.Records())|]
    ensures Prefix(Apply(log, Delivery(item)).Records())
    ensures Queued(Apply(log, Delivery(item)).Records()) == Queued(log.Records())
    ensures |Deliveries(Apply(log, Delivery(item)).Records())| == |Deliveries(log.Records())| + 1
  {
    var records := log.Records();
    FilterIn(records, IsQueued(ActiveTombstones(records)));
    assert item in Queued(records);
    var d := Delivery(item);
    var r := Message(log.next, d.role, d.body, d.tag, d.generation);
    ReadPut(log, r);
    QueuedAppend(records, r);
  }

  lemma {:induction false} DeliverSome(log: Log, items: seq<Record>)
    requires Prefix(log.Records())
    requires |Deliveries(log.Records())| + |items| <= |Queued(log.Records())|
    requires items == Queued(log.Records())[|Deliveries(log.Records())|..][..|items|]
    ensures Prefix(DeliverAll(log, items).Records())
    ensures Queued(DeliverAll(log, items).Records()) == Queued(log.Records())
    ensures |Deliveries(DeliverAll(log, items).Records())| == |Deliveries(log.Records())| + |items|
  {
    if items != [] {
      var n := |items| - 1;
      assert items[..n] == Queued(log.Records())[|Deliveries(log.Records())|..][..n];
      DeliverSome(log, items[..n]);
      assert items[n] == Queued(log.Records())[|Deliveries(log.Records())| + n];
      DeliverOne(DeliverAll(log, items[..n]), items[n]);
    }
  }

  lemma EnqueueKeepsPrefix(log: Log, id: nat, text: string)
    requires Prefix(log.Records()) && id !in Ids(Queued(log.Records()))
    ensures Prefix(Apply(log, Queueing(id, text)).Records())
  {
    var r := Event(log.next, Kind.WorkerInbox(id, text));
    ReadPut(log, r);
    QueuedAppend(log.Records(), r);
    var before, after := Ids(Queued(log.Records())), Ids(Queued(log.Records()) + [r]);
    assert forall i :: 0 <= i < |before| ==> after[i] == before[i] && before[i] in before;
    assert after[|before|] == id;
  }

  lemma OtherKeepsPrefix(log: Log, op: Op)
    requires Prefix(log.Records()) && Allowed(log, Other(op))
    ensures Prefix(Apply(log, op).Records())
  {
    if op.CrashMidWrite? {
      var torn := log.lines + [Corrupt];
      assert torn[..|log.lines|] == log.lines;
      assert ReadRecords(torn) == log.Records();
    } else {
      var r := if op.Say? then Message(log.next, op.role, op.body, op.tag, op.generation) else Event(log.next, op.kind);
      ReadPut(log, r);
      QueuedAppend(log.Records(), r);
    }
  }

  /** What a failed append leaves reads like no append, or like one that succeeded. */
  lemma FailureReads(log: Log, op: Op, left: F.Left)
    requires op.Say? || op.Note?
    ensures Failing(log, op, left).Records() == if left.WholeLine? then Apply(log, op).Records() else log.Records()
  {
    F.ReadLine(log.lines, Corrupt);
    PlusNothing(log.Records(), []);
  }

  lemma NextDelivery(log: Log, k: nat)
    requires Prefix(log.Records()) && k < |Pending(log.Records())|
    ensures
      var pending := Pending(log.Records());
      var before := DeliverAll(log, pending[..k]);
      Prefix(before.Records()) && Prefix(Apply(before, Delivery(pending[k])).Records())
  {
    var pending, queued, n := Pending(log.Records()), Queued(log.Records()), |Deliveries(log.Records())|;
    PendingIsRest(log.Records());
    assert n + k < |queued| && pending[k] == queued[n + k] && n + |pending[..k]| == n + k;
    DeliverSome(log, pending[..k]);
    hide Queued, Deliveries, Pending, Prefix, DeliverAll, Apply, Delivery;
    DeliverOne(DeliverAll(log, pending[..k]), pending[k]);
  }

  lemma DeliveryFailureKeepsPrefix(log: Log, k: nat, left: F.Left)
    requires Prefix(log.Records()) && k < |Pending(log.Records())|
    ensures Prefix(Do(log, DeliveryFails(k, left)).Records())
  {
    hide Pending, Prefix, DeliverAll, Apply, Failing;
    var pending := Pending(log.Records());
    var before := DeliverAll(log, pending[..k]);
    assert Do(log, DeliveryFails(k, left)) == Failing(before, Delivery(pending[k]), left);
    hide Do, Delivery, Queued, Deliveries;
    NextDelivery(log, k);
    FailureReads(before, Delivery(pending[k]), left);
  }

  lemma ActKeepsPrefix(log: Log, act: Act)
    requires Prefix(log.Records()) && Allowed(log, act)
    ensures Prefix(Do(log, act).Records())
  {
    match act
    case Enqueue(id, text) => EnqueueKeepsPrefix(log, id, text);
    case EnqueueFails(id, text, left) =>
      EnqueueKeepsPrefix(log, id, text);
      FailureReads(log, Queueing(id, text), left);
    case Consume(k) =>
      PendingIsRest(log.Records());
      DeliverSome(log, Pending(log.Records())[..Min(k, |Pending(log.Records())|)]);
    case DeliveryFails(k, left) => DeliveryFailureKeepsPrefix(log, k, left);
    case Other(op) => OtherKeepsPrefix(log, op);
    case OtherFails(op, left) =>
      OtherKeepsPrefix(log, op);
      FailureReads(log, op, left);
  }

  /** For any interleaving of enqueue and consume with crashes after any record and appends that fail, landed
      or not, the delivered inputs are a duplicate-free prefix of the queued ones, in order, with their own
      texts. */
  lemma {:induction false} InboxIsExactlyOnce(log: Log, acts: seq<Act>)
    requires Prefix(log.Records()) && AllAllowed(log, acts)
    ensures Prefix(Run(log, acts).Records())
    ensures
      var records := Run(log, acts).Records();
      && Ids(Deliveries(records)) <= Ids(Queued(records))
      && Distinct(Ids(Deliveries(records)))
    decreases |acts|
  {
    if acts != [] {
      ActKeepsPrefix(log, acts[0]);
      InboxIsExactlyOnce(Do(log, acts[0]), acts[1..]);
    } else {
      CarriedIds(log.Records());
    }
  }

  /** A consumer that does not crash leaves nothing pending. */
  lemma ConsumeDrains(log: Log)
    requires Prefix(log.Records())
    ensures
      var after := Do(log, Consume(|Pending(log.Records())|)).Records();
      Pending(after) == [] && Ids(Deliveries(after)) == Ids(Queued(after))
  {
    PendingIsRest(log.Records());
    var pending := Pending(log.Records());
    assert pending[..|pending|] == pending;
    DeliverSome(log, pending);
    var after := DeliverAll(log, pending).Records();
    PendingIsRest(after);
    CarriedIds(after);
  }

  lemma NoInboxYet(records: seq<Record>)
    requires forall r :: r in records ==> r.Meta?
    ensures Prefix(records)
  {
    FilterNone(records, IsQueued(ActiveTombstones(records)));
    FilterNone(records, IsDelivery());
  }

  lemma NewSessionHasEmptyInbox(id: string)
    ensures Prefix(Create(id).Records())
  {
    var lines := [Parsed(Meta(id))];
    assert lines[..0] == [];
    assert ReadRecords(lines) == [Meta(id)];
    NoInboxYet(ReadRecords(lines));
  }

  // ---- notifications, and the consumer as it runs ----

  /** A message for a supervisor from one of its workers; which ones are pending is the caller's business. */
  datatype Notice = Notice(id: nat, text: string)

  /** The acknowledgement the manager's own session keeps beside the durable message. */
  const ACKNOWLEDGED := OtherKind("worker_notification_ack")

  function Telling(n: Notice): Op { Say(User, TextBody(n.text), Notification(n.id), None) }

  function Notify(log: Log, n: Notice, own: bool): Log
  {
    if own then Apply(Apply(log, Telling(n)), Note(ACKNOWLEDGED)) else Apply(log, Telling(n))
  }

  /** The log after the notices; `own` if the supervisor's session is the manager's own. */
  function NotifyAll(log: Log, notices: seq<Notice>, own: bool): Log
  {
    if notices == [] then log
    else Notify(NotifyAll(log, notices[..|notices| - 1], own), notices[|notices| - 1], own)
  }

  /** What the live history gets: the same texts, in the same order. */
  function InboxMessages(items: seq<Record>): seq<Replayed>
  {
    Map(items, (item: Record) => Raw(User, TextBody(TextOf(item))))
  }

  function NoticeMessages(notices: seq<Notice>): seq<Replayed>
  {
    Map(notices, (n: Notice) => Raw(User, TextBody(n.text)))
  }

  function IsMessage(): Record -> bool { (r: Record) => r.Message? }

  /** The messages of a file, as they are stored. */
  function Stored(records: seq<Record>): seq<(Tag, Replayed)>
  {
    Map(Filter(records, IsMessage()), (r: Record) =>
      if r.Message? then (r.tag, Raw(r.role, r.body)) else (Untagged, Summary("")))
  }

  lemma StoredMore(log: Log, r: Record)
    requires !r.Meta?
    ensures Stored(Put(log, r).Records()) == Stored(log.Records()) +
      if r.Message? then [(r.tag, Raw(r.role, r.body))] else []
  {
    ReadPut(log, r);
    if r.Message? { FilterTakes(log.Records(), r, IsMessage()); } else { FilterSkips(log.Records(), r, IsMessage()); }
  }

  /** Each message marked with the id it delivers. */
  function Marked(messages: seq<Replayed>, tags: seq<Tag>): seq<(Tag, Replayed)>
    requires |messages| == |tags|
  {
    seq(|messages|, i requires 0 <= i < |messages| => (tags[i], messages[i]))
  }

  function InboxTags(items: seq<Record>): (tags: seq<Tag>)
    ensures |tags| == |items|
  {
    Map(items, (item: Record) => Inbox(InboxId(item)))
  }

  function NoticeTags(notices: seq<Notice>): (tags: seq<Tag>)
    ensures |tags| == |notices|
  {
    Map(notices, (n: Notice) => Notification(n.id))
  }

  /** What the file gains is what the live history gains, each input marked with its id. */
  lemma {:induction false} InboxIsSaved(log: Log, items: seq<Record>)
    ensures |InboxMessages(items)| == |items|
    ensures Stored(DeliverAll(log, items).Records())
      == Stored(log.Records()) + Marked(InboxMessages(items), InboxTags(items))
  {
    if items != [] {
      var n := |items| - 1;
      var before := DeliverAll(log, items[..n]);
      InboxIsSaved(log, items[..n]);
      var d := Delivery(items[n]);
      StoredMore(before, Message(before.next, d.role, d.body, d.tag, d.generation));
    }
  }

  function IsAcknowledgement(): Record -> bool { (r: Record) => r.Event? && r.kind == ACKNOWLEDGED }

  function Acknowledged(records: seq<Record>): nat { |Filter(records, IsAcknowledgement())| }

  lemma AcknowledgedMore(log: Log, r: Record)
    requires !r.Meta?
    ensures Acknowledged(Put(log, r).Records())
      == Acknowledged(log.Records()) + if r.Event? && r.kind == ACKNOWLEDGED then 1 else 0
  {
    ReadPut(log, r);
    if IsAcknowledgement()(r) {
      FilterTakes(log.Records(), r, IsAcknowledgement());
    } else {
      FilterSkips(log.Records(), r, IsAcknowledgement());
    }
  }

  /** ... and each notice with its own. */
  lemma {:induction false} NoticesAreSaved(log: Log, notices: seq<Notice>, own: bool)
    ensures |NoticeMessages(notices)| == |notices|
    ensures Stored(NotifyAll(log, notices, own).Records())
      == Stored(log.Records()) + Marked(NoticeMessages(notices), NoticeTags(notices))
  {
    if notices != [] {
      var n := |notices| - 1;
      var before, notice := NotifyAll(log, notices[..n], own), notices[n];
      NoticesAreSaved(log, notices[..n], own);
      var d := Telling(notice);
      var m := Message(before.next, d.role, d.body, d.tag, d.generation);
      StoredMore(before, m);
      if own {
        var told := Put(before, m);
        StoredMore(told, Event(told.next, ACKNOWLEDGED));
      }
    }
  }

  /** The manager's own session acknowledges each notice once. */
  lemma {:induction false} NoticesAreAcknowledged(log: Log, notices: seq<Notice>, own: bool)
    ensures Acknowledged(NotifyAll(log, notices, own).Records())
      == Acknowledged(log.Records()) + if own then |notices| else 0
  {
    if notices != [] {
      var n := |notices| - 1;
      var before, d := NotifyAll(log, notices[..n], own), Telling(notices[n]);
      NoticesAreAcknowledged(log, notices[..n], own);
      var m := Message(before.next, d.role, d.body, d.tag, d.generation);
      AcknowledgedMore(before, m);
      if own { AcknowledgedMore(Put(before, m), Event(Put(before, m).next, ACKNOWLEDGED)); }
    }
  }

  /** Notices never disturb the inbox. */
  lemma {:induction false} NoticesKeepPrefix(log: Log, notices: seq<Notice>, own: bool)
    requires Prefix(log.Records())
    ensures Prefix(NotifyAll(log, notices, own).Records())
  {
    if notices != [] {
      var before, n := NotifyAll(log, notices[..|notices| - 1], own), notices[|notices| - 1];
      NoticesKeepPrefix(log, notices[..|notices| - 1], own);
      OtherKeepsPrefix(before, Telling(n));
      if own { OtherKeepsPrefix(Apply(before, Telling(n)), Note(ACKNOWLEDGED)); }
    }
  }

  lemma {:induction false} UsersOpenNothing(history: seq<Replayed>, messages: seq<Replayed>)
    requires P.Outstanding(history) == []
    requires forall m :: m in messages ==> P.CallsOf(m) == [] && P.Answers(m).None?
    ensures P.Outstanding(history + messages) == []
  {
    if messages == [] {
      PlusNothing(history, messages);
    } else {
      var init, last := messages[..|messages| - 1], messages[|messages| - 1];
      assert messages == init + [last];
      UsersOpenNothing(history, init);
      Associative(history, init, [last]);
      P.OutstandingLast([], history + init, last);
    }
  }

  /** What is consumed leaves nothing open in the live history. */
  lemma ConsumedStaysClosed(history: seq<Replayed>, items: seq<Record>, notices: seq<Notice>)
    requires P.Outstanding(history) == []
    ensures P.Outstanding(history + InboxMessages(items) + NoticeMessages(notices)) == []
  {
    UsersOpenNothing(history, InboxMessages(items));
    UsersOpenNothing(history + InboxMessages(items), NoticeMessages(notices));
  }

  lemma OneMoreItem(log: Log, items: seq<Record>, i: nat)
    requires i < |items|
    ensures DeliverAll(log, items[..i + 1]) == Apply(DeliverAll(log, items[..i]), Delivery(items[i]))
    ensures InboxMessages(items[..i + 1]) == InboxMessages(items[..i]) + [Raw(User, TextBody(TextOf(items[i])))]
    ensures Delivery(items[i]).Say?
  {
    assert items[..i + 1][..i] == items[..i];
  }

  /** Pending items, appended one durable record at a time. */
  method DeliverInbox(file: SessionFile, items: seq<Record>, history: seq<Replayed>) returns (live: seq<Replayed>)
    modifies file
    ensures file.Contents() == DeliverAll(old(file.Contents()), items)
    ensures live == history + InboxMessages(items)
  {
    live := history;
    PlusNothing(history, InboxMessages(items[..0]));
    for i := 0 to |items|
      invariant file.Contents() == DeliverAll(old(file.Contents()), items[..i])
      invariant live == history + InboxMessages(items[..i])
    {
      hide DeliverAll, Apply, InboxMessages;
      OneMoreItem(old(file.Contents()), items, i);
      var d := Delivery(items[i]);
      var _ := file.AppendMessage(d.role, d.body, d.tag, d.generation);
      live := live + [Raw(User, TextBody(TextOf(items[i])))];
      Associative(history, InboxMessages(items[..i]), [Raw(User, TextBody(TextOf(items[i])))]);
    }
    assert items[..|items|] == items;
  }

  method DeliverNotices(file: SessionFile, notices: seq<Notice>, own: bool, history: seq<Replayed>)
    returns (live: seq<Replayed>)
    modifies file
    ensures file.Contents() == NotifyAll(old(file.Contents()), notices, own)
    ensures live == history + NoticeMessages(notices)
  {
    live := history;
    PlusNothing(history, NoticeMessages(notices[..0]));
    for i := 0 to |notices|
      invariant file.Contents() == NotifyAll(old(file.Contents()), notices[..i], own)
      invariant live == history + NoticeMessages(notices[..i])
    {
      assert notices[..i + 1][..i] == notices[..i];
      var _ := file.AppendMessage(User, TextBody(notices[i].text), Notification(notices[i].id), None);
      assert NoticeMessages(notices[..i + 1]) == NoticeMessages(notices[..i]) + [Raw(User, TextBody(notices[i].text))];
      live := live + [Raw(User, TextBody(notices[i].text))];
      if own { var _ := file.AppendEvent(ACKNOWLEDGED); }
    }
    assert notices[..|notices|] == notices;
  }

  /** Input is consumed only while no tool call is open, in memory or in the file; then every pending item
      and every notice is saved and shown to the model, in order. */
  method ConsumePending(
    file: SessionFile, id: string, memory: Memory, history: seq<Replayed>, notices: seq<Notice>, own: bool)
    returns (refused: bool, items: seq<Record>, live: seq<Replayed>)
    modifies file
    ensures refused <==> P.Outstanding(history) != [] || P.Outstanding(LoadForModel(old(file.lines), id, memory)) != []
    ensures refused ==> file.Contents() == old(file.Contents()) && live == history
    ensures !refused ==> items == Pending(old(file.Contents()).Records())
    ensures !refused ==> file.Contents() == NotifyAll(DeliverAll(old(file.Contents()), items), notices, own)
    ensures !refused ==> live == history + InboxMessages(items) + NoticeMessages(notices) && P.Outstanding(live) == []
  {
    hide LoadForModel;
    if P.Outstanding(history) != [] || P.Outstanding(LoadForModel(file.lines, id, memory)) != [] {
      return true, [], history;
    }
    ConsumedStaysClosed(history, Pending(ReadRecords(file.lines)), notices);
    items := Pending(ReadRecords(file.lines));
    live := DeliverInbox(file, items, history);
    live := DeliverNotices(file, notices, own, live);
    refused := false;
  }
}
