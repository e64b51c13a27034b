/** What a session file means: tombstones, clears, exclusions and validated summaries applied. */
module Replay {
  import opened Sequences
  import opened Records

  /** The records a tombstone hides: those with `upTo < no < before`. */
  datatype Window = Window(upTo: int, before: int)

  /** The forget state that visibility consults for one session. */
  datatype Memory = Memory(excluded: set<int>, generation: int)

  datatype Purpose = Working | Durable

  datatype Lens = Lens(windows: set<Window>, clearFrom: Option<int>, memory: Memory, filtered: bool)

  datatype Snapshot = Valid(ref: SourceRef) | Missing | Stale | HiddenSource | BadRange

  /** One message handed to the model. */
  datatype Replayed = Summary(text: string) | Raw(role: Role, body: Body)

  // ---- tombstones ----

  function CancelledNos(records: seq<Record>): set<int>
  {
    set r | r in records && r.Event? && r.kind.Redo? && r.kind.cancels.Some? :: r.kind.cancels.value
  }

  function ActiveTombstones(records: seq<Record>): set<Window>
  {
    set r | r in records && r.Tombstone? && r.no !in CancelledNos(records) :: Window(r.upTo, r.no)
  }

  predicate IsHidden(no: int, windows: set<Window>)
  {
    exists w :: w in windows && w.upTo < no < w.before
  }

  // ---- visibility ----

  /** The sequence number of the last `clear` in file order. */
  function LastClear(records: seq<Record>): (c: Option<int>)
    ensures c.Some? ==> exists r :: r in records && r.Event? && r.kind.Clear? && r.no == c.value
    ensures c.None? ==> forall r :: r in records && r.Event? ==> !r.kind.Clear?
  {
    if records == [] then None else
      var last := records[|records| - 1];
      assert records == records[..|records| - 1] + [last];
      if last.Event? && last.kind.Clear? then Some(last.no) else LastClear(records[..|records| - 1])
  }

  predicate HasMeta(records: seq<Record>)
  {
    exists r :: r in records && r.Meta?
  }

  function LensOf(records: seq<Record>, memory: Memory, purpose: Purpose, includeFiltered: bool): Lens
  {
    Lens(
      ActiveTombstones(records),
      if purpose.Working? then LastClear(records) else None,
      if HasMeta(records) && !includeFiltered then memory else Memory({}, 0),
      includeFiltered)
  }

  predicate Sees(lens: Lens, r: Record)
  {
    && r.Message?
    && !IsHidden(r.no, lens.windows)
    && (lens.clearFrom.None? || r.no > lens.clearFrom.value)
    && r.no !in lens.memory.excluded
    && (lens.filtered
        || (r.role == User && r.generation.None?)
        || (if r.generation.Some? then r.generation.value else 0) == lens.memory.generation)
  }

  function SeenBy(lens: Lens): Record -> bool { (r: Record) => Sees(lens, r) }

  function VisibleThrough(
    records: seq<Record>, memory: Memory, purpose: Purpose, includeFiltered: bool): seq<Record>
  {
    Filter(records, SeenBy(LensOf(records, memory, purpose, includeFiltered)))
  }

  function VisibleMessages(records: seq<Record>, memory: Memory): seq<Record>
  {
    VisibleThrough(records, memory, Working, false)
  }

  function NotHidden(windows: set<Window>): Record -> bool
  {
    (r: Record) => r.Message? && !IsHidden(r.no, windows)
  }

  /** The logical message history with tombstones applied, whatever was cleared or forgotten. */
  function LoadMessages(records: seq<Record>): seq<Record>
  {
    Filter(records, NotHidden(ActiveTombstones(records)))
  }

  // ---- source snapshots ----

  function InRange(start: int, end: int): Record -> bool
  {
    (r: Record) => r.Message? && start <= r.no <= end
  }

  function Nos(messages: seq<Record>): (nos: seq<int>)
    ensures |nos| == |messages|
  {
    Map(messages, (r: Record) => if r.Meta? then 0 else r.no)
  }

  predicate AllParsed(lines: seq<Line>)
  {
    forall l :: l in lines ==> l.Parsed?
  }

  /** One meta record, for this session, comes first. */
  predicate MetaFirst(records: seq<Record>, id: string)
  {
    && |records| > 0
    && records[0] == Meta(id)
    && forall i :: 0 < i < |records| ==> !records[i].Meta?
  }

  /** The strict reader: every line parses, the meta record comes first and numbers rise. */
  predicate WellFormed(lines: seq<Line>, id: string)
  {
    && AllParsed(lines)
    && MetaFirst(ReadRecords(lines), id)
    && Increasing(ReadRecords(lines))
  }

  /** The verdict on the selected messages, given which messages are visible. */
  function Judge(id: string, selected: seq<Record>, visible: seq<Record>, excluded: set<int>): Snapshot
  {
    if selected == [] then Missing
    else if exists r :: r in selected && r.Message? && (r !in visible || r.no in excluded) then HiddenSource
    else Valid(SourceRef(id, Nos(selected), selected))
  }

  function SourceSnapshot(
    lines: seq<Line>, id: string, start: int, end: int, memory: Memory, purpose: Purpose): Snapshot
  {
    if !(1 <= start <= end && end - start < 200) then BadRange
    else if !WellFormed(lines, id) then Stale
    else
      var records := ReadRecords(lines);
      Judge(id, Filter(records, InRange(start, end)), VisibleThrough(records, memory, purpose, false), memory.excluded)
  }

  predicate StrictlyRising(nos: seq<int>)
  {
    forall i, j :: 0 <= i < j < |nos| ==> nos[i] < nos[j]
  }

  function ValidateSource(
    lines: seq<Line>, id: string, ref: SourceRef, memory: Memory, purpose: Purpose): Snapshot
  {
    if ref.seqs == [] || !StrictlyRising(ref.seqs) then BadRange
    else
      match SourceSnapshot(lines, id, ref.seqs[0], ref.seqs[|ref.seqs| - 1], memory, purpose)
      case Valid(now) =>
        if now.seqs != ref.seqs then Missing else if now.digest != ref.digest then Stale else Valid(now)
      case other => other
  }

  // ---- working summary ----

  function LastCompact(records: seq<Record>): (r: Option<Record>)
    ensures r.Some? ==> r.value in records && r.value.Event? && r.value.kind.Compact?
  {
    if records == [] then None else
      var last := records[|records| - 1];
      if last.Event? && last.kind.Compact? then Some(last) else LastCompact(records[..|records| - 1])
  }

  /** The event stored under a sequence number; a later line replaces an earlier one. */
  function EventAt(records: seq<Record>, no: int): (r: Option<Record>)
    ensures r.Some? ==> r.value in records && r.value.Event? && r.value.no == no
  {
    if records == [] then None else
      var last := records[|records| - 1];
      if last.Event? && last.no == no then Some(last) else EventAt(records[..|records| - 1], no)
  }

  /** Whether an active tombstone undoes the event itself or overlaps its recorded range. */
  predicate IntersectsTombstone(event: Record, windows: set<Window>)
    requires event.Event?
  {
    || IsHidden(event.no, windows)
    || (event.kind.Compact? && event.kind.data.range.Some? &&
        var (start, end) := event.kind.data.range.value;
        exists w :: w in windows && start < w.before && end > w.upTo)
  }

  /** Every summary on the chain is undisturbed and is the very event its successor recorded. */
  predicate ChainHolds(current: Record, records: seq<Record>, windows: set<Window>)
    requires current.Event?
    decreases current
  {
    && !IntersectsTombstone(current, windows)
    && (current.kind.Compact? && current.kind.data.prior.Some? ==>
          var parent := current.kind.data.prior.value;
          match EventAt(records, parent.no)
          case None => false
          case Some(previous) =>
            && previous.no < current.no
            && previous == parent.digest
            && ChainHolds(parent.digest, records, windows))
  }

  function RefNos(refs: seq<SourceRef>): seq<int>
  {
    if refs == [] then [] else RefNos(refs[..|refs| - 1]) + refs[|refs| - 1].seqs
  }

  predicate RefValid(lines: seq<Line>, id: string, ref: SourceRef, memory: Memory)
  {
    ref.sessionId == id && ValidateSource(lines, id, ref, memory, Working).Valid?
  }

  predicate RefsValid(lines: seq<Line>, id: string, refs: seq<SourceRef>, memory: Memory)
  {
    forall ref :: ref in refs ==> RefValid(lines, id, ref, memory)
  }

  function NoBelow(keepFrom: int): Record -> bool { (r: Record) => !r.Meta? && r.no < keepFrom }

  function NoFrom(keepFrom: int): Record -> bool { (r: Record) => r.Meta? || r.no >= keepFrom }

  function VisibleBelow(records: seq<Record>, memory: Memory, keepFrom: int): seq<Record>
  {
    Filter(VisibleMessages(records, memory), NoBelow(keepFrom))
  }

  predicate ClearedAfter(records: seq<Record>, no: int)
  {
    exists r :: r in records && r.Event? && r.kind.Clear? && r.no > no
  }

  /** The summary's recorded sources are exactly the visible messages below its tail. */
  predicate CoversBelow(records: seq<Record>, memory: Memory, data: CompactData)
    requires data.refs.Some?
  {
    var nos := RefNos(data.refs.value);
    nos != [] && nos == Nos(VisibleBelow(records, memory, data.keepFrom))
  }

  predicate SummaryHolds(latest: Record, lines: seq<Line>, id: string, memory: Memory)
    requires latest.Event? && latest.kind.Compact?
  {
    var records := ReadRecords(lines);
    && !ClearedAfter(records, latest.no)
    && ChainHolds(latest, records, ActiveTombstones(records))
    && latest.kind.data.refs.Some?
    && RefsValid(lines, id, latest.kind.data.refs.value, memory)
    && CoversBelow(records, memory, latest.kind.data)
  }

  /** The latest compact event, provided it still describes the visible history. */
  function WorkingSummary(lines: seq<Line>, id: string, memory: Memory): (s: Option<Record>)
    ensures s.Some? ==> s.value.Event? && s.value.kind.Compact?
  {
    match LastCompact(ReadRecords(lines))
    case None => None
    case Some(latest) => if SummaryHolds(latest, lines, id, memory) then Some(latest) else None
  }

  // ---- replay ----

  function AsRaw(): Record -> Replayed
  {
    (r: Record) => if r.Message? then Raw(r.role, r.body.(incomplete := false)) else Summary("")
  }

  function RawAll(messages: seq<Record>): seq<Replayed>
  {
    Map(messages, AsRaw())
  }

  /** The replay a summary (if any) and the last clear produce from the visible messages. */
  function Assemble(summary: Option<CompactData>, clearFrom: Option<int>, visible: seq<Record>): seq<Replayed>
  {
    var keepFrom := if summary.Some? then Some(summary.value.keepFrom) else None;
    var cut :=
      if clearFrom.Some? && (keepFrom.None? || clearFrom.value >= keepFrom.value)
      then clearFrom else keepFrom;
    (if summary.Some? then [Summary(summary.value.summary)] else [])
    + RawAll(if cut.Some? then Filter(visible, NoFrom(cut.value)) else visible)
  }

  function LoadForModel(lines: seq<Line>, id: string, memory: Memory): seq<Replayed>
  {
    var records := ReadRecords(lines);
    var latest := LastCompact(records);
    var clearFrom := LastClear(records);
    var summary :=
      if latest.Some? && (clearFrom.None? || latest.value.no > clearFrom.value)
         && WorkingSummary(lines, id, memory).Some?
      then Some(latest.value.kind.data) else None;
    Assemble(summary, clearFrom, VisibleMessages(records, memory))
  }
}
