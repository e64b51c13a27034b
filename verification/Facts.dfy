/** The project fact store: source-linked revisions, permanent exclusions and the forget epoch. */
module Facts {
  import opened Sequences

  /** A fact's id is the digest of its first text and source, modelled by what it digests. */
  datatype FactId = FactId(text: string, source: Source)

  /** One message position of one session. */
  datatype Source = Source(session: nat, at: nat)

  datatype Row = Row(text: string, revision: nat)

  datatype Ref = Ref(session: nat, seqs: seq<nat>, digest: nat)

  datatype Key = Key(id: FactId, revision: nat)

  /** The tables; `generation` is kept by the insert triggers of `exclusions` and `forgotten`. */
  datatype Db = Db(
    facts: map<FactId, Row>,
    revisions: map<Key, string>,
    provenance: map<Key, Source>,
    refs: map<Key, Ref>,
    exclusions: set<Source>,
    forgotten: set<FactId>,
    outbox: set<(FactId, nat)>,
    generation: nat)

  const EMPTY := Db(map[], map[], map[], map[], {}, {}, {}, 0)

  datatype Error =
    BadText | BadNumber | Excluded | Unknown | Conflict(found: nat) | InvalidSource | Mismatch | Immutable | Changed

  datatype Result<+T> = Ok(value: T) | Err(error: Error)

  datatype Fact = Fact(id: FactId, text: string, revision: nat)

  const LIMIT: int := 0x8000_0000_0000_0000

  // ---- arguments ----

  /** The characters Python's `str.strip` removes. */
  predicate IsSpace(c: char)
  {
    || '\t' <= c <= '\r' || '\U{1C}' <= c <= ' ' || c == '\U{85}' || c == '\U{A0}' || c == '\U{1680}'
    || '\U{2000}' <= c <= '\U{200A}' || c == '\U{2028}' || c == '\U{2029}' || c == '\U{202F}'
    || c == '\U{205F}' || c == '\U{3000}'
  }

  function Strip(text: string): string
    decreases |text|
  {
    if text == [] then text
    else if IsSpace(text[0]) then Strip(text[1..])
    else if IsSpace(text[|text| - 1]) then Strip(text[..|text| - 1])
    else text
  }

  /** Only blanks go, and all of them at either end. */
  lemma {:induction false} StripTrims(text: string) returns (front: string, back: string)
    ensures text == front + Strip(text) + back
    ensures forall c :: c in front + back ==> IsSpace(c)
    ensures Strip(text) != "" ==> !IsSpace(Strip(text)[0]) && !IsSpace(Strip(text)[|Strip(text)| - 1])
    decreases |text|
  {
    front, back := "", "";
    if text != "" && IsSpace(text[0]) {
      front, back := StripTrims(text[1..]);
      assert text == [text[0]] + text[1..];
      front := [text[0]] + front;
      assert text == front + Strip(text) + back;
    } else if text != "" && IsSpace(text[|text| - 1]) {
      front, back := StripTrims(text[..|text| - 1]);
      assert text == text[..|text| - 1] + [text[|text| - 1]];
      back := back + [text[|text| - 1]];
      assert text == front + Strip(text) + back;
    }
  }

  /** Nonempty text without NUL, stripped. */
  function Clean(text: string): Option<string>
  {
    if Strip(text) == [] || '\0' in text then None else Some(Strip(text))
  }

  // ---- exclusion ----

  /** Every source that contributed to any revision of the fact. */
  function SourcesOf(db: Db, id: FactId): set<Source>
  {
    (set k | k in db.provenance && k.id == id :: db.provenance[k])
    + (set k, at | k in db.refs && k.id == id && at in db.refs[k].seqs :: Source(db.refs[k].session, at))
  }

  predicate IsExcluded(db: Db, id: FactId)
  {
    SourcesOf(db, id) * db.exclusions != {}
  }

  function SessionsOf(sources: set<Source>): set<nat> { set s | s in sources :: s.session }

  /** One queued marker per contributing session. */
  function MarkersFor(id: FactId, sources: set<Source>): set<(FactId, nat)>
  {
    set s | s in SessionsOf(sources) :: (id, s)
  }

  // ---- transactions: each one either fails and changes nothing, or commits as a whole ----

  /** Add once per text and source, returning the current fact. */
  function Add(db: Db, text: string, session: nat, at: int): Result<(Db, Fact)>
  {
    if Clean(text).None? then Err(BadText)
    else if !(0 <= at < LIMIT) then Err(BadNumber)
    else
      var source := Source(session, at);
      var id := FactId(Clean(text).value, source);
      var first := Key(id, 1);
      if source in db.exclusions || IsExcluded(db, id) then Err(Excluded)
      else
        var added := db.(
          facts := if id in db.facts then db.facts else db.facts[id := Row(id.text, 1)],
          revisions := if first in db.revisions then db.revisions else db.revisions[first := id.text],
          provenance := if first in db.provenance then db.provenance else db.provenance[first := source]);
        Ok((added, Fact(id, added.facts[id].text, added.facts[id].revision)))
  }

  /** Replace a fact's text, leaving its history, unless it moved since the caller read it. */
  function Revise(db: Db, id: FactId, text: string, expected: int, session: nat, at: int): Result<(Db, Fact)>
  {
    if Clean(text).None? then Err(BadText)
    else if !(0 <= at < LIMIT) || !(1 <= expected < LIMIT) then Err(BadNumber)
    else if Source(session, at) in db.exclusions || IsExcluded(db, id) then Err(Excluded)
    else if id !in db.facts then Err(Unknown)
    else if db.facts[id].revision != expected then Err(Conflict(db.facts[id].revision))
    else
      var next := Key(id, db.facts[id].revision + 1);
      var revised := db.(
        facts := db.facts[id := Row(Clean(text).value, next.revision)],
        revisions := db.revisions[next := Clean(text).value],
        provenance := db.provenance[next := Source(session, at)]);
      Ok((revised, Fact(id, Clean(text).value, next.revision)))
  }

  function Without<T>(rows: map<Key, T>, id: FactId): map<Key, T>
  {
    map k | k in rows && k.id != id :: rows[k]
  }

  /** Exclude every contributing source and purge the fact; false is an idempotent retry. */
  function Forget(db: Db, id: FactId): Result<(Db, bool)>
  {
    if id !in db.facts then
      if id in db.forgotten then Ok((db, false)) else Err(Unknown)
    else
      var sources := SourcesOf(db, id);
      Ok((Db(
        db.facts - {id}, Without(db.revisions, id), Without(db.provenance, id), Without(db.refs, id),
        db.exclusions + sources, db.forgotten + {id},
        db.outbox + MarkersFor(id, sources),
        db.generation + |sources - db.exclusions| + 1), true))
  }

  /** Attach once to the matching revision; `valid` is the verdict of the session store. */
  function Attach(db: Db, id: FactId, revision: int, ref: Ref, valid: bool): Result<Db>
  {
    if !(1 <= revision < LIMIT) then Err(BadNumber)
    else if !valid then Err(InvalidSource)
    else if IsExcluded(db, id) then Err(Excluded)
    else
      var key := Key(id, revision);
      if key !in db.provenance || db.provenance[key].session != ref.session || db.provenance[key].at !in ref.seqs
      then Err(Mismatch)
      else if key in db.refs && db.refs[key] != ref then Err(Immutable)
      else Ok(db.(refs := db.refs[key := ref]))
  }

  /** Add evidence together with its source, or nothing at all. */
  function Remember(db: Db, text: string, ref: Ref, valid: bool, expected: Option<nat>): Result<(Db, Fact)>
  {
    if expected.Some? && expected.value != db.generation then Err(Changed)
    else if !valid || ref.seqs == [] then Err(InvalidSource)
    else
      match Add(db, text, ref.session, ref.seqs[0])
      case Err(e) => Err(e)
      case Ok((added, fact)) =>
        match Attach(added, fact.id, fact.revision, ref, valid)
        case Err(e) => Err(e)
        case Ok(attached) => Ok((attached, fact))
  }

  /** Correct the revision the caller read, on visible evidence, or change nothing at all. */
  function Correct(
    db: Db, id: FactId, text: string, read: int, ref: Ref, valid: bool, expected: Option<nat>): Result<(Db, Fact)>
  {
    if expected.Some? && expected.value != db.generation then Err(Changed)
    else if !valid || ref.seqs == [] then Err(InvalidSource)
    else
      match Revise(db, id, text, read, ref.session, ref.seqs[0])
      case Err(e) => Err(e)
      case Ok((revised, fact)) =>
        match Attach(revised, fact.id, fact.revision, ref, valid)
        case Err(e) => Err(e)
        case Ok(attached) => Ok((attached, fact))
  }

  function Acknowledge(db: Db, id: FactId, session: nat): Db
  {
    db.(outbox := db.outbox - {(id, session)})
  }

  // ---- the invariant of every run ----

  /** Rows exist for exactly the revisions 1..n of each live fact. */
  ghost predicate Contiguous<T>(db: Db, rows: map<Key, T>)
  {
    forall k: Key :: k in rows <==> k.id in db.facts && 1 <= k.revision <= db.facts[k.id].revision
  }

  /** Revisions are exactly 1..n with one provenance each, the current text is revision n, and
      revision 1 comes from the source the id names. */
  ghost predicate HistoryOk(db: Db)
  {
    && Contiguous(db, db.revisions) && Contiguous(db, db.provenance)
    && (forall id :: id in db.facts ==> db.facts[id].revision >= 1)
    && CurrentText(db) && OriginsOk(db)
  }

  ghost predicate OriginsOk(db: Db)
  {
    forall id :: Key(id, 1) in db.provenance ==> db.provenance[Key(id, 1)] == id.source
  }

  ghost predicate CurrentText(db: Db)
  {
    forall id :: id in db.facts && Key(id, db.facts[id].revision) in db.revisions ==>
      db.revisions[Key(id, db.facts[id].revision)] == db.facts[id].text
  }

  /** A recorded source reference agrees with the provenance of its revision. */
  ghost predicate EvidenceOk(db: Db)
  {
    forall k :: k in db.refs ==>
      k in db.provenance && db.refs[k].session == db.provenance[k].session && db.provenance[k].at in db.refs[k].seqs
  }

  /** Forgotten facts are gone for good, and the epoch counts exclusions and forgotten facts. */
  ghost predicate ForgetOk(db: Db)
  {
    && db.facts.Keys !! db.forgotten
    && (forall id :: id in db.forgotten ==> id.source in db.exclusions)
    && db.generation == |db.exclusions| + |db.forgotten|
    && (forall o :: o in db.outbox ==> o.0 in db.forgotten)
  }

  ghost predicate Invariant(db: Db)
  {
    HistoryOk(db) && EvidenceOk(db) && ForgetOk(db)
  }

  /** One more revision row for a live fact, or the first one of a new fact. */
  function Grow(db: Db, id: FactId, revision: nat, text: string, source: Source): Db
  {
    db.(
      facts := db.facts[id := Row(text, revision)],
      revisions := db.revisions[Key(id, revision) := text],
      provenance := db.provenance[Key(id, revision) := source])
  }

  lemma GrowContiguous<T>(db: Db, rows: map<Key, T>, id: FactId, revision: nat, row: T, grown: Db)
    requires Contiguous(db, rows)
    requires revision == 1 + (if id in db.facts then db.facts[id].revision else 0)
    requires grown.facts.Keys == db.facts.Keys + {id} && grown.facts[id].revision == revision
    requires forall other :: other in db.facts && other != id ==> grown.facts[other] == db.facts[other]
    ensures Contiguous(grown, rows[Key(id, revision) := row])
  {
  }

  lemma GrowKeepsInvariant(db: Db, id: FactId, revision: nat, text: string, source: Source)
    requires Invariant(db) && id !in db.forgotten
    requires revision == 1 + (if id in db.facts then db.facts[id].revision else 0)
    requires revision == 1 ==> source == id.source
    ensures Invariant(Grow(db, id, revision, text, source))
  {
    GrowKeepsHistory(db, id, revision, text, source);
    assert Key(id, revision) !in db.provenance;
  }

  lemma GrowKeepsHistory(db: Db, id: FactId, revision: nat, text: string, source: Source)
    requires HistoryOk(db)
    requires revision == 1 + (if id in db.facts then db.facts[id].revision else 0)
    requires revision == 1 ==> source == id.source
    ensures HistoryOk(Grow(db, id, revision, text, source))
  {
    GrowTables(db, id, revision, text, source);
    GrowCurrentText(db, id, revision, text, source);
    GrowOrigins(db, id, revision, text, source);
  }

  lemma GrowTables(db: Db, id: FactId, revision: nat, text: string, source: Source)
    requires Contiguous(db, db.revisions) && Contiguous(db, db.provenance)
    requires revision == 1 + (if id in db.facts then db.facts[id].revision else 0)
    ensures
      var grown := Grow(db, id, revision, text, source);
      Contiguous(grown, grown.revisions) && Contiguous(grown, grown.provenance)
  {
    var grown := Grow(db, id, revision, text, source);
    GrowContiguous(db, db.revisions, id, revision, text, grown);
    GrowContiguous(db, db.provenance, id, revision, source, grown);
  }

  lemma GrowOrigins(db: Db, id: FactId, revision: nat, text: string, source: Source)
    requires OriginsOk(db) && (revision == 1 ==> source == id.source)
    ensures OriginsOk(Grow(db, id, revision, text, source))
  {
  }

  lemma GrowCurrentText(db: Db, id: FactId, revision: nat, text: string, source: Source)
    requires CurrentText(db)
    ensures CurrentText(Grow(db, id, revision, text, source))
  {
  }

  lemma AddKeepsInvariant(db: Db, text: string, session: nat, at: int)
    requires Invariant(db)
    ensures Add(db, text, session, at).Ok? ==> Invariant(Add(db, text, session, at).value.0)
  {
    if Add(db, text, session, at).Ok? {
      var id := FactId(Clean(text).value, Source(session, at));
      var added := Add(db, text, session, at).value.0;
      assert id in db.facts <==> Key(id, 1) in db.revisions;
      assert id in db.facts <==> Key(id, 1) in db.provenance;
      if id in db.facts {
        assert added == db;
      } else {
        assert added == Grow(db, id, 1, id.text, id.source);
        GrowKeepsInvariant(db, id, 1, id.text, id.source);
      }
    }
  }

  lemma ReviseKeepsInvariant(db: Db, id: FactId, text: string, expected: int, session: nat, at: int)
    requires Invariant(db)
    ensures
      var revised := Revise(db, id, text, expected, session, at);
      revised.Ok? ==> Invariant(revised.value.0)
  {
    if Revise(db, id, text, expected, session, at).Ok? {
      var revision := db.facts[id].revision + 1;
      assert Revise(db, id, text, expected, session, at).value.0
        == Grow(db, id, revision, Clean(text).value, Source(session, at));
      GrowKeepsInvariant(db, id, revision, Clean(text).value, Source(session, at));
    }
  }

  lemma AttachKeepsInvariant(db: Db, id: FactId, revision: int, ref: Ref, valid: bool)
    requires Invariant(db)
    ensures Attach(db, id, revision, ref, valid).Ok? ==> Invariant(Attach(db, id, revision, ref, valid).value)
  {
    if Attach(db, id, revision, ref, valid).Ok? {
      var after := Attach(db, id, revision, ref, valid).value;
      assert after == db.(refs := db.refs[Key(id, revision) := ref]);
      SameHistory(db, after);
      assert EvidenceOk(after);
    }
  }

  lemma SameHistory(db: Db, after: Db)
    requires HistoryOk(db)
    requires after.facts == db.facts && after.revisions == db.revisions && after.provenance == db.provenance
    ensures HistoryOk(after)
  {
  }

  lemma OriginIsSource(db: Db, id: FactId)
    requires Invariant(db) && id in db.facts
    ensures id.source in SourcesOf(db, id)
  {
    assert Key(id, 1) in db.provenance && Key(id, 1).id == id;
  }

  lemma CountNew(known: set<Source>, more: set<Source>)
    ensures |known + more| == |known| + |more - known|
  {
    assert known + more == known + (more - known);
  }

  lemma ForgottenGrows(db: Db, after: Db, id: FactId, sources: set<Source>)
    requires ForgetOk(db) && id in db.facts && id.source in sources
    requires after.facts.Keys == db.facts.Keys - {id}
    requires after.exclusions == db.exclusions + sources && after.forgotten == db.forgotten + {id}
    requires after.generation == db.generation + |sources - db.exclusions| + 1
    requires forall o :: o in after.outbox ==> o in db.outbox || o.0 == id
    ensures ForgetOk(after)
  {
    CountNew(db.exclusions, sources);
    assert id !in db.forgotten;
  }

  lemma ForgetKeepsForgotten(db: Db, id: FactId)
    requires Invariant(db) && id in db.facts
    ensures ForgetOk(Forget(db, id).value.0)
  {
    OriginIsSource(db, id);
    ForgottenGrows(db, Forget(db, id).value.0, id, SourcesOf(db, id));
  }

  lemma PurgedContiguous<T>(db: Db, rows: map<Key, T>, id: FactId, after: Db)
    requires Contiguous(db, rows) && after.facts == db.facts - {id}
    ensures Contiguous(after, Without(rows, id))
  {
  }

  lemma ForgetKeepsHistory(db: Db, id: FactId)
    requires HistoryOk(db) && id in db.facts
    ensures HistoryOk(Forget(db, id).value.0)
  {
    PurgedContiguous(db, db.revisions, id, Forget(db, id).value.0);
    PurgedContiguous(db, db.provenance, id, Forget(db, id).value.0);
  }

  lemma ForgetKeepsInvariant(db: Db, id: FactId)
    requires Invariant(db)
    ensures Forget(db, id).Ok? ==> Invariant(Forget(db, id).value.0)
  {
    if id in db.facts {
      ForgetKeepsForgotten(db, id);
      ForgetKeepsHistory(db, id);
      assert EvidenceOk(Forget(db, id).value.0);
    }
  }

  // ---- every run ----

  datatype Op =
    | DoAdd(text: string, session: nat, at: int)
    | DoRevise(id: FactId, text: string, expected: int, session: nat, at: int)
    | DoForget(id: FactId)
    | DoAttach(id: FactId, revision: int, ref: Ref, valid: bool)
    | DoRemember(text: string, ref: Ref, valid: bool, epoch: Option<nat>)
    | DoCorrect(id: FactId, text: string, read: int, ref: Ref, valid: bool, epoch: Option<nat>)
    | DoAcknowledge(id: FactId, session: nat)

  /** A failed transaction is rolled back. */
  function Committed<T>(db: Db, r: Result<(Db, T)>): Db { if r.Ok? then r.value.0 else db }

  /** The database after one transaction. */
  function Do(db: Db, op: Op): Db
  {
    match op
    case DoAdd(text, session, at) => Committed(db, Add(db, text, session, at))
    case DoRevise(id, text, expected, session, at) => Committed(db, Revise(db, id, text, expected, session, at))
    case DoForget(id) => Committed(db, Forget(db, id))
    case DoAttach(id, revision, ref, valid) =>
      var r := Attach(db, id, revision, ref, valid); if r.Ok? then r.value else db
    case DoRemember(text, ref, valid, epoch) => Committed(db, Remember(db, text, ref, valid, epoch))
    case DoCorrect(id, text, read, ref, valid, epoch) => Committed(db, Correct(db, id, text, read, ref, valid, epoch))
    case DoAcknowledge(id, session) => Acknowledge(db, id, session)
  }

  function Run(db: Db, ops: seq<Op>): Db
    decreases |ops|
  {
    if ops == [] then db else Run(Do(db, ops[0]), ops[1..])
  }

  lemma StepKeepsInvariant(db: Db, op: Op)
    requires Invariant(db)
    ensures Invariant(Do(db, op))
  {
    match op
    case DoAdd(text, session, at) => AddKeepsInvariant(db, text, session, at);
    case DoRevise(id, text, expected, session, at) => ReviseKeepsInvariant(db, id, text, expected, session, at);
    case DoForget(id) => ForgetKeepsInvariant(db, id);
    case DoAttach(id, revision, ref, valid) => AttachKeepsInvariant(db, id, revision, ref, valid);
    case DoAcknowledge(id, session) =>
    case DoRemember(text, ref, valid, epoch) =>
      RememberKeepsInvariant(db, text, ref, valid, epoch);
    case DoCorrect(id, text, read, ref, valid, epoch) =>
      CorrectKeepsInvariant(db, id, text, read, ref, valid, epoch);
  }

  lemma RememberKeepsInvariant(db: Db, text: string, ref: Ref, valid: bool, epoch: Option<nat>)
    requires Invariant(db)
    ensures Remember(db, text, ref, valid, epoch).Ok? ==> Invariant(Remember(db, text, ref, valid, epoch).value.0)
  {
    if Remember(db, text, ref, valid, epoch).Ok? {
      AddKeepsInvariant(db, text, ref.session, ref.seqs[0]);
      var (added, fact) := Add(db, text, ref.session, ref.seqs[0]).value;
      AttachKeepsInvariant(added, fact.id, fact.revision, ref, valid);
    }
  }

  lemma CorrectKeepsInvariant(
    db: Db, id: FactId, text: string, read: int, ref: Ref, valid: bool, epoch: Option<nat>)
    requires Invariant(db)
    ensures Correct(db, id, text, read, ref, valid, epoch).Ok? ==>
      Invariant(Correct(db, id, text, read, ref, valid, epoch).value.0)
  {
    if Correct(db, id, text, read, ref, valid, epoch).Ok? {
      ReviseKeepsInvariant(db, id, text, read, ref.session, ref.seqs[0]);
      var (revised, fact) := Revise(db, id, text, read, ref.session, ref.seqs[0]).value;
      AttachKeepsInvariant(revised, fact.id, fact.revision, ref, valid);
    }
  }

  /** Over any run the tables stay consistent. */
  lemma {:induction false} RunKeepsInvariant(db: Db, ops: seq<Op>)
    requires Invariant(db)
    ensures Invariant(Run(db, ops))
    decreases |ops|
  {
    if ops != [] {
      StepKeepsInvariant(db, ops[0]);
      RunKeepsInvariant(Do(db, ops[0]), ops[1..]);
    }
  }

  lemma FreshIsConsistent()
    ensures Invariant(EMPTY)
  {
  }

  /** Whatever is done to a fresh database, revisions are exactly 1..n, and the epoch is the number of
      exclusions plus the number of forgotten facts. */
  lemma FreshRunKeepsInvariant(ops: seq<Op>)
    ensures Invariant(Run(EMPTY, ops))
    ensures Run(EMPTY, ops).generation == |Run(EMPTY, ops).exclusions| + |Run(EMPTY, ops).forgotten|
    ensures forall id, n: nat :: id in Run(EMPTY, ops).facts ==>
      (Key(id, n) in Run(EMPTY, ops).revisions <==> 1 <= n <= Run(EMPTY, ops).facts[id].revision)
  {
    FreshIsConsistent();
    RunKeepsInvariant(EMPTY, ops);
  }

  /** What no transaction takes back: exclusions, forgotten ids, and the epoch reached. */
  ghost predicate Later(before: Db, after: Db)
  {
    && before.exclusions <= after.exclusions
    && before.forgotten <= after.forgotten
    && before.generation <= after.generation
  }

  lemma RememberIsLater(db: Db, text: string, ref: Ref, valid: bool, epoch: Option<nat>)
    requires Remember(db, text, ref, valid, epoch).Ok?
    ensures Later(db, Remember(db, text, ref, valid, epoch).value.0)
  {
    var (added, fact) := Add(db, text, ref.session, ref.seqs[0]).value;
    assert Later(db, added);
  }

  lemma CorrectIsLater(db: Db, id: FactId, text: string, read: int, ref: Ref, valid: bool, epoch: Option<nat>)
    requires Correct(db, id, text, read, ref, valid, epoch).Ok?
    ensures Later(db, Correct(db, id, text, read, ref, valid, epoch).value.0)
  {
    var (revised, fact) := Revise(db, id, text, read, ref.session, ref.seqs[0]).value;
    assert Later(db, revised);
  }

  lemma StepIsLater(db: Db, op: Op)
    ensures Later(db, Do(db, op))
  {
    match op
    case DoRemember(text, ref, valid, epoch) =>
      if Remember(db, text, ref, valid, epoch).Ok? { RememberIsLater(db, text, ref, valid, epoch); }
    case DoCorrect(id, text, read, ref, valid, epoch) =>
      if Correct(db, id, text, read, ref, valid, epoch).Ok? { CorrectIsLater(db, id, text, read, ref, valid, epoch); }
    case _ =>
  }

  lemma {:induction false} RunIsLater(db: Db, ops: seq<Op>)
    requires Invariant(db)
    ensures Later(db, Run(db, ops)) && Invariant(Run(db, ops))
    decreases |ops|
  {
    if ops != [] {
      StepKeepsInvariant(db, ops[0]);
      StepIsLater(db, ops[0]);
      RunIsLater(Do(db, ops[0]), ops[1..]);
    }
  }

  lemma ForgottenStaysGone(after: Db, later: seq<Op>, id: FactId)
    requires Invariant(after) && id in after.forgotten
    ensures id !in Run(after, later).facts && id in Run(after, later).forgotten
  {
    RunIsLater(after, later);
  }

  lemma ForgetEffects(db: Db, id: FactId)
    requires Invariant(db) && id in db.facts
    ensures
      var after := Do(db, DoForget(id));
      && db.generation < after.generation && id in after.forgotten
      && SourcesOf(db, id) <= after.exclusions
      && (forall s :: (id, s) in after.outbox <==> (id, s) in db.outbox || s in SessionsOf(SourcesOf(db, id)))
  {
  }

  /** An effective forget raises the epoch strictly, excludes every source that ever contributed, and
      queues one marker per contributing session; the fact never comes back, whatever is added later. */
  lemma ForgetIsPermanent(db: Db, id: FactId, later: seq<Op>)
    requires Invariant(db) && id in db.facts
    ensures
      var after := Do(db, DoForget(id));
      && db.generation < after.generation
      && SourcesOf(db, id) <= after.exclusions <= Run(after, later).exclusions
      && (forall s :: (id, s) in after.outbox <==> (id, s) in db.outbox || s in SessionsOf(SourcesOf(db, id)))
      && id !in Run(after, later).facts && id in Run(after, later).forgotten
  {
    var after := Do(db, DoForget(id));
    ForgetEffects(db, id);
    StepKeepsInvariant(db, DoForget(id));
    RunIsLater(after, later);
    ForgottenStaysGone(after, later, id);
  }

  /** A fact that shares a source with a forgotten one keeps its rows but can never change again. */
  lemma {:induction false} ExcludedFactIsFrozen(db: Db, id: FactId, later: seq<Op>)
    requires Invariant(db) && id in db.facts && IsExcluded(db, id)
    ensures
      var after := Run(db, later);
      id in after.facts ==> after.facts[id] == db.facts[id] && IsExcluded(after, id)
    decreases |later|
  {
    if later != [] {
      StepKeepsInvariant(db, later[0]);
      FrozenStep(db, id, later[0]);
      var next := Do(db, later[0]);
      if id in next.facts {
        ExcludedFactIsFrozen(next, id, later[1..]);
      } else {
        GoneIsForgotten(db, later[0], id);
        RunIsLater(next, later[1..]);
      }
    }
  }

  lemma GoneIsForgotten(db: Db, op: Op, id: FactId)
    requires id in db.facts && id !in Do(db, op).facts
    ensures id in Do(db, op).forgotten
  {
  }

  ghost predicate SameRows(db: Db, after: Db, id: FactId)
  {
    && id in db.facts && id in after.facts && after.facts[id] == db.facts[id]
    && (forall k: Key :: k.id == id ==>
          && (k in after.provenance <==> k in db.provenance)
          && (k in db.provenance ==> after.provenance[k] == db.provenance[k])
          && (k in after.refs <==> k in db.refs)
          && (k in db.refs ==> after.refs[k] == db.refs[k]))
  }

  lemma SameRowsSameSources(db: Db, after: Db, id: FactId)
    requires id in db.facts && SameRows(db, after, id)
    ensures SourcesOf(db, id) <= SourcesOf(after, id)
  {
  }

  lemma AddKeepsOthers(db: Db, text: string, session: nat, at: int, id: FactId)
    requires id in db.facts && IsExcluded(db, id)
    requires Add(db, text, session, at).Ok?
    ensures SameRows(db, Add(db, text, session, at).value.0, id)
    ensures Add(db, text, session, at).value.1.id != id
  {
  }

  lemma AttachKeepsOthers(db: Db, other: FactId, revision: int, ref: Ref, valid: bool, id: FactId)
    requires id in db.facts && other != id
    requires Attach(db, other, revision, ref, valid).Ok?
    ensures SameRows(db, Attach(db, other, revision, ref, valid).value, id)
  {
  }

  lemma ForgetKeepsOthers(db: Db, other: FactId, id: FactId)
    requires id in db.facts && other != id
    requires Forget(db, other).Ok?
    ensures SameRows(db, Forget(db, other).value.0, id)
  {
  }

  lemma ReviseKeepsOthers(db: Db, other: FactId, text: string, expected: int, session: nat, at: int, id: FactId)
    requires id in db.facts && IsExcluded(db, id)
    requires Revise(db, other, text, expected, session, at).Ok?
    ensures SameRows(db, Revise(db, other, text, expected, session, at).value.0, id)
  {
  }

  lemma RememberKeepsOthers(db: Db, text: string, ref: Ref, valid: bool, epoch: Option<nat>, id: FactId)
    requires id in db.facts && IsExcluded(db, id)
    requires Remember(db, text, ref, valid, epoch).Ok?
    ensures SameRows(db, Remember(db, text, ref, valid, epoch).value.0, id)
  {
    AddKeepsOthers(db, text, ref.session, ref.seqs[0], id);
    var (added, fact) := Add(db, text, ref.session, ref.seqs[0]).value;
    AttachKeepsOthers(added, fact.id, fact.revision, ref, valid, id);
  }

  lemma CorrectKeepsOthers(
    db: Db, other: FactId, text: string, read: int, ref: Ref, valid: bool, epoch: Option<nat>, id: FactId)
    requires id in db.facts && IsExcluded(db, id)
    requires Correct(db, other, text, read, ref, valid, epoch).Ok?
    ensures SameRows(db, Correct(db, other, text, read, ref, valid, epoch).value.0, id)
  {
    ReviseKeepsOthers(db, other, text, read, ref.session, ref.seqs[0], id);
    var (revised, fact) := Revise(db, other, text, read, ref.session, ref.seqs[0]).value;
    AttachKeepsOthers(revised, fact.id, fact.revision, ref, valid, id);
  }

  lemma UnchangedRows(db: Db, id: FactId)
    requires id in db.facts
    ensures SameRows(db, db, id)
  {
  }

  lemma FrozenAdd(db: Db, id: FactId, text: string, session: nat, at: int)
    requires id in db.facts && IsExcluded(db, id)
    ensures SameRows(db, Committed(db, Add(db, text, session, at)), id)
  {
    UnchangedRows(db, id);
    if Add(db, text, session, at).Ok? { AddKeepsOthers(db, text, session, at, id); }
  }

  lemma FrozenAttach(db: Db, id: FactId, other: FactId, revision: int, ref: Ref, valid: bool)
    requires id in db.facts && IsExcluded(db, id)
    ensures SameRows(db, Do(db, DoAttach(other, revision, ref, valid)), id)
  {
    UnchangedRows(db, id);
    if Attach(db, other, revision, ref, valid).Ok? { AttachKeepsOthers(db, other, revision, ref, valid, id); }
  }

  lemma FrozenRemember(db: Db, id: FactId, text: string, ref: Ref, valid: bool, epoch: Option<nat>)
    requires id in db.facts && IsExcluded(db, id)
    ensures SameRows(db, Committed(db, Remember(db, text, ref, valid, epoch)), id)
  {
    UnchangedRows(db, id);
    if Remember(db, text, ref, valid, epoch).Ok? { RememberKeepsOthers(db, text, ref, valid, epoch, id); }
  }

  lemma FrozenRevise(db: Db, id: FactId, other: FactId, text: string, expected: int, session: nat, at: int)
    requires id in db.facts && IsExcluded(db, id)
    ensures SameRows(db, Committed(db, Revise(db, other, text, expected, session, at)), id)
  {
    UnchangedRows(db, id);
    if Revise(db, other, text, expected, session, at).Ok? {
      ReviseKeepsOthers(db, other, text, expected, session, at, id);
    }
  }

  lemma FrozenCorrect(
    db: Db, id: FactId, other: FactId, text: string, read: int, ref: Ref, valid: bool, epoch: Option<nat>)
    requires id in db.facts && IsExcluded(db, id)
    ensures SameRows(db, Committed(db, Correct(db, other, text, read, ref, valid, epoch)), id)
  {
    UnchangedRows(db, id);
    if Correct(db, other, text, read, ref, valid, epoch).Ok? {
      CorrectKeepsOthers(db, other, text, read, ref, valid, epoch, id);
    }
  }

  lemma FrozenRows(db: Db, id: FactId, op: Op)
    requires id in db.facts && IsExcluded(db, id)
    requires id in Do(db, op).facts
    ensures SameRows(db, Do(db, op), id)
  {
    match op
    case DoAdd(text, session, at) => FrozenAdd(db, id, text, session, at);
    case DoAttach(other, revision, ref, valid) => FrozenAttach(db, id, other, revision, ref, valid);
    case DoRemember(text, ref, valid, epoch) => FrozenRemember(db, id, text, ref, valid, epoch);
    case DoForget(other) => FrozenForget(db, id, other);
    case DoRevise(other, text, expected, session, at) => FrozenRevise(db, id, other, text, expected, session, at);
    case DoCorrect(other, text, read, ref, valid, epoch) => FrozenCorrect(db, id, other, text, read, ref, valid, epoch);
    case DoAcknowledge(other, session) => AcknowledgeKeepsRows(db, other, session, id);
  }

  lemma AcknowledgeKeepsRows(db: Db, other: FactId, session: nat, id: FactId)
    requires id in db.facts
    ensures SameRows(db, Acknowledge(db, other, session), id)
  {
  }

  lemma FrozenForget(db: Db, id: FactId, other: FactId)
    requires id in db.facts && id in Do(db, DoForget(other)).facts
    ensures SameRows(db, Do(db, DoForget(other)), id)
  {
    UnchangedRows(db, id);
    if other in db.facts { ForgetKeepsOthers(db, other, id); }
  }

  lemma FrozenStep(db: Db, id: FactId, op: Op)
    requires Invariant(db) && id in db.facts && IsExcluded(db, id)
    ensures id in Do(db, op).facts ==> Do(db, op).facts[id] == db.facts[id] && IsExcluded(Do(db, op), id)
  {
    StepIsLater(db, op);
    var after := Do(db, op);
    if id in after.facts {
      FrozenRows(db, id, op);
      SameRowsSameSources(db, after, id);
      var x :| x in SourcesOf(db, id) * db.exclusions;
      assert x in SourcesOf(after, id) * after.exclusions;
    }
  }

  // ---- history is immutable ----

  /** The rows of one revision: text, provenance, and the source attached to it, if any. */
  ghost predicate SameRevision(db: Db, after: Db, k: Key)
  {
    && k in db.revisions && k in after.revisions && after.revisions[k] == db.revisions[k]
    && k in db.provenance && k in after.provenance && after.provenance[k] == db.provenance[k]
    && (k in db.refs ==> k in after.refs && after.refs[k] == db.refs[k])
  }

  lemma SameTwice(a: Db, b: Db, c: Db, k: Key)
    requires SameRevision(a, b, k) && SameRevision(b, c, k)
    ensures SameRevision(a, c, k)
  {
  }

  lemma AddKeepsHistory(db: Db, k: Key, text: string, session: nat, at: int)
    requires HistoryOk(db) && k in db.revisions && Add(db, text, session, at).Ok?
    ensures SameRevision(db, Add(db, text, session, at).value.0, k)
  {
  }

  lemma ReviseKeepsHistory(db: Db, k: Key, id: FactId, text: string, expected: int, session: nat, at: int)
    requires HistoryOk(db) && k in db.revisions && Revise(db, id, text, expected, session, at).Ok?
    ensures SameRevision(db, Revise(db, id, text, expected, session, at).value.0, k)
  {
  }

  lemma AttachKeepsHistory(db: Db, k: Key, id: FactId, revision: int, ref: Ref, valid: bool)
    requires HistoryOk(db) && k in db.revisions && Attach(db, id, revision, ref, valid).Ok?
    ensures SameRevision(db, Attach(db, id, revision, ref, valid).value, k)
  {
  }

  lemma RememberKeepsHistory(db: Db, k: Key, text: string, ref: Ref, valid: bool, epoch: Option<nat>)
    requires Invariant(db) && k in db.revisions && Remember(db, text, ref, valid, epoch).Ok?
    ensures SameRevision(db, Remember(db, text, ref, valid, epoch).value.0, k)
  {
    var (added, fact) := Add(db, text, ref.session, ref.seqs[0]).value;
    AddKeepsHistory(db, k, text, ref.session, ref.seqs[0]);
    AddKeepsInvariant(db, text, ref.session, ref.seqs[0]);
    AttachKeepsHistory(added, k, fact.id, fact.revision, ref, valid);
    SameTwice(db, added, Remember(db, text, ref, valid, epoch).value.0, k);
  }

  lemma CorrectKeepsHistory(
    db: Db, k: Key, id: FactId, text: string, read: int, ref: Ref, valid: bool, epoch: Option<nat>)
    requires Invariant(db) && k in db.revisions && Correct(db, id, text, read, ref, valid, epoch).Ok?
    ensures SameRevision(db, Correct(db, id, text, read, ref, valid, epoch).value.0, k)
  {
    var (revised, fact) := Revise(db, id, text, read, ref.session, ref.seqs[0]).value;
    ReviseKeepsHistory(db, k, id, text, read, ref.session, ref.seqs[0]);
    ReviseKeepsInvariant(db, id, text, read, ref.session, ref.seqs[0]);
    AttachKeepsHistory(revised, k, fact.id, fact.revision, ref, valid);
    SameTwice(db, revised, Correct(db, id, text, read, ref, valid, epoch).value.0, k);
  }

  lemma UntouchedHistory(db: Db, k: Key)
    requires HistoryOk(db) && k in db.revisions
    ensures SameRevision(db, db, k)
  {
  }

  lemma ForgetSparesOthers(db: Db, k: Key, id: FactId)
    requires HistoryOk(db) && k in db.revisions
    ensures k.id in Do(db, DoForget(id)).forgotten || SameRevision(db, Do(db, DoForget(id)), k)
  {
    UntouchedHistory(db, k);
  }

  lemma RevisionAfterAdd(db: Db, k: Key, text: string, session: nat, at: int)
    requires HistoryOk(db) && k in db.revisions
    ensures SameRevision(db, Committed(db, Add(db, text, session, at)), k)
  {
    UntouchedHistory(db, k);
    if Add(db, text, session, at).Ok? { AddKeepsHistory(db, k, text, session, at); }
  }

  lemma RevisionAfterRevise(db: Db, k: Key, id: FactId, text: string, expected: int, session: nat, at: int)
    requires HistoryOk(db) && k in db.revisions
    ensures SameRevision(db, Committed(db, Revise(db, id, text, expected, session, at)), k)
  {
    UntouchedHistory(db, k);
    if Revise(db, id, text, expected, session, at).Ok? { ReviseKeepsHistory(db, k, id, text, expected, session, at); }
  }

  lemma RevisionAfterAttach(db: Db, k: Key, id: FactId, revision: int, ref: Ref, valid: bool)
    requires HistoryOk(db) && k in db.revisions
    ensures SameRevision(db, Do(db, DoAttach(id, revision, ref, valid)), k)
  {
    UntouchedHistory(db, k);
    if Attach(db, id, revision, ref, valid).Ok? { AttachKeepsHistory(db, k, id, revision, ref, valid); }
  }

  lemma RevisionAfterRemember(db: Db, k: Key, text: string, ref: Ref, valid: bool, epoch: Option<nat>)
    requires Invariant(db) && k in db.revisions
    ensures SameRevision(db, Committed(db, Remember(db, text, ref, valid, epoch)), k)
  {
    UntouchedHistory(db, k);
    if Remember(db, text, ref, valid, epoch).Ok? { RememberKeepsHistory(db, k, text, ref, valid, epoch); }
  }

  lemma RevisionAfterCorrect(
    db: Db, k: Key, id: FactId, text: string, read: int, ref: Ref, valid: bool, epoch: Option<nat>)
    requires Invariant(db) && k in db.revisions
    ensures SameRevision(db, Committed(db, Correct(db, id, text, read, ref, valid, epoch)), k)
  {
    UntouchedHistory(db, k);
    if Correct(db, id, text, read, ref, valid, epoch).Ok? {
      CorrectKeepsHistory(db, k, id, text, read, ref, valid, epoch);
    }
  }

  lemma RevisionAfterAcknowledge(db: Db, k: Key, id: FactId, session: nat)
    requires HistoryOk(db) && k in db.revisions
    ensures SameRevision(db, Acknowledge(db, id, session), k)
  {
  }

  lemma StepKeepsRevision(db: Db, op: Op, k: Key)
    requires Invariant(db) && k in db.revisions
    ensures k.id in Do(db, op).forgotten || SameRevision(db, Do(db, op), k)
  {
    match op
    case DoAdd(text, session, at) => RevisionAfterAdd(db, k, text, session, at);
    case DoRevise(id, text, expected, session, at) => RevisionAfterRevise(db, k, id, text, expected, session, at);
    case DoForget(id) => ForgetSparesOthers(db, k, id);
    case DoAttach(id, revision, ref, valid) => RevisionAfterAttach(db, k, id, revision, ref, valid);
    case DoRemember(text, ref, valid, epoch) => RevisionAfterRemember(db, k, text, ref, valid, epoch);
    case DoCorrect(id, text, read, ref, valid, epoch) => RevisionAfterCorrect(db, k, id, text, read, ref, valid, epoch);
    case DoAcknowledge(id, session) => RevisionAfterAcknowledge(db, k, id, session);
  }

  /** Over any run a recorded revision keeps its text, its provenance and its attached source, until the
      whole fact is forgotten; then it is gone for good. */
  lemma {:induction false} HistoryIsImmutable(db: Db, ops: seq<Op>, k: Key)
    requires Invariant(db) && k in db.revisions
    ensures SameRevision(db, Run(db, ops), k)
      || (k.id in Run(db, ops).forgotten && k !in Run(db, ops).revisions && k !in Run(db, ops).refs)
    decreases |ops|
  {
    if ops == [] {
      UntouchedHistory(db, k);
    } else {
      var next := Do(db, ops[0]);
      StepKeepsInvariant(db, ops[0]);
      StepKeepsRevision(db, ops[0], k);
      if k.id in next.forgotten {
        RunIsLater(next, ops[1..]);
      } else {
        HistoryIsImmutable(next, ops[1..], k);
        if SameRevision(next, Run(db, ops), k) { SameTwice(db, next, Run(db, ops), k); }
      }
    }
  }

  // ---- the store: one write transaction per method ----

  /** What a transaction answers its caller. */
  function Verdict<T>(r: Result<(Db, T)>): Result<T>
  {
    match r
    case Ok((_, value)) => Ok(value)
    case Err(e) => Err(e)
  }

  class FactStore {
    var facts: map<FactId, Row>
    var revisions: map<Key, string>
    var provenance: map<Key, Source>
    var refs: map<Key, Ref>
    var exclusions: set<Source>
    var forgotten: set<FactId>
    var outbox: set<(FactId, nat)>
    var generation: nat

    ghost function View(): Db
      reads this
    {
      Db(facts, revisions, provenance, refs, exclusions, forgotten, outbox, generation)
    }

    constructor ()
      ensures View() == EMPTY && Invariant(View())
    {
      facts, revisions, provenance, refs := map[], map[], map[], map[];
      exclusions, forgotten, outbox, generation := {}, {}, {}, 0;
    }

    method SourcesFor(id: FactId) returns (sources: set<Source>)
      ensures sources == SourcesOf(View(), id)
    {
      sources := (set k | k in provenance && k.id == id :: provenance[k]);
      var rows := set k | k in refs && k.id == id;
      ghost var done: set<Key> := {};
      while rows != {}
        invariant done !! rows && done + rows == set k | k in refs && k.id == id
        invariant sources == (set k | k in provenance && k.id == id :: provenance[k])
          + (set k, at | k in done && k in refs && at in refs[k].seqs :: Source(refs[k].session, at))
        decreases rows
      {
        var k :| k in rows;
        sources := sources + (set at | at in refs[k].seqs :: Source(refs[k].session, at));
        rows := rows - {k};
        done := done + {k};
      }
    }

    /** The insert trigger: the epoch rises by one for every exclusion that is new. */
    method Exclude(sources: set<Source>)
      modifies `exclusions, `generation
      ensures exclusions == old(exclusions) + sources
      ensures generation == old(generation) + |sources - old(exclusions)|
    {
      var todo := sources;
      while todo != {}
        invariant todo <= sources
        invariant old(exclusions) <= exclusions <= old(exclusions) + sources <= exclusions + todo
        invariant generation == old(generation) + |exclusions| - |old(exclusions)|
        decreases todo
      {
        var source :| source in todo;
        todo := todo - {source};
        if source !in exclusions {
          exclusions := exclusions + {source};
          generation := generation + 1;
        }
      }
      CountNew(old(exclusions), sources);
    }

    method ForgetFact(id: FactId) returns (r: Result<bool>)
      modifies this
      ensures View() == Do(old(View()), DoForget(id))
      ensures r == Verdict(Forget(old(View()), id))
    {
      if id !in facts {
        return if id in forgotten then Ok(false) else Err(Unknown);
      }
      var sources := SourcesFor(id);
      Purge(id, sources);
      return Ok(true);
    }

    method Purge(id: FactId, sources: set<Source>)
      modifies this
      ensures View() == old(Db(
        facts - {id}, Without(revisions, id), Without(provenance, id), Without(refs, id),
        exclusions + sources, forgotten + {id}, outbox + MarkersFor(id, sources),
        generation + |sources - exclusions| + 1))
    {
      Exclude(sources);
      forgotten := forgotten + {id};
      generation := generation + 1;
      outbox := outbox + MarkersFor(id, sources);
      refs := Without(refs, id);
      provenance := Without(provenance, id);
      revisions := Without(revisions, id);
      facts := facts - {id};
    }

    method AddFact(text: string, session: nat, at: int) returns (r: Result<Fact>)
      modifies this
      ensures View() == Do(old(View()), DoAdd(text, session, at))
      ensures r == Verdict(Add(old(View()), text, session, at))
    {
      var clean := Clean(text);
      if clean.None? { return Err(BadText); }
      if !(0 <= at < LIMIT) { return Err(BadNumber); }
      var source := Source(session, at);
      var id := FactId(clean.value, source);
      var sources := SourcesFor(id);
      if source in exclusions || sources * exclusions != {} { return Err(Excluded); }
      if id !in facts { facts := facts[id := Row(id.text, 1)]; }
      if Key(id, 1) !in revisions { revisions := revisions[Key(id, 1) := id.text]; }
      if Key(id, 1) !in provenance { provenance := provenance[Key(id, 1) := source]; }
      return Ok(Fact(id, facts[id].text, facts[id].revision));
    }

    method ReviseFact(id: FactId, text: string, expected: int, session: nat, at: int) returns (r: Result<Fact>)
      modifies this
      ensures View() == Do(old(View()), DoRevise(id, text, expected, session, at))
      ensures r == Verdict(Revise(old(View()), id, text, expected, session, at))
    {
      var clean := Clean(text);
      if clean.None? { return Err(BadText); }
      if !(0 <= at < LIMIT) || !(1 <= expected < LIMIT) { return Err(BadNumber); }
      var sources := SourcesFor(id);
      if Source(session, at) in exclusions || sources * exclusions != {} { return Err(Excluded); }
      if id !in facts { return Err(Unknown); }
      if facts[id].revision != expected { return Err(Conflict(facts[id].revision)); }
      var next := Key(id, facts[id].revision + 1);
      facts := facts[id := Row(clean.value, next.revision)];
      revisions := revisions[next := clean.value];
      provenance := provenance[next := Source(session, at)];
      return Ok(Fact(id, clean.value, next.revision));
    }
  }
}
