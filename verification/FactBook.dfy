/** What the fact store's tables mean: for each live fact the list of what was written, with where it came
    from. Every transaction does to that list what its name says, and answers accordingly. */
module FactBook {
  import opened Sequences
  import F = Facts

  /** One revision: its text, the message it came from, and the snapshot attached to it. */
  datatype Entry = Entry(text: string, source: F.Source, evidence: Option<F.Ref>)

  datatype Book = Book(facts: map<F.FactId, seq<Entry>>, excluded: set<F.Source>, forgotten: set<F.FactId>)

  // ---- the plain operations ----

  /** Some message the entry rests on has been excluded. */
  predicate Spoiled(e: Entry, excluded: set<F.Source>)
  {
    e.source in excluded
    || (e.evidence.Some? &&
          exists at :: at in e.evidence.value.seqs && F.Source(e.evidence.value.session, at) in excluded)
  }

  predicate Tainted(b: Book, id: F.FactId)
  {
    id in b.facts && exists i :: 0 <= i < |b.facts[id]| && Spoiled(b.facts[id][i], b.excluded)
  }

  function Rests(e: Entry): set<F.Source>
  {
    {e.source} + if e.evidence.None? then {} else
      set at | at in e.evidence.value.seqs :: F.Source(e.evidence.value.session, at)
  }

  /** Every message some entry rests on. */
  function AllSources(entries: seq<Entry>): set<F.Source>
  {
    if entries == [] then {} else AllSources(entries[..|entries| - 1]) + Rests(entries[|entries| - 1])
  }

  /** What is now written about a fact. */
  function Current(b: Book, id: F.FactId): F.Fact
    requires id in b.facts && b.facts[id] != []
  {
    var entries := b.facts[id];
    F.Fact(id, entries[|entries| - 1].text, |entries|)
  }

  predicate Written(b: Book)
  {
    forall id :: id in b.facts ==> b.facts[id] != []
  }

  /** The first entry of a new fact; one that is there already is left alone. */
  function Add(b: Book, text: string, session: nat, at: int): (r: F.Result<(Book, F.Fact)>)
    requires Written(b)
    ensures r.Ok? ==> Written(r.value.0)
  {
    if F.Strip(text) == "" || '\0' in text then F.Err(F.BadText)
    else if at < 0 || at >= F.LIMIT then F.Err(F.BadNumber)
    else
      var id := F.FactId(F.Strip(text), F.Source(session, at));
      if F.Source(session, at) in b.excluded || Tainted(b, id) then F.Err(F.Excluded)
      else if id in b.facts then F.Ok((b, Current(b, id)))
      else
        var added := b.(facts := b.facts[id := [Entry(F.Strip(text), F.Source(session, at), None)]]);
        F.Ok((added, F.Fact(id, F.Strip(text), 1)))
  }

  /** One more entry, if nobody else has written one since. */
  function Revise(
    b: Book, id: F.FactId, text: string, expected: int, session: nat, at: int): (r: F.Result<(Book, F.Fact)>)
    requires Written(b)
    ensures r.Ok? ==> Written(r.value.0)
  {
    if F.Strip(text) == "" || '\0' in text then F.Err(F.BadText)
    else if at < 0 || at >= F.LIMIT || expected < 1 || expected >= F.LIMIT then F.Err(F.BadNumber)
    else if F.Source(session, at) in b.excluded || Tainted(b, id) then F.Err(F.Excluded)
    else if id !in b.facts then F.Err(F.Unknown)
    else if |b.facts[id]| != expected then F.Err(F.Conflict(|b.facts[id]|))
    else
      var more := b.facts[id] + [Entry(F.Strip(text), F.Source(session, at), None)];
      F.Ok((b.(facts := b.facts[id := more]), F.Fact(id, F.Strip(text), expected + 1)))
  }

  /** The fact goes, and every message any of its entries rests on is excluded. */
  function Forget(b: Book, id: F.FactId): (r: F.Result<(Book, bool)>)
    requires Written(b)
    ensures r.Ok? ==> Written(r.value.0)
  {
    if id in b.facts then
      F.Ok((Book(b.facts - {id}, b.excluded + AllSources(b.facts[id]), b.forgotten + {id}), true))
    else if id in b.forgotten then F.Ok((b, false))
    else F.Err(F.Unknown)
  }

  /** A snapshot that contains the entry's own message is attached to it, once. */
  function Attach(b: Book, id: F.FactId, revision: int, ref: F.Ref, valid: bool): (r: F.Result<Book>)
    requires Written(b)
    ensures r.Ok? ==> Written(r.value)
  {
    if revision < 1 || revision >= F.LIMIT then F.Err(F.BadNumber)
    else if !valid then F.Err(F.InvalidSource)
    else if Tainted(b, id) then F.Err(F.Excluded)
    else if id !in b.facts || revision > |b.facts[id]| then F.Err(F.Mismatch)
    else
      var e := b.facts[id][revision - 1];
      if e.source.session != ref.session || e.source.at !in ref.seqs then F.Err(F.Mismatch)
      else if e.evidence.Some? && e.evidence.value != ref then F.Err(F.Immutable)
      else F.Ok(b.(facts := b.facts[id := b.facts[id][revision - 1 := e.(evidence := Some(ref))]]))
  }

  /** Adding or revising, then attaching what it rests on, or neither. */
  function WithEvidence(written: F.Result<(Book, F.Fact)>, ref: F.Ref): (r: F.Result<(Book, F.Fact)>)
    requires written.Ok? ==> Written(written.value.0)
    ensures r.Ok? ==> Written(r.value.0)
  {
    match written
    case Err(e) => F.Err(e)
    case Ok((b, fact)) =>
      match Attach(b, fact.id, fact.revision, ref, true)
      case Err(e) => F.Err(e)
      case Ok(attached) => F.Ok((attached, fact))
  }

  /** The forget epoch is the number of excluded messages and forgotten facts. */
  function Epoch(b: Book): nat { |b.excluded| + |b.forgotten| }

  function Remember(b: Book, text: string, ref: F.Ref, valid: bool, epoch: Option<nat>): (r: F.Result<(Book, F.Fact)>)
    requires Written(b)
    ensures r.Ok? ==> Written(r.value.0)
  {
    if epoch.Some? && epoch.value != Epoch(b) then F.Err(F.Changed)
    else if !valid || ref.seqs == [] then F.Err(F.InvalidSource)
    else WithEvidence(Add(b, text, ref.session, ref.seqs[0]), ref)
  }

  function Correct(
    b: Book, id: F.FactId, text: string, read: int, ref: F.Ref, valid: bool, epoch: Option<nat>)
    : (r: F.Result<(Book, F.Fact)>)
    requires Written(b)
    ensures r.Ok? ==> Written(r.value.0)
  {
    if epoch.Some? && epoch.value != Epoch(b) then F.Err(F.Changed)
    else if !valid || ref.seqs == [] then F.Err(F.InvalidSource)
    else WithEvidence(Revise(b, id, text, read, ref.session, ref.seqs[0]), ref)
  }

  // ---- the book the tables hold ----

  function EntryAt(db: F.Db, k: F.Key): Entry
    requires k in db.revisions && k in db.provenance
  {
    Entry(db.revisions[k], db.provenance[k], if k in db.refs then Some(db.refs[k]) else None)
  }

  /** `entries` are the rows of `id`, revision by revision. */
  ghost predicate Lists(db: F.Db, id: F.FactId, entries: seq<Entry>)
    requires id in db.facts
  {
    && |entries| == db.facts[id].revision
    && forall i :: 0 <= i < |entries| ==> IsRow(db, F.Key(id, i + 1), entries[i])
  }

  predicate IsRow(db: F.Db, k: F.Key, e: Entry)
  {
    k in db.revisions && k in db.provenance && e == EntryAt(db, k)
  }

  ghost predicate Holds(db: F.Db, b: Book)
  {
    && b.facts.Keys == db.facts.Keys && b.excluded == db.exclusions && b.forgotten == db.forgotten
    && forall id :: id in b.facts ==> Lists(db, id, b.facts[id])
  }

  lemma CurrentIsRow(db: F.Db, b: Book, id: F.FactId)
    requires F.Invariant(db) && Holds(db, b) && id in b.facts
    ensures b.facts[id] != [] && Current(b, id) == F.Fact(id, db.facts[id].text, db.facts[id].revision)
  {
    var n := |b.facts[id]|;
    assert Lists(db, id, b.facts[id]);
    assert IsRow(db, F.Key(id, (n - 1) + 1), b.facts[id][n - 1]);
  }

  lemma SpoiledIsExcluded(db: F.Db, id: F.FactId, entries: seq<Entry>, i: nat)
    requires id in db.facts && Lists(db, id, entries) && i < |entries| && Spoiled(entries[i], db.exclusions)
    ensures F.IsExcluded(db, id)
  {
    var k, e := F.Key(id, i + 1), entries[i];
    assert IsRow(db, k, e);
    if e.source in db.exclusions {
      assert e.source in F.SourcesOf(db, id) * db.exclusions;
    } else {
      var at :| at in e.evidence.value.seqs && F.Source(e.evidence.value.session, at) in db.exclusions;
      assert k in db.refs && F.Source(db.refs[k].session, at) in F.SourcesOf(db, id) * db.exclusions;
    }
  }

  lemma ExcludedIsSpoiled(db: F.Db, id: F.FactId, entries: seq<Entry>) returns (i: nat)
    requires F.Invariant(db) && F.IsExcluded(db, id)
    requires id in db.facts ==> Lists(db, id, entries)
    ensures id in db.facts && i < |entries| && Spoiled(entries[i], db.exclusions)
  {
    var s :| s in F.SourcesOf(db, id) * db.exclusions;
    var k: F.Key :| k in db.provenance && k.id == id && (s == db.provenance[k]
      || (k in db.refs && exists at :: at in db.refs[k].seqs && s == F.Source(db.refs[k].session, at)));
    i := k.revision - 1;
    assert F.Key(id, i + 1) == k && IsRow(db, k, entries[i]);
  }

  lemma TaintedIsExcluded(db: F.Db, b: Book, id: F.FactId)
    requires F.Invariant(db) && Holds(db, b)
    ensures Tainted(b, id) <==> F.IsExcluded(db, id)
  {
    var entries := if id in b.facts then b.facts[id] else [];
    assert id in db.facts ==> Lists(db, id, entries);
    hide F.Invariant, Lists, F.IsExcluded, Spoiled;
    if Tainted(b, id) {
      var i :| 0 <= i < |entries| && Spoiled(entries[i], b.excluded);
      SpoiledIsExcluded(db, id, entries, i);
    }
    if F.IsExcluded(db, id) {
      var i := ExcludedIsSpoiled(db, id, entries);
    }
  }

  lemma {:induction false} InAllSources(entries: seq<Entry>, s: F.Source)
    ensures s in AllSources(entries) <==> exists i :: 0 <= i < |entries| && s in Rests(entries[i])
  {
    if entries != [] {
      var n := |entries| - 1;
      InAllSources(entries[..n], s);
      if i :| 0 <= i < |entries| && s in Rests(entries[i]) {
        if i < n { assert entries[..n][i] == entries[i]; }
      }
      if i :| 0 <= i < n && s in Rests(entries[..n][i]) { assert entries[i] == entries[..n][i]; }
    }
  }

  lemma SourcesAgreeOn(db: F.Db, id: F.FactId, entries: seq<Entry>, s: F.Source)
    requires F.Invariant(db) && id in db.facts && Lists(db, id, entries)
    ensures (exists i :: 0 <= i < |entries| && s in Rests(entries[i])) <==> s in F.SourcesOf(db, id)
  {
    if i :| 0 <= i < |entries| && s in Rests(entries[i]) {
      assert IsRow(db, F.Key(id, i + 1), entries[i]);
    }
    if s in F.SourcesOf(db, id) {
      var k: F.Key :| k in db.provenance && k.id == id && (s == db.provenance[k]
        || (k in db.refs && exists at :: at in db.refs[k].seqs && s == F.Source(db.refs[k].session, at)));
      assert F.Key(id, (k.revision - 1) + 1) == k && IsRow(db, k, entries[k.revision - 1]);
      assert s in Rests(entries[k.revision - 1]);
    }
  }

  lemma SourcesAgree(db: F.Db, b: Book, id: F.FactId)
    requires F.Invariant(db) && Holds(db, b) && id in b.facts
    ensures AllSources(b.facts[id]) == F.SourcesOf(db, id)
  {
    assert Lists(db, id, b.facts[id]);
    hide F.Invariant, F.SourcesOf, AllSources, Lists, Holds, Rests;
    forall s ensures s in AllSources(b.facts[id]) <==> s in F.SourcesOf(db, id) {
      InAllSources(b.facts[id], s);
      SourcesAgreeOn(db, id, b.facts[id], s);
    }
  }

  // ---- every transaction ----

  /** Both fail alike, or both answer alike and the tables still hold the book. */
  ghost predicate Agree<T>(tables: F.Result<(F.Db, T)>, book: F.Result<(Book, T)>)
  {
    match tables
    case Err(e) => book == F.Err(e)
    case Ok((db, value)) => book.Ok? && book.value.1 == value && F.Invariant(db) && Holds(db, book.value.0)
  }

  /** The rows of a fact that is not touched. */
  lemma OthersListed(db: F.Db, after: F.Db, id: F.FactId, entries: seq<Entry>)
    requires id in db.facts && id in after.facts && after.facts[id] == db.facts[id] && Lists(db, id, entries)
    requires forall k: F.Key, e :: k.id == id && IsRow(db, k, e) ==> IsRow(after, k, e)
    ensures Lists(after, id, entries)
  {
  }

  lemma GrowListed(db: F.Db, id: F.FactId, revision: nat, entries: seq<Entry>, text: string, source: F.Source)
    requires revision == |entries| + 1 && F.Key(id, revision) !in db.refs
    requires if id in db.facts then Lists(db, id, entries) else entries == []
    ensures Lists(F.Grow(db, id, revision, text, source), id, entries + [Entry(text, source, None)])
  {
    var grown, more := F.Grow(db, id, revision, text, source), entries + [Entry(text, source, None)];
    forall i | 0 <= i < |more| ensures IsRow(grown, F.Key(id, i + 1), more[i]) {
      if i < |entries| { assert IsRow(db, F.Key(id, i + 1), entries[i]); }
    }
  }

  lemma GrowIsConsistent(db: F.Db, id: F.FactId, revision: nat, text: string, source: F.Source)
    requires F.Invariant(db) && id !in db.forgotten
    requires if id in db.facts then revision == db.facts[id].revision + 1 else revision == 1 && source == id.source
    ensures F.Key(id, revision) !in db.refs && F.Invariant(F.Grow(db, id, revision, text, source))
  {
    F.GrowKeepsInvariant(db, id, revision, text, source);
  }

  /** One more row is one more entry. */
  lemma GrowHolds(db: F.Db, b: Book, id: F.FactId, text: string, source: F.Source)
    requires F.Invariant(db) && Holds(db, b) && id !in db.forgotten
    requires id !in db.facts ==> source == id.source
    ensures
      var revision := if id in db.facts then db.facts[id].revision + 1 else 1;
      var grown := F.Grow(db, id, revision, text, source);
      var before := if id in b.facts then b.facts[id] else [];
      F.Invariant(grown) && Holds(grown, b.(facts := b.facts[id := before + [Entry(text, source, None)]]))
  {
    var revision := if id in db.facts then db.facts[id].revision + 1 else 1;
    var before := if id in b.facts then b.facts[id] else [];
    GrowIsConsistent(db, id, revision, text, source);
    hide F.Invariant, Lists, IsRow, F.Contiguous;
    var grown := F.Grow(db, id, revision, text, source);
    var after := b.(facts := b.facts[id := before + [Entry(text, source, None)]]);
    GrowListedAt(db, b, id, revision, before, text, source);
    forall other | other in after.facts ensures Lists(grown, other, after.facts[other]) {
      if other != id { GrowSpares(db, id, revision, text, source, other, b.facts[other]); }
    }
  }

  lemma GrowListedAt(
    db: F.Db, b: Book, id: F.FactId, revision: nat, before: seq<Entry>, text: string, source: F.Source)
    requires Holds(db, b) && F.Key(id, revision) !in db.refs
    requires revision == if id in db.facts then db.facts[id].revision + 1 else 1
    requires before == if id in b.facts then b.facts[id] else []
    ensures Lists(F.Grow(db, id, revision, text, source), id, before + [Entry(text, source, None)])
  {
    GrowListed(db, id, revision, before, text, source);
  }

  lemma GrowSpares(
    db: F.Db, id: F.FactId, revision: nat, text: string, source: F.Source, other: F.FactId, entries: seq<Entry>)
    requires other != id && other in db.facts && Lists(db, other, entries)
    ensures Lists(F.Grow(db, id, revision, text, source), other, entries)
  {
    OthersListed(db, F.Grow(db, id, revision, text, source), other, entries);
  }

  lemma AddAgrees(db: F.Db, b: Book, text: string, session: nat, at: int)
    requires F.Invariant(db) && Holds(db, b) && Written(b)
    ensures Agree(F.Add(db, text, session, at), Add(b, text, session, at))
  {
    if F.Clean(text).Some? && 0 <= at < F.LIMIT {
      var source := F.Source(session, at);
      var id := F.FactId(F.Clean(text).value, source);
      TaintedIsExcluded(db, b, id);
      F.AddKeepsInvariant(db, text, session, at);
      if id in db.facts {
        CurrentIsRow(db, b, id);
        if F.Add(db, text, session, at).Ok? { AddedAgain(db, text, session, at); }
      } else if F.Add(db, text, session, at).Ok? {
        FirstRow(db, text, session, at);
        GrowHolds(db, b, id, id.text, source);
        assert [] + [Entry(id.text, source, None)] == [Entry(id.text, source, None)];
      }
    }
  }

  lemma AddedAgain(db: F.Db, text: string, session: nat, at: int)
    requires F.Invariant(db) && F.Add(db, text, session, at).Ok?
    requires F.FactId(F.Clean(text).value, F.Source(session, at)) in db.facts
    ensures F.Add(db, text, session, at).value.0 == db
  {
    var first := F.Key(F.FactId(F.Clean(text).value, F.Source(session, at)), 1);
    assert first in db.revisions && first in db.provenance;
  }

  lemma FirstRow(db: F.Db, text: string, session: nat, at: int)
    requires F.Invariant(db) && F.Add(db, text, session, at).Ok?
    requires F.FactId(F.Clean(text).value, F.Source(session, at)) !in db.facts
    ensures
      var id := F.FactId(F.Clean(text).value, F.Source(session, at));
      && id !in db.forgotten
      && F.Add(db, text, session, at) == F.Ok((F.Grow(db, id, 1, id.text, id.source), F.Fact(id, id.text, 1)))
  {
    var first := F.Key(F.FactId(F.Clean(text).value, F.Source(session, at)), 1);
    assert first !in db.revisions && first !in db.provenance;
  }

  lemma RevisedRow(db: F.Db, id: F.FactId, text: string, expected: int, session: nat, at: int)
    requires F.Revise(db, id, text, expected, session, at).Ok?
    ensures id in db.facts && F.Clean(text).Some?
    ensures
      var clean, next := F.Clean(text).value, db.facts[id].revision + 1;
      F.Revise(db, id, text, expected, session, at)
        == F.Ok((F.Grow(db, id, next, clean, F.Source(session, at)), F.Fact(id, clean, next)))
  {
  }

  /** The checks come out alike. */
  lemma RevisesAlike(db: F.Db, b: Book, id: F.FactId, text: string, expected: int, session: nat, at: int)
    requires Written(b) && b.excluded == db.exclusions && (id in b.facts <==> id in db.facts)
    requires Tainted(b, id) <==> F.IsExcluded(db, id)
    requires id in b.facts ==> |b.facts[id]| == db.facts[id].revision
    ensures
      var tables, book := F.Revise(db, id, text, expected, session, at), Revise(b, id, text, expected, session, at);
      match tables
      case Err(e) => book == F.Err(e)
      case Ok((_, fact)) =>
        && id in b.facts && F.Clean(text).Some?
        && var more := b.facts[id] + [Entry(F.Clean(text).value, F.Source(session, at), None)];
        book == F.Ok((b.(facts := b.facts[id := more]), fact))
  {
    hide F.Strip, F.IsExcluded, Tainted;
  }

  lemma ReviseAgrees(db: F.Db, b: Book, id: F.FactId, text: string, expected: int, session: nat, at: int)
    requires F.Invariant(db) && Holds(db, b) && Written(b)
    ensures Agree(F.Revise(db, id, text, expected, session, at), Revise(b, id, text, expected, session, at))
  {
    TaintedIsExcluded(db, b, id);
    if id in db.facts { CurrentIsRow(db, b, id); }
    RevisesAlike(db, b, id, text, expected, session, at);
    if F.Revise(db, id, text, expected, session, at).Ok? {
      RevisedRow(db, id, text, expected, session, at);
      assert id !in db.forgotten;
      hide F.Invariant, Holds, F.Revise, Revise;
      GrowHolds(db, b, id, F.Clean(text).value, F.Source(session, at));
    }
  }

  lemma AttachListed(db: F.Db, id: F.FactId, revision: nat, ref: F.Ref, entries: seq<Entry>)
    requires id in db.facts && Lists(db, id, entries) && 1 <= revision <= |entries|
    ensures
      var e := entries[revision - 1].(evidence := Some(ref));
      Lists(db.(refs := db.refs[F.Key(id, revision) := ref]), id, entries[revision - 1 := e])
  {
    var after := db.(refs := db.refs[F.Key(id, revision) := ref]);
    var more := entries[revision - 1 := entries[revision - 1].(evidence := Some(ref))];
    forall i | 0 <= i < |more| ensures IsRow(after, F.Key(id, i + 1), more[i]) {
      assert IsRow(db, F.Key(id, i + 1), entries[i]);
    }
  }

  lemma AttachHolds(db: F.Db, b: Book, id: F.FactId, revision: int, ref: F.Ref)
    requires F.Invariant(db) && Holds(db, b) && F.Attach(db, id, revision, ref, true).Ok?
    requires id in b.facts && 1 <= revision <= |b.facts[id]|
    ensures
      var after := F.Attach(db, id, revision, ref, true).value;
      var e := b.facts[id][revision - 1].(evidence := Some(ref));
      F.Invariant(after) && Holds(after, b.(facts := b.facts[id := b.facts[id][revision - 1 := e]]))
  {
    hide F.IsExcluded;
    var after := F.Attach(db, id, revision, ref, true).value;
    assert after == db.(refs := db.refs[F.Key(id, revision) := ref]);
    F.AttachKeepsInvariant(db, id, revision, ref, true);
    hide F.Invariant, F.Attach, Lists, IsRow;
    var e := b.facts[id][revision - 1].(evidence := Some(ref));
    var book := b.(facts := b.facts[id := b.facts[id][revision - 1 := e]]);
    AttachListed(db, id, revision, ref, b.facts[id]);
    forall other | other in book.facts ensures Lists(after, other, book.facts[other]) {
      if other != id { AttachSpares(db, F.Key(id, revision), ref, other, b.facts[other]); }
    }
  }

  lemma AttachSpares(db: F.Db, k: F.Key, ref: F.Ref, other: F.FactId, entries: seq<Entry>)
    requires other != k.id && other in db.facts && Lists(db, other, entries)
    ensures Lists(db.(refs := db.refs[k := ref]), other, entries)
  {
    OthersListed(db, db.(refs := db.refs[k := ref]), other, entries);
  }

  /** The revision's row, or that there is none. */
  lemma RowOf(db: F.Db, b: Book, id: F.FactId, revision: nat)
    requires F.Invariant(db) && Holds(db, b)
    ensures id in b.facts && 1 <= revision <= |b.facts[id]| ==>
      IsRow(db, F.Key(id, revision), b.facts[id][revision - 1])
    ensures !(id in b.facts && 1 <= revision <= |b.facts[id]|) ==> F.Key(id, revision) !in db.provenance
  {
    if id in b.facts {
      assert Lists(db, id, b.facts[id]);
      if 1 <= revision <= |b.facts[id]| { assert IsRow(db, F.Key(id, (revision - 1) + 1), b.facts[id][revision - 1]); }
    }
  }

  /** The checks come out alike. */
  lemma AttachesAlike(db: F.Db, b: Book, id: F.FactId, revision: int, ref: F.Ref, valid: bool)
    requires Written(b) && (Tainted(b, id) <==> F.IsExcluded(db, id))
    requires revision >= 1 && id in b.facts && revision <= |b.facts[id]| ==>
      IsRow(db, F.Key(id, revision), b.facts[id][revision - 1])
    requires revision >= 1 && !(id in b.facts && revision <= |b.facts[id]|) ==>
      F.Key(id, revision) !in db.provenance
    ensures
      match F.Attach(db, id, revision, ref, valid)
      case Err(e) => Attach(b, id, revision, ref, valid) == F.Err(e)
      case Ok(_) =>
        && valid && id in b.facts && 1 <= revision <= |b.facts[id]|
        && var e := b.facts[id][revision - 1].(evidence := Some(ref));
        Attach(b, id, revision, ref, valid) == F.Ok(b.(facts := b.facts[id := b.facts[id][revision - 1 := e]]))
  {
    hide F.IsExcluded, Tainted;
  }

  lemma AttachAgrees(db: F.Db, b: Book, id: F.FactId, revision: int, ref: F.Ref, valid: bool)
    requires F.Invariant(db) && Holds(db, b) && Written(b)
    ensures
      var tables, book := F.Attach(db, id, revision, ref, valid), Attach(b, id, revision, ref, valid);
      match tables
      case Err(e) => book == F.Err(e)
      case Ok(after) => book.Ok? && F.Invariant(after) && Holds(after, book.value)
  {
    TaintedIsExcluded(db, b, id);
    if revision >= 1 { RowOf(db, b, id, revision); }
    hide F.Invariant, Holds, F.Attach, Attach, IsRow, F.IsExcluded, Tainted;
    AttachesAlike(db, b, id, revision, ref, valid);
    if F.Attach(db, id, revision, ref, valid).Ok? { AttachHolds(db, b, id, revision, ref); }
  }

  lemma ForgetSpares(db: F.Db, id: F.FactId, other: F.FactId, entries: seq<Entry>)
    requires id in db.facts && other != id && other in db.facts && Lists(db, other, entries)
    ensures Lists(F.Forget(db, id).value.0, other, entries)
  {
    hide F.SourcesOf, F.MarkersFor;
    OthersListed(db, F.Forget(db, id).value.0, other, entries);
  }

  lemma ForgetHolds(db: F.Db, b: Book, id: F.FactId)
    requires F.Invariant(db) && Holds(db, b) && Written(b) && id in b.facts
    ensures Holds(F.Forget(db, id).value.0, Forget(b, id).value.0)
  {
    SourcesAgree(db, b, id);
    hide F.Invariant, Lists, AllSources, F.SourcesOf, F.MarkersFor;
    var after, book := F.Forget(db, id).value.0, Forget(b, id).value.0;
    assert after.facts == db.facts - {id} && book.facts == b.facts - {id};
    assert book.excluded == after.exclusions && book.forgotten == after.forgotten;
    hide F.Forget, Forget;
    forall other | other in book.facts ensures Lists(after, other, book.facts[other]) {
      ForgetSpares(db, id, other, b.facts[other]);
    }
  }

  lemma ForgetAgrees(db: F.Db, b: Book, id: F.FactId)
    requires F.Invariant(db) && Holds(db, b) && Written(b)
    ensures Agree(F.Forget(db, id), Forget(b, id))
  {
    F.ForgetKeepsInvariant(db, id);
    if id in b.facts { ForgetHolds(db, b, id); }
    hide F.Invariant, F.SourcesOf, AllSources, F.MarkersFor, Lists;
  }

  lemma RememberAgrees(db: F.Db, b: Book, text: string, ref: F.Ref, valid: bool, epoch: Option<nat>)
    requires F.Invariant(db) && Holds(db, b) && Written(b)
    ensures Agree(F.Remember(db, text, ref, valid, epoch), Remember(b, text, ref, valid, epoch))
  {
    if ref.seqs != [] {
      AddAgrees(db, b, text, ref.session, ref.seqs[0]);
      var tables, book := F.Add(db, text, ref.session, ref.seqs[0]), Add(b, text, ref.session, ref.seqs[0]);
      if tables.Ok? {
        AttachAgrees(tables.value.0, book.value.0, tables.value.1.id, tables.value.1.revision, ref, true);
      }
    }
  }

  lemma CorrectAgrees(
    db: F.Db, b: Book, id: F.FactId, text: string, read: int, ref: F.Ref, valid: bool, epoch: Option<nat>)
    requires F.Invariant(db) && Holds(db, b) && Written(b)
    ensures Agree(F.Correct(db, id, text, read, ref, valid, epoch), Correct(b, id, text, read, ref, valid, epoch))
  {
    if ref.seqs != [] {
      ReviseAgrees(db, b, id, text, read, ref.session, ref.seqs[0]);
      var tables := F.Revise(db, id, text, read, ref.session, ref.seqs[0]);
      var book := Revise(b, id, text, read, ref.session, ref.seqs[0]);
      if tables.Ok? {
        AttachAgrees(tables.value.0, book.value.0, tables.value.1.id, tables.value.1.revision, ref, true);
      }
    }
  }

  // ---- every run ----

  function Kept<T>(b: Book, r: F.Result<(Book, T)>): (after: Book)
    requires Written(b) && (r.Ok? ==> Written(r.value.0))
    ensures Written(after)
  {
    if r.Ok? then r.value.0 else b
  }

  function Do(b: Book, op: F.Op): (after: Book)
    requires Written(b)
    ensures Written(after)
  {
    match op
    case DoAdd(text, session, at) => Kept(b, Add(b, text, session, at))
    case DoRevise(id, text, expected, session, at) => Kept(b, Revise(b, id, text, expected, session, at))
    case DoForget(id) => Kept(b, Forget(b, id))
    case DoAttach(id, revision, ref, valid) =>
      var r := Attach(b, id, revision, ref, valid);
      if r.Ok? then r.value else b
    case DoRemember(text, ref, valid, epoch) => Kept(b, Remember(b, text, ref, valid, epoch))
    case DoCorrect(id, text, read, ref, valid, epoch) => Kept(b, Correct(b, id, text, read, ref, valid, epoch))
    case DoAcknowledge(_, _) => b
  }

  function Run(b: Book, ops: seq<F.Op>): (after: Book)
    requires Written(b)
    ensures Written(after)
    decreases |ops|
  {
    if ops == [] then b else Run(Do(b, ops[0]), ops[1..])
  }

  const BLANK := Book(map[], {}, {})

  lemma AcknowledgeHolds(db: F.Db, b: Book, id: F.FactId, session: nat)
    requires Holds(db, b)
    ensures Holds(F.Acknowledge(db, id, session), b)
  {
    forall other | other in b.facts ensures Lists(F.Acknowledge(db, id, session), other, b.facts[other]) {
      OthersListed(db, F.Acknowledge(db, id, session), other, b.facts[other]);
    }
  }

  lemma StepHolds(db: F.Db, b: Book, op: F.Op)
    requires F.Invariant(db) && Holds(db, b) && Written(b)
    ensures F.Invariant(F.Do(db, op)) && Holds(F.Do(db, op), Do(b, op))
  {
    F.StepKeepsInvariant(db, op);
    hide F.Invariant, F.Add, F.Revise, F.Forget, F.Attach, F.Remember, F.Correct;
    hide Holds, Add, Revise, Forget, Attach, Remember, Correct;
    match op
    case DoAdd(text, session, at) => AddAgrees(db, b, text, session, at);
    case DoRevise(id, text, expected, session, at) => ReviseAgrees(db, b, id, text, expected, session, at);
    case DoForget(id) => ForgetAgrees(db, b, id);
    case DoAttach(id, revision, ref, valid) => AttachAgrees(db, b, id, revision, ref, valid);
    case DoRemember(text, ref, valid, epoch) => RememberAgrees(db, b, text, ref, valid, epoch);
    case DoCorrect(id, text, read, ref, valid, epoch) => CorrectAgrees(db, b, id, text, read, ref, valid, epoch);
    case DoAcknowledge(id, session) => AcknowledgeHolds(db, b, id, session);
  }

  /** Over any run the tables hold exactly the book that the same operations write. */
  lemma {:induction false} TablesHoldBook(db: F.Db, b: Book, ops: seq<F.Op>)
    requires F.Invariant(db) && Holds(db, b) && Written(b)
    ensures F.Invariant(F.Run(db, ops)) && Holds(F.Run(db, ops), Run(b, ops))
    decreases |ops|
  {
    if ops != [] {
      StepHolds(db, b, ops[0]);
      TablesHoldBook(F.Do(db, ops[0]), Do(b, ops[0]), ops[1..]);
    }
  }

  lemma FreshTablesHoldBook(ops: seq<F.Op>)
    ensures F.Invariant(F.Run(F.EMPTY, ops)) && Holds(F.Run(F.EMPTY, ops), Run(BLANK, ops))
  {
    F.FreshIsConsistent();
    TablesHoldBook(F.EMPTY, BLANK, ops);
  }

  // ---- what a fact says ----

  /** What an operation writes about the fact, if it is a revision or correction of it and succeeds. */
  function Rewrite(db: F.Db, op: F.Op, id: F.FactId): Option<(string, F.Source)>
  {
    match op
    case DoRevise(other, text, expected, session, at) =>
      if other == id && F.Revise(db, id, text, expected, session, at).Ok?
      then Some((F.Strip(text), F.Source(session, at))) else None
    case DoCorrect(other, text, read, ref, valid, epoch) =>
      if other == id && F.Correct(db, id, text, read, ref, valid, epoch).Ok?
      then Some((F.Strip(text), F.Source(ref.session, ref.seqs[0]))) else None
    case _ => None
  }

  /** The last text written in a run, or `text` if none is. */
  function LastText(db: F.Db, ops: seq<F.Op>, id: F.FactId, text: string): string
    decreases |ops|
  {
    if ops == [] then text else
      var written := Rewrite(db, ops[0], id);
      LastText(F.Do(db, ops[0]), ops[1..], id, if written.Some? then written.value.0 else text)
  }

  function TimesRewritten(db: F.Db, ops: seq<F.Op>, id: F.FactId): nat
    decreases |ops|
  {
    if ops == [] then 0 else
      (if Rewrite(db, ops[0], id).Some? then 1 else 0) + TimesRewritten(F.Do(db, ops[0]), ops[1..], id)
  }

  /** Exactly one revision of the fact is new, with this text and from this message. */
  ghost predicate AddsOne(db: F.Db, after: F.Db, id: F.FactId, text: string, source: F.Source)
    requires id in db.facts
  {
    var next := F.Key(id, db.facts[id].revision + 1);
    && id in after.facts && after.facts[id] == F.Row(text, next.revision)
    && after.revisions == db.revisions[next := text] && after.provenance == db.provenance[next := source]
    && next !in db.revisions
  }

  lemma ReviseAddsOne(db: F.Db, id: F.FactId, text: string, expected: int, session: nat, at: int)
    requires F.Invariant(db) && F.Revise(db, id, text, expected, session, at).Ok?
    ensures id in db.facts && at >= 0
    ensures AddsOne(db, F.Revise(db, id, text, expected, session, at).value.0, id, F.Strip(text), F.Source(session, at))
  {
    assert F.Contiguous(db, db.revisions);
  }

  lemma CorrectRows(db: F.Db, id: F.FactId, text: string, read: int, ref: F.Ref, valid: bool, epoch: Option<nat>)
    requires F.Correct(db, id, text, read, ref, valid, epoch).Ok?
    ensures ref.seqs != [] && F.Revise(db, id, text, read, ref.session, ref.seqs[0]).Ok?
    ensures
      var corrected := F.Correct(db, id, text, read, ref, valid, epoch).value.0;
      var revised := F.Revise(db, id, text, read, ref.session, ref.seqs[0]).value.0;
      && corrected.facts == revised.facts && corrected.revisions == revised.revisions
      && corrected.provenance == revised.provenance
  {
    hide F.IsExcluded, F.Revise;
  }

  lemma CorrectAddsOne(
    db: F.Db, id: F.FactId, text: string, read: int, ref: F.Ref, valid: bool, epoch: Option<nat>)
    requires F.Invariant(db) && F.Correct(db, id, text, read, ref, valid, epoch).Ok?
    ensures id in db.facts && ref.seqs != []
    ensures AddsOne(db, F.Correct(db, id, text, read, ref, valid, epoch).value.0, id,
      F.Strip(text), F.Source(ref.session, ref.seqs[0]))
  {
    CorrectRows(db, id, text, read, ref, valid, epoch);
    ReviseAddsOne(db, id, text, read, ref.session, ref.seqs[0]);
    hide F.IsExcluded, F.Invariant, F.Revise, F.Correct;
  }

  /** Adding and remembering write a row for a new fact only; attaching and acknowledging write none. */
  lemma AddWrites(db: F.Db, text: string, session: nat, at: int)
    requires F.Add(db, text, session, at).Ok?
    ensures
      var id := F.FactId(F.Clean(text).value, F.Source(session, at));
      F.Add(db, text, session, at).value.0.facts
        == if id in db.facts then db.facts else db.facts[id := F.Row(id.text, 1)]
  {
  }

  lemma NewRows(db: F.Db, op: F.Op)
    requires !op.DoRevise? && !op.DoCorrect? && !op.DoForget?
    ensures
      var after := F.Do(db, op);
      && (forall id :: id in db.facts ==> id in after.facts && after.facts[id] == db.facts[id])
      && (forall id :: id in after.facts && id !in db.facts ==> after.facts[id] == F.Row(id.text, 1))
  {
    hide F.IsExcluded, F.Clean, F.Add;
    match op
    case DoAdd(text, session, at) => if F.Add(db, text, session, at).Ok? { AddWrites(db, text, session, at); }
    case DoRemember(text, ref, valid, epoch) =>
      if F.Remember(db, text, ref, valid, epoch).Ok? { AddWrites(db, text, ref.session, ref.seqs[0]); }
    case _ =>
  }

  lemma ForgetWritesNothing(db: F.Db, other: F.FactId, id: F.FactId)
    ensures id in F.Do(db, F.DoForget(other)).facts ==>
      id in db.facts && F.Do(db, F.DoForget(other)).facts[id] == db.facts[id]
  {
    hide F.SourcesOf, F.MarkersFor;
  }

  lemma ReviseSpares(
    db: F.Db, other: F.FactId, text: string, expected: int, session: nat, at: int, id: F.FactId)
    requires F.Revise(db, other, text, expected, session, at).Ok? && id != other
    ensures
      var after := F.Revise(db, other, text, expected, session, at).value.0;
      && (id in after.facts <==> id in db.facts) && (id in db.facts ==> after.facts[id] == db.facts[id])
  {
    hide F.IsExcluded;
  }

  lemma ReviseWrites(db: F.Db, op: F.Op, id: F.FactId)
    requires F.Invariant(db) && op.DoRevise? && id in F.Do(db, op).facts
    ensures
      match Rewrite(db, op, id)
      case None => id in db.facts && F.Do(db, op).facts[id] == db.facts[id]
      case Some((text, source)) => id in db.facts && AddsOne(db, F.Do(db, op), id, text, source)
  {
    if F.Revise(db, op.id, op.text, op.expected, op.session, op.at).Ok? {
      ReviseAddsOne(db, op.id, op.text, op.expected, op.session, op.at);
      if id != op.id { ReviseSpares(db, op.id, op.text, op.expected, op.session, op.at, id); }
    }
    hide F.Revise, F.Invariant, AddsOne, F.Strip;
  }

  lemma CorrectWrites(db: F.Db, op: F.Op, id: F.FactId)
    requires F.Invariant(db) && op.DoCorrect? && id in F.Do(db, op).facts
    ensures
      match Rewrite(db, op, id)
      case None => id in db.facts && F.Do(db, op).facts[id] == db.facts[id]
      case Some((text, source)) => id in db.facts && AddsOne(db, F.Do(db, op), id, text, source)
  {
    if F.Correct(db, op.id, op.text, op.read, op.ref, op.valid, op.epoch).Ok? {
      CorrectAddsOne(db, op.id, op.text, op.read, op.ref, op.valid, op.epoch);
      CorrectRows(db, op.id, op.text, op.read, op.ref, op.valid, op.epoch);
      if id != op.id { ReviseSpares(db, op.id, op.text, op.read, op.ref.session, op.ref.seqs[0], id); }
    }
    hide F.Revise, F.Correct, F.Invariant, AddsOne, F.Strip;
  }

  /** A successful revision or correction adds exactly one revision, with the stripped text and the message it
      names; nothing else changes what a live fact says, and a new fact says what it is named after. */
  lemma RewriteAddsOne(db: F.Db, op: F.Op, id: F.FactId)
    requires F.Invariant(db) && id in F.Do(db, op).facts
    ensures
      match Rewrite(db, op, id)
      case None => F.Do(db, op).facts[id] == if id in db.facts then db.facts[id] else F.Row(id.text, 1)
      case Some((text, source)) => id in db.facts && AddsOne(db, F.Do(db, op), id, text, source)
  {
    match op
    case DoRevise(_, _, _, _, _) => ReviseWrites(db, op, id);
    case DoCorrect(_, _, _, _, _, _) => CorrectWrites(db, op, id);
    case DoForget(other) => ForgetWritesNothing(db, other, id);
    case _ => NewRows(db, op);
  }

  lemma RewriteNeedsFact(db: F.Db, op: F.Op, id: F.FactId)
    ensures Rewrite(db, op, id).Some? ==> id in db.facts
  {
  }

  /** In any run, a live fact says what the last successful revision or correction of it wrote, or what it was
      first named after; and its revision counts them. */
  lemma {:induction false} SaysWhatWasWritten(db: F.Db, ops: seq<F.Op>, id: F.FactId)
    requires F.Invariant(db)
    ensures
      var before := if id in db.facts then db.facts[id] else F.Row(id.text, 1);
      var after := F.Run(db, ops);
      var said := F.Row(LastText(db, ops, id, before.text), before.revision + TimesRewritten(db, ops, id));
      id in after.facts ==> after.facts[id] == said
    decreases |ops|
  {
    if ops != [] {
      var next := F.Do(db, ops[0]);
      F.StepKeepsInvariant(db, ops[0]);
      RewriteNeedsFact(db, ops[0], id);
      hide F.Invariant, F.Do, Rewrite;
      SaysWhatWasWritten(next, ops[1..], id);
      if id in next.facts {
        RewriteAddsOne(db, ops[0], id);
      } else if id in db.facts {
        F.GoneIsForgotten(db, ops[0], id);
        F.ForgottenStaysGone(next, ops[1..], id);
      }
    }
  }

  lemma FreshFactsSayWhatWasWritten(ops: seq<F.Op>, id: F.FactId)
    requires id in F.Run(F.EMPTY, ops).facts
    ensures F.Run(F.EMPTY, ops).facts[id].text == LastText(F.EMPTY, ops, id, id.text)
    ensures F.Run(F.EMPTY, ops).facts[id].revision == 1 + TimesRewritten(F.EMPTY, ops, id)
  {
    F.FreshIsConsistent();
    SaysWhatWasWritten(F.EMPTY, ops, id);
  }
}
