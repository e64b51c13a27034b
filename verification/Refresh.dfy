/** Bringing the live conversation up to date with the file before each request. */
module Refresh {
  import opened Sequences
  import opened Records
  import opened Replay
  import opened Coverage
  import opened Dialogue

  /** What the file says about messages found in the live history. `saved` are the messages as stored,
      `hidden` those replay does not show, without their incomplete mark, and `shown` those it shows, as
      stored. */
  datatype Known = Known(
    replay: seq<Replayed>, summaries: set<Replayed>, saved: set<Replayed>, hidden: set<Replayed>, shown: set<Replayed>)

  function Stored(r: Record): Replayed
    requires r.Message?
  {
    Raw(r.role, r.body)
  }

  function KnownOf(lines: seq<Line>, id: string, memory: Memory): Known
  {
    var records := ReadRecords(lines);
    var visible := VisibleMessages(records, memory);
    Known(
      LoadForModel(lines, id, memory),
      set r | r in records && r.Event? && r.kind.Compact? :: Summary(r.kind.data.summary),
      set r | r in records && r.Message? :: Stored(r),
      set r | r in records && r.Message? && r.no !in NosOf(visible) :: AsRaw()(r),
      set r | r in visible && r.Message? :: Stored(r))
  }

  // ---- without a reset ----

  /** A summary in the live history that is not the one being replayed. */
  predicate Stale(history: seq<Replayed>, known: Known)
  {
    exists m :: m in known.summaries && m in history && m !in known.replay[..if known.replay == [] then 0 else 1]
  }

  function IsExtra(known: Known): Replayed -> bool { (m: Replayed) => m !in known.summaries && m !in known.saved }

  function Extras(history: seq<Replayed>, known: Known): seq<Replayed> { Filter(history, IsExtra(known)) }

  function Spliced(extras: seq<Replayed>, replay: seq<Replayed>): seq<Replayed>
  {
    extras[..Leading(extras)] + replay + extras[Leading(extras)..]
  }

  function Remains(known: Known): Replayed -> bool { (m: Replayed) => m !in known.hidden || m in known.shown }

  /** A stale summary makes the replay take the place of everything saved; then what the file hides goes. */
  function Refreshed(history: seq<Replayed>, known: Known): seq<Replayed>
  {
    Filter(if Stale(history, known) then Spliced(Extras(history, known), known.replay) else history, Remains(known))
  }

  /** No lasting message of the replay looks like a hidden one: a visible interrupted answer that repeats
      a hidden one word for word, and no complete one, would. */
  predicate NothingEchoed(known: Known)
  {
    forall m :: m in known.replay && !Transient(m) ==> Remains(known)(m)
  }

  lemma FilterSwap(s: seq<Replayed>, p: Replayed -> bool, q: Replayed -> bool)
    ensures Filter(Filter(s, p), q) == Filter(Filter(s, q), p)
  {
    var both := (m: Replayed) => p(m) && q(m);
    FilterTwice(s, p, q, both);
    FilterTwice(s, q, p, both);
  }

  lemma FilterKeepsAll<T>(s: seq<T>, p: T -> bool)
    ensures Filter(s, p) == s <==> forall m :: m in s ==> p(m)
  {
    FilterIn(s, p);
    if forall m :: m in s ==> p(m) { FilterAll(s, p); }
  }

  /** Dropping what the file hides loses no lasting message exactly when none is echoed. */
  lemma DropHidden(history: seq<Replayed>, known: Known)
    requires Mirrors(history, known.replay)
    ensures Mirrors(Filter(history, Remains(known)), known.replay) <==> NothingEchoed(known)
  {
    FilterSwap(history, IsLasting(), Remains(known));
    FilterKeepsAll(Lasting(history), Remains(known));
    LastingIn(known.replay);
  }

  /** A mirrored history has no stale summary. */
  lemma MirroredIsFresh(history: seq<Replayed>, known: Known)
    requires Mirrors(history, known.replay) && ReplayShape(known.replay)
    requires forall m :: m in known.summaries ==> m.Summary?
    ensures !Stale(history, known)
  {
    LastingIn(history);
    LastingIn(known.replay);
    forall m | m in known.summaries && m in history ensures m in known.replay[..if known.replay == [] then 0 else 1] {
      assert m in Lasting(history);
      assert m in known.replay;
      assert known.replay[..1] == [known.replay[0]];
      assert known.replay == known.replay[..1] + known.replay[1..];
    }
  }

  /** A live history in step stays in step exactly when nothing is echoed. */
  lemma RefreshKeepsMirror(history: seq<Replayed>, known: Known)
    requires Mirrors(history, known.replay) && ReplayShape(known.replay)
    requires forall m :: m in known.summaries ==> m.Summary?
    ensures Mirrors(Refreshed(history, known), known.replay) <==> NothingEchoed(known)
  {
    MirroredIsFresh(history, known);
    DropHidden(history, known);
  }

  /** Everything the live history holds beside prompts is saved, or dropped as hidden. */
  predicate NothingUnsaved(history: seq<Replayed>, known: Known)
  {
    forall m :: m in history && !Transient(m) && IsExtra(known)(m) ==> !Remains(known)(m)
  }

  lemma LastingSplice(extras: seq<Replayed>, replay: seq<Replayed>) returns (front: seq<Replayed>, back: seq<Replayed>)
    ensures Lasting(Spliced(extras, replay)) == front + Lasting(replay) + back
    ensures front + back == Lasting(extras)
  {
    var n := Leading(extras);
    TakeDrop(extras, n);
    front, back := Lasting(extras[..n]), Lasting(extras[n..]);
    LastingConcat(extras[..n], extras[n..]);
    LastingConcat(extras[..n], replay);
    LastingConcat(extras[..n] + replay, extras[n..]);
  }

  lemma {:induction false} FilterLength<T>(s: seq<T>, p: T -> bool)
    ensures |Filter(s, p)| <= |s|
    ensures Filter(s, p) == [] <==> forall x :: x in s ==> !p(x)
  {
    FilterIn(s, p);
    if s != [] {
      FilterLength(s[..|s| - 1], p);
      assert s == s[..|s| - 1] + [s[|s| - 1]];
    }
  }

  lemma FilterThree<T>(front: seq<T>, middle: seq<T>, back: seq<T>, p: T -> bool)
    ensures Filter(front + middle + back, p) == Filter(front, p) + Filter(middle, p) + Filter(back, p)
  {
    FilterAppend(front, middle, p);
    FilterAppend(front + middle, back, p);
  }

  /** A middle part comes through a filter unchanged and alone exactly when all of it passes and nothing
      around it does. */
  lemma OnlyTheMiddle<T>(front: seq<T>, middle: seq<T>, back: seq<T>, p: T -> bool)
    ensures Filter(front + middle + back, p) == middle
      <==> (forall x :: x in middle ==> p(x)) && (forall x :: x in front + back ==> !p(x))
  {
    FilterThree(front, middle, back, p);
    FilterIn(front + middle + back, p);
    FilterLength(front + back, p);
    FilterAppend(front, back, p);
    FilterKeepsAll(middle, p);
    hide Filter;
    if forall x :: x in middle ==> p(x) { NothingAround(Filter(front, p), middle, Filter(back, p)); }
  }

  lemma NothingAround<T>(a: seq<T>, middle: seq<T>, b: seq<T>)
    ensures a + middle + b == middle <==> a + b == []
  {
    assert |a + middle + b| == |a| + |middle| + |b|;
    if a + b == [] {
      assert |a + b| == 0;
      assert a == [] && b == [];
    }
  }

  /** A live history with a stale summary is put right exactly when nothing is echoed and all it holds beside
      prompts is saved. */
  lemma RefreshRepairs(history: seq<Replayed>, known: Known)
    requires Stale(history, known)
    ensures Mirrors(Refreshed(history, known), known.replay) <==> NothingEchoed(known) && NothingUnsaved(history, known)
  {
    var extras := Extras(history, known);
    FilterIn(history, IsExtra(known));
    LastingIn(extras);
    LastingIn(known.replay);
    var front, back := LastingSplice(extras, known.replay);
    FilterSwap(Spliced(extras, known.replay), IsLasting(), Remains(known));
    OnlyTheMiddle(front, Lasting(known.replay), back, Remains(known));
  }

  // ---- after an inert compaction ----

  lemma LeftBehindIsStale(live: seq<Replayed>, summary: Replayed, known: Known)
    requires summary in live && summary.Summary? && summary in known.summaries && NoSystems(known.replay)
    ensures Stale(live, known)
  {
    assert summary !in known.replay;
    assert summary !in known.replay[..if known.replay == [] then 0 else 1];
  }

  lemma NoSummaryIsFresh(live: seq<Replayed>, known: Known)
    requires (forall m :: m in live ==> !m.Summary?) && forall m :: m in known.summaries ==> m.Summary?
    ensures !Stale(live, known)
  {
  }

  lemma ShorterStaysWrong(live: seq<Replayed>, known: Known)
    requires |Lasting(live)| < |Lasting(known.replay)|
    ensures !Mirrors(Filter(live, Remains(known)), known.replay)
  {
    FilterSwap(live, IsLasting(), Remains(known));
    FilterLength(Lasting(live), Remains(known));
  }

  /** What the loop makes of a live history when an inert compaction takes the summary out with `c` messages. */
  lemma PastSummary(history: seq<Replayed>, summary: Replayed, visible: seq<Replayed>, s: nat)
    requires summary.Summary? && 1 <= s < |visible| && NoSystems(visible)
    requires Mirrors(history, [summary] + visible[s..]) && TakenOut(s, |visible|) >= 1
    ensures
      var live := Rebuilt(history, [summary] + visible[s..], visible);
      && (forall m :: m in live ==> !m.Summary?)
      && (Realigned(visible, s) || |Lasting(live)| < |Lasting(visible)|)
  {
    var before, c := [summary] + visible[s..], TakenOut(s, |visible|);
    TakenOutIsSlice(before, visible, s);
    RebuiltPastSummary(history, summary, visible, s, c);
    var live, t := Rebuilt(history, before, visible), s + c - 1;
    var kept := [visible[0]] + visible[t..];
    assert [visible[0]] + visible[1..t] + visible[t..] == visible;
    LastingConcat([visible[0]], visible[t..]);
    LastingConcat([visible[0]], visible[1..t]);
    LastingConcat([visible[0]] + visible[1..t], visible[t..]);
    LastingIn(live);
    LastingIn(kept);
    assert forall m :: m in kept ==> m in visible;
  }

  /** The next refresh after an inert compaction on top of a summary of `s` messages: where the old summary was
      left behind it puts everything right, otherwise what has been dropped stays lost. */
  lemma AfterInert(history: seq<Replayed>, summary: Replayed, visible: seq<Replayed>, s: nat, known: Known)
    requires summary.Summary? && 1 <= s < |visible| && NoSystems(visible)
    requires Mirrors(history, [summary] + visible[s..])
    requires known.replay == visible && summary in known.summaries && forall m :: m in known.summaries ==> m.Summary?
    ensures
      var live := Rebuilt(history, [summary] + visible[s..], visible);
      Mirrors(Refreshed(live, known), visible) <==>
        && NothingEchoed(known)
        && if TakenOut(s, |visible|) == 0 then NothingUnsaved(live, known) else Realigned(visible, s)
  {
    var live := Rebuilt(history, [summary] + visible[s..], visible);
    if TakenOut(s, |visible|) == 0 {
      RebuiltKeepsSummary(history, summary, visible, s);
      LeftBehindIsStale(live, summary, known);
      RefreshRepairs(live, known);
    } else {
      PastSummary(history, summary, visible, s);
      NoSummaryIsFresh(live, known);
      if Realigned(visible, s) {
        RebuiltWhenInert(history, summary, visible, s);
        DropHidden(live, known);
      } else {
        ShorterStaysWrong(live, known);
      }
    }
  }

  // ---- with a reset, after something was forgotten ----

  /** The leading prompt, unless it is a summary, and the replay. */
  function Reset(history: seq<Replayed>, known: Known): seq<Replayed>
  {
    var keeps := history != [] && IsSystem(history[0]) && history[0] !in known.summaries;
    (if keeps then [history[0]] else []) + known.replay
  }

  lemma ResetMirrors(history: seq<Replayed>, known: Known)
    requires history != [] && IsSystem(history[0]) && history[0] !in known.summaries ==> Transient(history[0])
    ensures Mirrors(Reset(history, known), known.replay)
  {
    if history != [] && IsSystem(history[0]) && history[0] !in known.summaries {
      LastingCons(history[0], known.replay);
    } else {
      assert [] + known.replay == known.replay;
    }
  }

  // ---- the leading prompt ----

  /** Nothing the file hides is a system message, as none is ever saved. */
  predicate HidesNoPrompt(known: Known)
  {
    && (forall m :: m in known.hidden ==> !IsSystem(m))
    && (forall m :: m in known.saved ==> !IsSystem(m))
  }

  lemma {:induction false} FilterKeepsFirst(s: seq<Replayed>, p: Replayed -> bool)
    requires s != [] && p(s[0])
    ensures Filter(s, p) != [] && Filter(s, p)[0] == s[0]
  {
    if |s| > 1 {
      FilterKeepsFirst(s[..|s| - 1], p);
    } else {
      assert s[..0] == [];
    }
  }

  lemma DropKeepsLed(history: seq<Replayed>, known: Known)
    requires Led(history) && HidesNoPrompt(known)
    ensures Led(Filter(history, Remains(known)))
  {
    FilterKeepsFirst(history, Remains(known));
  }

  lemma SpliceKeepsLed(history: seq<Replayed>, known: Known)
    requires Led(history) && HidesNoPrompt(known)
    requires forall m :: m in known.summaries ==> m.Summary?
    ensures Led(Spliced(Extras(history, known), known.replay))
  {
    FilterKeepsFirst(history, IsExtra(known));
  }

  /** Refreshing leaves the prompt where it is. */
  lemma RefreshKeepsLed(history: seq<Replayed>, known: Known)
    requires Led(history) && HidesNoPrompt(known)
    requires forall m :: m in known.summaries ==> m.Summary?
    ensures Led(Refreshed(history, known))
  {
    if Stale(history, known) {
      SpliceKeepsLed(history, known);
      DropKeepsLed(Spliced(Extras(history, known), known.replay), known);
    } else {
      DropKeepsLed(history, known);
    }
  }

  /** So does a reset: the prompt is no summary. */
  lemma ResetKeepsLed(history: seq<Replayed>, known: Known)
    requires Led(history) && forall m :: m in known.summaries ==> m.Summary?
    ensures Led(Reset(history, known)) && Reset(history, known) == [history[0]] + known.replay
  {
  }
}
