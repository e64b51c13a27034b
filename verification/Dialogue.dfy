/** The live conversation beside the saved one: which messages must agree, and what a compaction makes of
    the live one. */
module Dialogue {
  import opened Sequences
  import opened Records
  import opened Replay
  import opened Pairing
  import opened Repair

  const CONTINUE_PROMPT := "Please continue."

  predicate IsContinuePrompt(text: string) { text == CONTINUE_PROMPT }

  /** A message that neither makes nor answers a call. */
  predicate Quiet(m: Replayed) { CallsOf(m) == [] && Answers(m).None? }

  /** A prompt that is never saved: a system message, or the request to continue a truncated answer. */
  predicate Transient(m: Replayed)
  {
    m.Raw? && Quiet(m) && (m.role == System || (m.role == User && IsContinuePrompt(m.body.content)))
  }

  function IsLasting(): Replayed -> bool { (m: Replayed) => !Transient(m) }

  /** What has to be the same in the live and in the saved conversation. */
  function Lasting(history: seq<Replayed>): seq<Replayed> { Filter(history, IsLasting()) }

  /** The live history holds the saved one's messages, summary included, in the same order; only prompts
      differ. */
  predicate Mirrors(history: seq<Replayed>, saved: seq<Replayed>) { Lasting(history) == Lasting(saved) }

  lemma LastingAppend(history: seq<Replayed>, m: Replayed)
    ensures Lasting(history + [m]) == if Transient(m) then Lasting(history) else Lasting(history) + [m]
  {
    if Transient(m) { FilterSkips(history, m, IsLasting()); } else { FilterTakes(history, m, IsLasting()); }
  }

  lemma LastingConcat(a: seq<Replayed>, b: seq<Replayed>)
    ensures Lasting(a + b) == Lasting(a) + Lasting(b)
  {
    FilterAppend(a, b, IsLasting());
  }

  lemma LastingOne(m: Replayed)
    ensures Lasting([m]) == if Transient(m) then [] else [m]
  {
    LastingAppend([], m);
    assert [] + [m] == [m];
  }

  lemma LastingCons(m: Replayed, s: seq<Replayed>)
    ensures Lasting([m] + s) == if Transient(m) then Lasting(s) else [m] + Lasting(s)
  {
    LastingConcat([m], s);
    LastingOne(m);
    if Transient(m) { assert [] + Lasting(s) == Lasting(s); }
  }

  lemma LastingFront(s: seq<Replayed>)
    requires s != []
    ensures Lasting(s) == if Transient(s[0]) then Lasting(s[1..]) else [s[0]] + Lasting(s[1..])
  {
    assert s == [s[0]] + s[1..];
    LastingCons(s[0], s[1..]);
  }

  lemma LastingIn(s: seq<Replayed>)
    ensures forall m :: m in Lasting(s) <==> m in s && !Transient(m)
  {
    FilterIn(s, IsLasting());
  }

  lemma QuietLast(open: seq<Call>, history: seq<Replayed>, m: Replayed)
    requires Quiet(m)
    ensures OutstandingFrom(open, history + [m]) == OutstandingFrom(open, history)
  {
    OutstandingLast(open, history, m);
  }

  /** Prompts leave nothing open and close nothing. */
  lemma {:induction false} OnlyLastingMatters(history: seq<Replayed>)
    ensures Outstanding(history) == Outstanding(Lasting(history))
  {
    if history != [] {
      var init, last := history[..|history| - 1], history[|history| - 1];
      assert history == init + [last];
      OnlyLastingMatters(init);
      LastingAppend(init, last);
      OutstandingLast([], init, last);
      OutstandingLast([], Lasting(init), last);
    }
  }

  lemma MirrorsOpenAlike(history: seq<Replayed>, saved: seq<Replayed>)
    requires Mirrors(history, saved)
    ensures Outstanding(history) == Outstanding(saved)
  {
    OnlyLastingMatters(history);
    OnlyLastingMatters(saved);
  }

  lemma MirrorsGrow(history: seq<Replayed>, saved: seq<Replayed>, more: seq<Replayed>)
    requires Mirrors(history, saved)
    ensures Mirrors(history + more, saved + more)
  {
    LastingConcat(history, more);
    LastingConcat(saved, more);
  }

  lemma TransientUnnoticed(history: seq<Replayed>, saved: seq<Replayed>, m: Replayed)
    requires Mirrors(history, saved) && Transient(m)
    ensures Mirrors(history + [m], saved)
  {
    LastingAppend(history, m);
  }

  // ---- removing a compacted prefix from the live history ----

  /** Python's `list.remove`, when the item is there. */
  function RemoveFirst(s: seq<Replayed>, x: Replayed): seq<Replayed>
  {
    if s == [] then [] else if s[0] == x then s[1..] else [s[0]] + RemoveFirst(s[1..], x)
  }

  function RemoveAll(s: seq<Replayed>, gone: seq<Replayed>): seq<Replayed>
  {
    if gone == [] then s else RemoveFirst(RemoveAll(s, gone[..|gone| - 1]), gone[|gone| - 1])
  }

  lemma {:induction false} RemoveTransient(s: seq<Replayed>, x: Replayed)
    requires Transient(x)
    ensures Lasting(RemoveFirst(s, x)) == Lasting(s)
  {
    if s != [] {
      LastingFront(s);
      if s[0] != x {
        RemoveTransient(s[1..], x);
        LastingCons(s[0], RemoveFirst(s[1..], x));
      }
    }
  }

  /** The first occurrence of the first lasting message is that message itself. */
  lemma {:induction false} RemoveLasting(s: seq<Replayed>, x: Replayed, rest: seq<Replayed>)
    requires !Transient(x) && Lasting(s) == [x] + rest
    ensures Lasting(RemoveFirst(s, x)) == rest
  {
    if s != [] {
      LastingFront(s);
      if s[0] != x {
        assert Transient(s[0]) by { assert Lasting(s)[0] == x; }
        RemoveLasting(s[1..], x, rest);
        LastingCons(s[0], RemoveFirst(s[1..], x));
      } else {
        assert rest == ([x] + rest)[1..] == ([x] + Lasting(s[1..]))[1..] == Lasting(s[1..]);
      }
    }
  }

  /** Removing a prefix of the saved messages from the live ones leaves what mirrors the saved tail. */
  lemma {:induction false} RemovePrefix(history: seq<Replayed>, saved: seq<Replayed>, k: nat)
    requires Mirrors(history, saved) && k <= |saved|
    ensures Mirrors(RemoveAll(history, saved[..k]), saved[k..])
  {
    if k == 0 {
      assert saved[0..] == saved;
    } else {
      RemovePrefix(history, saved, k - 1);
      assert saved[..k][..k - 1] == saved[..k - 1];
      var left, x := RemoveAll(history, saved[..k - 1]), saved[k - 1];
      assert saved[k - 1..][1..] == saved[k..];
      LastingFront(saved[k - 1..]);
      if Transient(x) { RemoveTransient(left, x); } else { RemoveLasting(left, x, Lasting(saved[k..])); }
    }
  }

  // ---- the live history after a compaction ----

  /** Python's `s[:k]`: a negative bound counts from the end. */
  function Upto(s: seq<Replayed>, k: int): (n: nat)
    ensures n <= |s|
  {
    if k < 0 then (if |s| + k < 0 then 0 else |s| + k) else if k <= |s| then k else |s|
  }

  predicate IsSystem(m: Replayed) { m.Summary? || m.role == System }

  /** The number of leading system messages, summaries included. */
  function Leading(history: seq<Replayed>): (n: nat)
    ensures n <= |history|
  {
    if history != [] && IsSystem(history[0]) then 1 + Leading(history[1..]) else 0
  }

  function InsertAfterLeading(history: seq<Replayed>, m: Replayed): seq<Replayed>
  {
    history[..Leading(history)] + [m] + history[Leading(history)..]
  }

  /** What the loop makes of the live history when a compaction has turned the replay `before` into
      `after`: it takes the difference in length for the length of the covered part. */
  function Rebuilt(history: seq<Replayed>, before: seq<Replayed>, after: seq<Replayed>): seq<Replayed>
    requires after != []
  {
    InsertAfterLeading(RemoveAll(history, before[..Upto(before, |before| - |after| + 1)]), after[0])
  }

  /** Saved messages: no summary among them, and no system message. */
  predicate NoSystems(saved: seq<Replayed>)
  {
    forall m :: m in saved ==> !IsSystem(m)
  }

  /** A replay starts with at most one summary. */
  predicate ReplayShape(saved: seq<Replayed>)
  {
    NoSystems(saved) || (saved != [] && saved[0].Summary? && NoSystems(saved[1..]))
  }

  lemma {:induction false} LeadingAreSystem(history: seq<Replayed>)
    ensures forall m :: m in history[..Leading(history)] ==> IsSystem(m) && m in history
  {
    if history != [] && IsSystem(history[0]) {
      LeadingAreSystem(history[1..]);
      var n := Leading(history[1..]);
      assert history[..n + 1] == [history[0]] + history[1..][..n];
    }
  }

  /** In front of plainly saved messages there are only prompts. */
  lemma LeadingIsTransient(history: seq<Replayed>, saved: seq<Replayed>)
    requires Mirrors(history, saved) && NoSystems(saved)
    ensures Lasting(history[..Leading(history)]) == []
  {
    var front := history[..Leading(history)];
    LeadingAreSystem(history);
    LastingIn(history);
    LastingIn(saved);
    FilterNone(front, IsLasting());
  }

  lemma InsertIsFirst(history: seq<Replayed>, saved: seq<Replayed>, m: Replayed)
    requires Mirrors(history, saved) && NoSystems(saved)
    ensures Mirrors(InsertAfterLeading(history, m), [m] + saved)
  {
    var n := Leading(history);
    var front, back := history[..n], history[n..];
    LeadingIsTransient(history, saved);
    TakeDrop(history, n);
    LastingConcat(front, back);
    LastingAppend(front, m);
    LastingConcat(front + [m], back);
    LastingCons(m, saved);
  }

  /** The compaction took hold: the summary stands where the covered part stood. */
  lemma RebuiltWhenHeld(history: seq<Replayed>, gone: seq<Replayed>, tail: seq<Replayed>, summary: Replayed)
    requires Mirrors(history, gone + tail) && NoSystems(tail)
    ensures Mirrors(Rebuilt(history, gone + tail, [summary] + tail), [summary] + tail)
  {
    var before, after := gone + tail, [summary] + tail;
    assert |before| - |after| + 1 == |gone|;
    assert before[..|gone|] == gone && before[|gone|..] == tail;
    RemovePrefix(history, before, |gone|);
    InsertIsFirst(RemoveAll(history, gone), tail, summary);
  }

  /** The compaction is inert and there was no earlier summary: the first message is taken out and put
      back. */
  lemma RebuiltWhenUnsummarized(history: seq<Replayed>, saved: seq<Replayed>)
    requires Mirrors(history, saved) && NoSystems(saved) && saved != []
    ensures Mirrors(Rebuilt(history, saved, saved), saved)
  {
    RemovePrefix(history, saved, 1);
    assert NoSystems(saved[1..]);
    InsertIsFirst(RemoveAll(history, saved[..1]), saved[1..], saved[0]);
    assert [saved[0]] + saved[1..] == saved;
  }

  /** How many replayed messages the loop takes out when a compaction on top of a summary of `s` messages
      turns out inert; `n` messages are visible. */
  function TakenOut(s: nat, n: nat): (c: nat)
  {
    if s <= 2 then 2 - s else if n + 3 <= 2 * s then 0 else n + 3 - 2 * s
  }

  /** ... and the live history is right again only if that takes out the summary, and of the messages it
      drops together with those the summary stood for, only the first was worth keeping. */
  predicate Realigned(visible: seq<Replayed>, s: nat)
    requires 1 <= s < |visible|
  {
    var c := TakenOut(s, |visible|);
    c >= 1 && Lasting(visible[1..s + c - 1]) == []
  }

  lemma TakenOutIsSlice(before: seq<Replayed>, visible: seq<Replayed>, s: nat)
    requires 1 <= s < |visible| && |before| == 1 + |visible| - s
    ensures Upto(before, |before| - |visible| + 1) == TakenOut(s, |visible|)
    ensures TakenOut(s, |visible|) <= |before| && s + TakenOut(s, |visible|) - 1 <= |visible|
    ensures TakenOut(s, |visible|) >= 1 ==> 1 <= s + TakenOut(s, |visible|) - 1
  {
  }

  lemma MiddleDecides(first: Replayed, middle: seq<Replayed>, rest: seq<Replayed>)
    ensures Lasting([first] + rest) == Lasting([first] + middle + rest) <==> Lasting(middle) == []
  {
    LastingConcat([first], rest);
    LastingConcat([first], middle);
    LastingConcat([first] + middle, rest);
    if Lasting(middle) == [] { PlusNothing(Lasting([first]), Lasting(middle)); }
    if Lasting([first] + rest) == Lasting([first] + middle + rest) {
      assert |Lasting([first] + rest)| == |Lasting([first])| + |Lasting(rest)|;
      assert |Lasting([first] + middle + rest)| == |Lasting([first])| + |Lasting(middle)| + |Lasting(rest)|;
    }
  }

  lemma RebuiltPastSummary(history: seq<Replayed>, summary: Replayed, visible: seq<Replayed>, s: nat, c: nat)
    requires summary.Summary? && 1 <= s < |visible| && NoSystems(visible)
    requires Mirrors(history, [summary] + visible[s..]) && 1 <= c <= 1 + |visible| - s
    ensures
      var before := [summary] + visible[s..];
      Mirrors(InsertAfterLeading(RemoveAll(history, before[..c]), visible[0]), [visible[0]] + visible[s + c - 1..])
  {
    var before := [summary] + visible[s..];
    RemovePrefix(history, before, c);
    assert before[c..] == visible[s + c - 1..];
    InsertIsFirst(RemoveAll(history, before[..c]), visible[s + c - 1..], visible[0]);
  }

  lemma InsertKeeps(history: seq<Replayed>, m: Replayed, x: Replayed)
    requires x in history
    ensures x in InsertAfterLeading(history, m)
  {
    TakeDrop(history, Leading(history));
  }

  /** A summary left behind shows. */
  lemma StaleSummaryShows(history: seq<Replayed>, summary: Replayed, saved: seq<Replayed>)
    requires summary in history && summary.Summary? && NoSystems(saved)
    ensures !Mirrors(history, saved)
  {
    LastingIn(history);
    LastingIn(saved);
    assert summary in Lasting(history);
  }

  lemma RebuiltKeepsSummary(history: seq<Replayed>, summary: Replayed, visible: seq<Replayed>, s: nat)
    requires summary.Summary? && 1 <= s < |visible| && NoSystems(visible)
    requires Mirrors(history, [summary] + visible[s..]) && TakenOut(s, |visible|) == 0
    ensures summary in Rebuilt(history, [summary] + visible[s..], visible)
  {
    var before := [summary] + visible[s..];
    TakenOutIsSlice(before, visible, s);
    assert before[..0] == [];
    LastingIn(history);
    LastingIn(before);
    assert summary in before && summary in Lasting(before);
    InsertKeeps(history, visible[0], summary);
  }

  /** The compaction is inert and an earlier summary loses its standing with it: the live history mirrors
      the replay again exactly in the one case above. */
  lemma RebuiltWhenInert(history: seq<Replayed>, summary: Replayed, visible: seq<Replayed>, s: nat)
    requires summary.Summary? && 1 <= s < |visible| && NoSystems(visible)
    requires Mirrors(history, [summary] + visible[s..])
    ensures Mirrors(Rebuilt(history, [summary] + visible[s..], visible), visible) <==> Realigned(visible, s)
  {
    var before, c := [summary] + visible[s..], TakenOut(s, |visible|);
    TakenOutIsSlice(before, visible, s);
    if c == 0 {
      RebuiltKeepsSummary(history, summary, visible, s);
      StaleSummaryShows(Rebuilt(history, before, visible), summary, visible);
    } else {
      RebuiltPastSummary(history, summary, visible, s, c);
      var t := s + c - 1;
      assert [visible[0]] + visible[1..t] + visible[t..] == visible;
      MiddleDecides(visible[0], visible[1..t], visible[t..]);
    }
  }

  // ---- the system prompt ----

  /** The system prompt is replaced, or put in front. */
  function WithPrompt(history: seq<Replayed>, prompt: Replayed): seq<Replayed>
  {
    if history != [] && IsSystem(history[0]) then [prompt] + history[1..] else [prompt] + history
  }

  predicate IsPrompt(m: Replayed) { m.Raw? && m.role == System }

  /** A prompt stands first, so that replacing it overwrites nothing else. */
  predicate Led(history: seq<Replayed>)
  {
    history != [] && IsPrompt(history[0])
  }

  lemma PromptKeepsMirror(history: seq<Replayed>, saved: seq<Replayed>, prompt: Replayed)
    requires Mirrors(history, saved) && ReplayShape(saved) && Led(history)
    requires IsPrompt(prompt) && Transient(prompt)
    ensures Mirrors(WithPrompt(history, prompt), saved)
  {
    LastingIn(history);
    LastingIn(saved);
    assert saved != [] ==> saved == [saved[0]] + saved[1..];
    assert history[0] in history && history[0] !in saved;
    LastingFront(history);
    LastingCons(prompt, history[1..]);
  }

  // ---- one batch of tool calls ----

  /** An assistant message and one result per call: whatever was closed is closed again. */
  lemma BatchCloses(history: seq<Replayed>, assistant: Replayed, calls: seq<Call>, results: seq<Replayed>)
    requires Outstanding(history) == [] && CallsOf(assistant) == calls && Answers(assistant).None?
    requires Pairs(results, calls)
    ensures Outstanding(history + [assistant] + results) == []
  {
    OutstandingLast([], history, assistant);
    var open := Outstanding(history + [assistant]);
    assert open == AssignAll([], calls);
    OutstandingAppend([], history + [assistant], results);
    ResultsClose(open, results, calls);
    NothingOpen(OutstandingFrom(open, results));
  }
}
