/** Tool calls and their results in a chat history. */
module Pairing {
  import opened Sequences
  import opened Records
  import opened Replay

  function CallsOf(m: Replayed): seq<Call>
  {
    if m.Raw? then m.body.calls else []
  }

  /** The call a tool message answers. */
  function Answers(m: Replayed): Option<string>
  {
    if m.Raw? && m.role == Tool then m.body.callId else None
  }

  function Ids(calls: seq<Call>): set<string> { set c | c in calls :: c.id }

  /** Assigning a dictionary entry: a known key keeps its place. */
  function Assign(open: seq<Call>, call: Call): (r: seq<Call>)
    ensures Ids(r) == Ids(open) + {call.id}
  {
    if open == [] then
      assert forall c :: c in [call] ==> c == call;
      [call]
    else
      assert open == [open[0]] + open[1..];
      if open[0].id == call.id then
        var r := [call] + open[1..];
        assert forall c :: c in r <==> c == call || c in open[1..];
        assert forall c :: c in open <==> c == open[0] || c in open[1..];
        assert Ids(r) == {call.id} + Ids(open[1..]);
        assert Ids(open) == {open[0].id} + Ids(open[1..]);
        r
      else
        var rest := Assign(open[1..], call);
        var r := [open[0]] + rest;
        assert forall c :: c in r <==> c == open[0] || c in rest;
        assert forall c :: c in open <==> c == open[0] || c in open[1..];
        assert Ids(r) == {open[0].id} + Ids(rest);
        assert Ids(open) == {open[0].id} + Ids(open[1..]);
        r
  }

  function AssignAll(open: seq<Call>, calls: seq<Call>): (r: seq<Call>)
    ensures Ids(r) == Ids(open) + Ids(calls)
    decreases |calls|
  {
    if calls == [] then open else
      assert calls == [calls[0]] + calls[1..];
      assert forall c :: c in calls <==> c == calls[0] || c in calls[1..];
      assert Ids(calls) == {calls[0].id} + Ids(calls[1..]);
      AssignAll(Assign(open, calls[0]), calls[1..])
  }

  function Drop(open: seq<Call>, id: Option<string>): (r: seq<Call>)
    ensures Ids(r) == Ids(open) - (if id.Some? then {id.value} else {})
  {
    if id.None? then open else
      var keep := (c: Call) => c.id != id.value;
      FilterIn(open, keep);
      Filter(open, keep)
  }

  /** The calls of `history` that no result has answered, `open` being those open before it. */
  function OutstandingFrom(open: seq<Call>, history: seq<Replayed>): (r: seq<Call>)
  {
    if history == [] then open else
      var m := history[|history| - 1];
      Drop(AssignAll(OutstandingFrom(open, history[..|history| - 1]), CallsOf(m)), Answers(m))
  }

  function Outstanding(history: seq<Replayed>): seq<Call> { OutstandingFrom([], history) }

  /** Every result answers a call that is open when it arrives. */
  predicate NoOrphans(history: seq<Replayed>)
  {
    forall j :: 0 <= j < |history| && Answers(history[j]).Some? ==>
      Answers(history[j]).value in Ids(Outstanding(history[..j]))
  }

  lemma {:induction false} OutstandingAppend(open: seq<Call>, a: seq<Replayed>, b: seq<Replayed>)
    ensures OutstandingFrom(open, a + b) == OutstandingFrom(OutstandingFrom(open, a), b)
  {
    if b == [] {
      assert a + b == a;
    } else {
      assert (a + b)[..|a + b| - 1] == a + b[..|b| - 1];
      OutstandingAppend(open, a, b[..|b| - 1]);
    }
  }

  /** A history cut where nothing is outstanding leaves a tail that is paired on its own. */
  lemma TailOfClosedPrefix(a: seq<Replayed>, b: seq<Replayed>)
    requires Outstanding(a) == []
    ensures Outstanding(a + b) == Outstanding(b)
    ensures NoOrphans(a + b) ==> NoOrphans(b)
  {
    OutstandingAppend([], a, b);
    if NoOrphans(a + b) {
      forall j | 0 <= j < |b| && Answers(b[j]).Some?
        ensures Answers(b[j]).value in Ids(Outstanding(b[..j]))
      {
        assert (a + b)[..|a| + j] == a + b[..j];
        assert (a + b)[|a| + j] == b[j];
        OutstandingAppend([], a, b[..j]);
      }
    }
  }

  // ---- what a part of a history owes to what came before it ----

  /** The calls a history answers. */
  function Answered(history: seq<Replayed>): set<string>
  {
    set m | m in history && Answers(m).Some? :: Answers(m).value
  }

  predicate Makes(history: seq<Replayed>, id: string)
  {
    exists m :: m in history && id in Ids(CallsOf(m))
  }

  lemma AnsweredLast(history: seq<Replayed>, m: Replayed)
    ensures Answered(history + [m]) == Answered(history) + (if Answers(m).Some? then {Answers(m).value} else {})
    ensures forall id :: Makes(history + [m], id) <==> Makes(history, id) || id in Ids(CallsOf(m))
  {
    var more := history + [m];
    assert forall x :: x in more <==> x in history || x == m;
  }

  lemma OutstandingLast(open: seq<Call>, history: seq<Replayed>, m: Replayed)
    ensures OutstandingFrom(open, history + [m])
         == Drop(AssignAll(OutstandingFrom(open, history), CallsOf(m)), Answers(m))
  {
    assert (history + [m])[..|history|] == history;
  }

  /** Calls open before a history stay open until it answers them, and change nothing else. */
  lemma {:induction false} OpenBefore(open: seq<Call>, history: seq<Replayed>)
    ensures Ids(OutstandingFrom(open, history)) == Ids(Outstanding(history)) + (Ids(open) - Answered(history))
  {
    if history != [] {
      var init, last := history[..|history| - 1], history[|history| - 1];
      assert history == init + [last];
      OpenBefore(open, init);
      AnsweredLast(init, last);
      OutstandingLast(open, init, last);
      OutstandingLast([], init, last);
    }
  }

  /** What a history leaves open it has called itself; what it calls and does not answer it leaves open. */
  lemma {:induction false} OpenIsMade(history: seq<Replayed>)
    ensures forall id :: id in Ids(Outstanding(history)) ==> Makes(history, id)
    ensures forall id :: Makes(history, id) && id !in Answered(history) ==> id in Ids(Outstanding(history))
  {
    if history != [] {
      var init, last := history[..|history| - 1], history[|history| - 1];
      assert history == init + [last];
      OpenIsMade(init);
      AnsweredLast(init, last);
      OutstandingLast([], init, last);
    }
  }

  lemma NothingOpen(open: seq<Call>)
    ensures Ids(open) == {} <==> open == []
  {
    if open != [] { assert open[0].id in Ids(open); }
  }

  /** Every result in `b` for a call that `a` left open comes after `b` has made that call again, or
      after an earlier such result. */
  predicate MadeAgain(a: seq<Replayed>, b: seq<Replayed>)
  {
    forall j :: 0 <= j < |b| && Answers(b[j]).Some? ==>
      (Answers(b[j]).value in Ids(Outstanding(a)) - Answered(b[..j]) ==> Makes(b[..j], Answers(b[j]).value))
  }

  lemma PairedAt(a: seq<Replayed>, b: seq<Replayed>, j: nat, id: string)
    requires j <= |b|
    ensures id in Ids(Outstanding((a + b)[..|a| + j])) <==>
      id in Ids(Outstanding(b[..j])) || id in Ids(Outstanding(a)) - Answered(b[..j])
    ensures id in Ids(Outstanding(b[..j])) ==> Makes(b[..j], id)
    ensures Makes(b[..j], id) && id !in Answered(b[..j]) ==> id in Ids(Outstanding(b[..j]))
  {
    assert (a + b)[..|a| + j] == a + b[..j];
    OutstandingAppend([], a, b[..j]);
    OpenBefore(Outstanding(a), b[..j]);
    OpenIsMade(b[..j]);
  }

  /** Taking the front off a well-paired history: nothing new is left open, and the rest has no orphaned
      result exactly when calls the front left open are made again before they are answered. */
  lemma TailIsPaired(a: seq<Replayed>, b: seq<Replayed>)
    ensures Outstanding(a + b) == [] ==> Outstanding(b) == []
    ensures NoOrphans(a + b) ==> (NoOrphans(b) <==> MadeAgain(a, b))
  {
    OutstandingAppend([], a, b);
    OpenBefore(Outstanding(a), b);
    NothingOpen(Outstanding(b));
    NothingOpen(Outstanding(a + b));
    if NoOrphans(a + b) {
      forall j | 0 <= j < |b| && Answers(b[j]).Some?
        ensures
          var id := Answers(b[j]).value;
          id in Ids(Outstanding(b[..j])) <==> (id in Ids(Outstanding(a)) - Answered(b[..j]) ==> Makes(b[..j], id))
      {
        PairedAt(a, b, j, Answers(b[j]).value);
        assert (a + b)[|a| + j] == b[j];
      }
    }
  }
}
