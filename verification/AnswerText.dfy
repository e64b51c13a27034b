/** The final text of a run, put together from truncated and complete responses. */
module AnswerText {

  /** One text response since the last tool batch; `cut` when the output limit truncated it. */
  datatype Piece = Piece(text: string, cut: bool)

  predicate AnyCut(pieces: seq<Piece>) { exists p :: p in pieces && p.cut }

  /** What the loop's `final_text` holds: truncated text is added, and a complete response replaces what
      was there unless something was truncated before. */
  function FinalText(pieces: seq<Piece>): string
  {
    if pieces == [] then "" else
      var init, last := pieces[..|pieces| - 1], pieces[|pieces| - 1];
      (if last.cut || AnyCut(init) then FinalText(init) else "") + last.text
  }

  /** The answer the last piece belongs to: the truncated pieces right before it, and itself. */
  function LastAnswer(pieces: seq<Piece>): string
  {
    if pieces == [] then "" else
      var init, last := pieces[..|pieces| - 1], pieces[|pieces| - 1];
      (if init != [] && init[|init| - 1].cut then LastAnswer(init) else "") + last.text
  }

  /** At most the last piece is complete. */
  predicate OneAnswer(pieces: seq<Piece>)
  {
    forall i :: 0 <= i < |pieces| - 1 ==> pieces[i].cut
  }

  lemma CutMore(pieces: seq<Piece>, p: Piece)
    ensures AnyCut(pieces + [p]) <==> AnyCut(pieces) || p.cut
  {
    if AnyCut(pieces) {
      var q :| q in pieces && q.cut;
      assert q in pieces + [p];
    }
    assert p in pieces + [p];
  }

  lemma TextMore(pieces: seq<Piece>, p: Piece)
    ensures FinalText(pieces + [p]) == (if p.cut || AnyCut(pieces) then FinalText(pieces) else "") + p.text
  {
    assert (pieces + [p])[..|pieces|] == pieces;
  }

  /** `text` ends with `end`. */
  predicate EndsWith(text: string, end: string)
  {
    |end| <= |text| && text[|text| - |end|..] == end
  }

  lemma EndsWithMore(text: string, end: string, more: string)
    requires EndsWith(text, end)
    ensures EndsWith(text + more, end + more)
  {
    var k := |text| - |end|;
    assert (text + more)[k..] == text[k..] + more;
  }

  /** What is reported always ends with the last answer. */
  lemma {:induction false} AnswerComesLast(pieces: seq<Piece>)
    ensures EndsWith(FinalText(pieces), LastAnswer(pieces))
  {
    if pieces != [] {
      var init, last := pieces[..|pieces| - 1], pieces[|pieces| - 1];
      AnswerComesLast(init);
      if init != [] && init[|init| - 1].cut {
        assert init[|init| - 1] in init;
        EndsWithMore(FinalText(init), LastAnswer(init), last.text);
      } else {
        EndsWithMore(FinalText(init), "", last.text);
        EndsWithMore("", "", last.text);
      }
    }
  }

  /** One answer, however often truncated, is reported whole. */
  lemma {:induction false} OneAnswerIsWhole(pieces: seq<Piece>)
    requires OneAnswer(pieces)
    ensures FinalText(pieces) == LastAnswer(pieces)
  {
    if pieces != [] {
      var init := pieces[..|pieces| - 1];
      OneAnswerIsWhole(init);
      if init != [] {
        assert init[|init| - 1] == pieces[|pieces| - 2] && init[|init| - 1] in init;
      }
    }
  }

  lemma CompleteLast(init: seq<Piece>, last: Piece)
    requires !AnyCut(init) && !last.cut
    ensures FinalText(init + [last]) == LastAnswer(init + [last]) == "" + last.text
  {
    assert (init + [last])[..|init|] == init;
    if init != [] { assert init[|init| - 1] in init; }
  }

  /** Without truncation only the last response is reported. */
  lemma NeverCut(pieces: seq<Piece>)
    requires !AnyCut(pieces)
    ensures FinalText(pieces) == LastAnswer(pieces)
    ensures pieces != [] ==> FinalText(pieces) == "" + pieces[|pieces| - 1].text
  {
    if pieces != [] {
      var init, last := pieces[..|pieces| - 1], pieces[|pieces| - 1];
      assert pieces == init + [last];
      CutMore(init, last);
      CompleteLast(init, last);
    }
  }

  lemma InitFacts(pieces: seq<Piece>)
    requires pieces != [] && forall p :: p in pieces ==> p.text != ""
    ensures
      var init, last := pieces[..|pieces| - 1], pieces[|pieces| - 1];
      && (AnyCut(pieces) <==> AnyCut(init) || last.cut)
      && (forall p :: p in init ==> p.text != "")
      && last.text != ""
      && (init != [] && init[|init| - 1].cut ==> AnyCut(init) && (OneAnswer(init) ==> OneAnswer(pieces)))
  {
    var init, last := pieces[..|pieces| - 1], pieces[|pieces| - 1];
    assert pieces == init + [last];
    CutMore(init, last);
    assert last in pieces;
    assert forall p :: p in init ==> p in pieces;
    if init != [] && init[|init| - 1].cut {
      assert init[|init| - 1] in init;
      if OneAnswer(init) {
        forall i | 0 <= i < |pieces| - 1 ensures pieces[i].cut { assert pieces[i] == init[i]; }
      }
    }
  }

  /** Once something was truncated, an earlier complete answer is reported with the last one. */
  lemma {:induction false} EarlierAnswerSticks(pieces: seq<Piece>)
    requires AnyCut(pieces) && !OneAnswer(pieces)
    requires forall p :: p in pieces ==> p.text != ""
    ensures |LastAnswer(pieces)| < |FinalText(pieces)|
  {
    var init := pieces[..|pieces| - 1];
    InitFacts(pieces);
    if init[|init| - 1].cut {
      EarlierAnswerSticks(init);
    } else {
      TextNotEmpty(init);
    }
  }

  lemma TextNotEmpty(pieces: seq<Piece>)
    requires pieces != [] && forall p :: p in pieces ==> p.text != ""
    ensures FinalText(pieces) != ""
  {
    assert pieces[|pieces| - 1] in pieces;
  }

  /** The reported text is exactly the last answer if and only if nothing was truncated since the last
      tool batch, or there was only this one answer; otherwise earlier text comes before the last answer. */
  lemma FinalTextIsLastAnswer(pieces: seq<Piece>)
    requires forall p :: p in pieces ==> p.text != ""
    ensures FinalText(pieces) == LastAnswer(pieces) <==> !AnyCut(pieces) || OneAnswer(pieces)
    ensures EndsWith(FinalText(pieces), LastAnswer(pieces))
    ensures AnyCut(pieces) && !OneAnswer(pieces) ==> |LastAnswer(pieces)| < |FinalText(pieces)|
  {
    AnswerComesLast(pieces);
    if !AnyCut(pieces) {
      NeverCut(pieces);
    } else if OneAnswer(pieces) {
      OneAnswerIsWhole(pieces);
    } else {
      EarlierAnswerSticks(pieces);
    }
  }

  /** A truncated answer, its completion, then the answer to queued input: the first is told again. */
  lemma AnswersAreRepeated()
    ensures
      var pieces := [Piece("a", true), Piece("b", false), Piece("c", false)];
      LastAnswer(pieces) == "c" && FinalText(pieces) == "abc"
  {
    var a, b, c := Piece("a", true), Piece("b", false), Piece("c", false);
    var one, two, three := [a], [a, b], [a, b, c];
    assert one[..0] == [] && two[..1] == one && three[..2] == two;
    assert a in one && a in two;
    assert FinalText(one) == "" + "a" == "a";
    assert FinalText(two) == "a" + "b" == "ab";
    assert FinalText(three) == "ab" + "c" == "abc";
  }
}
