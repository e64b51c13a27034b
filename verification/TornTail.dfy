/** The session file as bytes: why a torn write costs at most its own line. */
module TornTail {
  import opened ByteStrings

  /** The finished lines of a file and the text after its last newline. */
  function Split(file: Bytes): (seq<Bytes>, Bytes)
  {
    if file == [] then ([], []) else
      var (lines, tail) := Split(file[..|file| - 1]);
      var last := file[|file| - 1];
      if last == '\n' then (lines + [tail], []) else (lines, tail + [last])
  }

  /** What a reader that goes line by line sees; an unfinished last line is a line too. */
  function LinesOf(file: Bytes): seq<Bytes>
  {
    var (lines, tail) := Split(file);
    if tail == [] then lines else lines + [tail]
  }

  /** A newline first when the file does not end with one, then the line and its own newline. */
  function Appended(file: Bytes, line: Bytes): Bytes
  {
    (if file != [] && file[|file| - 1] != '\n' then file + ['\n'] else file) + line + ['\n']
  }

  /** Text without a newline joins the unfinished line. */
  lemma {:induction false} SplitText(file: Bytes, text: Bytes)
    requires OneLine(text)
    ensures Split(file + text) == (Split(file).0, Split(file).1 + text)
  {
    if text == [] {
      assert file + text == file && Split(file).1 + text == Split(file).1;
    } else {
      var init := text[..|text| - 1];
      assert (file + text)[..|file + text| - 1] == file + init;
      assert forall c :: c in init ==> c in text;
      assert text[|text| - 1] in text;
      SplitText(file, init);
      assert (file + text)[|file + text| - 1] == text[|text| - 1];
      assert Split(file).1 + init + [text[|text| - 1]] == Split(file).1 + text;
    }
  }

  lemma SplitNewline(file: Bytes)
    ensures Split(file + ['\n']) == (Split(file).0 + [Split(file).1], [])
  {
    assert (file + ['\n'])[..|file|] == file;
  }

  /** Closing a torn line changes nothing for a reader. */
  lemma ClosedLines(file: Bytes)
    requires file != [] && file[|file| - 1] != '\n'
    ensures LinesOf(file + ['\n']) == LinesOf(file) && Split(file + ['\n']).1 == []
    ensures Split(file).1 != []
  {
    SplitNewline(file);
  }

  lemma FinishedTail(file: Bytes)
    requires file == [] || file[|file| - 1] == '\n'
    ensures Split(file).1 == []
  {
  }

  lemma TextAfterNewline(file: Bytes, text: Bytes)
    requires Split(file).1 == [] && OneLine(text)
    ensures LinesOf(file + text) == LinesOf(file) + (if text == [] then [] else [text])
    ensures LinesOf(file + text + ['\n']) == LinesOf(file) + [text]
  {
    SplitText(file, text);
    SplitNewline(file + text);
    assert [] + text == text;
  }

  /** An append adds exactly its own line, whatever the file ended with. */
  lemma AppendAddsOneLine(file: Bytes, line: Bytes)
    requires OneLine(line)
    ensures LinesOf(Appended(file, line)) == LinesOf(file) + [line]
  {
    if file != [] && file[|file| - 1] != '\n' {
      ClosedLines(file);
      TextAfterNewline(file + ['\n'], line);
    } else {
      FinishedTail(file);
      TextAfterNewline(file, line);
    }
  }

  /** An append cut anywhere leaves every earlier line, and at most a beginning of its own. */
  lemma CutAppendTearsOneLine(file: Bytes, line: Bytes, k: nat) returns (part: Bytes)
    requires OneLine(line) && line != [] && |file| <= k < |Appended(file, line)|
    ensures part <= line
    ensures LinesOf(Appended(file, line)[..k]) == LinesOf(file) + (if part == [] then [] else [part])
  {
    var torn := file != [] && file[|file| - 1] != '\n';
    var base := if torn then file + ['\n'] else file;
    if torn { ClosedLines(file); } else { FinishedTail(file); }
    if k < |base| {
      assert Appended(file, line)[..k] == file;
      part := [];
    } else {
      part := line[..k - |base|];
      assert Appended(file, line)[..k] == base + part;
      assert forall c :: c in part ==> c in line;
      TextAfterNewline(base, part);
    }
  }

  /** A crash during one append and the next append after it: nothing but the torn line is lost. */
  lemma NextAppendSurvives(file: Bytes, line: Bytes, k: nat, next: Bytes) returns (part: Bytes)
    requires OneLine(line) && line != [] && OneLine(next) && |file| <= k < |Appended(file, line)|
    ensures part <= line
    ensures LinesOf(Appended(Appended(file, line)[..k], next)) ==
      LinesOf(file) + (if part == [] then [] else [part]) + [next]
  {
    part := CutAppendTearsOneLine(file, line, k);
    AppendAddsOneLine(Appended(file, line)[..k], next);
  }
}
