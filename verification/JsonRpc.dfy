/** Message framing of the Language Server Protocol 3.17 ("Base Protocol", "Header Part" and "Content
    Part"): a Content-Length header, an empty line, and that many bytes. */
module JsonRpc {
  import opened Sequences
  import opened ByteStrings

  // ---- the writer ----

  /** Decimal digits, most significant first. */
  function Digits(n: nat): (s: Bytes)
    ensures s != []
    ensures forall c :: c in s ==> '0' <= c <= '9'
  {
    (if n < 10 then [] else Digits(n / 10)) + [(n % 10 + '0' as int) as char]
  }

  const FIELD: Bytes := "Content-Length: "

  function HeaderLine(n: nat): Bytes { FIELD + Digits(n) }

  function Frame(body: Bytes): Bytes { HeaderLine(|body|) + "\r\n" + "\r\n" + body }

  function Sent(bodies: seq<Bytes>): Bytes
  {
    if bodies == [] then [] else Frame(bodies[0]) + Sent(bodies[1..])
  }

  // ---- the reader ----

  predicate IsSpace(c: char) { c == ' ' || 9 <= c as int <= 13 }

  function TrimLeft(s: Bytes): (t: Bytes)
    ensures |t| <= |s|
  {
    if s != [] && IsSpace(s[0]) then TrimLeft(s[1..]) else s
  }

  function TrimRight(s: Bytes): (t: Bytes)
    ensures |t| <= |s|
  {
    if s != [] && IsSpace(s[|s| - 1]) then TrimRight(s[..|s| - 1]) else s
  }

  function Strip(s: Bytes): Bytes { TrimRight(TrimLeft(s)) }

  /** Position just after the first newline, or the end of the stream. */
  function LineEnd(stream: Bytes): (n: nat)
    ensures n <= |stream| && (stream != [] ==> n > 0)
  {
    if stream == [] then 0 else if stream[0] == '\n' then 1 else 1 + LineEnd(stream[1..])
  }

  function Lower(c: char): char { if 'A' <= c <= 'Z' then (c as int + 32) as char else c }

  const PREFIX: Bytes := "content-length:"

  predicate IsLengthField(line: Bytes)
  {
    |line| >= |PREFIX| && forall i :: 0 <= i < |PREFIX| ==> Lower(line[i]) == PREFIX[i]
  }

  /** The value of a string of digits; `None` stands for the error `int` raises. */
  function Decimal(s: Bytes): Option<nat>
  {
    if s == [] then None
    else
      var last := s[|s| - 1];
      if !('0' <= last <= '9') then None
      else if |s| == 1 then Some(last as int - '0' as int)
      else
        var high := Decimal(s[..|s| - 1]);
        if high.None? then None else Some(10 * high.value + (last as int - '0' as int))
  }

  datatype Outcome = Message(body: Bytes, rest: Bytes) | CleanEof | Broken

  function ReadBody(stream: Bytes, length: Option<nat>): Outcome
  {
    if length.None? || length.value > |stream| then Broken
    else Message(stream[..length.value], stream[length.value..])
  }

  /** Reading one message when `length` and `sawHeader` are what the header lines so far gave. */
  function ReadFrom(stream: Bytes, length: Option<nat>, sawHeader: bool): (o: Outcome)
    ensures o.Message? && stream != [] ==> |o.rest| < |stream|
    decreases |stream|
  {
    if stream == [] then if sawHeader then Broken else CleanEof
    else
      var n := LineEnd(stream);
      var line, rest := Strip(stream[..n]), stream[n..];
      if line == [] then ReadBody(rest, length)
      else if IsLengthField(line) then
        var value := Decimal(Strip(line[|PREFIX|..]));
        if value.None? then Broken else ReadFrom(rest, value, true)
      else ReadFrom(rest, length, true)
  }

  function ReadMessage(stream: Bytes): Outcome { ReadFrom(stream, None, false) }

  /** The read loop: the bodies it dispatches, and whether the stream ended cleanly. */
  function Received(stream: Bytes): (r: (seq<Bytes>, bool))
    decreases |stream|
  {
    match ReadMessage(stream)
    case CleanEof => ([], true)
    case Broken => ([], false)
    case Message(body, rest) =>
      if stream == [] then ([], true)
      else
        var later := Received(rest);
        ([body] + later.0, later.1)
  }

  // ---- decimal numbers ----

  lemma {:induction false} DecimalOfDigits(n: nat)
    ensures Decimal(Digits(n)) == Some(n)
  {
    if n >= 10 {
      DecimalOfDigits(n / 10);
      assert Digits(n)[..|Digits(n)| - 1] == Digits(n / 10);
    }
  }

  /** A length is a number exactly if it is all digits. */
  lemma {:induction false} DecimalExactly(s: Bytes)
    ensures Decimal(s).Some? <==> s != [] && forall c :: c in s ==> '0' <= c <= '9'
  {
    if s != [] {
      var init, last := s[..|s| - 1], s[|s| - 1];
      assert last in s && forall c :: c in s <==> c in init || c == last;
      DecimalExactly(init);
      if init == [] {
        assert Decimal(s).Some? <==> '0' <= last <= '9';
      } else {
        assert Decimal(s).Some? <==> '0' <= last <= '9' && Decimal(init).Some?;
      }
    }
  }

  // ---- lines ----

  /** The first line of a stream ends at its first newline, or with the stream. */
  lemma {:induction false} LineEndAt(line: Bytes, rest: Bytes)
    requires OneLine(line)
    ensures LineEnd(line + ['\n'] + rest) == |line| + 1
    ensures LineEnd(line) == |line|
  {
    var stream := line + ['\n'] + rest;
    if line == [] {
      assert stream[0] == '\n';
    } else {
      forall c | c in line[1..] ensures c != '\n' { assert c in line; }
      assert line[0] in line && stream[0] == line[0];
      LineEndAt(line[1..], rest);
      assert stream[1..] == line[1..] + ['\n'] + rest;
    }
  }

  lemma {:induction false} TrimRightDrops(core: Bytes, blank: Bytes)
    requires core == [] || !IsSpace(core[|core| - 1])
    requires forall c :: c in blank ==> IsSpace(c)
    ensures TrimRight(core + blank) == core
  {
    if blank != [] {
      var init := blank[..|blank| - 1];
      assert (core + blank)[..|core + blank| - 1] == core + init;
      TrimRightDrops(core, init);
    } else {
      assert core + blank == core;
    }
  }

  /** Text that starts and ends with ink loses just the blanks after it. */
  lemma StripInk(core: Bytes, blank: Bytes)
    requires core != [] && !IsSpace(core[0]) && !IsSpace(core[|core| - 1])
    requires forall c :: c in blank ==> IsSpace(c)
    ensures Strip(core + blank) == core
  {
    assert (core + blank)[0] == core[0];
    TrimRightDrops(core, blank);
  }

  /** A line that starts with ink is not a blank line. */
  lemma {:induction false} InkRemains(s: Bytes)
    requires s != [] && !IsSpace(s[0])
    ensures TrimRight(s) != []
  {
    if IsSpace(s[|s| - 1]) {
      InkRemains(s[..|s| - 1]);
    }
  }

  // ---- one frame ----

  lemma HeaderIsOneLine(n: nat)
    ensures OneLine(HeaderLine(n)) && OneLine(HeaderLine(n) + ['\r'])
  {
    assert OneLine(FIELD);
    forall c | c in HeaderLine(n) ensures c != '\n' {
      assert c in FIELD || c in Digits(n);
    }
  }

  lemma DigitsAreInk(n: nat)
    ensures !IsSpace(Digits(n)[0]) && !IsSpace(Digits(n)[|Digits(n)| - 1])
  {
    assert Digits(n)[0] in Digits(n) && Digits(n)[|Digits(n)| - 1] in Digits(n);
  }

  /** The header line says the length it was written with. */
  lemma HeaderReads(n: nat)
    ensures
      var line := Strip(HeaderLine(n) + "\r\n");
      && line != [] && IsLengthField(line)
      && Decimal(Strip(line[|PREFIX|..])) == Some(n)
  {
    DigitsAreInk(n);
    var header := HeaderLine(n);
    assert header[0] == 'C' && header[|header| - 1] == Digits(n)[|Digits(n)| - 1];
    StripInk(header, "\r\n");
    assert header[|PREFIX|..] == [' '] + Digits(n);
    assert ([' '] + Digits(n))[1..] == Digits(n);
    assert TrimLeft([' '] + Digits(n)) == Digits(n);
    DecimalOfDigits(n);
  }

  /** After the header line, the reader is at the blank line with the right length. */
  lemma AfterHeader(n: nat, rest: Bytes)
    ensures ReadMessage(HeaderLine(n) + "\r\n" + rest) == ReadFrom(rest, Some(n), true)
  {
    var stream := HeaderLine(n) + "\r\n" + rest;
    HeaderIsOneLine(n);
    LineEndAt(HeaderLine(n) + ['\r'], rest);
    assert stream == HeaderLine(n) + ['\r'] + ['\n'] + rest;
    var k := |HeaderLine(n)| + 2;
    assert stream[..k] == HeaderLine(n) + "\r\n" && stream[k..] == rest;
    HeaderReads(n);
  }

  lemma AfterBlank(length: Option<nat>, rest: Bytes)
    ensures ReadFrom("\r\n" + rest, length, true) == ReadBody(rest, length)
  {
    var stream := "\r\n" + rest;
    LineEndAt(['\r'], rest);
    assert stream == ['\r'] + ['\n'] + rest;
    assert stream[..2] == [] + "\r\n" && stream[2..] == rest;
    TrimRightDrops([], "\r\n");
    assert TrimLeft("\r\n") == [];
  }

  /** Reading back one frame gives its body and leaves exactly what followed. */
  lemma FrameRoundTrip(body: Bytes, rest: Bytes)
    ensures ReadMessage(Frame(body) + rest) == Message(body, rest)
  {
    var n := |body|;
    assert Frame(body) + rest == HeaderLine(n) + "\r\n" + ("\r\n" + (body + rest));
    AfterHeader(n, "\r\n" + (body + rest));
    AfterBlank(Some(n), body + rest);
    assert (body + rest)[..n] == body && (body + rest)[n..] == rest;
  }

  // ---- frames as other peers write them ----

  /** A header line: one line that starts and ends with ink. */
  predicate IsHeader(line: Bytes)
  {
    line != [] && OneLine(line) && !IsSpace(line[0]) && !IsSpace(line[|line| - 1])
  }

  function HeaderBytes(headers: seq<Bytes>): Bytes
  {
    if headers == [] then [] else headers[0] + "\r\n" + HeaderBytes(headers[1..])
  }

  lemma HeaderStep(line: Bytes, rest: Bytes, length: Option<nat>, sawHeader: bool)
    requires IsHeader(line)
    ensures ReadFrom(line + "\r\n" + rest, length, sawHeader) ==
      if !IsLengthField(line) then ReadFrom(rest, length, true)
      else
        var value := Decimal(Strip(line[|PREFIX|..]));
        if value.None? then Broken else ReadFrom(rest, value, true)
  {
    var stream, k := line + "\r\n" + rest, |line| + 2;
    forall c | c in line + ['\r'] ensures c != '\n' { assert c in line || c == '\r'; }
    LineEndAt(line + ['\r'], rest);
    assert stream == line + ['\r'] + ['\n'] + rest;
    assert stream[..k] == line + "\r\n" && stream[k..] == rest;
    StripInk(line, "\r\n");
  }

  /** Other fields are passed over. */
  lemma {:induction false} OthersSkipped(headers: seq<Bytes>, rest: Bytes, length: Option<nat>, sawHeader: bool)
    requires forall line :: line in headers ==> IsHeader(line) && !IsLengthField(line)
    ensures ReadFrom(HeaderBytes(headers) + rest, length, sawHeader)
         == ReadFrom(rest, length, sawHeader || headers != [])
  {
    if headers == [] {
      assert HeaderBytes(headers) + rest == rest;
    } else {
      var line, more := headers[0], HeaderBytes(headers[1..]) + rest;
      assert line in headers && forall other :: other in headers[1..] ==> other in headers;
      assert HeaderBytes(headers) + rest == line + "\r\n" + more;
      HeaderStep(line, more, length, sawHeader);
      OthersSkipped(headers[1..], rest, length, true);
    }
  }

  /** The field's name, in whatever case. */
  predicate SpellsLength(name: Bytes)
  {
    |name| == 14 && forall i :: 0 <= i < 14 ==> Lower(name[i]) == "content-length"[i]
  }

  function LengthLine(name: Bytes, gap: Bytes, n: nat): Bytes { name + ":" + gap + Digits(n) }

  lemma LengthIsHeader(name: Bytes, gap: Bytes, n: nat)
    requires SpellsLength(name) && forall c :: c in gap ==> c in {' ', '\t'}
    ensures IsHeader(LengthLine(name, gap, n))
  {
    var line := LengthLine(name, gap, n);
    DigitsAreInk(n);
    hide Digits;
    forall c | c in line ensures c != '\n' {
      if i :| 0 <= i < 14 && name[i] == c {
        assert Lower(name[i]) == "content-length"[i];
      } else {
        assert c in name || c == ':' || c in gap || c in Digits(n);
      }
    }
    assert line[0] == name[0] && Lower(name[0]) == "content-length"[0];
    assert line[|line| - 1] == Digits(n)[|Digits(n)| - 1];
  }

  lemma LengthIsField(name: Bytes, gap: Bytes, n: nat)
    requires SpellsLength(name)
    ensures IsLengthField(LengthLine(name, gap, n))
    ensures LengthLine(name, gap, n)[|PREFIX|..] == gap + Digits(n)
  {
    hide Digits;
    var line := LengthLine(name, gap, n);
    forall i | 0 <= i < |PREFIX| ensures Lower(line[i]) == PREFIX[i] {
      if i < 14 {
        assert line[i] == name[i] && Lower(name[i]) == "content-length"[i] && PREFIX[i] == "content-length"[i];
      } else {
        assert line[i] == ':';
      }
    }
    assert |name + ":"| == |PREFIX| && line == (name + ":") + (gap + Digits(n));
  }

  lemma LengthReads(name: Bytes, gap: Bytes, n: nat)
    requires SpellsLength(name) && forall c :: c in gap ==> c in {' ', '\t'}
    ensures
      var line := LengthLine(name, gap, n);
      IsHeader(line) && IsLengthField(line) && Decimal(Strip(line[|PREFIX|..])) == Some(n)
  {
    LengthIsHeader(name, gap, n);
    LengthIsField(name, gap, n);
    DigitsAreInk(n);
    DecimalOfDigits(n);
    TrimLeftDrops(gap, Digits(n));
    TrimRightDrops(Digits(n), []);
    assert Digits(n) + [] == Digits(n);
  }

  lemma {:induction false} TrimLeftDrops(blank: Bytes, core: Bytes)
    requires core != [] && !IsSpace(core[0])
    requires forall c :: c in blank ==> IsSpace(c)
    ensures TrimLeft(blank + core) == core
  {
    if blank == [] {
      assert blank + core == core;
    } else {
      assert (blank + core)[0] == blank[0] && (blank + core)[1..] == blank[1..] + core;
      TrimLeftDrops(blank[1..], core);
    }
  }

  /** The length field is told by its name and the colon, and by nothing else. */
  lemma LengthFieldExactly(line: Bytes)
    ensures IsLengthField(line) <==> |line| >= 15 && SpellsLength(line[..14]) && line[14] == ':'
  {
    assert PREFIX[..14] == "content-length" && PREFIX[14] == ':';
    assert forall i :: 0 <= i < 14 ==> PREFIX[i] == "content-length"[i];
    if IsLengthField(line) {
      forall i | 0 <= i < 14 ensures Lower(line[..14][i]) == "content-length"[i] { assert Lower(line[i]) == PREFIX[i]; }
      assert Lower(line[14]) == PREFIX[14];
    }
    if |line| >= 15 && SpellsLength(line[..14]) && line[14] == ':' {
      forall i | 0 <= i < |PREFIX| ensures Lower(line[i]) == PREFIX[i] {
        if i < 14 { assert Lower(line[..14][i]) == "content-length"[i]; }
      }
    }
  }

  /** A message is read whatever other fields its header has, before or after the length, and however the
      length field's name is spelled. */
  lemma AnyHeaderReads(
    before: seq<Bytes>, name: Bytes, gap: Bytes, after: seq<Bytes>, body: Bytes, rest: Bytes)
    requires forall line :: line in before + after ==> IsHeader(line) && !IsLengthField(line)
    requires SpellsLength(name) && forall c :: c in gap ==> c in {' ', '\t'}
    ensures
      var line := LengthLine(name, gap, |body|);
      var head := HeaderBytes(before) + (line + "\r\n") + HeaderBytes(after) + "\r\n";
      ReadMessage(head + body + rest) == Message(body, rest)
  {
    hide HeaderBytes, LengthLine, Digits, ReadFrom, IsHeader, IsLengthField, Decimal, Strip;
    var n, line := |body|, LengthLine(name, gap, |body|);
    var tail := "\r\n" + (body + rest);
    forall other | other in before ensures IsHeader(other) && !IsLengthField(other) { assert other in before + after; }
    forall other | other in after ensures IsHeader(other) && !IsLengthField(other) { assert other in before + after; }
    var head := HeaderBytes(before) + (line + "\r\n") + HeaderBytes(after) + "\r\n";
    assert head + body + rest == HeaderBytes(before) + (line + "\r\n" + (HeaderBytes(after) + tail));
    OthersSkipped(before, line + "\r\n" + (HeaderBytes(after) + tail), None, false);
    LengthReads(name, gap, n);
    HeaderStep(line, HeaderBytes(after) + tail, None, before != []);
    OthersSkipped(after, tail, Some(n), true);
    AfterBlank(Some(n), body + rest);
    assert (body + rest)[..n] == body && (body + rest)[n..] == rest;
  }

  /** The frame of a small body, byte by byte. */
  lemma FrameInBytes()
    ensures Frame("{}") == "Content-Length: 2\r\n\r\n{}"
  {
    assert Digits(2) == "2";
  }

  /** A header without a length field is an error. */
  lemma NoLengthIsBroken(headers: seq<Bytes>, rest: Bytes)
    requires headers != [] && forall line :: line in headers ==> IsHeader(line) && !IsLengthField(line)
    ensures ReadMessage(HeaderBytes(headers) + "\r\n" + rest) == Broken
  {
    assert HeaderBytes(headers) + "\r\n" + rest == HeaderBytes(headers) + ("\r\n" + rest);
    OthersSkipped(headers, "\r\n" + rest, None, false);
    AfterBlank(None, rest);
  }

  // ---- streams ----

  lemma ReceivedMore(body: Bytes, rest: Bytes)
    ensures Received(Frame(body) + rest) == ([body] + Received(rest).0, Received(rest).1)
  {
    FrameRoundTrip(body, rest);
  }

  lemma {:induction false} SentMore(bodies: seq<Bytes>, body: Bytes)
    ensures Sent(bodies + [body]) == Sent(bodies) + Frame(body)
  {
    if bodies == [] {
      assert [] + [body] == [body] && [body][1..] == [];
    } else {
      assert (bodies + [body])[0] == bodies[0] && (bodies + [body])[1..] == bodies[1..] + [body];
      SentMore(bodies[1..], body);
    }
  }

  /** Whatever was sent is received: the same bodies in the same order, then a clean end. */
  lemma {:induction false} StreamRoundTrip(bodies: seq<Bytes>)
    ensures Received(Sent(bodies)) == (bodies, true)
  {
    if bodies != [] {
      ReceivedMore(bodies[0], Sent(bodies[1..]));
      StreamRoundTrip(bodies[1..]);
      assert [bodies[0]] + bodies[1..] == bodies;
    }
  }

  /** A stream cut before the end of its first line. */
  lemma CutInHeader(n: nat, k: nat)
    requires 0 < k <= |HeaderLine(n)| + 1
    ensures ReadMessage((HeaderLine(n) + "\r\n")[..k]) == Broken
  {
    var cut := (HeaderLine(n) + "\r\n")[..k];
    HeaderIsOneLine(n);
    forall c | c in cut ensures c != '\n' { assert c in HeaderLine(n) + ['\r']; }
    LineEndAt(cut, []);
    assert cut[..|cut|] == cut && cut[|cut|..] == [];
    assert cut[0] == 'C' && TrimLeft(cut) == cut;
    InkRemains(cut);
    var line := Strip(cut);
    assert ReadMessage(cut) == if !IsLengthField(line) then ReadFrom([], None, true) else
      var value := Decimal(Strip(line[|PREFIX|..]));
      if value.None? then Broken else ReadFrom([], value, true);
  }

  /** A stream cut inside its only frame yields nothing but an error, never a wrong message. */
  lemma CutFrameIsBroken(body: Bytes, k: nat)
    requires body != [] && 0 < k < |Frame(body)|
    ensures ReadMessage(Frame(body)[..k]) == Broken
  {
    var n, h := |body|, |HeaderLine(|body|)|;
    var cut := Frame(body)[..k];
    if k <= h + 1 {
      CutInHeader(n, k);
      assert cut == (HeaderLine(n) + "\r\n")[..k];
    } else if k == h + 2 {
      assert cut == HeaderLine(n) + "\r\n" + [];
      AfterHeader(n, []);
    } else if k == h + 3 {
      assert cut == HeaderLine(n) + "\r\n" + ['\r'];
      AfterHeader(n, ['\r']);
      LineEndAt(['\r'], []);
    } else {
      var part := body[..k - h - 4];
      assert cut == HeaderLine(n) + "\r\n" + ("\r\n" + part);
      AfterHeader(n, "\r\n" + part);
      AfterBlank(Some(n), part);
    }
  }

  /** The number of whole frames in the first `k` bytes. */
  function WholeFrames(bodies: seq<Bytes>, k: nat): (m: nat)
    ensures m <= |bodies|
  {
    if bodies == [] || k < |Frame(bodies[0])| then 0 else 1 + WholeFrames(bodies[1..], k - |Frame(bodies[0])|)
  }

  lemma SentFirst(bodies: seq<Bytes>, m: nat)
    requires bodies != [] && m < |bodies|
    ensures bodies[..m + 1] == [bodies[0]] + bodies[1..][..m]
    ensures |Sent(bodies[..m + 1])| == |Frame(bodies[0])| + |Sent(bodies[1..][..m])|
  {
    assert bodies[..m + 1] == [bodies[0]] + bodies[1..][..m];
    assert bodies[..m + 1][1..] == bodies[1..][..m];
  }

  /** A stream that breaks off anywhere yields exactly the messages that were complete by then, and ends
      cleanly exactly when it broke off between two frames. */
  lemma {:induction false} CutStream(bodies: seq<Bytes>, k: nat)
    requires (forall b :: b in bodies ==> b != []) && k <= |Sent(bodies)|
    ensures
      var m := WholeFrames(bodies, k);
      Received(Sent(bodies)[..k]) == (bodies[..m], k == |Sent(bodies[..m])|)
  {
    if bodies == [] {
      assert bodies[..0] == bodies;
    } else {
      var first, rest := Frame(bodies[0]), bodies[1..];
      assert bodies[0] in bodies;
      if k < |first| {
        assert Sent(bodies)[..k] == first[..k];
        if k > 0 { CutFrameIsBroken(bodies[0], k); }
      } else {
        var cut := Sent(rest)[..k - |first|];
        assert Sent(bodies)[..k] == first + cut;
        ReceivedMore(bodies[0], cut);
        forall b | b in rest ensures b != [] { assert b in bodies; }
        CutStream(rest, k - |first|);
        SentFirst(bodies, WholeFrames(rest, k - |first|));
      }
    }
  }

  // ---- the reader as it runs ----

  class Connection {
    var input: Bytes
    var output: Bytes
    ghost var sent: seq<Bytes>

    /** What has been written is one frame for every body sent, in order. */
    ghost predicate Valid()
      reads this
    {
      output == Sent(sent)
    }

    constructor (input: Bytes)
      ensures Valid() && sent == [] && this.input == input
    {
      this.input, output, sent := input, [], [];
    }

    /** After every send, a peer that reads what was written so far gets exactly what was sent. */
    method Send(body: Bytes)
      requires Valid()
      modifies this`output, this`sent
      ensures Valid() && sent == old(sent) + [body]
      ensures old(output) <= output && Received(output) == (sent, true)
    {
      SentMore(sent, body);
      output := output + Frame(body);
      sent := sent + [body];
      StreamRoundTrip(sent);
    }

    method ReadLine() returns (line: Bytes)
      modifies this`input
      ensures line + input == old(input) && |line| == LineEnd(old(input))
    {
      var n := 0;
      while n < |input| && (n == 0 || input[n - 1] != '\n')
        invariant n <= |input|
        invariant LineEnd(input) == if n > 0 && input[n - 1] == '\n' then n else n + LineEnd(input[n..])
      {
        assert input[n..][1..] == input[n + 1..];
        n := n + 1;
      }
      line := input[..n];
      input := input[n..];
    }

    /** Reads one framed message, `None` at a clean end; `ok` is false where the reader raises. */
    method ReadFramed() returns (body: Option<Bytes>, ok: bool)
      modifies this`input
      ensures ok <==> !ReadMessage(old(input)).Broken?
      ensures ok ==> (body.None? <==> ReadMessage(old(input)).CleanEof?)
      ensures ok && body.Some? ==> ReadMessage(old(input)) == Message(body.value, input)
    {
      var length: Option<nat>, sawHeader := None, false;
      ghost var goal := ReadMessage(input);
      while true
        invariant ReadFrom(input, length, sawHeader) == goal
        decreases |input|
      {
        ghost var was := input;
        var raw := ReadLine();
        assert raw == was[..|raw|] && input == was[|raw|..];
        if raw == [] { return None, !sawHeader; }
        var line := Strip(raw);
        if line == [] { break; }
        sawHeader := true;
        if IsLengthField(line) {
          length := Decimal(Strip(line[|PREFIX|..]));
          if length.None? { return None, false; }
        }
      }
      if length.None? || length.value > |input| { return None, false; }
      body := Some(input[..length.value]);
      input := input[length.value..];
      return body, true;
    }
  }
}
