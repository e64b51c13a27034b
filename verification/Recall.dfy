/** Recalling a source page by page within a fixed response size. */
module Recall {
  import opened Sequences

  const MAX_RECALL_BYTES := 16384
  const WIDEST_PAGE := 8192
  const WORD_LIMIT := 0x8000_0000_0000_0000

  /** The fact a source was recalled through. */
  datatype Evidence = Evidence(id: string, revision: nat, text: string, truncated: bool)

  /** Everything in a response but the page itself. */
  datatype Header = Header(fact: Option<Evidence>, sessionId: string, seqs: seq<nat>, digest: string, total: nat)

  predicate IsWord(n: nat) { n < WORD_LIMIT }

  /** A page limit as a caller may ask for it. */
  type Limit = n: nat | n >= 1 witness 1

  /** What the validation before the loop establishes. */
  predicate Bounded(h: Header)
  {
    && (h.fact.Some? ==>
          |h.fact.value.id| == 64 && IsPlain(h.fact.value.id)
          && h.fact.value.revision < WORD_LIMIT && |h.fact.value.text| <= 512)
    && |h.sessionId| <= 128 && IsPlain(h.sessionId)
    && |h.seqs| <= 200 && (forall n :: n in h.seqs ==> IsWord(n))
    && |h.digest| == 64 && IsPlain(h.digest)
    && h.total < WORD_LIMIT
  }

  // ---- the size of the encoding ----

  /** Bytes of one character in an ASCII-only JSON string. */
  function CharSize(c: char): nat
  {
    var code := c as int;
    if c == '"' || c == '\\' || 8 <= code <= 10 || 12 <= code <= 13 then 2
    else if 0x20 <= code <= 0x7e then 1
    else if code <= 0xffff then 6
    else 12
  }

  function TextSize(s: string): nat
  {
    if s == "" then 0 else TextSize(s[..|s| - 1]) + CharSize(s[|s| - 1])
  }

  function StringSize(s: string): nat { 2 + TextSize(s) }

  function NumberSize(n: nat): nat { if n < 10 then 1 else 1 + NumberSize(n / 10) }

  function ListSize(ns: seq<nat>): nat
  {
    if ns == [] then 0
    else (if |ns| == 1 then 0 else ListSize(ns[..|ns| - 1]) + 2) + NumberSize(ns[|ns| - 1])
  }

  function BoolSize(b: bool): nat { if b then 4 else 5 }

  function NextSize(next: Option<nat>): nat { if next.None? then 4 else NumberSize(next.value) }

  /** The keys and separators of a response, `"status": "valid"` included, and those a fact adds. */
  const RESPONSE_KEYS := 134
  const EVIDENCE_KEYS := 67

  function EvidenceSize(e: Evidence): nat
  {
    EVIDENCE_KEYS + StringSize(e.id) + NumberSize(e.revision) + StringSize(e.text) + BoolSize(e.truncated)
  }

  /** The bytes of the whole response. */
  function ResponseSize(h: Header, offset: nat, next: Option<nat>, page: string): nat
  {
    RESPONSE_KEYS
    + (if h.fact.Some? then EvidenceSize(h.fact.value) else 0)
    + NextSize(next) + StringSize(h.sessionId) + ListSize(h.seqs) + StringSize(h.digest)
    + NumberSize(offset) + NumberSize(h.total) + StringSize(page)
  }

  // ---- the text that has this size ----

  const HEX := "0123456789abcdef"

  /** The last `k` hexadecimal digits. */
  function Hex(n: nat, k: nat): (text: string)
    ensures |text| == k
  {
    if k == 0 then "" else Hex(n / 16, k - 1) + [HEX[n % 16]]
  }

  function Escape(code: nat): string { "\\u" + Hex(code, 4) }

  /** One character of a JSON string restricted to ASCII; one beyond the sixteen-bit range is written as two
      surrogates. */
  function Escaped(c: char): (text: string)
    ensures |text| == CharSize(c)
  {
    var code := c as int;
    if c == '"' then "\\\"" else if c == '\\' then "\\\\"
    else if code == 8 then "\\b" else if code == 9 then "\\t" else if code == 10 then "\\n"
    else if code == 12 then "\\f" else if code == 13 then "\\r"
    else if 0x20 <= code <= 0x7e then [c]
    else if code <= 0xffff then Escape(code)
    else Escape(0xd800 + (code - 0x10000) / 0x400) + Escape(0xdc00 + (code - 0x10000) % 0x400)
  }

  function Inside(s: string): (text: string)
    ensures |text| == TextSize(s)
  {
    if s == "" then "" else Inside(s[..|s| - 1]) + Escaped(s[|s| - 1])
  }

  function Quoted(s: string): string { "\"" + Inside(s) + "\"" }

  function Numeral(n: nat): (text: string)
    ensures |text| == NumberSize(n)
  {
    (if n < 10 then "" else Numeral(n / 10)) + [(n % 10 + '0' as int) as char]
  }

  /** Numbers separated by a comma and a blank. */
  function Listed(ns: seq<nat>): (text: string)
    ensures |text| == ListSize(ns)
  {
    if ns == [] then "" else
      (if |ns| == 1 then "" else Listed(ns[..|ns| - 1]) + ", ") + Numeral(ns[|ns| - 1])
  }

  function Truth(b: bool): string { if b then "true" else "false" }

  function FactPart(e: Evidence): string
  {
    ", \"fact_id\": " + Quoted(e.id) + ", \"revision\": " + Numeral(e.revision)
  }

  function FactTextPart(e: Evidence): string
  {
    ", \"fact_text\": " + Quoted(e.text) + ", \"fact_text_truncated\": " + Truth(e.truncated)
  }

  /** The response as it is written. */
  function ResponseText(h: Header, offset: nat, next: Option<nat>, page: string): string
  {
    "{\"next_offset\": " + (if next.Some? then Numeral(next.value) else "null")
    + (if h.fact.Some? then FactPart(h.fact.value) else "")
    + ", \"status\": \"valid\", \"session_id\": " + Quoted(h.sessionId)
    + (if h.fact.Some? then FactTextPart(h.fact.value) else "")
    + ", \"source\": {\"seqs\": [" + Listed(h.seqs) + "], \"digest\": " + Quoted(h.digest)
    + "}, \"offset\": " + Numeral(offset) + ", \"total_chars\": " + Numeral(h.total)
    + ", \"source_text\": " + Quoted(page) + "}"
  }

  /** The size the loop compares is the length of that text. */
  lemma ResponseSizeIsLength(h: Header, offset: nat, next: Option<nat>, page: string)
    ensures |ResponseText(h, offset, next, page)| == ResponseSize(h, offset, next, page)
  {
    hide Inside, Numeral, Listed;
  }

  predicate IsPlain(s: string) { forall c :: c in s ==> CharSize(c) == 1 }

  /** Encoded JSON is printable ASCII, so encoding it again costs at most two bytes a character. */
  predicate IsEncoded(s: string) { forall c :: c in s ==> 0x20 <= c as int <= 0x7e }

  lemma Distribute(a: nat, n: nat)
    ensures a * (n + 1) == a * n + a
  {
  }

  lemma {:induction false} TextSizeBound(s: string, most: nat)
    requires forall c :: c in s ==> CharSize(c) <= most
    ensures TextSize(s) <= most * |s|
  {
    if s != "" {
      var init := s[..|s| - 1];
      assert s[|s| - 1] in s;
      forall c | c in init ensures CharSize(c) <= most { assert c in s; }
      TextSizeBound(init, most);
      Distribute(most, |init|);
    }
  }

  function Pow10(k: nat): nat { if k == 0 then 1 else 10 * Pow10(k - 1) }

  lemma {:induction false} NumberSizeBound(n: nat, k: nat)
    requires k >= 1 && n < Pow10(k)
    ensures NumberSize(n) <= k
  {
    if n >= 10 {
      assert k >= 2 by { assert Pow10(1) == 10; }
      NumberSizeBound(n / 10, k - 1);
    }
  }

  lemma WordSize(n: nat)
    requires n < WORD_LIMIT
    ensures NumberSize(n) <= 19
  {
    assert Pow10(5) == 100_000;
    assert Pow10(10) == 10_000_000_000;
    assert Pow10(15) == 1_000_000_000_000_000;
    assert Pow10(19) == 10_000_000_000_000_000_000;
    NumberSizeBound(n, 19);
  }

  lemma {:induction false} ListSizeBound(ns: seq<nat>)
    requires forall n :: n in ns ==> IsWord(n)
    ensures ListSize(ns) <= 21 * |ns|
  {
    if ns != [] {
      assert ns[|ns| - 1] in ns;
      WordSize(ns[|ns| - 1]);
      forall n | n in ns[..|ns| - 1] ensures IsWord(n) { assert n in ns; }
      ListSizeBound(ns[..|ns| - 1]);
    }
  }

  lemma EvidenceBound(h: Header)
    requires Bounded(h) && h.fact.Some?
    ensures EvidenceSize(h.fact.value) <= 6400
  {
    var e := h.fact.value;
    TextSizeBound(e.id, 1);
    TextSizeBound(e.text, 12);
    WordSize(e.revision);
  }

  /** A response with an empty page or a one-character page always fits. */
  lemma SmallPageFits(h: Header, offset: nat, next: Option<nat>, page: string)
    requires Bounded(h) && offset < WORD_LIMIT && (next.Some? ==> next.value < WORD_LIMIT)
    requires |page| <= 1 && IsEncoded(page)
    ensures ResponseSize(h, offset, next, page) <= MAX_RECALL_BYTES
  {
    if h.fact.Some? { EvidenceBound(h); }
    TextSizeBound(h.sessionId, 1);
    TextSizeBound(h.digest, 1);
    TextSizeBound(page, 2);
    ListSizeBound(h.seqs);
    WordSize(offset);
    WordSize(h.total);
    if next.Some? { WordSize(next.value); }
  }

  // ---- one page ----

  function NextOffset(end: int, total: nat): Option<nat>
    requires end >= 0
  {
    if end < total then Some(end) else None
  }

  /** Python's `text[from:to]`: empty when the bounds cross. */
  function Slice(text: string, from: nat, to: int): string
    requires to <= |text|
  {
    if from < to then text[from..to] else ""
  }

  predicate Fits(h: Header, text: string, offset: nat, end: int)
    requires 0 <= end <= |text|
  {
    ResponseSize(h, offset, NextOffset(end, |text|), Slice(text, offset, end)) <= MAX_RECALL_BYTES
  }

  function FirstEnd(text: string, offset: nat, limit: nat): nat
  {
    var asked := offset + if limit < WIDEST_PAGE then limit else WIDEST_PAGE;
    if |text| < asked then |text| else asked
  }

  predicate Valid(h: Header, text: string, offset: nat)
  {
    Bounded(h) && h.total == |text| && IsEncoded(text) && offset < WORD_LIMIT
  }

  lemma ShortFits(h: Header, text: string, offset: nat, end: int)
    requires Valid(h, text, offset) && 0 <= end <= |text| && end <= offset + 1
    ensures Fits(h, text, offset, end)
  {
    var page := Slice(text, offset, end);
    forall c | c in page ensures 0x20 <= c as int <= 0x7e { assert c in text; }
    SmallPageFits(h, offset, NextOffset(end, |text|), page);
  }

  function Half(offset: nat, end: int): int { offset + (end - offset) / 2 }

  /** Where the page ends: the first of the halved ends whose response fits. */
  function PageEnd(h: Header, text: string, offset: nat, end: int): (e: int)
    requires Valid(h, text, offset) && 0 <= end <= |text|
    ensures 0 <= e <= end && Fits(h, text, offset, e)
    ensures offset < end ==> offset < e
    decreases end
  {
    if Fits(h, text, offset, end) then end
    else
      ShortFits(h, text, offset, if end <= offset + 1 then end else offset);
      PageEnd(h, text, offset, Half(offset, end))
  }

  /** A page that does not fit has at least two characters, and is halved. */
  lemma Halved(h: Header, text: string, offset: nat, end: int)
    requires Valid(h, text, offset) && 0 <= end <= |text| && !Fits(h, text, offset, end)
    ensures offset < Half(offset, end) < end
    ensures PageEnd(h, text, offset, end) == PageEnd(h, text, offset, Half(offset, end))
  {
    if end <= offset + 1 { ShortFits(h, text, offset, end); }
  }

  // ---- all pages ----

  function OnePage(h: Header, text: string, offset: nat, limit: Limit): (r: (string, Option<nat>))
    requires Valid(h, text, offset)
    ensures r.1.Some? ==> offset < r.1.value < |text| && r.0 == text[offset..r.1.value]
    ensures r.1.None? ==> r.0 == if offset < |text| then text[offset..] else ""
  {
    var end := PageEnd(h, text, offset, FirstEnd(text, offset, limit));
    ShortFits(h, text, offset, if offset < |text| then offset else |text|);
    (Slice(text, offset, end), NextOffset(end, |text|))
  }

  /** The characters a caller asks for and may get at once. */
  function Asked(text: string, offset: nat, limit: nat): nat
  {
    if |text| <= offset then 0
    else if limit <= WIDEST_PAGE && limit <= |text| - offset then limit
    else if WIDEST_PAGE <= |text| - offset then WIDEST_PAGE
    else |text| - offset
  }

  /** The response with the next `n` characters would be too large. */
  predicate TooLarge(h: Header, text: string, offset: nat, n: nat)
    requires offset + n <= |text|
  {
    var next := if offset + n == |text| then None else Some(offset + n);
    |ResponseText(h, offset, next, text[offset..offset + n])| > MAX_RECALL_BYTES
  }

  /** A page has all the characters asked for, or half as many as would be too large. */
  predicate Widest(h: Header, text: string, offset: nat, limit: nat, page: string)
  {
    var asked := Asked(text, offset, limit);
    |page| == asked ||
      exists n :: |page| < n <= asked && offset + n <= |text| && n / 2 == |page| && TooLarge(h, text, offset, n)
  }

  lemma {:induction false} EndIsWidest(h: Header, text: string, offset: nat, end: nat)
    requires Valid(h, text, offset) && offset < end <= |text|
    ensures
      var e := PageEnd(h, text, offset, end);
      e == end || exists n :: e - offset < n <= end - offset && n / 2 == e - offset && TooLarge(h, text, offset, n)
    decreases end
  {
    hide ResponseText, ResponseSize;
    if !Fits(h, text, offset, end) {
      Halved(h, text, offset, end);
      var next := if end == |text| then None else Some(end);
      ResponseSizeIsLength(h, offset, next, text[offset..end]);
      assert TooLarge(h, text, offset, end - offset);
      EndIsWidest(h, text, offset, Half(offset, end));
    }
  }

  lemma OnePageIsWidest(h: Header, text: string, offset: nat, limit: Limit)
    requires Valid(h, text, offset)
    ensures Widest(h, text, offset, limit, OnePage(h, text, offset, limit).0)
  {
    hide ResponseSize, ResponseText;
    var end := FirstEnd(text, offset, limit);
    if offset < |text| { EndIsWidest(h, text, offset, end); }
  }

  /** Builds one response: the page from `offset` and where the next one starts. The loop ends because a
      one-character page always fits. */
  method RecallPage(h: Header, text: string, offset: nat, limit: Limit) returns (page: string, next: Option<nat>)
    requires Valid(h, text, offset)
    ensures (page, next) == OnePage(h, text, offset, limit)
    ensures |ResponseText(h, offset, next, page)| <= MAX_RECALL_BYTES
    ensures next.Some? ==> offset < next.value <= offset + limit
    ensures Widest(h, text, offset, limit, page)
  {
    var end: int := FirstEnd(text, offset, limit);
    ghost var goal := PageEnd(h, text, offset, end);
    while true
      invariant 0 <= end <= |text| && end <= offset + limit
      invariant PageEnd(h, text, offset, end) == goal
      invariant offset < |text| ==> offset < end
      decreases end
    {
      page, next := Slice(text, offset, end), NextOffset(end, |text|);
      if ResponseSize(h, offset, next, page) <= MAX_RECALL_BYTES { break; }
      Halved(h, text, offset, end);
      end := offset + (end - offset) / 2;
    }
    OnePageIsWidest(h, text, offset, limit);
    ResponseSizeIsLength(h, offset, next, page);
  }

  /** Following `next_offset` with whatever limits the caller asks for. */
  function Pages(h: Header, text: string, offset: nat, limits: nat -> Limit): seq<string>
    requires Valid(h, text, offset)
    decreases |text| - offset
  {
    var (page, next) := OnePage(h, text, offset, limits(offset));
    if next.None? then [page] else [page] + Pages(h, text, next.value, limits)
  }

  function Joined(pages: seq<string>): string
  {
    if pages == [] then "" else pages[0] + Joined(pages[1..])
  }

  lemma JoinedMore(page: string, rest: seq<string>)
    ensures Joined([page] + rest) == page + Joined(rest)
  {
    assert ([page] + rest)[1..] == rest;
  }

  /** The pages from `offset` on are exactly the rest of the source. */
  lemma {:induction false} PagesAreTheRest(h: Header, text: string, offset: nat, limits: nat -> Limit)
    requires Valid(h, text, offset) && offset <= |text|
    ensures Joined(Pages(h, text, offset, limits)) == text[offset..]
    decreases |text| - offset
  {
    var (page, next) := OnePage(h, text, offset, limits(offset));
    if next.None? {
      JoinedMore(page, []);
      assert Pages(h, text, offset, limits) == [page] + [];
    } else {
      PagesAreTheRest(h, text, next.value, limits);
      JoinedMore(page, Pages(h, text, next.value, limits));
      SplitTail(text, offset, next.value);
    }
  }

  /** Paging from the start reads the whole source. */
  lemma PagesAreTheSource(h: Header, text: string, limits: nat -> Limit)
    requires Valid(h, text, 0)
    ensures Joined(Pages(h, text, 0, limits)) == text
  {
    PagesAreTheRest(h, text, 0, limits);
  }
}
