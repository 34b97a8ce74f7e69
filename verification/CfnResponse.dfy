/** The body sent to CloudFormation: JSON capped at 4096 bytes by trimming the
    `Reason` text to whole characters. */
module CfnResponse {
  import opened Wrappers
  import opened Utf16

  const MAX_RESPONSE_BYTES := 4096

  /** " [truncated]" */
  const TRUNCATED_NOTE: seq<CodeUnit> :=
    [0x20, 0x5B, 0x74, 0x72, 0x75, 0x6E, 0x63, 0x61, 0x74, 0x65, 0x64, 0x5D]

  const QUOTE: CodeUnit := 0x22
  const BACKSLASH: CodeUnit := 0x5C

  function Hex(d: int): CodeUnit
    requires 0 <= d < 16
  {
    if d < 10 then 0x30 + d else 0x57 + d
  }

  /** What `JSON.stringify` writes for one character: short escapes, `\u` escapes
      for the other control characters and for lone surrogates. */
  function Escape(c: seq<CodeUnit>): (e: seq<CodeUnit>)
    requires |c| == 1 || |c| == 2
    ensures e != []
    ensures |c| == 1 ==> !Low(e[0]) && !High(e[|e| - 1])
    ensures |c| == 2 ==> e == c
  {
    if |c| == 2 then c
    else
      var u: int := c[0];
      if u == QUOTE || u == BACKSLASH then [BACKSLASH, u]
      else if u == 8 then [BACKSLASH, 0x62]
      else if u == 9 then [BACKSLASH, 0x74]
      else if u == 10 then [BACKSLASH, 0x6E]
      else if u == 12 then [BACKSLASH, 0x66]
      else if u == 13 then [BACKSLASH, 0x72]
      else if u < 0x20 || High(u) || Low(u) then
        [BACKSLASH, 0x75, Hex(u / 0x1000), Hex(u / 0x100 % 16), Hex(u / 16 % 16), Hex(u % 16)]
      else [u]
  }

  function Escaped(s: seq<CodeUnit>): seq<CodeUnit> {
    if s == [] then [] else
      var n := CharLength(s);
      Escape(s[..n]) + Escaped(s[n..])
  }

  function Quoted(s: seq<CodeUnit>): seq<CodeUnit> {
    [QUOTE] + Escaped(s) + [QUOTE]
  }

  function ByteLength(s: seq<CodeUnit>): nat {
    |Utf8(s)|
  }

  /** Bytes one character takes inside a JSON string. */
  function JsonBytes(c: seq<CodeUnit>): int {
    ByteLength(Quoted(c)) - 2
  }

  /** The response: `head` and `tail` are the serialised members before and after
      the text of a string `Reason`; without one they are the whole body. */
  class Response {
    const head: seq<CodeUnit>
    const tail: seq<CodeUnit>
    var reason: Option<seq<CodeUnit>>

    constructor (head: seq<CodeUnit>, reason: Option<seq<CodeUnit>>, tail: seq<CodeUnit>)
      ensures this.head == head && this.reason == reason && this.tail == tail
    {
      this.head, this.reason, this.tail := head, reason, tail;
    }

    function Stringify(): seq<CodeUnit>
      reads this
    {
      Json(head, reason, tail)
    }
  }

  function Json(head: seq<CodeUnit>, reason: Option<seq<CodeUnit>>, tail: seq<CodeUnit>): seq<CodeUnit> {
    if reason.None? then head + tail else head + Quoted(reason.value) + tail
  }

  /** `k` units of `reason` are kept: whole characters, and no longer run of whole
      characters would fit with the note. */
  ghost predicate LongestKept(head: seq<CodeUnit>, reason: seq<CodeUnit>, tail: seq<CodeUnit>, k: nat)
  {
    && k <= |reason| && !CutsPair(reason, k)
    && forall j :: k < j <= |reason| && !CutsPair(reason, j)
         ==> ByteLength(Json(head, Some(reason[..j] + TRUNCATED_NOTE), tail)) > MAX_RESPONSE_BYTES
  }

  // ---- What the escaped text says ----

  /** The value of a hexadecimal digit, as `JSON.stringify` writes them. */
  function HexValue(u: CodeUnit): Option<nat> {
    if 0x30 <= u <= 0x39 then Some(u - 0x30) else if 0x61 <= u <= 0x66 then Some(u - 0x61 + 10) else None
  }

  function HexUnit(s: seq<CodeUnit>): Option<CodeUnit>
    requires |s| == 4
  {
    match (HexValue(s[0]), HexValue(s[1]), HexValue(s[2]), HexValue(s[3]))
    case (Some(a), Some(b), Some(c), Some(d)) =>
      if a < 16 && b < 16 && c < 16 && d < 16 then Some(((a * 16 + b) * 16 + c) * 16 + d) else None
    case _ => None
  }

  /** A reader of the text between the quotes of a JSON string (section 7 of RFC 8259). */
  function Read(s: seq<CodeUnit>): Option<seq<CodeUnit>> {
    if s == [] then Some([])
    else if s[0] == BACKSLASH then
      if |s| >= 6 && s[1] == 0x75 then Then(HexUnit(s[2..6]), Read(s[6..]))
      else if |s| >= 2 then Then(ShortEscape(s[1]), Read(s[2..]))
      else None
    else if s[0] == QUOTE || s[0] < 0x20 then None
    else Then(Some(s[0]), Read(s[1..]))
  }

  function ShortEscape(u: CodeUnit): Option<CodeUnit> {
    match u
    case 0x22 => Some(0x22)
    case 0x5C => Some(0x5C)
    case 0x2F => Some(0x2F)
    case 0x62 => Some(8)
    case 0x66 => Some(12)
    case 0x6E => Some(10)
    case 0x72 => Some(13)
    case 0x74 => Some(9)
    case _ => None
  }

  function Then(u: Option<CodeUnit>, rest: Option<seq<CodeUnit>>): Option<seq<CodeUnit>> {
    if u.Some? && rest.Some? then Some([u.value] + rest.value) else None
  }

  lemma HexReads(d: nat)
    requires d < 16
    ensures HexValue(Hex(d)) == Some(d)
  {
  }

  lemma HexUnitReads(u: CodeUnit)
    ensures HexUnit([Hex(u / 0x1000), Hex(u / 0x100 % 16), Hex(u / 16 % 16), Hex(u % 16)]) == Some(u)
  {
    HexReads(u / 0x1000);
    HexReads(u / 0x100 % 16);
    HexReads(u / 16 % 16);
    HexReads(u % 16);
    hide Hex, HexValue;
    Digits(u);
  }

  lemma Digits(u: nat)
    ensures ((u / 0x1000 * 16 + u / 0x100 % 16) * 16 + u / 16 % 16) * 16 + u % 16 == u
  {
    assert u / 16 / 16 == u / 0x100 && u / 0x100 / 16 == u / 0x1000;
  }

  lemma ReadHex(hex: seq<CodeUnit>, rest: seq<CodeUnit>)
    requires |hex| == 4
    ensures Read([BACKSLASH, 0x75] + hex + rest) == Then(HexUnit(hex), Read(rest))
  {
    hide HexUnit;
    var s := [BACKSLASH, 0x75] + hex + rest;
    assert s[2..6] == hex && s[6..] == rest;
  }

  lemma ReadShort(u: CodeUnit, rest: seq<CodeUnit>)
    requires u != 0x75
    ensures Read([BACKSLASH, u] + rest) == Then(ShortEscape(u), Read(rest))
  {
    hide HexUnit, ShortEscape;
    assert ([BACKSLASH, u] + rest)[2..] == rest;
  }

  lemma ReadPlain(u: CodeUnit, rest: seq<CodeUnit>)
    requires u >= 0x20 && u != QUOTE && u != BACKSLASH
    ensures Read([u] + rest) == Then(Some(u), Read(rest))
  {
    hide HexUnit, ShortEscape;
    assert ([u] + rest)[1..] == rest;
  }

  lemma EscapeReads(c: seq<CodeUnit>, rest: seq<CodeUnit>)
    requires |c| == 1 || (|c| == 2 && High(c[0]) && Low(c[1]))
    ensures Read(Escape(c) + rest) == if Read(rest).Some? then Some(c + Read(rest).value) else None
  {
    hide Read, Hex, HexUnit;
    var u := c[0];
    if |c| == 2 {
      ReadPlain(c[1], rest);
      ReadPlain(u, [c[1]] + rest);
      assert c + rest == [u] + ([c[1]] + rest);
      assert Read(rest).Some? ==> [u] + ([c[1]] + Read(rest).value) == c + Read(rest).value;
    } else if u == QUOTE || u == BACKSLASH || u == 8 || u == 9 || u == 10 || u == 12 || u == 13 {
      ReadShort(Escape(c)[1], rest);
    } else if u < 0x20 || High(u) || Low(u) {
      var hex := [Hex(u / 0x1000), Hex(u / 0x100 % 16), Hex(u / 16 % 16), Hex(u % 16)];
      assert Escape(c) == [BACKSLASH, 0x75] + hex;
      ReadHex(hex, rest);
      HexUnitReads(u);
    } else {
      ReadPlain(u, rest);
    }
    hide Escape;
    assert |c| == 1 ==> c == [u];
  }

  /** The round trip: a reader gets the text back from what is written for it. */
  lemma {:induction false} EscapedReadsBack(s: seq<CodeUnit>)
    ensures Read(Escaped(s)) == Some(s)
    decreases |s|
  {
    if s != [] {
      var n := CharLength(s);
      EscapedReadsBack(s[n..]);
      EscapeReads(s[..n], Escaped(s[n..]));
      hide Escape, Read;
      assert s[..n] + s[n..] == s;
    }
  }

  /** How much is written for one unit: two for a quote, a backslash and the five controls
      with a letter of their own, six for the other controls and for half a pair, and
      itself for anything else. */
  lemma EscapeLength(u: CodeUnit)
    ensures
      var e := Escape([u]);
      if u == 0x22 || u == 0x5C || u == 8 || u == 9 || u == 10 || u == 12 || u == 13 then |e| == 2
      else if u < 0x20 || (0xD800 <= u <= 0xDFFF) then |e| == 6
      else e == [u]
  {
  }

  /** The body starts with what comes before the reason and ends with what comes after it,
      with nothing but the quoted text between. */
  lemma BodyAround(head: seq<CodeUnit>, reason: Option<seq<CodeUnit>>, tail: seq<CodeUnit>)
    ensures
      var body, n := Json(head, reason, tail), |head|;
      && n + |tail| <= |body| && body[..n] == head && body[|body| - |tail|..] == tail
      && body[n..|body| - |tail|] == if reason.Some? then Quoted(reason.value) else []
  {
    hide Quoted;
  }

  /** Bytes of the escaped text. */
  ghost function EscapedBytes(s: seq<CodeUnit>): nat {
    ByteLength(Escaped(s))
  }

  lemma {:induction false} EscapedEnds(s: seq<CodeUnit>)
    ensures s != [] ==> Escaped(s) != []
    ensures Escaped(s) != [] ==> !Low(Escaped(s)[0]) && !High(Escaped(s)[|Escaped(s)| - 1])
    decreases |s|
  {
    if s != [] {
      EscapedEnds(s[CharLength(s)..]);
    }
  }

  /** Escaping goes character by character, so it splits where characters do. */
  lemma {:induction false} EscapedCut(a: seq<CodeUnit>, b: seq<CodeUnit>)
    requires !CutsPair(a + b, |a|)
    ensures Escaped(a + b) == Escaped(a) + Escaped(b)
    decreases |a|
  {
    hide Escape;
    hide Escaped;
    hide CharLength;
    if a == [] {
      EscapedEmpty();
      assert a + b == b;
    } else {
      FirstCharacterStays(a, b);
      var n := CharLength(a);
      EscapedCut(a[n..], b);
      EscapedStep(a, n);
      EscapedStep(a + b, n);
    }
  }

  lemma EscapedEmpty()
    ensures Escaped([]) == []
  {
  }

  lemma EscapedStep(s: seq<CodeUnit>, n: nat)
    requires s != [] && n == CharLength(s)
    ensures Escaped(s) == Escape(s[..n]) + Escaped(s[n..])
  {
  }

  lemma EscapedBytesCut(a: seq<CodeUnit>, b: seq<CodeUnit>)
    requires !CutsPair(a + b, |a|)
    ensures EscapedBytes(a + b) == EscapedBytes(a) + EscapedBytes(b)
  {
    hide Utf8;
    hide Escaped;
    EscapedCut(a, b);
    EscapedEnds(a);
    EscapedEnds(b);
    Utf8Cut(Escaped(a), Escaped(b));
  }

  lemma QuoteBytes()
    ensures ByteLength([QUOTE]) == 1
  {
    assert Utf8([QUOTE]) == CharUtf8([QUOTE]) + Utf8([]) by {
      assert [QUOTE][..1] == [QUOTE] && [QUOTE][1..] == [];
    }
  }

  lemma QuotedBytes(s: seq<CodeUnit>)
    ensures ByteLength(Quoted(s)) == EscapedBytes(s) + 2
  {
    hide Utf8;
    hide Escaped;
    QuoteBytes();
    EscapedEnds(s);
    Utf8Cut([QUOTE], Escaped(s));
    Utf8Cut([QUOTE] + Escaped(s), [QUOTE]);
  }

  lemma JsonBody(head: seq<CodeUnit>, s: seq<CodeUnit>, tail: seq<CodeUnit>)
    ensures ByteLength(Json(head, Some(s), tail)) == ByteLength(head) + EscapedBytes(s) + 2 + ByteLength(tail)
  {
    hide Utf8;
    hide Escaped;
    QuotedBytes(s);
    Utf8Cut(head, Quoted(s));
    Utf8Cut(head + Quoted(s), tail);
  }

  /** Adding whole characters before the note adds exactly their bytes. */
  lemma NoteAfter(head: seq<CodeUnit>, a: seq<CodeUnit>, b: seq<CodeUnit>, tail: seq<CodeUnit>)
    requires !CutsPair(a + b, |a|)
    ensures ByteLength(Json(head, Some(a + b + TRUNCATED_NOTE), tail))
         == ByteLength(Json(head, Some(a + TRUNCATED_NOTE), tail)) + EscapedBytes(b)
  {
    hide Utf8;
    hide Escaped;
    hide EscapedBytes;
    JsonBody(head, a + b + TRUNCATED_NOTE, tail);
    JsonBody(head, a + TRUNCATED_NOTE, tail);
    EscapedBytesCut(a + b, TRUNCATED_NOTE);
    EscapedBytesCut(a, TRUNCATED_NOTE);
    EscapedBytesCut(a, b);
  }

  /** Once the next character does not fit, no longer run of characters does. */
  lemma NoLongerRun(head: seq<CodeUnit>, reason: seq<CodeUnit>, tail: seq<CodeUnit>, k: nat)
    requires k < |reason| && !CutsPair(reason, k)
    requires
      var c := reason[k..k + CharLength(reason[k..])];
      ByteLength(Json(head, Some(reason[..k] + TRUNCATED_NOTE), tail)) + JsonBytes(c) > MAX_RESPONSE_BYTES
    ensures LongestKept(head, reason, tail, k)
  {
    hide Utf8;
    hide Escaped;
    hide Json;
    var n := CharLength(reason[k..]);
    forall j | k < j <= |reason| && !CutsPair(reason, j)
      ensures ByteLength(Json(head, Some(reason[..j] + TRUNCATED_NOTE), tail)) > MAX_RESPONSE_BYTES
    {
      assert j >= k + n;
      var c, rest := reason[k..k + n], reason[k + n..j];
      assert reason[..j] == reason[..k] + (c + rest);
      NoteAfter(head, reason[..k], c + rest, tail);
      EscapedBytesCut(c, rest);
      QuotedBytes(c);
    }
  }

  /** The body for `response`, whose `Reason` is trimmed in place when the body
      would be too large. `kept` is how much of the reason stays. */
  method Serialize(response: Response) returns (body: Result<seq<CodeUnit>, string>, ghost kept: nat)
    modifies response`reason
    ensures body.Success? ==> body.value == response.Stringify() && ByteLength(body.value) <= MAX_RESPONSE_BYTES
    ensures
      if ByteLength(Json(response.head, old(response.reason), response.tail)) <= MAX_RESPONSE_BYTES then
        body.Success? && response.reason == old(response.reason)
      else if old(response.reason).None? then
        body.Failure? && response.reason == None
      else
        && LongestKept(response.head, old(response.reason).value, response.tail, kept)
        && response.reason == Some(old(response.reason).value[..kept] + TRUNCATED_NOTE)
        && (body.Success? <==>
              ByteLength(Json(response.head, Some(TRUNCATED_NOTE), response.tail)) <= MAX_RESPONSE_BYTES)
  {
    hide Json;
    hide ByteLength;
    hide Escaped;
    hide Quoted;
    var text := response.Stringify();
    kept := 0;
    if ByteLength(text) <= MAX_RESPONSE_BYTES {
      return Success(text), 0;
    }
    if response.reason.Some? {
      var reason := response.reason.value;
      response.reason := Some(TRUNCATED_NOTE);
      var budget: int := MAX_RESPONSE_BYTES - ByteLength(response.Stringify());
      var head, tail := response.head, response.tail;
      assert reason[..0] + TRUNCATED_NOTE == TRUNCATED_NOTE;
      var at := 0;
      while at < |reason|
        invariant 0 <= at <= |reason| && !CutsPair(reason, at)
        invariant budget == MAX_RESPONSE_BYTES
                          - ByteLength(Json(head, Some(reason[..at] + TRUNCATED_NOTE), tail))
        invariant at > 0 ==> budget >= 0
        invariant at > 0 ==> ByteLength(Json(head, Some(TRUNCATED_NOTE), tail)) <= MAX_RESPONSE_BYTES
      {
        var n := CharLength(reason[at..]);
        var character := reason[at..at + n];
        var bytes := JsonBytes(character);
        if bytes > budget {
          NoLongerRun(head, reason, tail, at);
          break;
        }
        CharFits(head, reason, tail, at);
        budget := budget - bytes;
        at := at + n;
      }
      kept := at;
      response.reason := Some(reason[..at] + TRUNCATED_NOTE);
      text := response.Stringify();
    }
    if ByteLength(text) > MAX_RESPONSE_BYTES {
      return Failure("response body exceeds 4096 bytes"), kept;
    }
    body := Success(text);
  }

  /** Keeping one more character costs its bytes, at least one. */
  lemma CharFits(head: seq<CodeUnit>, reason: seq<CodeUnit>, tail: seq<CodeUnit>, k: nat)
    requires k < |reason| && !CutsPair(reason, k)
    ensures
      var n := CharLength(reason[k..]);
      var c := reason[k..k + n];
      && !CutsPair(reason, k + n)
      && JsonBytes(c) >= 1
      && ByteLength(Json(head, Some(reason[..k + n] + TRUNCATED_NOTE), tail))
         == ByteLength(Json(head, Some(reason[..k] + TRUNCATED_NOTE), tail)) + JsonBytes(c)
  {
    hide Escaped;
    hide Json;
    var n := CharLength(reason[k..]);
    var c := reason[k..k + n];
    assert reason[..k + n] == reason[..k] + c;
    NoteAfter(head, reason[..k], c, tail);
    QuotedBytes(c);
    EscapedEnds(c);
  }
}
