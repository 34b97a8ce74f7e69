/** A string body streamed in fixed-size chunks: what the chunks spell, and what
    bytes they send. */
module StreamWriter {
  import opened Sequences
  import opened Utf16

  const CHUNK_SIZE := 16384

  /** The stream as the writer sees it: the writes it made and what the stream
      answered to each, how often the writer waited for a drain, and the end. */
  class ResponseStream {
    var writes: seq<seq<CodeUnit>>
    var answers: seq<bool>
    var drains: nat
    var ended: bool

    constructor ()
      ensures writes == [] && answers == [] && drains == 0 && !ended
    {
      writes, answers, drains, ended := [], [], 0, false;
    }

    /** False asks the writer to wait for a drain. */
    method Write(chunk: seq<CodeUnit>) returns (ok: bool)
      requires !ended
      modifies this`writes, this`answers
      ensures writes == old(writes) + [chunk] && answers == old(answers) + [ok]
    {
      ok := *;
      writes, answers := writes + [chunk], answers + [ok];
    }
  }

  /** The bytes sent when each write is encoded by itself. */
  function BytesSent(writes: seq<seq<CodeUnit>>): seq<Byte> {
    if writes == [] then []
    else BytesSent(writes[..|writes| - 1]) + Utf8(writes[|writes| - 1])
  }

  /** `String.prototype.substring`. */
  function Substring(body: seq<CodeUnit>, from: nat, to: nat): seq<CodeUnit>
    requires from <= to
  {
    var end := if to > |body| then |body| else to;
    if from >= end then [] else body[from..end]
  }

  function Chunk(body: seq<CodeUnit>, i: nat): seq<CodeUnit> {
    Substring(body, i * CHUNK_SIZE, i * CHUNK_SIZE + CHUNK_SIZE)
  }

  /** Number of chunks: at least one, so an empty body still gets its write. */
  function ChunkCount(body: seq<CodeUnit>): nat {
    if body == [] then 1 else (|body| + CHUNK_SIZE - 1) / CHUNK_SIZE
  }

  /** Chunk boundaries among the first `n` that fall inside a surrogate pair. */
  function SplitPairs(body: seq<CodeUnit>, n: nat): nat {
    if n == 0 then 0
    else SplitPairs(body, n - 1) + if CutsPair(body, n * CHUNK_SIZE) then 1 else 0
  }

  /** The chunk loop. It waits after a refused write only with more to write. */
  method WriteString(stream: ResponseStream, body: seq<CodeUnit>)
    requires !stream.ended
    modifies stream
    ensures stream.ended
    ensures stream.writes == old(stream.writes) + Writes(body, ChunkCount(body))
    ensures |stream.answers| == |old(stream.answers)| + ChunkCount(body) && old(stream.answers) <= stream.answers
    ensures
      var answers := stream.answers[|old(stream.answers)|..];
      stream.drains == old(stream.drains) + Refusals(answers[..ChunkCount(body) - 1])
  {
    hide Refusals, Chunk, Writes;
    var position := 0;
    var length := |body|;
    ghost var n, answers: seq<bool> := 0, [];
    assert Refusals(answers) == 0 by { RefusalsSnoc(answers, true); }
    assert Writes(body, 0) == [] by { WritesSnoc(body, 0); }
    while true
      invariant 0 <= n < ChunkCount(body) && position == n * CHUNK_SIZE
      invariant n > 0 ==> position < length
      invariant !stream.ended && stream.answers == old(stream.answers) + answers && |answers| == n
      invariant stream.writes == old(stream.writes) + Writes(body, n)
      invariant stream.drains == old(stream.drains) + Refusals(answers)
      decreases ChunkCount(body) - n
    {
      var next := position + CHUNK_SIZE;
      assert Substring(body, position, next) == Chunk(body, n) by { ChunkIs(body, n); }
      var ok := stream.Write(Substring(body, position, next));
      position := next;
      WritesSnoc(body, n);
      RefusalsSnoc(answers, ok);
      n, answers := n + 1, answers + [ok];
      if !ok && position < length {
        stream.drains := stream.drains + 1;
      }
      if position >= length {
        break;
      }
    }
    assert stream.answers[|old(stream.answers)|..] == answers;
    stream.ended := true;
  }

  function Refusals(accepted: seq<bool>): nat {
    if accepted == [] then 0
    else Refusals(accepted[..|accepted| - 1]) + if accepted[|accepted| - 1] then 0 else 1
  }

  lemma RefusalsSnoc(accepted: seq<bool>, ok: bool)
    ensures Refusals(accepted + [ok]) == Refusals(accepted) + if ok then 0 else 1
    ensures (accepted + [ok])[..|accepted|] == accepted && Refusals([]) == 0
  {
  }

  lemma ChunkIs(body: seq<CodeUnit>, i: nat)
    ensures Chunk(body, i) == Substring(body, i * CHUNK_SIZE, i * CHUNK_SIZE + CHUNK_SIZE)
  {
  }

  lemma WritesSnoc(body: seq<CodeUnit>, n: nat)
    ensures Writes(body, 0) == [] && Writes(body, n + 1) == Writes(body, n) + [Chunk(body, n)]
  {
  }

  /** The writes a body gets: its chunks in order. */
  function Writes(body: seq<CodeUnit>, n: nat): (ws: seq<seq<CodeUnit>>)
    ensures |ws| == n && forall i :: 0 <= i < n ==> ws[i] == Chunk(body, i)
  {
    seq(n, i requires 0 <= i => Chunk(body, i))
  }

  function Prefix(body: seq<CodeUnit>, n: nat): (p: seq<CodeUnit>)
    ensures p <= body
  {
    if n * CHUNK_SIZE >= |body| then body else body[..n * CHUNK_SIZE]
  }

  lemma {:induction false} WritesSpell(body: seq<CodeUnit>, n: nat)
    ensures Flatten(Writes(body, n)) == Prefix(body, n)
  {
    hide Prefix, Chunk, CutsPair;
    if n == 0 {
      PrefixZero(body);
    } else {
      WritesSpell(body, n - 1);
      WritesSnoc(body, n - 1);
      FlattenSnoc(Writes(body, n - 1), Chunk(body, n - 1));
      PrefixStep(body, n - 1);
      hide Writes, Flatten;
    }
  }

  /** One more chunk extends the prefix, and cuts a pair where the boundary does. */
  lemma PrefixStep(body: seq<CodeUnit>, n: nat)
    ensures Prefix(body, n + 1) == Prefix(body, n) + Chunk(body, n)
    ensures CutsPair(Prefix(body, n + 1), |Prefix(body, n)|) <==> n > 0 && CutsPair(body, n * CHUNK_SIZE)
  {
    var a, b := Prefix(body, n), Chunk(body, n);
    assert a + b == Prefix(body, n + 1);
    if n * CHUNK_SIZE < |body| {
      assert |a| == n * CHUNK_SIZE;
    }
  }

  lemma {:induction false} WritesBytes(body: seq<CodeUnit>, n: nat)
    ensures |BytesSent(Writes(body, n))|
         == |Utf8(Prefix(body, n))| + if n == 0 then 0 else 2 * SplitPairs(body, n - 1)
    ensures (forall i :: 0 < i < n ==> !CutsPair(body, i * CHUNK_SIZE))
              ==> BytesSent(Writes(body, n)) == Utf8(Prefix(body, n))
  {
    hide Utf8;
    hide Prefix;
    hide Chunk;
    hide CutsPair;
    if n == 0 {
      Utf8Empty();
      assert Prefix(body, 0) == [] by { PrefixZero(body); }
    } else {
      WritesBytes(body, n - 1);
      assert Writes(body, n)[..n - 1] == Writes(body, n - 1);
      PrefixStep(body, n - 1);
      Utf8Cut(Prefix(body, n - 1), Chunk(body, n - 1));
    }
  }

  lemma PrefixZero(body: seq<CodeUnit>)
    ensures Prefix(body, 0) == []
  {
  }

  /** The chunks spell the body. All but the last are `CHUNK_SIZE` long, and none is empty
      or longer; an empty body is one empty chunk. */
  lemma {:induction false} ChunksSpellBody(body: seq<CodeUnit>)
    ensures Flatten(Writes(body, ChunkCount(body))) == body
    ensures forall i :: 0 <= i < ChunkCount(body) ==> |Chunk(body, i)| <= CHUNK_SIZE
    ensures forall i :: 0 <= i < ChunkCount(body) - 1 ==> |Chunk(body, i)| == CHUNK_SIZE
    ensures body == [] ==> ChunkCount(body) == 1
    ensures body != [] ==> ChunkCount(body) >= 1 && |Chunk(body, ChunkCount(body) - 1)| >= 1
  {
    WritesSpell(body, ChunkCount(body));
  }

  /** The bytes sent are the UTF-8 of the body exactly when no chunk boundary
      falls inside a surrogate pair; each one that does adds two bytes. */
  lemma {:induction false} BytesSentExactly(body: seq<CodeUnit>)
    ensures
      var sent := BytesSent(Writes(body, ChunkCount(body)));
      && |sent| == |Utf8(body)| + 2 * SplitPairs(body, ChunkCount(body) - 1)
      && (sent == Utf8(body) <==> forall i :: 0 < i < ChunkCount(body) ==> !CutsPair(body, i * CHUNK_SIZE))
  {
    hide Utf8;
    hide BytesSent;
    var n := ChunkCount(body);
    WritesBytes(body, n);
    SplitPairsZero(body, n - 1);
  }

  lemma {:induction false} SplitPairsZero(body: seq<CodeUnit>, n: nat)
    ensures SplitPairs(body, n) == 0 <==> forall i :: 0 < i <= n ==> !CutsPair(body, i * CHUNK_SIZE)
  {
    if n > 0 {
      SplitPairsZero(body, n - 1);
    }
  }

  /** A body for which the bytes differ: a pair straddling the first boundary. */
  lemma StraddlingPair()
    ensures
      var body := seq(CHUNK_SIZE - 1, _ => 0x61) + [0xD83D, 0xDE00];
      BytesSent(Writes(body, ChunkCount(body))) != Utf8(body)
  {
    var body: seq<CodeUnit> := seq(CHUNK_SIZE - 1, _ => 0x61) + [0xD83D, 0xDE00];
    hide Utf8;
    hide BytesSent;
    BytesSentExactly(body);
    assert CutsPair(body, 1 * CHUNK_SIZE);
  }
}
