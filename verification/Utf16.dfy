/** JavaScript strings as UTF-16 code units, the code points a `for...of` walks,
    and the UTF-8 bytes a write sends (RFC 3629, section 3). */
module Utf16 {

  type CodeUnit = u: int | 0 <= u < 0x1_0000

  type Byte = b: int | 0 <= b < 0x100

  predicate High(u: CodeUnit) { 0xD800 <= u < 0xDC00 }

  predicate Low(u: CodeUnit) { 0xDC00 <= u < 0xE000 }

  /** Code units taken by the first character: a surrogate pair is one character,
      a lone surrogate is one of its own. */
  function CharLength(s: seq<CodeUnit>): (n: nat)
    requires s != []
    ensures 1 <= n <= 2 && n <= |s|
  {
    if |s| >= 2 && High(s[0]) && Low(s[1]) then 2 else 1
  }

  /** A cut at `i` separates the halves of a surrogate pair. */
  predicate CutsPair(s: seq<CodeUnit>, i: nat) {
    0 < i < |s| && High(s[i - 1]) && Low(s[i])
  }

  /** The `n` continuation bytes that carry the low `6 * n` bits of `v`. */
  function Continuation(v: nat, n: nat): (bytes: seq<Byte>)
    ensures |bytes| == n
  {
    if n == 0 then [] else Continuation(v / 64, n - 1) + [0x80 + v % 64]
  }

  /** The scalar value of one character; a lone surrogate becomes U+FFFD. */
  function Scalar(c: seq<CodeUnit>): (v: nat)
    requires |c| == 1 || |c| == 2
    ensures v < 0x11_0000 && (|c| == 1 ==> v < 0x1_0000)
  {
    if |c| == 2 then
      var high: int, low: int := c[0] % 0x400, c[1] % 0x400;
      0x1_0000 + high * 0x400 + low
    else if High(c[0]) || Low(c[0]) then 0xFFFD
    else c[0]
  }

  /** UTF-8 of one character. */
  function CharUtf8(c: seq<CodeUnit>): (bytes: seq<Byte>)
    requires |c| == 1 || |c| == 2
    ensures |bytes| == if |c| == 2 then 4 else if Scalar(c) < 0x80 then 1 else if Scalar(c) < 0x800 then 2 else 3
  {
    var v := Scalar(c);
    if |c| == 2 then [0xF0 + v / 0x4_0000] + Continuation(v, 3)
    else if v < 0x80 then [v]
    else if v < 0x800 then [0xC0 + v / 64] + Continuation(v, 1)
    else [0xE0 + v / 0x1000] + Continuation(v, 2)
  }

  function Utf8(s: seq<CodeUnit>): seq<Byte> {
    if s == [] then [] else
      var n := CharLength(s);
      CharUtf8(s[..n]) + Utf8(s[n..])
  }

  /** Encoding two parts apart gives the bytes of the whole, unless the cut
      separates a surrogate pair: then each half is sent as U+FFFD, two bytes
      more than the pair. */
  lemma {:induction false} Utf8Cut(a: seq<CodeUnit>, b: seq<CodeUnit>)
    ensures !CutsPair(a + b, |a|) ==> Utf8(a) + Utf8(b) == Utf8(a + b)
    ensures CutsPair(a + b, |a|) ==> |Utf8(a) + Utf8(b)| == |Utf8(a + b)| + 2
    decreases |a|
  {
    hide CharUtf8;
    hide Utf8;
    hide CharLength;
    if a == [] {
      Utf8Empty();
      assert a + b == b;
    } else if |a| == 1 && b != [] && High(a[0]) && Low(b[0]) {
      CutPair(a[0], b);
      assert a == [a[0]];
    } else {
      FirstCharacterStays(a, b);
      var n := CharLength(a);
      Utf8Cut(a[n..], b);
      Utf8Step(a, n);
      Utf8Step(a + b, n);
      assert CharUtf8(a[..n]) + (Utf8(a[n..]) + Utf8(b)) == Utf8(a) + Utf8(b);
    }
  }

  /** Unless the cut separates its halves, the first character of `a` is also
      that of `a + b`, and the cut is the same one after it. */
  lemma FirstCharacterStays(a: seq<CodeUnit>, b: seq<CodeUnit>)
    requires a != []
    requires !(|a| == 1 && b != [] && High(a[0]) && Low(b[0]))
    ensures
      var n := CharLength(a);
      && n == CharLength(a + b)
      && (a + b)[..n] == a[..n]
      && (a + b)[n..] == a[n..] + b
      && (CutsPair(a + b, |a|) <==> CutsPair(a[n..] + b, |a[n..]|))
  {
    var n := CharLength(a);
    if a[n..] != [] {
      assert (a + b)[|a| - 1] == (a[n..] + b)[|a[n..]| - 1];
    }
  }

  // ---- What the bytes say ----

  /** The code points of a text: a pair is the one it stands for, half a pair U+FFFD. */
  function CodePoints(s: seq<CodeUnit>): seq<nat> {
    if s == [] then []
    else if |s| >= 2 && 0xD800 <= s[0] <= 0xDBFF && 0xDC00 <= s[1] <= 0xDFFF then
      [(s[0] as int - 0xD800) * 0x400 + (s[1] as int - 0xDC00) + 0x1_0000] + CodePoints(s[2..])
    else [if 0xD800 <= s[0] <= 0xDFFF then 0xFFFD else s[0]] + CodePoints(s[1..])
  }

  /** The value of a continuation byte. */
  function Tail(b: Byte): (v: int) {
    b - 0x80
  }

  predicate Tails(bytes: seq<Byte>) {
    forall i :: 0 <= i < |bytes| ==> 0x80 <= bytes[i] < 0xC0
  }

  /** A reader of UTF-8, by the first byte of each character. */
  function Decode(bytes: seq<Byte>): (points: seq<int>) {
    if bytes == [] then []
    else if bytes[0] < 0x80 then [bytes[0]] + Decode(bytes[1..])
    else if 0xC0 <= bytes[0] < 0xE0 && |bytes| >= 2 && Tails(bytes[1..2]) then
      [(bytes[0] - 0xC0) * 64 + Tail(bytes[1])] + Decode(bytes[2..])
    else if 0xE0 <= bytes[0] < 0xF0 && |bytes| >= 3 && Tails(bytes[1..3]) then
      [((bytes[0] - 0xE0) * 64 + Tail(bytes[1])) * 64 + Tail(bytes[2])] + Decode(bytes[3..])
    else if 0xF0 <= bytes[0] < 0xF8 && |bytes| >= 4 && Tails(bytes[1..4]) then
      [(((bytes[0] - 0xF0) * 64 + Tail(bytes[1])) * 64 + Tail(bytes[2])) * 64 + Tail(bytes[3])] + Decode(bytes[4..])
    else [-1] + Decode(bytes[1..])
  }

  lemma ContinuationIs(v: nat)
    ensures Continuation(v, 1) == [0x80 + v % 64]
    ensures Continuation(v, 2) == [0x80 + v / 64 % 64, 0x80 + v % 64]
    ensures Continuation(v, 3) == [0x80 + v / 64 / 64 % 64, 0x80 + v / 64 % 64, 0x80 + v % 64]
  {
    assert Continuation(v / 64 / 64 / 64, 0) == [];
    assert Continuation(v / 64 / 64, 1) == [0x80 + v / 64 / 64 % 64];
    assert Continuation(v / 64, 2) == [0x80 + v / 64 / 64 % 64, 0x80 + v / 64 % 64];
  }

  lemma CharBytes(c: seq<CodeUnit>)
    requires |c| == 1 || |c| == 2
    ensures
      var v, bytes := Scalar(c), CharUtf8(c);
      if |c| == 2 then bytes == [0xF0 + v / 0x4_0000, 0x80 + v / 0x1000 % 64, 0x80 + v / 64 % 64, 0x80 + v % 64]
      else if v < 0x80 then bytes == [v]
      else if v < 0x800 then bytes == [0xC0 + v / 64, 0x80 + v % 64]
      else bytes == [0xE0 + v / 0x1000, 0x80 + v / 64 % 64, 0x80 + v % 64]
  {
    ContinuationIs(Scalar(c));
    Digits64(Scalar(c));
    hide Scalar, Continuation;
  }

  lemma CharDecodes(c: seq<CodeUnit>, rest: seq<Byte>)
    requires |c| == 1 || |c| == 2
    ensures Decode(CharUtf8(c) + rest) == [Scalar(c)] + Decode(rest)
  {
    hide Scalar, CharUtf8, Decode;
    var v := Scalar(c);
    CharBytes(c);
    Digits64(v);
    if |c| == 2 {
      DecodeFour(0xF0 + v / 0x4_0000, 0x80 + v / 0x1000 % 64, 0x80 + v / 64 % 64, 0x80 + v % 64, rest);
    } else if v < 0x80 {
      DecodeOne(v, rest);
    } else if v < 0x800 {
      DecodeTwo(0xC0 + v / 64, 0x80 + v % 64, rest);
    } else {
      DecodeThree(0xE0 + v / 0x1000, 0x80 + v / 64 % 64, 0x80 + v % 64, rest);
    }
  }

  lemma Digits64(v: nat)
    ensures v / 64 * 64 + v % 64 == v
    ensures (v / 0x1000 * 64 + v / 64 % 64) * 64 + v % 64 == v
    ensures ((v / 0x4_0000 * 64 + v / 0x1000 % 64) * 64 + v / 64 % 64) * 64 + v % 64 == v
    ensures v / 64 / 64 == v / 0x1000
  {
    assert v / 64 / 64 == v / 0x1000 && v / 0x1000 / 64 == v / 0x4_0000;
  }

  lemma DecodeOne(a: Byte, rest: seq<Byte>)
    requires a < 0x80
    ensures Decode([a] + rest) == [a] + Decode(rest)
  {
    assert ([a] + rest)[1..] == rest;
  }

  lemma DecodeTwo(a: Byte, b: Byte, rest: seq<Byte>)
    requires 0xC0 <= a < 0xE0 && 0x80 <= b < 0xC0
    ensures Decode([a, b] + rest) == [(a - 0xC0) * 64 + Tail(b)] + Decode(rest)
  {
    assert ([a, b] + rest)[2..] == rest;
  }

  lemma DecodeThree(a: Byte, b: Byte, c: Byte, rest: seq<Byte>)
    requires 0xE0 <= a < 0xF0 && 0x80 <= b < 0xC0 && 0x80 <= c < 0xC0
    ensures Decode([a, b, c] + rest) == [((a - 0xE0) * 64 + Tail(b)) * 64 + Tail(c)] + Decode(rest)
  {
    assert ([a, b, c] + rest)[3..] == rest;
  }

  lemma DecodeFour(a: Byte, b: Byte, c: Byte, d: Byte, rest: seq<Byte>)
    requires 0xF0 <= a < 0xF8 && 0x80 <= b < 0xC0 && 0x80 <= c < 0xC0 && 0x80 <= d < 0xC0
    ensures Decode([a, b, c, d] + rest) ==
            [(((a - 0xF0) * 64 + Tail(b)) * 64 + Tail(c)) * 64 + Tail(d)] + Decode(rest)
  {
    assert ([a, b, c, d] + rest)[4..] == rest;
  }

  /** The bytes of a text are read back as its code points. */
  lemma {:induction false} Utf8ReadsBack(s: seq<CodeUnit>)
    ensures Decode(Utf8(s)) == CodePoints(s)
    decreases |s|
  {
    if s != [] {
      hide CharUtf8, Decode, Utf8, CodePoints, Scalar;
      var n := CharLength(s);
      Utf8ReadsBack(s[n..]);
      CharDecodes(s[..n], Utf8(s[n..]));
      Utf8Step(s, n);
      PointsStep(s, n);
    } else {
      hide CharUtf8, Scalar;
    }
  }

  lemma PointsStep(s: seq<CodeUnit>, n: nat)
    requires s != [] && n == CharLength(s)
    ensures CodePoints(s) == [Scalar(s[..n])] + CodePoints(s[n..])
  {
    ScalarIs(s[..n]);
    hide Scalar;
  }

  lemma ScalarIs(c: seq<CodeUnit>)
    requires |c| == 1 || (|c| == 2 && High(c[0]) && Low(c[1]))
    ensures |c| == 1 ==> Scalar(c) == if 0xD800 <= c[0] <= 0xDFFF then 0xFFFD else c[0]
    ensures |c| == 2 ==> Scalar(c) == (c[0] as int - 0xD800) * 0x400 + (c[1] as int - 0xDC00) + 0x1_0000
  {
  }

  lemma Utf8Empty()
    ensures Utf8([]) == []
  {
  }

  lemma Utf8Step(s: seq<CodeUnit>, n: nat)
    requires s != [] && n == CharLength(s)
    ensures Utf8(s) == CharUtf8(s[..n]) + Utf8(s[n..])
  {
  }

  lemma CutPair(high: CodeUnit, b: seq<CodeUnit>)
    requires b != [] && High(high) && Low(b[0])
    ensures |Utf8([high])| + |Utf8(b)| == |Utf8([high] + b)| + 2
  {
    assert ([high] + b)[2..] == b[1..];
    assert Utf8([high]) == CharUtf8([high][..1]) + Utf8([high][1..]);
    assert |CharUtf8([high][..1])| == 3;
    assert |CharUtf8(b[..1])| == 3;
  }
}
