/** The record framing of the control stream: a four-byte size, then the payload (client.cpp).
    `Parse` is the one-shot meaning of a byte stream, which judges the incremental reader. */
module Framing {
  import opened Bytes

  const SIZE_BYTES := 4
  const UINT32_RANGE: nat := 0x1_0000_0000

  lemma SizeRange()
    ensures Pow256(SIZE_BYTES) == UINT32_RANGE
  {
    assert Pow256(1) == 256;
    assert Pow256(2) == 65536;
    assert Pow256(3) == 16777216;
  }

  /** The `(uint32_t)` cast. */
  function Cast32(n: nat): (r: nat)
    ensures r <= n && r < UINT32_RANGE
    ensures r == n <==> n < UINT32_RANGE
  {
    n % UINT32_RANGE
  }

  /** One announcement: `File.size()` is cast to 32 bits, and both QUIC buffers use the
      cast value, so a record of 2^32 bytes or more is cut short. */
  function FrameOne(m: Chunk): Chunk {
    var size := Cast32(|m|);
    Encode(size, SIZE_BYTES) + m[..size]
  }

  function Frame(ms: seq<Chunk>): Chunk {
    if ms == [] then [] else FrameOne(ms[0]) + Frame(ms[1..])
  }

  datatype Parsed = Parsed(messages: seq<Chunk>, rest: Chunk)

  /** No complete record starts at the head of `s`. */
  predicate Incomplete(s: Chunk) {
    |s| < SIZE_BYTES || |s| - SIZE_BYTES < Decode(s[..SIZE_BYTES])
  }

  function Parse(s: Chunk): (r: Parsed)
    ensures Incomplete(r.rest)
    ensures |r.rest| <= |s|
  {
    if Incomplete(s) then Parsed([], s)
    else
      var n := SIZE_BYTES + Decode(s[..SIZE_BYTES]);
      var tail := Parse(s[n..]);
      Parsed([s[SIZE_BYTES..n]] + tail.messages, tail.rest)
  }

  /** What a run of the reader must have produced after `a` and then `b`. */
  function Then(a: Parsed, b: Parsed): Parsed {
    Parsed(a.messages + b.messages, b.rest)
  }

  lemma ThenAssociative(a: Parsed, b: Parsed, c: Parsed)
    ensures Then(Then(a, b), c) == Then(a, Then(b, c))
  {
  }

  predicate AllFit(ms: seq<Chunk>) {
    forall m <- ms :: |m| < UINT32_RANGE
  }

  lemma SizeField(n: nat)
    requires n < UINT32_RANGE
    ensures Decode(Encode(n, SIZE_BYTES)) == n
  {
    SizeRange();
    DecodeEncode(n, SIZE_BYTES);
  }

  lemma FrameOfFitting(m: Chunk)
    requires |m| < UINT32_RANGE
    ensures FrameOne(m) == Encode(|m|, SIZE_BYTES) + m
  {
    assert m[..|m|] == m;
  }

  lemma HeaderOf(m: Chunk, tail: Chunk)
    requires |m| < UINT32_RANGE
    ensures FrameOne(m) == Encode(|m|, SIZE_BYTES) + m
    ensures FrameOne(m) + tail == Encode(|m|, SIZE_BYTES) + (m + tail)
    ensures Decode((FrameOne(m) + tail)[..SIZE_BYTES]) == |m|
  {
    SizeField(|m|);
    FrameOfFitting(m);
    Join(Encode(|m|, SIZE_BYTES), m, tail);
  }

  /** The one-shot parse inverts the framing, whatever incomplete record follows. */
  lemma {:induction false} ParseFrame(ms: seq<Chunk>, rest: Chunk)
    requires AllFit(ms) && Incomplete(rest)
    ensures Parse(Frame(ms) + rest) == Parsed(ms, rest)
  {
    if ms == [] {
      assert Frame(ms) + rest == rest;
    } else {
      var m := ms[0];
      var s := Frame(ms) + rest;
      var tail := Frame(ms[1..]) + rest;
      Join(FrameOne(m), Frame(ms[1..]), rest);
      HeaderOf(m, tail);
      Join(Encode(|m|, SIZE_BYTES), m, tail);
      ParseFrame(ms[1..], rest);
    }
  }

  lemma FrameCons(m: Chunk, ms: seq<Chunk>)
    ensures Frame([m] + ms) == FrameOne(m) + Frame(ms)
  {
    assert ([m] + ms)[1..] == ms;
  }

  /** Conversely no byte is invented or lost by the parse: it is injective. */
  lemma {:induction false} FrameParse(s: Chunk)
    ensures AllFit(Parse(s).messages)
    ensures Frame(Parse(s).messages) + Parse(s).rest == s
    decreases |s|
  {
    if !Incomplete(s) {
      var size := Decode(s[..SIZE_BYTES]);
      SizeRange();
      EncodeDecode(s[..SIZE_BYTES]);
      FrameParse(s[SIZE_BYTES + size..]);
      var m, tail := s[SIZE_BYTES..SIZE_BYTES + size], Parse(s[SIZE_BYTES + size..]);
      HeaderOf(m, []);
      Cut(s, SIZE_BYTES, SIZE_BYTES + size);
      FrameCons(m, tail.messages);
      Join(FrameOne(m), Frame(tail.messages), tail.rest);
    }
  }

  /** Parsing can stop anywhere and be resumed from the unread suffix. */
  lemma {:induction false} ParseAppend(a: Chunk, b: Chunk)
    ensures Parse(a + b) == Then(Parse(a), Parse(Parse(a).rest + b))
    decreases |a|
  {
    if !Incomplete(a) {
      var n := SIZE_BYTES + Decode(a[..SIZE_BYTES]);
      DropOfAppend(a, b, 0, SIZE_BYTES);
      DropOfAppend(a, b, SIZE_BYTES, n);
      assert !Incomplete(a + b);
      ParseAppend(a[n..], b);
      var head, tail := [a[SIZE_BYTES..n]], Parse(a[n..]);
      ThenAssociative(Parsed(head, []), tail, Parse(tail.rest + b));
    }
  }

  /** A record that needs more than 32 bits of length is not delivered as sent. */
  lemma {:induction false} RoundTripExactly(ms: seq<Chunk>)
    ensures Parse(Frame(ms)) == Parsed(ms, []) <==> AllFit(ms)
  {
    if AllFit(ms) {
      ParseFrame(ms, []);
      assert Frame(ms) + [] == Frame(ms);
    } else {
      FrameParse(Frame(ms));
    }
  }

  /** What of a record fits the 32-bit size. */
  function CutOne(m: Chunk): Chunk {
    m[..|m| % UINT32_RANGE]
  }

  function CutAll(ms: seq<Chunk>): (r: seq<Chunk>)
    ensures |r| == |ms|
  {
    if ms == [] then [] else [CutOne(ms[0])] + CutAll(ms[1..])
  }

  lemma {:induction false} FrameOfCut(ms: seq<Chunk>)
    ensures Frame(ms) == Frame(CutAll(ms)) && AllFit(CutAll(ms))
  {
    if ms != [] {
      FrameOfCut(ms[1..]);
      var m, rest := CutOne(ms[0]), CutAll(ms[1..]);
      assert ([m] + rest)[1..] == rest;
      assert m[..|m|] == m;
    }
  }

  /** Whatever their lengths, the records arrive as their first bytes, as many as the
      length is modulo 2^32, and the stream stays in step. */
  lemma ArrivesCut(ms: seq<Chunk>)
    ensures Parse(Frame(ms)) == Parsed(CutAll(ms), [])
  {
    FrameOfCut(ms);
    RoundTripExactly(CutAll(ms));
  }
}
