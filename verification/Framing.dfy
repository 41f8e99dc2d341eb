/** Length-prefixed RPC frames: a four-byte big-endian signed length and that many bytes of body. */
module Framing {
  import opened Common

  type Bytes = seq<byte>

  const LENGTH_BYTES := 4

  const LIMIT := 0x8000_0000

  /** `writeInt`: two's complement, most significant byte first. */
  function WriteInt(n: int): (b: Bytes)
    requires -LIMIT <= n < LIMIT
    ensures |b| == LENGTH_BYTES
  {
    var u := if n < 0 then n + 2 * LIMIT else n;
    var u1 := u / 0x100;
    var u2 := u1 / 0x100;
    var u3 := u2 / 0x100;
    [u3 as byte, (u2 % 0x100) as byte, (u1 % 0x100) as byte, (u % 0x100) as byte]
  }

  function ReadInt(b: Bytes): (n: int)
    requires |b| >= LENGTH_BYTES
    ensures -LIMIT <= n < LIMIT
  {
    var u2 := (b[0] as int) * 0x100 + (b[1] as int);
    var u1 := u2 * 0x100 + (b[2] as int);
    var u := u1 * 0x100 + (b[3] as int);
    if u >= LIMIT then u - 2 * LIMIT else u
  }

  lemma IntRoundTrip(n: int)
    requires -LIMIT <= n < LIMIT
    ensures ReadInt(WriteInt(n)) == n
  {
    var u := if n < 0 then n + 2 * LIMIT else n;
    var u1 := u / 0x100;
    var u2 := u1 / 0x100;
    assert u2 == u2 / 0x100 * 0x100 + u2 % 0x100;
    assert u1 == u2 * 0x100 + u1 % 0x100;
    assert u == u1 * 0x100 + u % 0x100;
  }

  /** The number four bytes spell, the most significant one first. */
  function BigEndian(b: Bytes): int
    requires |b| >= LENGTH_BYTES
  {
    b[0] as int * 0x100_0000 + b[1] as int * 0x1_0000 + b[2] as int * 0x100 + b[3] as int
  }

  /** The bytes written for a number spell it, modulo 2^32. */
  lemma WrittenBytes(n: int)
    requires -LIMIT <= n < LIMIT
    ensures BigEndian(WriteInt(n)) == if n < 0 then n + 0x1_0000_0000 else n
  {
    IntRoundTrip(n);
  }

  /** A body as the encoder can write it. */
  predicate Fits(body: Bytes) { |body| < LIMIT }

  function Encode(body: Bytes): Bytes
    requires Fits(body)
  {
    WriteInt(|body|) + body
  }

  ghost predicate AllFit(bodies: seq<Bytes>) {
    forall i :: 0 <= i < |bodies| ==> Fits(bodies[i])
  }

  ghost function EncodeAll(bodies: seq<Bytes>): Bytes
    requires AllFit(bodies)
  {
    if bodies == [] then [] else Encode(bodies[0]) + EncodeAll(bodies[1..])
  }

  /** One call of the decoder on the readable bytes. A negative length ends in an exception. */
  datatype Outcome = NeedMore | Frame(body: Bytes, rest: Bytes) | Negative

  function Decode(readable: Bytes): Outcome {
    if |readable| < LENGTH_BYTES then NeedMore
    else
      var n := ReadInt(readable);
      if n < 0 then Negative
      else if |readable| - LENGTH_BYTES < n then NeedMore
      else Frame(readable[LENGTH_BYTES..LENGTH_BYTES + n], readable[LENGTH_BYTES + n..])
  }

  /** When the decoder waits, when it raises, and what it takes otherwise, from the bytes alone. */
  lemma DecodeCases(readable: Bytes)
    ensures Decode(readable).NeedMore? <==>
              |readable| < 4 || (readable[0] < 128 && |readable| < 4 + BigEndian(readable))
    ensures Decode(readable).Negative? <==> |readable| >= 4 && readable[0] >= 128
    ensures Decode(readable).Frame? ==>
              var f := Decode(readable);
              |f.body| == BigEndian(readable) && readable == readable[..4] + f.body + f.rest
  {
  }

  /** What was decoded, what is left in the buffer, and whether the channel is still sound. */
  datatype Stream = Stream(out: seq<Bytes>, rest: Bytes, ok: bool)

  /** The decoder is called again as long as it makes progress. */
  function Drain(readable: Bytes): Stream
    decreases |readable|
  {
    match Decode(readable)
    case NeedMore => Stream([], readable, true)
    case Negative => Stream([], readable, false)
    case Frame(body, rest) => var s := Drain(rest); s.(out := [body] + s.out)
  }

  /** A chunk arrives: it joins what was left over. */
  function Feed(s: Stream, chunk: Bytes): Stream {
    if !s.ok then s else var d := Drain(s.rest + chunk); d.(out := s.out + d.out)
  }

  function FeedAll(chunks: seq<Bytes>): Stream {
    if chunks == [] then Stream([], [], true) else Feed(FeedAll(chunks[..|chunks| - 1]), chunks[|chunks| - 1])
  }

  function Joined(chunks: seq<Bytes>): Bytes {
    if chunks == [] then [] else Joined(chunks[..|chunks| - 1]) + chunks[|chunks| - 1]
  }

  lemma DecodeMore(readable: Bytes, more: Bytes)
    requires !Decode(readable).NeedMore?
    ensures Decode(readable + more)
            == match Decode(readable) case Frame(b, r) => Frame(b, r + more) case o => o
  {
    var both := readable + more;
    var n := ReadInt(readable);
    assert ReadInt(both) == n;
    if n >= 0 {
      assert both[LENGTH_BYTES..LENGTH_BYTES + n] == readable[LENGTH_BYTES..LENGTH_BYTES + n];
      assert both[LENGTH_BYTES + n..] == readable[LENGTH_BYTES + n..] + more;
    }
  }

  lemma DrainStep(readable: Bytes)
    requires Decode(readable).Frame?
    ensures var f := Decode(readable); Drain(readable) == After(f.body, Drain(f.rest))
  {
  }

  /** One more message in front. */
  function After(body: Bytes, s: Stream): Stream { s.(out := [body] + s.out) }

  lemma FeedAfter(body: Bytes, s: Stream, chunk: Bytes)
    ensures Feed(After(body, s), chunk) == After(body, Feed(s, chunk))
  {
    if s.ok {
      var d := Drain(s.rest + chunk);
      assert ([body] + s.out) + d.out == [body] + (s.out + d.out);
    }
  }

  /** The same messages, the same verdict, and as long as the channel is sound the same bytes left over. */
  predicate Same(a: Stream, b: Stream) {
    a.out == b.out && a.ok == b.ok && (a.ok ==> a.rest == b.rest)
  }

  /** Draining early and draining again after more has come is draining once. */
  lemma {:induction false} DrainLater(readable: Bytes, more: Bytes)
    ensures Same(Feed(Drain(readable), more), Drain(readable + more))
    decreases |readable|
  {
    match Decode(readable)
    case NeedMore =>
    case Negative => DecodeMore(readable, more);
    case Frame(body, rest) =>
      DecodeMore(readable, more);
      DrainStep(readable);
      DrainStep(readable + more);
      DrainLater(rest, more);
      FeedAfter(body, Drain(rest), more);
  }

  /** Any fragmentation of the same bytes decodes to the same messages and leaves the same remainder. */
  lemma {:induction false} FragmentationIrrelevant(chunks: seq<Bytes>)
    ensures Same(FeedAll(chunks), Drain(Joined(chunks)))
  {
    if chunks != [] {
      var before := chunks[..|chunks| - 1];
      FragmentationIrrelevant(before);
      DrainLater(Joined(before), chunks[|chunks| - 1]);
    }
  }

  lemma DecodeEncoded(body: Bytes, tail: Bytes)
    requires Fits(body)
    ensures Decode(Encode(body) + tail) == Frame(body, tail)
  {
    var all := Encode(body) + tail;
    IntRoundTrip(|body|);
    assert all[..LENGTH_BYTES] == WriteInt(|body|);
    assert ReadInt(all) == ReadInt(all[..LENGTH_BYTES]);
    assert all[LENGTH_BYTES..LENGTH_BYTES + |body|] == body;
    assert all[LENGTH_BYTES + |body|..] == tail;
  }

  lemma IncompleteFrameWaits(body: Bytes, n: nat)
    requires Fits(body) && n < |Encode(body)|
    ensures Decode(Encode(body)[..n]) == NeedMore
  {
    var part := Encode(body)[..n];
    if n >= LENGTH_BYTES {
      IntRoundTrip(|body|);
      assert part[..LENGTH_BYTES] == WriteInt(|body|);
      assert ReadInt(part) == ReadInt(part[..LENGTH_BYTES]);
    }
  }

  lemma {:induction false} DrainEncoded(bodies: seq<Bytes>, tail: Bytes)
    requires AllFit(bodies) && Decode(tail) == NeedMore
    ensures Drain(EncodeAll(bodies) + tail) == Stream(bodies, tail, true)
  {
    if bodies == [] {
      assert EncodeAll(bodies) + tail == tail;
    } else {
      var rest := EncodeAll(bodies[1..]) + tail;
      assert EncodeAll(bodies) + tail == Encode(bodies[0]) + rest;
      DecodeEncoded(bodies[0], rest);
      DrainEncoded(bodies[1..], tail);
      assert [bodies[0]] + bodies[1..] == bodies;
    }
  }

  /**
   * Framing under any fragmentation: a stream of whole frames followed by the first `n` bytes of another,
   * chopped up in any way, yields exactly the whole frames' bodies in order, and keeps the rest untouched.
   */
  lemma AnyFragmentation(bodies: seq<Bytes>, next: Bytes, n: nat, chunks: seq<Bytes>)
    requires AllFit(bodies) && Fits(next) && n < |Encode(next)|
    requires Joined(chunks) == EncodeAll(bodies) + Encode(next)[..n]
    ensures FeedAll(chunks) == Stream(bodies, Encode(next)[..n], true)
  {
    IncompleteFrameWaits(next, n);
    DrainEncoded(bodies, Encode(next)[..n]);
    FragmentationIrrelevant(chunks);
  }

  lemma WriteReadInt(b: Bytes)
    requires |b| == LENGTH_BYTES
    ensures WriteInt(ReadInt(b)) == b
  {
    var u2 := (b[0] as int) * 0x100 + (b[1] as int);
    var u1 := u2 * 0x100 + (b[2] as int);
    var u := u1 * 0x100 + (b[3] as int);
    LowByte(u1, b[3]);
    LowByte(u2, b[2]);
    LowByte(b[0] as int, b[1]);
  }

  lemma LowByte(high: nat, low: byte)
    ensures (high * 0x100 + low as int) / 0x100 == high && (high * 0x100 + low as int) % 0x100 == low as int
  {
  }

  lemma DecodedFrame(readable: Bytes)
    requires Decode(readable).Frame?
    ensures var f := Decode(readable); Fits(f.body) && readable == Encode(f.body) + f.rest
  {
    var f := Decode(readable);
    var b := readable[..LENGTH_BYTES];
    assert ReadInt(b) == ReadInt(readable) == |f.body|;
    WriteReadInt(b);
    assert readable == b + f.body + f.rest;
  }

  lemma EncodeAllCons(body: Bytes, bodies: seq<Bytes>)
    requires Fits(body) && AllFit(bodies)
    ensures AllFit([body] + bodies) && EncodeAll([body] + bodies) == Encode(body) + EncodeAll(bodies)
  {
    assert ([body] + bodies)[1..] == bodies;
  }

  /** What is left can never be decoded further: too short, or a negative length. */
  predicate Stuck(s: Stream) {
    Decode(s.rest) == if s.ok then NeedMore else Negative
  }

  /** Conversely, nothing is invented: whatever was decoded, encoded again and put before the rest, is the input. */
  lemma {:induction false} NothingInvented(readable: Bytes)
    ensures var s := Drain(readable); AllFit(s.out) && EncodeAll(s.out) + s.rest == readable && Stuck(s)
    decreases |readable|
  {
    if Decode(readable).Frame? {
      var (body, rest) := (Decode(readable).body, Decode(readable).rest);
      DecodedFrame(readable);
      DrainStep(readable);
      NothingInvented(rest);
      EncodeAllCons(body, Drain(rest).out);
      Regroup(Encode(body), EncodeAll(Drain(rest).out), Drain(rest).rest);
    }
  }

  lemma Regroup(a: Bytes, b: Bytes, c: Bytes)
    ensures (a + b) + c == a + (b + c)
  {
  }

  /** What `readable` leads to when nothing else is in the buffer. */
  function FeedFresh(out: seq<Bytes>, readable: Bytes): Stream { Feed(Stream(out, [], true), readable) }

  lemma FreshIsJoined(out: seq<Bytes>, readable: Bytes, chunk: Bytes)
    ensures FeedFresh(out, readable + chunk) == Feed(Stream(out, readable, true), chunk)
  {
    assert [] + (readable + chunk) == readable + chunk;
  }

  lemma FeedOnce(out: seq<Bytes>, readable: Bytes)
    ensures FeedFresh(out, readable)
            == match Decode(readable)
               case NeedMore => Stream(out, readable, true)
               case Negative => Stream(out, readable, false)
               case Frame(body, rest) => FeedFresh(out + [body], rest)
  {
    assert [] + readable == readable;
    match Decode(readable)
    case Frame(body, rest) =>
      DrainStep(readable);
      assert [] + rest == rest;
      assert out + ([body] + Drain(rest).out) == (out + [body]) + Drain(rest).out;
    case _ =>
      assert out + [] == out;
  }

  /** The writing side of the connection. */
  class FrameWriter {
    var out: Bytes

    /** `body` is what the serializer produced for a message; a Java array is never too long. */
    method WriteFrame(body: Bytes)
      requires Fits(body)
      modifies this
      ensures out == old(out) + Encode(body)
    {
      out := out + WriteInt(|body|);
      out := out + body;
      assert out == old(out) + Encode(body);
    }
  }

  /** The decoder over a buffer with a reader index. */
  class MessageDecoder {
    var data: Bytes
    var readerIndex: nat
    var out: seq<Bytes>

    ghost predicate Valid()
      reads this
    {
      readerIndex <= |data|
    }

    ghost function Readable(): Bytes
      reads this
      requires Valid()
    {
      data[readerIndex..]
    }

    constructor ()
      ensures Valid() && Readable() == [] && out == []
    {
      data, readerIndex, out := [], 0, [];
    }

    /** `ok` is false when an exception leaves the call. */
    method DecodeOnce() returns (ok: bool)
      requires Valid()
      modifies this
      ensures Valid() && data == old(data)
      ensures match Decode(old(Readable()))
              case NeedMore => ok && Readable() == old(Readable()) && out == old(out)
              case Negative => !ok && Readable() == old(Readable())[LENGTH_BYTES..] && out == old(out)
              case Frame(body, rest) => ok && Readable() == rest && out == old(out) + [body]
    {
      if |data| - readerIndex < LENGTH_BYTES { return true; }
      var marked := readerIndex;
      var length := ReadInt(data[readerIndex..]);
      readerIndex := readerIndex + LENGTH_BYTES;
      if length < 0 { return false; }
      if |data| - readerIndex < length {
        readerIndex := marked;
        return true;
      }
      var body := data[readerIndex..readerIndex + length];
      assert body == data[marked..][LENGTH_BYTES..LENGTH_BYTES + length];
      readerIndex := readerIndex + length;
      assert data[readerIndex..] == data[marked..][LENGTH_BYTES + length..];
      out := out + [body];
      ok := true;
    }

    /** A chunk is appended and the decoder called until it makes no progress. */
    method ChannelRead(chunk: Bytes) returns (ok: bool)
      requires Valid()
      modifies this
      ensures Valid()
      ensures Same(Stream(out, Readable(), ok), Feed(Stream(old(out), old(Readable()), true), chunk))
    {
      data, readerIndex := data[readerIndex..] + chunk, 0;
      assert data[0..] == old(Readable()) + chunk;
      ghost var all := FeedFresh(out, Readable());
      FreshIsJoined(out, old(Readable()), chunk);
      while true
        invariant Valid() && FeedFresh(out, Readable()) == all
        decreases |data| - readerIndex
      {
        var before := readerIndex;
        ghost var (soFar, readable) := (out, Readable());
        ok := DecodeOnce();
        FeedOnce(soFar, readable);
        if !ok || readerIndex == before { return; }
      }
    }
  }
}
