/**
 Length-prefixed framing between browser and agent: a 4-byte big-endian length, then the payload.
 Both ends cut the same format out of a byte stream that arrives in arbitrary pieces.
 */
module Framing {
  import opened Text
  import opened Machines

  type bytes = seq<byte>

  const TWO_32: nat := 0x1_0000_0000

  function LowByte(n: nat): byte {
    n % 0x100
  }

  /** `(n as u32).to_be_bytes()` and `DataView.setUint32`: both keep the low 32 bits. */
  function BigEndian(n: nat): (b: bytes)
    ensures |b| == 4
  {
    [LowByte(n / 0x100 / 0x100 / 0x100), LowByte(n / 0x100 / 0x100), LowByte(n / 0x100), LowByte(n)]
  }

  /** `u32::from_be_bytes` and `DataView.getUint32` */
  function FromBigEndian(b: bytes): (n: nat)
    requires |b| == 4
    ensures n < TWO_32
  {
    (((b[0] as int) * 0x100 + b[1] as int) * 0x100 + b[2] as int) * 0x100 + b[3] as int
  }

  /** The first byte written is the most significant. */
  lemma {:induction false} BytesAreBigEndian(n: nat)
    requires n < TWO_32
    ensures BigEndian(n)[0] == n / 16777216 && BigEndian(n)[1] == n / 65536 % 256
    ensures BigEndian(n)[2] == n / 256 % 256 && BigEndian(n)[3] == n % 256
  {}

  /** And the first byte read. */
  lemma {:induction false} ReadIsBigEndian(b: bytes)
    requires |b| == 4
    ensures FromBigEndian(b) == 16777216 * b[0] as int + 65536 * b[1] as int + 256 * b[2] as int + b[3] as int
  {}

  lemma {:induction false} BigEndianRoundTrip(n: nat)
    ensures FromBigEndian(BigEndian(n)) == n % TWO_32
  {
    var h := n / 0x100;
    var w := h / 0x100;
    var d := w / 0x100;
    var q := d / 0x100;
    assert n == TWO_32 * q + FromBigEndian(BigEndian(n));
    RemainderIs(n, q, FromBigEndian(BigEndian(n)));
  }

  lemma {:induction false} RemainderIs(n: nat, q: nat, r: nat)
    requires n == TWO_32 * q + r && r < TWO_32
    ensures n % TWO_32 == r
  {}

  lemma {:induction false} BigEndianOf(b: bytes)
    requires |b| == 4
    ensures BigEndian(FromBigEndian(b)) == b
  {
    var w: int := (b[0] as int) * 0x100 + b[1] as int;
    var h: int := w * 0x100 + b[2] as int;
    var n: int := h * 0x100 + b[3] as int;
    assert n == FromBigEndian(b);
    assert n / 0x100 == h && h / 0x100 == w && w / 0x100 == b[0];
  }

  function Frame(payload: bytes): bytes {
    BigEndian(|payload|) + payload
  }

  function FrameAll(payloads: seq<bytes>): bytes {
    if payloads == [] then [] else Frame(payloads[0]) + FrameAll(payloads[1..])
  }

  /** Where the first frame of the buffer ends, once its length is known. */
  function FrameEnd(buf: bytes): (end: nat)
    requires |buf| >= 4
    ensures end >= 4
  {
    4 + FromBigEndian(buf[..4])
  }

  predicate IsComplete(buf: bytes) {
    |buf| >= 4 && |buf| >= FrameEnd(buf)
  }

  /** The payloads a buffer holds whole, and the bytes that are left. */
  function Deframe(buf: bytes): (r: (seq<bytes>, bytes))
    ensures !IsComplete(r.1)
    decreases |buf|
  {
    if !IsComplete(buf) then ([], buf)
    else
      var rest := Deframe(buf[FrameEnd(buf)..]);
      ([buf[4..FrameEnd(buf)]] + rest.0, rest.1)
  }

  /** One read from the stream. */
  function Read(buf: bytes, chunk: bytes): (bytes, seq<bytes>) {
    var (payloads, rest) := Deframe(buf + chunk);
    (rest, payloads)
  }

  // ---------------------------------------------------------------- the two ends

  lemma {:induction false} DeframeAdvance(done: seq<bytes>, buf: bytes)
    requires IsComplete(buf)
    ensures var end := FrameEnd(buf);
            && done + Deframe(buf).0 == (done + [buf[4..end]]) + Deframe(buf[end..]).0
            && Deframe(buf).1 == Deframe(buf[end..]).1
  {
    var end := FrameEnd(buf);
    Associative(done, [buf[4..end]], Deframe(buf[end..]).0);
  }

  /** The agent's message loop. */
  class AgentStream {
    var streamBuf: bytes
    var handled: seq<bytes>  // payloads given to `handle_message`

    constructor ()
      ensures streamBuf == [] && handled == []
    {
      streamBuf, handled := [], [];
    }

    method OnRead(chunk: bytes)
      modifies this
      ensures streamBuf == Read(old(streamBuf), chunk).0
      ensures handled == old(handled) + Read(old(streamBuf), chunk).1
    {
      streamBuf := streamBuf + chunk;
      ghost var all := Deframe(streamBuf);
      while |streamBuf| >= 4
        invariant handled + Deframe(streamBuf).0 == old(handled) + all.0
        invariant Deframe(streamBuf).1 == all.1
        decreases |streamBuf|
      {
        var msgLen := FromBigEndian(streamBuf[..4]);
        if |streamBuf| < 4 + msgLen { break; }
        DeframeAdvance(handled, streamBuf);
        var msgData := streamBuf[4..4 + msgLen];
        streamBuf := streamBuf[4 + msgLen..];
        handled := handled + [msgData];
      }
      assert handled + [] == handled;
    }

    /** `send_raw`: the length, then the payload. */
    method SendRaw(encoded: bytes) returns (written: bytes)
      ensures written == Frame(encoded)
    {
      var len := BigEndian(|encoded|);
      written := len;
      written := written + encoded;
    }
  }

  /** The browser's read loop. */
  class ClientStream {
    var streamBuf: bytes
    var handled: seq<bytes>  // payloads given to the message handler

    constructor ()
      ensures streamBuf == [] && handled == []
    {
      streamBuf, handled := [], [];
    }

    method OnRead(value: bytes)
      requires !IsComplete(streamBuf)
      modifies this
      ensures streamBuf == Read(old(streamBuf), value).0
      ensures handled == old(handled) + Read(old(streamBuf), value).1
      ensures !IsComplete(streamBuf)
    {
      if |value| == 0 {
        assert streamBuf + value == streamBuf && handled + [] == handled;
        return;
      }
      streamBuf := streamBuf + value;
      ghost var all := Deframe(streamBuf);
      while |streamBuf| >= 4
        invariant handled + Deframe(streamBuf).0 == old(handled) + all.0
        invariant Deframe(streamBuf).1 == all.1
        decreases |streamBuf|
      {
        var len := FromBigEndian(streamBuf[..4]);
        if |streamBuf| < 4 + len { break; }
        DeframeAdvance(handled, streamBuf);
        var msgBytes := streamBuf[4..4 + len];
        streamBuf := streamBuf[4 + len..];
        handled := handled + [msgBytes];
      }
      assert handled + [] == handled;
    }

    /** `send`: fills one array with length and payload. */
    method Send(encoded: bytes) returns (frame: array<byte>)
      ensures fresh(frame) && frame[..] == Frame(encoded)
    {
      frame := new byte[4 + |encoded|];
      var len := BigEndian(|encoded|);
      frame[0], frame[1], frame[2], frame[3] := len[0], len[1], len[2], len[3];
      for i := 0 to |encoded|
        invariant frame[..4] == len
        invariant frame[4..4 + i] == encoded[..i]
      {
        frame[4 + i] := encoded[i];
        assert frame[4..4 + i + 1] == frame[4..4 + i] + [encoded[i]];
      }
      assert frame[4..] == frame[4..4 + |encoded|] == encoded;
      assert frame[..] == frame[..4] + frame[4..];
    }
  }

  // ---------------------------------------------------------------- chunking

  lemma {:induction false} DeframeAppended(a: bytes, b: bytes)
    ensures var first := Deframe(a);
            var second := Deframe(first.1 + b);
            Deframe(a + b) == (first.0 + second.0, second.1)
    decreases |a|
  {
    if IsComplete(a) {
      var end := FrameEnd(a);
      assert (a + b)[..4] == a[..4];
      assert (a + b)[4..end] == a[4..end] && (a + b)[end..] == a[end..] + b;
      DeframeAppended(a[end..], b);
      Associative([a[4..end]], Deframe(a[end..]).0, Deframe(Deframe(a).1 + b).0);
    } else {
      assert [] + Deframe(a + b).0 == Deframe(a + b).0;
    }
  }

  /** However the bytes are cut, the reads deliver what one read of all of them would. */
  lemma {:induction false} ReadsAreOneRead(buf: bytes, chunks: seq<bytes>)
    requires !IsComplete(buf)
    ensures Run(Read, buf, chunks) == (Deframe(buf + Concat(chunks)).1, Deframe(buf + Concat(chunks)).0)
    decreases |chunks|
  {
    if chunks == [] {
      assert buf + [] == buf;
    } else {
      var (rest, payloads) := Read(buf, chunks[0]);
      ReadsAreOneRead(rest, chunks[1..]);
      DeframeAppended(buf + chunks[0], Concat(chunks[1..]));
      Associative(buf, chunks[0], Concat(chunks[1..]));
    }
  }

  // ---------------------------------------------------------------- round trips

  predicate Short(payloads: seq<bytes>) {
    forall i :: 0 <= i < |payloads| ==> |payloads[i]| < TWO_32
  }

  lemma {:induction false} DeframeOne(payload: bytes, rest: bytes)
    requires |payload| < TWO_32
    ensures Deframe(Frame(payload) + rest) == ([payload] + Deframe(rest).0, Deframe(rest).1)
  {
    var buf := Frame(payload) + rest;
    FrameEndOf(payload, rest);
    FrameParts(payload, rest);
    DeframeCut(buf, payload, rest);
  }

  lemma {:induction false} DeframeCut(buf: bytes, payload: bytes, rest: bytes)
    requires 4 + |payload| <= |buf| && FrameEnd(buf) == 4 + |payload|
    requires buf[4..4 + |payload|] == payload && buf[4 + |payload|..] == rest
    ensures Deframe(buf) == ([payload] + Deframe(rest).0, Deframe(rest).1)
  {}

  lemma {:induction false} FrameParts(payload: bytes, rest: bytes)
    ensures var buf := Frame(payload) + rest;
            buf[4..4 + |payload|] == payload && buf[4 + |payload|..] == rest
  {}

  lemma {:induction false} FrameEndOf(payload: bytes, rest: bytes)
    ensures FrameEnd(Frame(payload) + rest) == 4 + |payload| % TWO_32
  {
    BigEndianRoundTrip(|payload|);
    assert (Frame(payload) + rest)[..4] == BigEndian(|payload|);
  }

  /** Whatever prefix of the sent frames has arrived, the payloads delivered so far are the first
      ones sent, whole and in order, and what is held back is a strict prefix of the next frame. */
  lemma {:induction false} PrefixOfFrames(payloads: seq<bytes>, arrived: bytes, later: bytes)
    requires Short(payloads) && arrived + later == FrameAll(payloads)
    ensures var (out, rest) := Deframe(arrived);
            && out <= payloads
            && (|out| < |payloads| ==> rest < Frame(payloads[|out|]))
            && (|out| == |payloads| ==> rest == [] && later == [])
  {
    if payloads != [] {
      var first := Frame(payloads[0]);
      if |arrived| >= |first| {
        var more := arrived[|first|..];
        assert FrameAll(payloads)[..|first|] == first;
        assert arrived == first + more;
        assert more + later == FrameAll(payloads[1..]) by {
          assert (arrived + later)[|first|..] == more + later;
          assert FrameAll(payloads)[|first|..] == FrameAll(payloads[1..]);
        }
        DeframeOne(payloads[0], more);
        PrefixOfFrames(payloads[1..], more, later);
      } else {
        assert arrived == FrameAll(payloads)[..|arrived|] == first[..|arrived|];
        NotYetComplete(payloads[0], arrived);
      }
    }
  }

  lemma {:induction false} NotYetComplete(payload: bytes, arrived: bytes)
    requires |payload| < TWO_32 && arrived < Frame(payload)
    ensures !IsComplete(arrived)
  {
    BigEndianRoundTrip(|payload|);
    if |arrived| >= 4 {
      assert arrived[..4] == Frame(payload)[..4] == BigEndian(|payload|);
    }
  }

  /** From a frame boundary, any cutting of the sent frames delivers exactly the sent payloads in
      order and ends at a frame boundary; both ends run this same read. */
  lemma {:induction false} FramesSurviveChunking(payloads: seq<bytes>, chunks: seq<bytes>)
    requires Short(payloads) && Concat(chunks) == FrameAll(payloads)
    ensures Run(Read, [], chunks) == ([], payloads)
  {
    assert Concat(chunks) + [] == Concat(chunks);
    NothingTornOrReordered(payloads, chunks, []);
    var (rest, out) := Run(Read, [], chunks);
    if |out| < |payloads| {
      ReadsAreOneRead([], chunks);
      assert [] + Concat(chunks) == FrameAll(payloads);
      Reassemble(FrameAll(payloads));
      StrictlyShort(payloads, out, rest);
      assert false;
    }
    assert out == payloads;
  }

  /** Midway, any cutting of an arrived prefix delivers a prefix of the payloads. */
  lemma {:induction false} NothingTornOrReordered(payloads: seq<bytes>, chunks: seq<bytes>, later: bytes)
    requires Short(payloads) && Concat(chunks) + later == FrameAll(payloads)
    ensures var (rest, out) := Run(Read, [], chunks);
            && out <= payloads
            && (|out| < |payloads| ==> rest < Frame(payloads[|out|]))
            && (|out| == |payloads| ==> rest == [] && later == [])
  {
    ReadsAreOneRead([], chunks);
    assert [] + Concat(chunks) == Concat(chunks);
    PrefixOfFrames(payloads, Concat(chunks), later);
  }

  lemma {:induction false} FrameAllAppend(a: seq<bytes>, b: seq<bytes>)
    ensures FrameAll(a + b) == FrameAll(a) + FrameAll(b)
  {
    if a == [] {
      assert a + b == b;
    } else {
      FrameAllAppend(a[1..], b);
      assert (a + b)[1..] == a[1..] + b;
      Associative(Frame(a[0]), FrameAll(a[1..]), FrameAll(b));
    }
  }

  lemma {:induction false} StrictlyShort(payloads: seq<bytes>, out: seq<bytes>, rest: bytes)
    requires out <= payloads && |out| < |payloads| && rest < Frame(payloads[|out|])
    ensures FrameAll(out) + rest != FrameAll(payloads)
  {
    var next := payloads[|out|];
    var more := payloads[|out|..];
    assert payloads == out + more && more[0] == next;
    FrameAllAppend(out, more);
    assert |FrameAll(more)| >= |Frame(next)|;
    assert |FrameAll(out) + rest| < |FrameAll(out)| + |FrameAll(more)|;
  }

  lemma {:induction false} ThreeParts(buf: bytes, end: nat)
    requires 4 <= end <= |buf|
    ensures buf == buf[..4] + buf[4..end] + buf[end..]
  {}

  /** Deframing loses nothing: any bytes at all are the frames of what was delivered, followed by
      what was held back. */
  lemma {:induction false} Reassemble(buf: bytes)
    ensures FrameAll(Deframe(buf).0) + Deframe(buf).1 == buf
    ensures Short(Deframe(buf).0)
    decreases |buf|
  {
    if IsComplete(buf) {
      var end := FrameEnd(buf);
      Reassemble(buf[end..]);
      BigEndianOf(buf[..4]);
      ThreeParts(buf, end);
      assert Frame(buf[4..end]) == buf[..4] + buf[4..end];
      Associative(Frame(buf[4..end]), FrameAll(Deframe(buf[end..]).0), Deframe(buf[end..]).1);
    } else {
      assert [] + buf == buf;
    }
  }

  /** However the sent frames are cut, exactly the sent payloads come out if and only if every length
      fits the prefix; a longer payload is torn. */
  lemma {:induction false} SurviveIffShort(payloads: seq<bytes>, chunks: seq<bytes>)
    requires Concat(chunks) == FrameAll(payloads)
    ensures Run(Read, [], chunks) == ([], payloads) <==> Short(payloads)
  {
    if Short(payloads) {
      FramesSurviveChunking(payloads, chunks);
    } else {
      ReadsAreOneRead([], chunks);
      assert [] + Concat(chunks) == Concat(chunks);
      Reassemble(FrameAll(payloads));
    }
  }
}
