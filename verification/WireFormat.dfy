/** The byte layouts, numbers and limits of the wire, spelled out: what the definitions of the
    codec come to for the packets of the protocol. */
module WireFormat {
  import opened Basics
  import opened VarInt
  import opened Protocol
  import opened Framing
  import opened Config
  import opened Reader

  // ---- VarInts ----

  /** The encodings at the width boundaries, and 300. */
  lemma {:induction false} KnownVarInts()
    ensures Encode(0) == [0] && Encode(1) == [1] && Encode(127) == [0x7F]
    ensures Encode(128) == [0x80, 0x01] && Encode(255) == [0xFF, 0x01] && Encode(300) == [0xAC, 0x02]
    ensures Encode(0x3FFF) == [0xFF, 0x7F] && Encode(0x4000) == [0x80, 0x80, 0x01]
    ensures Encode(0xFFFF_FFFF) == [0xFF, 0xFF, 0xFF, 0xFF, 0x0F]
  {
    KnownShort();
    KnownLong();
  }

  lemma {:induction false} KnownShort()
    ensures Encode(0) == [0] && Encode(1) == [1] && Encode(127) == [0x7F]
    ensures Encode(128) == [0x80, 0x01] && Encode(255) == [0xFF, 0x01] && Encode(300) == [0xAC, 0x02]
    ensures Encode(0x3FFF) == [0xFF, 0x7F]
  {
    assert Encode(1) == [1] && Encode(2) == [2] && Encode(127) == [0x7F];
  }

  lemma {:induction false} KnownLong()
    ensures Encode(0x4000) == [0x80, 0x80, 0x01]
    ensures Encode(0xFFFF_FFFF) == [0xFF, 0xFF, 0xFF, 0xFF, 0x0F]
  {
    assert Encode(1) == [0x01] && Encode(128) == [0x80] + Encode(1) && Encode(0x4000) == [0x80] + Encode(128);
    assert Encode(0xF) == [0x0F];
    assert Encode(0x7FF) == [0xFF] + Encode(0xF);
    assert Encode(0x3_FFFF) == [0xFF] + Encode(0x7FF);
    assert Encode(0x1FF_FFFF) == [0xFF] + Encode(0x3_FFFF);
    assert Encode(0xFFFF_FFFF) == [0xFF] + Encode(0x1FF_FFFF);
  }

  /** The fifth byte carries four bits, and there is no sixth. */
  lemma {:induction false} FifthByteDecides(a: byte, b: byte, c: byte, d: byte, e: byte, rest: Bytes)
    requires a >= 128 && b >= 128 && c >= 128 && d >= 128
    ensures Decode([a, b, c, d, e] + rest).Some? <==> e < 16
  {
    var s := [a, b, c, d, e] + rest;
    assert s[0] == a && s[1] == b && s[2] == c && s[3] == d && s[4] == e;
    if e >= 16 {
      FifthByte(s);
    } else {
      assert Continuations(s) == 4;
      assert s[..5] == [a, b, c, d] + [e];
      SumAppend([a, b, c, d], e);
      SumBound([a, b, c, d]);
      GroupPowers();
      GroupFits(e, Sum([a, b, c, d]), 4);
    }
  }

  // ---- handshakes ----

  /** The serialized fields in wire order: packet id 0, protocol, address behind its length,
      the port with its high byte first, and the next state. */
  lemma {:induction false} WireLayout(h: Handshake)
    requires Valid(h)
    ensures Payload(h) == [0] + Encode(h.protocol) + Encode(|h.address|) + h.address
                          + [h.port / 256, h.port % 256] + [h.nextState]
    ensures h.port == 256 * (h.port / 256) + h.port % 256
  {
    PayloadInOrder(h);
    assert Encode(0) == [0] && Encode(h.nextState) == [h.nextState];
  }

  /** Every host name of 1 to 255 bytes without NUL is serialized, to either state, and is
      read back with the rest. */
  lemma {:induction false} HostsServed(protocol: uint32, a: Bytes, port: uint16, state: uint32)
    requires 1 <= |a| <= 255 && 0 !in a && (state == 1 || state == 2)
    ensures var h := Handshake(protocol, a, port, state); Valid(h) && Parse(Payload(h)) == Some(h)
  {
    HandshakeRoundTrip(Handshake(protocol, a, port, state));
  }

  /** No other is serialized. */
  lemma {:induction false} HostsNotSerialized(h: Handshake)
    requires |h.address| == 0 || |h.address| > 255 || 0 in h.address
    ensures !Valid(h)
  {
  }

  /** No other is parsed, however its length is spelled and whatever follows it. */
  lemma {:induction false} HostsNotParsed(id: Bytes, protocol: Bytes, length: Bytes, a: Bytes, rest: Bytes)
    requires IsVarInt(id) && IsVarInt(protocol) && IsVarInt(length) && Sum(length) == |a|
    requires |a| == 0 || |a| > 255 || 0 in a
    ensures Parse(id + (protocol + (length + (a + rest)))) == None
  {
    var p3 := a + rest;
    var p2 := length + p3;
    var p1 := protocol + p2;
    var p := id + p1;
    CutAccepts(p, id, p1);
    CutAccepts(p1, protocol, p2);
    CutAccepts(p2, length, p3);
    assert p3[..|a|] == a;
    hide Cut, IsVarInt, Sum;
    assert SplitTail(p3, |a|) == None;
  }

  /** A packet that was cut off, or has bytes behind it, is not accepted. */
  lemma {:induction false} TruncatedRejected(p: Bytes, q: Bytes)
    requires Parse(p).Some? && Parse(q).Some? && p <= q
    ensures p == q
  {
    hide Parse, Split, Join, WellFormed;
    ParsedIsJoined(p);
    ParsedIsJoined(q);
    assert p + q[|p|..] == q;
    SameCut(Split(p).value, Split(q).value, q[|p|..]);
  }

  lemma {:induction false} ParsedIsJoined(p: Bytes)
    requires Parse(p).Some?
    ensures Split(p).Some? && WellFormed(Split(p).value) && Join(Split(p).value) == p
  {
    hide Join, WellFormed;
    SplitSound(p);
  }

  lemma {:induction false} SameCut(k: Packet, l: Packet, tail: Bytes)
    requires WellFormed(k) && WellFormed(l) && Join(k) + tail == Join(l)
    ensures tail == []
  {
    hide IsVarInt, Sum, Decode;
    var k5 := k.state + tail;
    var k4 := k.port + k5;
    var k3 := k.address + k4;
    var k2 := k.length + k3;
    var k1 := k.protocol + k2;
    assert Join(k) + tail == k.id + k1;
    var l4 := l.port + l.state;
    var l3 := l.address + l4;
    var l2 := l.length + l3;
    var l1 := l.protocol + l2;
    assert Join(l) == l.id + l1;
    PrefixFree(k.id, l.id, k1, l1);
    PrefixFree(k.protocol, l.protocol, k2, l2);
    PrefixFree(k.length, l.length, k3, l3);
    assert k4 == k3[|k.address|..] && l4 == l3[|l.address|..];
    assert k5 == k4[2..] && l.state == l4[2..];
    PrefixFree(k.state, l.state, tail, []);
  }

  // ---- the limits are reached ----

  /** A four-byte-padded spelling of a small value. */
  function Padded(value: byte): Bytes
    requires value < 128
  {
    [value + 128, 0x80, 0x80, 0x80, 0]
  }

  lemma {:induction false} PaddedIs(value: byte)
    requires value < 128
    ensures IsVarInt(Padded(value)) && Sum(Padded(value)) == value
  {
    var p := Padded(value);
    assert p[0] >= 128 && p[1] >= 128 && p[2] >= 128 && p[3] >= 128 && p[4] < 128;
    SumFive(value + 128, 0x80, 0x80, 0x80, 0);
    hide Sum;
  }

  lemma {:induction false} SumFive(a: byte, b: byte, c: byte, d: byte, e: byte)
    ensures Sum([a, b, c, d, e])
         == a % 128 + 128 * (b % 128) + 0x4000 * (c % 128) + 0x20_0000 * (d % 128) + 0x1000_0000 * (e % 128)
  {
    assert [a, b, c, d, e][1..] == [b, c, d, e];
    assert [b, c, d, e][1..] == [c, d, e];
    assert [c, d, e][1..] == [d, e];
    assert [d, e][1..] == [e];
    assert [e][1..] == [];
    assert Sum([e]) == e % 128;
    assert Sum([d, e]) == d % 128 + 128 * (e % 128);
    assert Sum([c, d, e]) == c % 128 + 128 * (d % 128) + 0x4000 * (e % 128);
    assert Sum([b, c, d, e]) == b % 128 + 128 * (c % 128) + 0x4000 * (d % 128) + 0x20_0000 * (e % 128);
  }

  function Letters(n: nat): Bytes {
    seq(n, _ => 0x61)
  }

  /** The longest accepted packet has 277 bytes: no bound of AcceptedSizes can be lowered. */
  lemma {:induction false} LongestPacket()
    ensures exists p :: Parse(p).Some? && |p| == 277
  {
    var length: Bytes := [0xFF, 0x81, 0x80, 0x80, 0];
    SumFive(0xFF, 0x81, 0x80, 0x80, 0);
    PaddedIs(0);
    PaddedIs(2);
    var k := Packet(Padded(0), Padded(0), length, Letters(255), [0, 0], Padded(2));
    assert WellFormed(k) by {
      assert IsVarInt(length);
      hide IsVarInt, Sum;
    }
    assert |Join(k)| == 277;
    SplitAccepts(Join(k), k);
    assert Parse(Join(k)).Some?;
  }

  /** The longest serialized frame has 268. */
  lemma {:induction false} LongestFrame()
    ensures exists h :: Valid(h) && |Frame(Payload(h))| == 268
  {
    var h := Handshake(0xFFFF_FFFF, Letters(255), 0, 2);
    KnownVarInts();
    assert |Payload(h)| == 266;
    EncodeSizes(266);
  }

  // ---- status exchanges ----

  /** `s` begins with a frame of this body, in any spelling of its length. */
  ghost predicate BeginsWithFrame(s: Bytes, body: Bytes) {
    exists e: Bytes, rest :: FrameAt(s, e, body, rest)
  }

  predicate FrameAt(s: Bytes, e: Bytes, body: Bytes, rest: Bytes) {
    IsVarInt(e) && Sum(e) == |body| && s == e + (body + rest)
  }

  /** What a frame reader with these bounds returns are the frames of the grammar. */
  lemma {:induction false} FramesExactly(s: Bytes, lo: nat, hi: nat, body: Bytes)
    ensures ScanFrame(s, lo, hi).Body? && ScanFrame(s, lo, hi).body == body
       <==> lo <= |body| <= hi && BeginsWithFrame(s, body)
  {
    hide ScanFrame, Decode, IsVarInt, Sum;
    if ScanFrame(s, lo, hi).Body? && ScanFrame(s, lo, hi).body == body {
      ScanFrameExactly(s, lo, hi);
      var f := Decode(s).value;
      DecodeAccepts(s, f.value, f.size);
      assert FrameAt(s, s[..f.size], body, s[f.size + f.value..]);
    }
    if BeginsWithFrame(s, body) {
      var e, rest :| FrameAt(s, e, body, rest);
      FrameFound(s, e, body, rest, lo, hi);
    }
  }

  lemma {:induction false} FrameFound(s: Bytes, e: Bytes, body: Bytes, rest: Bytes, lo: nat, hi: nat)
    requires FrameAt(s, e, body, rest)
    ensures lo <= |body| <= hi ==> ScanFrame(s, lo, hi) == Body(|e| + |body|, body)
  {
    hide ScanFrame, Decode, IsVarInt, Sum;
    DecodeLocal(e, body + rest);
    ScanFrameExactly(s, lo, hi);
    assert s[|e|..|e| + |body|] == body;
  }

  /** The response is sent exactly for a frame of one byte, the packet id 0. */
  lemma {:induction false} RequestExactly(c: ServerConfig, s: Bytes)
    ensures StatusReplies(c, s) != [] <==> BeginsWithFrame(s, [0])
  {
    hide ScanFrame, StatusResponse, PingReply, BeginsWithFrame;
    FramesExactly(s, 1, 1, [0]);
    ResponseNotEmpty(c);
    if ScanFrame(s, 1, 1).Body? {
      assert ScanFrame(s, 1, 1).body == [ScanFrame(s, 1, 1).body[0]];
    }
  }

  /** The pong is sent exactly for a frame of nine bytes that begins with 1. */
  lemma {:induction false} PingExactly(s: Bytes)
    ensures PingReply(s) != [] <==> exists ping: Bytes :: BeginsWithFrame(s, ping) && |ping| == 9 && ping[0] == 1
  {
    hide ScanFrame, Frame, BeginsWithFrame;
    var r := ScanFrame(s, 9, 9);
    if r.Body? {
      FramesExactly(s, 9, 9, r.body);
      FrameNotEmpty(r.body);
    }
    forall ping: Bytes | BeginsWithFrame(s, ping) && |ping| == 9 && ping[0] == 1
      ensures PingReply(s) != []
    {
      FramesExactly(s, 9, 9, ping);
    }
  }
}
