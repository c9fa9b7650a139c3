/** Handshake packets and frames. */
module Protocol {
  import opened Basics
  import opened Bits
  import opened VarInt

  const MAX_PACKET_BYTES := 4096
  const MAX_HOSTNAME_BYTES := 255
  const MAX_INT32 := 0x7FFF_FFFF

  datatype Handshake = Handshake(protocol: uint32, address: Bytes, port: uint16, nextState: uint32)

  predicate ValidHost(address: Bytes) {
    1 <= |address| <= MAX_HOSTNAME_BYTES && 0 !in address
  }

  /** The handshakes that have a serialized form. */
  predicate Valid(h: Handshake) {
    ValidHost(h.address) && (h.nextState == 1 || h.nextState == 2)
  }

  // ---- the grammar of handshake packets ----

  /** A handshake packet cut into its fields, each as it is spelled on the wire. */
  datatype Packet = Packet(id: Bytes, protocol: Bytes, length: Bytes, address: Bytes, port: Bytes, state: Bytes)

  predicate WellFormed(k: Packet) {
    && IsVarInt(k.id) && Sum(k.id) == 0
    && IsVarInt(k.protocol)
    && IsVarInt(k.length) && Sum(k.length) == |k.address|
    && ValidHost(k.address)
    && |k.port| == 2
    && IsVarInt(k.state) && (Sum(k.state) == 1 || Sum(k.state) == 2)
  }

  function Join(k: Packet): Bytes {
    k.id + (k.protocol + (k.length + (k.address + (k.port + k.state))))
  }

  /** A port is two bytes, the high one first. */
  function PortValue(port: Bytes): uint16
    requires |port| == 2
  {
    var high: int, low: int := port[0], port[1];
    256 * high + low
  }

  function PortBytes(port: uint16): Bytes {
    [port / 256, port % 256]
  }

  function Meaning(k: Packet): (h: Handshake)
    requires WellFormed(k)
  {
    Handshake(Sum(k.protocol), k.address, PortValue(k.port), Sum(k.state))
  }

  predicate MinimalFields(k: Packet) {
    Minimal(k.id) && Minimal(k.protocol) && Minimal(k.length) && Minimal(k.state)
  }

  /** The spelling the serializer chooses. */
  function Spelling(h: Handshake): Packet {
    Packet(Encode(0), Encode(h.protocol), Encode(|h.address|), h.address,
           PortBytes(h.port), Encode(h.nextState))
  }

  function Payload(h: Handshake): Bytes {
    Join(Spelling(h))
  }

  function Frame(payload: Bytes): Bytes {
    Encode(|payload|) + payload
  }

  /** Cuts the part of a packet after the address length `n`. */
  function SplitTail(s: Bytes, n: nat): Option<(Bytes, Bytes, Bytes)> {
    if n == 0 || n > MAX_HOSTNAME_BYTES || n > |s| || 0 in s[..n] || |s| - n < 2 then None else
    match Cut(s[n + 2..])
    case None => None
    case Some((state, rest)) =>
      if (Sum(state) != 1 && Sum(state) != 2) || rest != [] then None
      else Some((s[..n], s[n..n + 2], state))
  }

  /** Cuts a packet from left to right, one field after the other. */
  function Split(p: Bytes): Option<Packet> {
    if p == [] || |p| > MAX_PACKET_BYTES then None else
    match Cut(p)
    case None => None
    case Some((id, p1)) =>
      if Sum(id) != 0 then None else
      match Cut(p1)
      case None => None
      case Some((protocol, p2)) =>
        match Cut(p2)
        case None => None
        case Some((length, p3)) =>
          match SplitTail(p3, Sum(length))
          case None => None
          case Some((address, port, state)) =>
            Some(Packet(id, protocol, length, address, port, state))
  }

  /** The handshake a packet stands for, if it is accepted. */
  function Parse(p: Bytes): Option<Handshake> {
    match Split(p)
    case None => None
    case Some(k) => SplitAccepts(p, k); Some(Meaning(k))
  }

  lemma {:induction false} SplitTailAccepts(s: Bytes, n: nat, address: Bytes, port: Bytes, state: Bytes)
    ensures SplitTail(s, n) == Some((address, port, state))
       <==> && ValidHost(address) && |address| == n && |port| == 2
            && IsVarInt(state) && (Sum(state) == 1 || Sum(state) == 2)
            && s == address + (port + state)
  {
    assert state + [] == state;
    if SplitTail(s, n) == Some((address, port, state)) {
      CutAccepts(s[n + 2..], state, []);
      assert s == s[..n] + (s[n..n + 2] + s[n + 2..]);
    } else if |address| == n && |port| == 2 && s == address + (port + state) {
      assert s[..n] == address && s[n..n + 2] == port && s[n + 2..] == state;
      CutAccepts(s[n + 2..], state, []);
    }
  }

  /** The parser accepts exactly the spellings of the grammar that fit a packet, and
      cuts each of them in the one possible way. */
  lemma {:induction false} SplitAccepts(p: Bytes, k: Packet)
    ensures Split(p) == Some(k) <==> |p| <= MAX_PACKET_BYTES && WellFormed(k) && p == Join(k)
  {
    if Split(p).Some? {
      SplitSound(p);
    }
    if |p| <= MAX_PACKET_BYTES && WellFormed(k) && p == Join(k) {
      var p3 := k.address + (k.port + k.state);
      var p2 := k.length + p3;
      var p1 := k.protocol + p2;
      CutAccepts(p, k.id, p1);
      CutAccepts(p1, k.protocol, p2);
      CutAccepts(p2, k.length, p3);
      SplitTailAccepts(p3, |k.address|, k.address, k.port, k.state);
    }
  }

  lemma {:induction false} SplitSound(p: Bytes)
    requires Split(p).Some?
    ensures WellFormed(Split(p).value) && p == Join(Split(p).value) && |p| <= MAX_PACKET_BYTES
  {
    var k := Split(p).value;
    var (id, p1) := Cut(p).value;
    var (protocol, p2) := Cut(p1).value;
    var (length, p3) := Cut(p2).value;
    CutAccepts(p, id, p1);
    CutAccepts(p1, protocol, p2);
    CutAccepts(p2, length, p3);
    SplitTailAccepts(p3, Sum(length), k.address, k.port, k.state);
  }

  // ---- what parsing and serializing promise ----

  lemma {:induction false} SpellingWellFormed(h: Handshake)
    requires Valid(h)
    ensures WellFormed(Spelling(h)) && Meaning(Spelling(h)) == h && MinimalFields(Spelling(h))
  {
    Encoded(0);
    Encoded(h.protocol);
    Encoded(|h.address|);
    Encoded(h.nextState);
  }

  lemma {:induction false} EncodeSizes(value: nat)
    ensures value < 128 ==> |Encode(value)| == 1
    ensures 128 <= value < 0x4000 ==> |Encode(value)| == 2
    ensures value < TWO_TO_THE_32 ==> |Encode(value)| <= 5
  {
    if 128 <= value < 0x4000 {
      assert Encode(value / 128) == [value / 128];
    }
    if value < TWO_TO_THE_32 {
      Encoded(value);
    }
  }

  /** Parsing inverts serializing. */
  lemma {:induction false} HandshakeRoundTrip(h: Handshake)
    requires Valid(h)
    ensures Parse(Payload(h)) == Some(h)
    ensures 7 <= |Payload(h)| <= 266
  {
    SpellingWellFormed(h);
    EncodeSizes(0);
    EncodeSizes(h.protocol);
    EncodeSizes(|h.address|);
    EncodeSizes(h.nextState);
    SplitAccepts(Payload(h), Spelling(h));
  }

  /** Any spelling is at least as long as the serializer's, field by field. */
  lemma {:induction false} SpellingShortest(k: Packet)
    requires WellFormed(k)
    ensures |Payload(Meaning(k))| <= |Join(k)|
    ensures MinimalFields(k) <==> Spelling(Meaning(k)) == k
  {
    hide Sum, Encode, Continuations, Minimal;
    Shortest(k.id);
    Shortest(k.protocol);
    Shortest(k.length);
    Shortest(k.state);
  }

  /** Serializing what was parsed normalises: it never lengthens a packet, keeps its
      meaning, and changes nothing exactly when all four VarInts were minimal. */
  lemma {:induction false} Normalises(p: Bytes)
    requires Split(p).Some?
    ensures var h := Parse(p).value;
      && Valid(h)
      && |Payload(h)| <= |p|
      && Parse(Payload(h)) == Some(h)
      && (Payload(h) == p <==> MinimalFields(Split(p).value))
  {
    var k := Split(p).value;
    SplitSound(p);
    SpellingShortest(k);
    HandshakeRoundTrip(Meaning(k));
    SpellingWellFormed(Meaning(k));
    SplitAccepts(p, Spelling(Meaning(k)));
  }

  lemma {:induction false} ParsedIsValid(p: Bytes)
    requires Parse(p).Some?
    ensures Valid(Parse(p).value)
  {
    hide Payload;
    Normalises(p);
  }

  /** Every accepted packet has 7 to 277 bytes. */
  lemma {:induction false} AcceptedSizes(p: Bytes)
    requires Split(p).Some?
    ensures 7 <= |p| <= 277
  {
    SplitSound(p);
  }

  lemma {:induction false} FrameNotEmpty(payload: Bytes)
    ensures |Frame(payload)| >= 1
  {
  }

  lemma {:induction false} FrameSizes(h: Handshake)
    requires Valid(h)
    ensures 8 <= |Frame(Payload(h))| <= 268
  {
    HandshakeRoundTrip(h);
    EncodeSizes(|Payload(h)|);
  }

  // ---- the code ----

  /** The field reader of parse_handshake: the VarInt at `pos` and the position after it. */
  method ReadField(packet: array<byte>, pos: nat) returns (r: Result<uint32>, next: nat)
    requires pos <= packet.Length
    ensures r.Failure? ==> r.error == InvalidArgument && Cut(packet[pos..]) == None
    ensures r.Success? ==>
      && pos < next <= packet.Length
      && Cut(packet[pos..]) == Some((packet[pos..next], packet[next..]))
      && Sum(packet[pos..next]) == r.value
  {
    assert packet[pos..pos + (packet.Length - pos)] == packet[pos..];
    next := pos;
    var field :- VarInt.Read(packet, pos, packet.Length - pos);
    next := pos + field.size;
    assert packet[pos..][..field.size] == packet[pos..next];
    assert packet[pos..][field.size..] == packet[next..];
    return Success(field.value), next;
  }

  /** The `addressLength` bytes at `pos`, appended one by one. */
  method ReadAddress(packet: array<byte>, pos: nat, addressLength: nat) returns (address: Bytes)
    requires pos + addressLength <= packet.Length
    ensures address == packet[pos..pos + addressLength]
  {
    address := [];
    for i := 0 to addressLength
      invariant address == packet[pos..pos + i]
    {
      address := address + [packet[pos + i]];
    }
  }

  lemma {:induction false} PortFromBits(high: byte, low: byte)
    ensures Or(low, Shl(high, 8)) == PortValue([high, low])
  {
    GroupPowers();
    assert Pow2(8) == 256;
    OrAbove(low, high, 8);
  }

  /** The address, port and next state, which end the packet. */
  method ParseTail(packet: array<byte>, at: nat, n: nat) returns (r: Result<(Bytes, uint16, uint32)>)
    requires at <= packet.Length
    ensures r.Failure? ==> r.error == InvalidArgument && SplitTail(packet[at..], n) == None
    ensures r.Success? ==> match SplitTail(packet[at..], n)
      case None => false
      case Some((address, port, state)) =>
        |port| == 2 && r.value == (address, PortValue(port), Sum(state))
  {
    hide Decode, Sum, IsVarInt, Cut;
    if n == 0 || n > MAX_HOSTNAME_BYTES || n > packet.Length - at {
      return Failure(InvalidArgument);
    }
    ghost var tail := packet[at..];
    var address := ReadAddress(packet, at, n);
    assert tail[..n] == address;
    if 0 in address {
      return Failure(InvalidArgument);
    }
    var pos := at + n;
    if packet.Length - pos < 2 {
      return Failure(InvalidArgument);
    }
    PortFromBits(packet[pos], packet[pos + 1]);
    var port := Or(packet[pos + 1], Shl(packet[pos], 8));
    assert tail[n..n + 2] == [packet[pos], packet[pos + 1]];
    assert tail[n + 2..] == packet[pos + 2..];
    pos := pos + 2;
    var nextState, end :- ReadField(packet, pos);
    if (nextState != 1 && nextState != 2) || end != packet.Length {
      return Failure(InvalidArgument);
    }
    assert packet[end..] == [];
    return Success((address, port, nextState));
  }

  /** How the three leading fields, once cut, determine the result of the parser. */
  lemma {:induction false} ParseFields(p: Bytes, a: nat, b: nat, c: nat)
    requires 0 < |p| <= MAX_PACKET_BYTES && a <= b <= c <= |p|
    requires Cut(p) == Some((p[..a], p[a..])) && Sum(p[..a]) == 0
    requires Cut(p[a..]) == Some((p[a..b], p[b..]))
    requires Cut(p[b..]) == Some((p[b..c], p[c..]))
    ensures match SplitTail(p[c..], Sum(p[b..c]))
      case None => Parse(p) == None
      case Some((address, port, state)) =>
        |port| == 2 && Parse(p) == Some(Handshake(Sum(p[a..b]), address, PortValue(port), Sum(state)))
  {
    var tail := SplitTail(p[c..], Sum(p[b..c]));
    if tail.Some? {
      var (address, port, state) := tail.value;
      SplitTailAccepts(p[c..], Sum(p[b..c]), address, port, state);
      assert Split(p) == Some(Packet(p[..a], p[a..b], p[b..c], address, port, state));
    } else {
      assert Split(p) == None;
    }
  }

  lemma {:induction false} ParseRejects(p: Bytes, a: nat, b: nat)
    requires 0 < |p| <= MAX_PACKET_BYTES && a <= b <= |p|
    requires Cut(p) == Some((p[..a], p[a..]))
    requires Sum(p[..a]) != 0 || Cut(p[a..]) == None
          || (Cut(p[a..]) == Some((p[a..b], p[b..])) && Cut(p[b..]) == None)
    ensures Parse(p) == None
  {
  }

  method ParseHandshake(packet: array<byte>) returns (r: Result<Handshake>)
    ensures r.Failure? ==> r.error == InvalidArgument
    ensures Parse(packet[..]) == if r.Success? then Some(r.value) else None
  {
    if packet.Length == 0 || packet.Length > MAX_PACKET_BYTES {
      return Failure(InvalidArgument);
    }
    ghost var p := packet[..];
    assert packet[0..] == p;
    var id, protocolAt :- ReadField(packet, 0);
    if id != 0 {
      ParseRejects(p, protocolAt, protocolAt);
      return Failure(InvalidArgument);
    }
    var protocol, lengthAt := ReadField(packet, protocolAt);
    if protocol.Failure? {
      ParseRejects(p, protocolAt, protocolAt);
      return Failure(protocol.error);
    }
    var addressLength, addressAt := ReadField(packet, lengthAt);
    if addressLength.Failure? {
      ParseRejects(p, protocolAt, lengthAt);
      return Failure(addressLength.error);
    }
    ParseFields(p, protocolAt, lengthAt, addressAt);
    var rest :- ParseTail(packet, addressAt, addressLength.value);
    return Success(Handshake(protocol.value, rest.0, rest.1, rest.2));
  }

  method FramePacket(payload: Bytes) returns (r: Result<Bytes>)
    ensures r == if |payload| <= 2147483647 then Success(Frame(payload)) else Failure(LengthError)
  {
    if |payload| > MAX_INT32 {
      return Failure(LengthError);
    }
    var prefix := new byte[5](_ => 0);
    EncodeSizes(|payload|);
    var n := VarInt.Write(prefix, 0, 5, |payload|);
    assert prefix[..n.value] == Encode(|payload|);
    return Success(prefix[..n.value] + payload);
  }

  /** The field writer of serialize_handshake: `value` at `pos`, and the position after it. */
  method WriteField(payload: array<byte>, pos: nat, value: uint32) returns (r: Result<nat>)
    requires pos <= payload.Length
    modifies payload
    ensures r.Success? <==> |Encode(value)| <= payload.Length - pos
    ensures r.Failure? ==> r.error == LengthError
    ensures r.Success? ==> r.value == pos + |Encode(value)|
    ensures r.Success? ==> payload[..r.value] == old(payload[..pos]) + Encode(value)
  {
    var n :- VarInt.Write(payload, pos, payload.Length - pos, value);
    assert payload[..][..pos + n] == payload[..pos + n];
    return Success(pos + n);
  }

  lemma {:induction false} PortToBits(port: uint16)
    ensures [Shr(port, 8), And(port, 0xFF)] == PortBytes(port)
  {
    GroupPowers();
    assert Pow2(8) == 256;
    AndMask(port, 8);
  }

  /** The address, copied, and the two bytes of the port. */
  method WriteAddressAndPort(payload: array<byte>, pos: nat, h: Handshake) returns (next: nat)
    requires pos + |h.address| + 2 <= payload.Length
    modifies payload
    ensures next == pos + |h.address| + 2
    ensures payload[..next] == old(payload[..pos]) + h.address + PortBytes(h.port)
  {
    for i := 0 to |h.address|
      invariant payload[..pos + i] == old(payload[..pos]) + h.address[..i]
    {
      payload[pos + i] := h.address[i];
    }
    next := pos + |h.address|;
    PortToBits(h.port);
    payload[next] := Shr(h.port, 8);
    payload[next + 1] := And(h.port, 0xFF);
    next := next + 2;
  }

  lemma {:induction false} PayloadInOrder(h: Handshake)
    ensures Encode(0) + Encode(h.protocol) + Encode(|h.address|) + h.address + PortBytes(h.port)
            + Encode(h.nextState) == Payload(h)
  {
  }

  lemma {:induction false} PayloadFits(h: Handshake)
    requires Valid(h)
    ensures |Encode(0)| == 1 && |Encode(h.protocol)| <= 5
    ensures |Encode(|h.address|)| <= 2 && |Encode(h.nextState)| == 1
  {
    EncodeSizes(0);
    EncodeSizes(h.protocol);
    EncodeSizes(|h.address|);
    EncodeSizes(h.nextState);
  }

  /** The fields in order. 4096 bytes are room enough, so no write throws. */
  method WriteFields(payload: array<byte>, h: Handshake) returns (end: nat)
    requires Valid(h) && payload.Length == MAX_PACKET_BYTES
    modifies payload
    ensures end <= payload.Length
    ensures payload[..end] == Encode(0) + Encode(h.protocol) + Encode(|h.address|) + h.address
                              + PortBytes(h.port) + Encode(h.nextState)
  {
    PayloadFits(h);
    hide Encode, PortBytes;
    var id := WriteField(payload, 0, 0);
    var protocol := WriteField(payload, id.value, h.protocol);
    var length := WriteField(payload, protocol.value, |h.address|);
    var pos := WriteAddressAndPort(payload, length.value, h);
    var state := WriteField(payload, pos, h.nextState);
    end := state.value;
  }

  method SerializeHandshake(h: Handshake) returns (r: Result<Bytes>)
    ensures r == if Valid(h) then Success(Frame(Payload(h))) else Failure(InvalidArgument)
  {
    if h.address == [] || |h.address| > MAX_HOSTNAME_BYTES || 0 in h.address
       || (h.nextState != 1 && h.nextState != 2) {
      return Failure(InvalidArgument);
    }
    var payload := new byte[MAX_PACKET_BYTES](_ => 0);
    var end := WriteFields(payload, h);
    assert payload[..end] == Payload(h) by {
      PayloadInOrder(h);
    }
    r := FramePacket(payload[..end]);
  }

  method PongResponse(packet: array<byte>) returns (r: Result<Bytes>)
    ensures r == if packet.Length == 9 && packet[0] == 1 then Success(Frame(packet[..])) else Failure(InvalidArgument)
  {
    if packet.Length != 9 || packet[0] != 1 {
      return Failure(InvalidArgument);
    }
    r := FramePacket(packet[..]);
  }
}
