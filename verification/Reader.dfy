/** The buffered reader that intercepts the client's first packets. */
module Reader {
  import opened Basics
  import opened Bits
  import opened VarInt
  import opened Protocol
  import opened Framing
  import opened Config

  /** The connection to the client as the reader sees it. `stream` is everything that
      read operations will ever deliver before the first one that fails. */
  class Socket {
    const stream: Bytes
    var pos: nat
    var sent: Bytes

    constructor (stream: Bytes)
      ensures this.stream == stream && pos == 0 && sent == []
    {
      this.stream := stream;
      pos, sent := 0, [];
    }

    predicate Valid()
      reads this
    {
      pos <= |stream|
    }

    /** Any non-empty piece of what is there, or, when nothing will come any more, an
        error or a read of length zero. */
    method ReadSome(buffer: array<byte>, at: nat, max: nat) returns (r: Result<nat>)
      requires Valid() && 0 < max && at + max <= buffer.Length
      modifies this`pos, buffer
      ensures Valid()
      ensures r.Success? && r.value > 0 <==> old(pos) < |stream|
      ensures r.Success? ==> r.value <= max && pos == old(pos) + r.value
      ensures r.Success? ==> buffer[..] == Overwrite(old(buffer[..]), at, stream[old(pos)..pos])
      ensures r.Failure? ==> r.error == SystemError && pos == old(pos) && buffer[..] == old(buffer[..])
    {
      if pos == |stream| {
        if * {
          return Failure(SystemError);
        }
        return Success(0);
      }
      var n :| 0 < n <= max && pos + n <= |stream|;
      Copy(buffer, at, stream[pos..pos + n]);
      pos := pos + n;
      return Success(n);
    }

    /** async_write: all of `data`, or an error after a part of it. */
    method WriteAll(data: Bytes) returns (r: Result<()>)
      modifies this`sent
      ensures r.Success? ==> sent == old(sent) + data
      ensures r.Failure? ==> r.error == SystemError
      ensures old(sent) <= sent <= old(sent) + data
    {
      if * {
        var n :| 0 <= n <= |data|;
        sent := sent + data[..n];
        return Failure(SystemError);
      }
      sent := sent + data;
      return Success(());
    }
  }

  // ---- what the reader does with a client stream ----

  /** The decision on a client after it has sent `s`. */
  datatype Verdict =
    | Undecided
    | Refused(used: nat, thrown: bool)
    | StatusClient(used: nat)
    | Login(used: nat, handshake: Handshake, wire: Bytes)

  function Intercept(c: ServerConfig, s: Bytes): Verdict {
    match ScanFrame(s, 1, MAX_PACKET_BYTES)
    case More => Undecided
    case Reject(used, thrown) => Refused(used, thrown)
    case Body(used, body) =>
      match Parse(body)
      case None => Refused(used, true)
      case Some(h) =>
        if h.nextState == 1 then StatusClient(used)
        else if h.nextState == 2 then
          match Rewrite(c, h)
          case None => Refused(used, true)
          case Some(wire) => Login(used, h, wire)
        else Refused(used, false)
  }

  /** How many bytes are read for the decision. */
  function VerdictUsed(v: Verdict): nat
    requires !v.Undecided?
  {
    match v
    case Refused(used, _) => used
    case StatusClient(used) => used
    case Login(used, _, _) => used
  }

  /** The decision depends on the bytes alone and falls after exactly `used` of them. */
  lemma {:induction false} InterceptIsOnline(c: ServerConfig, s: Bytes, j: nat)
    requires j <= |s|
    ensures var v := Intercept(c, s);
      && (!v.Undecided? ==> 1 <= VerdictUsed(v) <= |s|)
      && Intercept(c, s[..j]) == if v.Undecided? || j < VerdictUsed(v) then Undecided else v
  {
    hide Parse, Rewrite, ScanFrame;
    ScanIsOnline(s, 1, MAX_PACKET_BYTES, j);
  }

  /** A login is accepted exactly when its frame is well formed and the configured host
      can be serialized; what goes upstream then is the client's own handshake with the
      configured host and port, whatever follows it on the wire. */
  lemma {:induction false} LoginRewritten(c: ServerConfig, s: Bytes, used: nat, h: Handshake, rest: Bytes)
    ensures var frame := ScanFrame(s, 1, MAX_PACKET_BYTES);
      && (Intercept(c, s).Login? && Intercept(c, s).used == used && Intercept(c, s).handshake == h
          <==> && frame.Body? && frame.used == used && Parse(frame.body) == Some(h) && h.nextState == 2
               && ValidHost(c.handshakeHost))
      && (Intercept(c, s).Login? && Intercept(c, s).handshake == h ==>
            var wire := Intercept(c, s).wire;
            var sent := ScanFrame(wire + rest, 1, MAX_PACKET_BYTES);
            && 8 <= |wire| <= 268
            && sent.Body? && sent.used == |wire|
            && Parse(sent.body) == Some(Handshake(h.protocol, c.handshakeHost, c.upstreamPort, 2)))
  {
    hide Parse, ScanFrame, Frame, Payload;
    if Intercept(c, s).Login? && Intercept(c, s).handshake == h {
      SerializedHandshake(Redirect(c, h), rest);
    }
  }

  /** With settings that start-up lets through, every client whose first frame parses is
      served: as a login client or as a status client, by its next state. */
  lemma {:induction false} EveryHandshakeServed(c: ServerConfig, s: Bytes)
    requires ValidConfig(c)
    ensures var frame := ScanFrame(s, 1, MAX_PACKET_BYTES);
      var known := frame.Body? && Parse(frame.body).Some?;
      && (Intercept(c, s).Login? <==> known && Parse(frame.body).value.nextState == 2)
      && (Intercept(c, s).StatusClient? <==> known && Parse(frame.body).value.nextState == 1)
      && (known <==> Intercept(c, s).Login? || Intercept(c, s).StatusClient?)
  {
    hide ScanFrame, Parse, Rewrite, ValidConfig;
    var frame := ScanFrame(s, 1, MAX_PACKET_BYTES);
    if frame.Body? && Parse(frame.body).Some? {
      StateIsKnown(frame.body);
      HostIsValid(c, Parse(frame.body).value);
    }
  }

  /** A client that is not served: with false if its first five bytes hold no length of 1 to
      4096, with an exception if they overflow or if the packet does not parse. */
  lemma {:induction false} RefusedExactly(c: ServerConfig, s: Bytes)
    requires ValidConfig(c)
    ensures match Decode(s)
      case Some(f) =>
        if f.value < 1 || f.value > 4096 then Intercept(c, s) == Refused(f.size, false)
        else if |s| < f.size + f.value then Intercept(c, s) == Undecided
        else
          && (Parse(s[f.size..f.size + f.value]).None? <==> Intercept(c, s) == Refused(f.size + f.value, true))
          && (Parse(s[f.size..f.size + f.value]).Some? <==> !Intercept(c, s).Refused?)
      case None =>
        if |s| < 5 then Intercept(c, s) == Undecided else Intercept(c, s) == Refused(5, s[4] < 128)
  {
    hide Decode, ScanFrame, Parse, Rewrite, ValidConfig;
    ScanFrameExactly(s, 1, MAX_PACKET_BYTES);
    EveryHandshakeServed(c, s);
  }

  /** Nobody is read for more than 4101 bytes before the decision falls. */
  lemma {:induction false} InterceptBounded(c: ServerConfig, s: Bytes)
    ensures |s| >= 4101 ==> !Intercept(c, s).Undecided?
    ensures !Intercept(c, s).Undecided? ==> VerdictUsed(Intercept(c, s)) <= 4101
  {
    hide Decode, ScanFrame, Parse, Rewrite;
    ScanFrameExactly(s, 1, MAX_PACKET_BYTES);
  }

  lemma {:induction false} StateIsKnown(packet: Bytes)
    requires Parse(packet).Some?
    ensures Parse(packet).value.nextState == 1 || Parse(packet).value.nextState == 2
  {
    hide Parse;
    ParsedIsValid(packet);
  }

  lemma {:induction false} HostIsValid(c: ServerConfig, h: Handshake)
    requires ValidConfig(c)
    ensures h.nextState == 2 ==> Rewrite(c, h).Some?
  {
    hide Frame, Payload;
  }

  /** Everything a status client is sent, in answer to the frames in `s`. */
  function StatusReplies(c: ServerConfig, s: Bytes): Bytes {
    match ScanFrame(s, 1, 1)
    case Body(used, body) =>
      if body[0] != 0 then [] else StatusResponse(c) + PingReply(Drop(s, used))
    case _ => []
  }

  function PingReply(s: Bytes): Bytes {
    match ScanFrame(s, 9, 9)
    case Body(_, body) => if body[0] == 1 then Frame(body) else []
    case _ => []
  }

  /** What a length VarInt announces, if it announces all of what follows it. */
  function LengthPrefixed(s: Bytes): Option<Bytes> {
    match Cut(s)
    case None => None
    case Some((length, rest)) => if Sum(length) == |rest| then Some(rest) else None
  }

  /** A status packet as a client reads it: id 0, then the document behind its length. */
  predicate CarriesStatus(packet: Bytes, document: Bytes) {
    match Cut(packet)
    case None => false
    case Some((id, rest)) => Sum(id) == 0 && LengthPrefixed(rest) == Some(document)
  }

  lemma {:induction false} StatusPacket(document: Bytes)
    requires |document| < TWO_TO_THE_32
    ensures CarriesStatus(Encode(0) + Encode(|document|) + document, document)
  {
    Encoded(0);
    Encoded(|document|);
    hide Encode, Sum, Cut, IsVarInt;
    var id, length := Encode(0), Encode(|document|);
    assert id + length + document == id + (length + document);
    CutAccepts(id + (length + document), id, length + document);
    CutAccepts(length + document, length, document);
  }

  lemma {:induction false} StatusPacketSize(document: Bytes)
    requires |document| + 6 <= MAX_INT32
    ensures 1 <= |Encode(0) + Encode(|document|) + document| <= MAX_INT32
  {
    EncodeSizes(0);
    EncodeSizes(|document|);
  }

  /** A client reads the status document from the response, and nothing after it. */
  lemma {:induction false} StatusReadable(c: ServerConfig, rest: Bytes)
    requires StatusFits(c)
    ensures var r := ScanFrame(StatusResponse(c) + rest, 1, MAX_INT32);
      r.Body? && r.used == |StatusResponse(c)| && CarriesStatus(r.body, c.statusJson)
  {
    hide ScanFrame, Frame, Encode, CarriesStatus;
    StatusPacket(c.statusJson);
    StatusPacketSize(c.statusJson);
    ScanOfFrame(Encode(0) + Encode(|c.statusJson|) + c.statusJson, rest, 1, MAX_INT32);
  }

  /** A pong carries the bytes of its ping. */
  lemma {:induction false} PongEchoes(s: Bytes, rest: Bytes)
    requires ScanFrame(s, 9, 9).Body? && ScanFrame(s, 9, 9).body[0] == 1
    ensures ScanFrame(PingReply(s) + rest, 9, 9) == Body(|PingReply(s)|, ScanFrame(s, 9, 9).body)
  {
    hide ScanFrame, Frame;
    ScanOfFrame(ScanFrame(s, 9, 9).body, rest, 9, 9);
  }

  // ---- how a status exchange ends ----

  /** How much of `s` a frame reader takes: its frame, or all there is. */
  function FrameUsed(s: Bytes, lo: nat, hi: nat): nat {
    var r := ScanFrame(s, lo, hi);
    if r.More? then |s| else r.Used()
  }

  /** The ping was answered, was none, or could not be read, or the answer was not sent. */
  predicate PingEnds(s: Bytes, r: Result<()>) {
    match ScanFrame(s, 9, 9)
    case More => r == Failure(SystemError)
    case Reject(_, thrown) => r == if thrown then Failure(InvalidArgument) else Success(())
    case Body(_, body) => r.Success? || (body[0] == 1 && r == Failure(SystemError))
  }

  /** The whole exchange on `s` ended with `r` after `used` bytes: with the request, or, if a
      response was sent, with the ping. */
  predicate StatusEnds(s: Bytes, used: int, r: Result<()>) {
    match ScanFrame(s, 1, 1)
    case More => used == |s| && r == Failure(SystemError)
    case Reject(n, thrown) => used == n && r == if thrown then Failure(InvalidArgument) else Success(())
    case Body(n, body) =>
      if body[0] != 0 then used == n && r.Success?
      else
        || (used == n && r == Failure(SystemError))
        || (used == n + FrameUsed(Drop(s, n), 9, 9) && PingEnds(Drop(s, n), r))
  }

  /** Interception returns false after a status exchange, unless that threw. */
  function StatusOf(r: Result<bool>): Result<()> {
    match r
    case Success(_) => Success(())
    case Failure(e) => Failure(e)
  }

  lemma {:induction false} StatusDue(c: ServerConfig, s: Bytes)
    requires ScanFrame(s, 1, 1).Body? && ScanFrame(s, 1, 1).body[0] == 0
    ensures ScanFrame(s, 1, 1).used <= |s|
    ensures StatusReplies(c, s) == StatusResponse(c) + PingReply(s[ScanFrame(s, 1, 1).used..])
  {
    hide ScanFrame, PingReply, StatusResponse;
    ScanIsOnline(s, 1, 1, 0);
  }

  lemma {:induction false} PrefixExtended(a: Bytes, b: Bytes, c: Bytes)
    requires a <= b
    ensures a <= b + c
  {
    assert a == b[..|a|] == (b + c)[..|a|];
  }

  /** At the first byte without bit 7 the batch decoder decides on what was read. */
  lemma {:induction false} LastGroup(s: Bytes, n: nat)
    requires 1 <= n <= 5 && n <= |s| && s[n - 1] < 128
    requires forall k :: 0 <= k < n - 1 ==> s[k] >= 128
    ensures match Decode(s[..n])
      case None => ScanLength(s) == BadLength(n, true)
      case Some(f) => f.size == n && ScanLength(s) == Length(f.value, n)
  {
    assert Continuations(s) == n - 1;
    ContinuationsOfPrefix(s, n);
    assert s[..n][..n] == s[..n];
  }

  lemma {:induction false} NoLastGroup(s: Bytes, n: nat)
    requires n <= 5 && n <= |s| && (forall k :: 0 <= k < n ==> s[k] >= 128)
    ensures n == |s| < 5 ==> ScanLength(s) == MoreLength
    ensures n == 5 ==> ScanLength(s) == BadLength(5, false)
  {
  }

  lemma {:induction false} SliceOfTail(s: Bytes, start: nat, from: nat, to: nat)
    requires start <= from <= to <= |s|
    ensures s[start..][from - start..to - start] == s[from..to]
  {
  }

  lemma {:induction false} TailIsDrop(s: Bytes, n: nat)
    requires n <= |s|
    ensures s[n..] == Drop(s, n)
  {
  }

  const BUFFER_SIZE := 1024

  class MCPacketReader {
    const buffer: array<byte>
    const socket: Socket
    const serverBuffer: array<byte>
    const config: ServerConfig
    var readPos: nat
    var writePos: nat
    var totalWritten: uint32

    constructor (socket: Socket, serverBuffer: array<byte>, config: ServerConfig)
      requires socket.Valid()
      ensures this.socket == socket && this.serverBuffer == serverBuffer && this.config == config
      ensures fresh(buffer) && buffer.Length == 1024 && Valid() && Idle() && totalWritten == 0
    {
      this.socket, this.serverBuffer, this.config := socket, serverBuffer, config;
      buffer := new byte[BUFFER_SIZE](_ => 0);
      readPos, writePos, totalWritten := 0, 0, 0;
    }

    /** The bytes between the cursors are the last ones taken from the socket. */
    predicate Valid()
      reads this, socket, buffer
    {
      && buffer.Length == BUFFER_SIZE
      && buffer != serverBuffer
      && socket.Valid()
      && readPos <= writePos <= BUFFER_SIZE
      && writePos - readPos <= socket.pos
      && buffer[readPos..writePos] == socket.stream[Consumed()..socket.pos]
    }

    /** How much of the stream was handed out. */
    function Consumed(): int
      reads this, socket
    {
      socket.pos - (writePos - readPos)
    }

    /** Nothing was taken from the socket that was not handed out. */
    predicate Idle()
      reads this
    {
      readPos == writePos
    }

    method BlockRead() returns (r: Result<()>)
      requires Valid() && Idle()
      modifies this`readPos, this`writePos, socket`pos, buffer
      ensures Valid() && Consumed() == old(Consumed())
      ensures r.Success? <==> old(socket.pos) < |socket.stream|
      ensures r.Success? ==> writePos == readPos + 1
      ensures r.Failure? ==> r.error == SystemError && Idle()
    {
      if writePos == BUFFER_SIZE {
        writePos := 0;
        readPos := 0;
      }
      var wrote :- socket.ReadSome(buffer, writePos, 1);
      if wrote == 0 {
        return Failure(SystemError);
      }
      writePos := writePos + wrote;
      return Success(());
    }

    method CurrentByte() returns (r: Result<byte>)
      requires Valid()
      modifies this`readPos, this`writePos, socket`pos, buffer
      ensures Valid() && (old(Idle()) ==> Idle())
      ensures r.Success? <==> old(Consumed()) < |socket.stream|
      ensures r.Success? ==> r.value == socket.stream[old(Consumed())] && Consumed() == old(Consumed()) + 1
      ensures r.Failure? ==> r.error == SystemError && Consumed() == old(Consumed())
    {
      if readPos >= writePos {
        var _ :- BlockRead();
      }
      var current := buffer[readPos];
      assert current == buffer[readPos..writePos][0];
      readPos := readPos + 1;
      return Success(current);
    }

    /** `Success(None)` is the result false. */
    method ReadVarInt() returns (r: Result<Option<uint32>>)
      requires Valid() && Idle()
      modifies this`readPos, this`writePos, socket`pos, buffer
      ensures Valid() && Idle()
      ensures match ScanLength(socket.stream[old(Consumed())..])
        case MoreLength => r == Failure(SystemError) && Consumed() == |socket.stream|
        case BadLength(used, thrown) =>
          && Consumed() == old(Consumed()) + used
          && r == if thrown then Failure(InvalidArgument) else Success(None)
        case Length(value, used) =>
          && Consumed() == old(Consumed()) + used
          && r == Success(Some(value))
    {
      hide Decode, Sum, And, Continuations, ScanLength;
      ghost var s := socket.stream[Consumed()..];
      var bytesRead := 0;
      var encoded := new byte[5](_ => 0);
      var i := 0;
      while i < 32
        invariant Valid() && Idle() && fresh(encoded) && encoded.Length == 5
        invariant i == 7 * bytesRead <= 35 && bytesRead <= |s|
        invariant Consumed() == old(Consumed()) + bytesRead
        invariant encoded[..bytesRead] == s[..bytesRead]
        invariant forall k :: 0 <= k < bytesRead ==> s[k] >= 128
      {
        NoLastGroup(s, bytesRead);
        var current :- CurrentByte();
        assert current == s[bytesRead];
        encoded[bytesRead] := current;
        bytesRead := bytesRead + 1;
        assert encoded[..bytesRead] == s[..bytesRead];
        ByteMasks(current);
        if And(current, 0x80) == 0 {
          LastGroup(s, bytesRead);
          assert encoded[0..0 + bytesRead] == s[..bytesRead];
          var field :- VarInt.Read(encoded, 0, bytesRead);
          return Success(Some(field.value));
        }
        i := i + 7;
      }
      NoLastGroup(s, bytesRead);
      return Success(None);
    }

    method FillPacket(packet: array<byte>) returns (r: Result<bool>)
      requires Valid() && Idle() && packet != buffer && packet != serverBuffer
      modifies this`readPos, this`writePos, socket`pos, buffer, packet
      ensures Valid() && Idle()
      ensures packet.Length == 0 ==> r == Success(false) && Consumed() == old(Consumed())
      ensures 0 < packet.Length <= |socket.stream| - old(Consumed()) ==>
        && r == Success(true)
        && Consumed() == old(Consumed()) + packet.Length
        && packet[..] == socket.stream[old(Consumed())..Consumed()]
      ensures packet.Length > |socket.stream| - old(Consumed()) ==>
        r == Failure(SystemError) && Consumed() == |socket.stream|
    {
      if packet.Length == 0 {
        return Success(false);
      }
      ghost var start := Consumed();
      var i := 0;
      while i < packet.Length
        invariant Valid() && Idle()
        invariant i <= packet.Length && Consumed() == start + i
        invariant packet[..i] == socket.stream[start..start + i]
      {
        // CurrentByte throws no out_of_range, so nothing is caught here
        var current :- CurrentByte();
        assert current == socket.stream[start + i];
        packet[i] := current;
        assert packet[..i + 1] == packet[..i] + [current];
        i := i + 1;
      }
      return Success(true);
    }

    /** A frame as InterceptHandshake and WriteCustomStatusRequest read it: a length, a
        check of it, and the body. `None` is the result false. */
    method ReadFrame(lo: nat, hi: nat) returns (r: Result<Option<array<byte>>>)
      requires Valid() && Idle() && 0 < lo
      modifies this`readPos, this`writePos, socket`pos, buffer
      ensures Valid() && Idle()
      ensures match ScanFrame(socket.stream[old(Consumed())..], lo, hi)
        case More => r == Failure(SystemError) && Consumed() == |socket.stream|
        case Reject(used, thrown) =>
          && Consumed() == old(Consumed()) + used
          && r == if thrown then Failure(InvalidArgument) else Success(None)
        case Body(used, body) =>
          && Consumed() == old(Consumed()) + used
          && r.Success? && r.value.Some?
          && fresh(r.value.value) && r.value.value[..] == body && lo <= |body| <= hi
    {
      hide ScanLength;
      ghost var start := Consumed();
      var length :- ReadVarInt();
      if length.None? || length.value < lo || length.value > hi {
        return Success(None);
      }
      var packet := new byte[length.value](_ => 0);
      ghost var at := Consumed();
      var filled :- FillPacket(packet);
      SliceOfTail(socket.stream, start, at, Consumed());
      if !filled {
        return Success(None);
      }
      return Success(Some(packet));
    }

    method AppendVarInt(bytes: Bytes, value: uint32) returns (r: Bytes)
      ensures r == bytes + Encode(value)
    {
      EncodeSizes(value);
      var varintBuf := new byte[5](_ => 0);
      var n := VarInt.Write(varintBuf, 0, 5, value);
      assert varintBuf[..n.value] == Encode(value);
      r := bytes + varintBuf[..n.value];
    }

    /** The status response, built by hand: packet id, document length, document. */
    method BuildStatusResponse() returns (response: Bytes)
      requires StatusFits(config)
      ensures response == StatusResponse(config)
    {
      var json := config.statusJson;
      assert |Encode(0)| == 1 && |Encode(|json|)| <= 5 by {
        EncodeSizes(0);
        EncodeSizes(|json|);
      }
      var payload := AppendVarInt([], 0);
      payload := AppendVarInt(payload, |json|);
      payload := payload + json;
      response := AppendVarInt([], |payload|);
      response := response + payload;
    }

    /** The ping after the status response. */
    method AnswerPing() returns (r: Result<()>)
      requires Valid() && Idle()
      modifies this`readPos, this`writePos, socket`pos, socket`sent, buffer
      ensures Valid() && Idle()
      ensures old(socket.sent) <= socket.sent
      ensures socket.sent <= old(socket.sent) + PingReply(socket.stream[old(Consumed())..])
      ensures r.Success? ==> socket.sent == old(socket.sent) + PingReply(socket.stream[old(Consumed())..])
      ensures PingEnds(socket.stream[old(Consumed())..], r)
      ensures Consumed() == old(Consumed()) + FrameUsed(socket.stream[old(Consumed())..], 9, 9)
    {
      hide ScanFrame;
      var ping :- ReadFrame(9, 9);
      if ping.None? || ping.value[0] != 1 {
        return Success(());
      }
      assert ping.value.Length == |ping.value[..]| == 9;
      var pong := PongResponse(ping.value);
      r := socket.WriteAll(pong.value);
    }

    /** The status exchange. Whatever fails, what was sent is the beginning of the
        replies this client is due; if nothing fails it is all of them. */
    method WriteCustomStatusRequest() returns (r: Result<()>)
      requires Valid() && Idle() && StatusFits(config)
      modifies this`readPos, this`writePos, socket`pos, socket`sent, buffer
      ensures Valid() && Idle()
      ensures old(socket.sent) <= socket.sent
      ensures socket.sent <= old(socket.sent) + StatusReplies(config, socket.stream[old(Consumed())..])
      ensures r.Success? ==>
        socket.sent == old(socket.sent) + StatusReplies(config, socket.stream[old(Consumed())..])
      ensures StatusEnds(socket.stream[old(Consumed())..], Consumed() - old(Consumed()), r)
    {
      hide ScanFrame, PingReply, StatusResponse;
      ghost var s := socket.stream[Consumed()..];
      ghost var due := StatusReplies(config, s);
      var request :- ReadFrame(1, 1);
      if request.None? || request.value[0] != 0 {
        return Success(());
      }
      StatusDue(config, s);
      var response := BuildStatusResponse();
      ghost var rest := socket.stream[Consumed()..];
      assert rest == s[ScanFrame(s, 1, 1).used..];
      var written := socket.WriteAll(response);
      PrefixExtended(socket.sent, old(socket.sent) + response, PingReply(rest));
      assert old(socket.sent) + due == old(socket.sent) + response + PingReply(rest);
      if written.Failure? {
        return written;
      }
      r := AnswerPing();
    }

    /** Copies a serialized handshake into the buffer of the session. */
    method Store(packet: Bytes) returns (r: Result<bool>)
      requires |packet| <= MAX_INT32
      modifies this`totalWritten, serverBuffer
      ensures |packet| > serverBuffer.Length ==>
        && r == Failure(LengthError) && totalWritten == old(totalWritten)
        && serverBuffer[..] == old(serverBuffer[..])
      ensures |packet| <= serverBuffer.Length ==>
        && r == Success(true) && totalWritten == |packet|
        && serverBuffer[..|packet|] == packet
    {
      if |packet| > serverBuffer.Length {
        return Failure(LengthError);
      }
      Copy(serverBuffer, 0, packet);
      totalWritten := |packet|;
      return Success(true);
    }

    /** The handshake of a login client, rewritten into the buffer of the session. */
    method RewriteLogin(handshake: Handshake) returns (r: Result<bool>)
      modifies this`totalWritten, serverBuffer
      ensures match Rewrite(config, handshake)
        case None => r == Failure(InvalidArgument)
        case Some(wire) =>
          if |wire| > serverBuffer.Length then r == Failure(LengthError)
          else r == Success(true) && totalWritten == |wire| && serverBuffer[..|wire|] == wire
      ensures r != Success(true) ==>
        totalWritten == old(totalWritten) && serverBuffer[..] == old(serverBuffer[..])
    {
      hide Frame, Payload;
      var rewritten := handshake.(address := config.handshakeHost, port := config.upstreamPort);
      var newPacket :- SerializeHandshake(rewritten);
      FrameSizes(rewritten);
      r := Store(newPacket);
    }

    method InterceptHandshake() returns (r: Result<bool>)
      requires Valid() && Idle() && StatusFits(config)
      modifies this`readPos, this`writePos, this`totalWritten, socket`pos, socket`sent, buffer, serverBuffer
      ensures Valid() && Idle()
      ensures var v := Intercept(config, socket.stream[old(Consumed())..]);
        && (v.Undecided? ==> r == Failure(SystemError) && Consumed() == |socket.stream|)
        && (v.Refused? ==>
              && Consumed() == old(Consumed()) + v.used
              && r == if v.thrown then Failure(InvalidArgument) else Success(false))
        && (v.StatusClient? ==>
              && r != Success(true)
              && var request := Drop(socket.stream, old(Consumed()) + v.used);
              && var due := StatusReplies(config, request);
              && StatusEnds(request, Consumed() - old(Consumed()) - v.used, StatusOf(r))
              && old(socket.sent) <= socket.sent <= old(socket.sent) + due
              && (r.Success? ==> socket.sent == old(socket.sent) + due))
        && (v.Login? ==>
              && Consumed() == old(Consumed()) + v.used
              && if |v.wire| > serverBuffer.Length then r == Failure(LengthError) else
                 r == Success(true) && totalWritten == |v.wire| && serverBuffer[..|v.wire|] == v.wire)
        && (!v.StatusClient? ==> socket.sent == old(socket.sent))
      ensures r != Success(true) ==>
        totalWritten == old(totalWritten) && serverBuffer[..] == old(serverBuffer[..])
    {
      hide Parse, ScanFrame, StatusReplies, StatusEnds, Rewrite, Drop;
      var packet :- ReadFrame(1, MAX_PACKET_BYTES);
      if packet.None? {
        return Success(false);
      }
      var handshake :- ParseHandshake(packet.value);
      if handshake.nextState == 1 {
        TailIsDrop(socket.stream, Consumed());
        var _ :- WriteCustomStatusRequest();
        return Success(false);
      } else if handshake.nextState == 2 {
        r := RewriteLogin(handshake);
      } else {
        return Success(false);
      }
    }

    method GetPacketSize() returns (size: uint32)
      ensures size == totalWritten
    {
      size := totalWritten;
    }
  }
}
