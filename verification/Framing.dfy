/** Length-prefixed frames on a byte stream, as far as they can be recognised in what
    has been read so far. */
module Framing {
  import opened Basics
  import opened Bits
  import opened VarInt
  import opened Protocol

  /** What a reader of one frame knows after reading `s`: it needs more bytes, it gave
      up after `used` bytes (with an exception or with false), or it has the body. */
  datatype Scan =
    | More
    | Reject(used: nat, thrown: bool)
    | Body(used: nat, body: Bytes)
  {
    /** How many bytes were read when the outcome was known. */
    function Used(): nat
      requires !More?
    {
      used
    }
  }

  /** What a reader of one VarInt knows after reading `s`. */
  datatype LengthScan =
    | MoreLength
    | BadLength(used: nat, thrown: bool)
    | Length(value: uint32, used: nat)

  /** Reads bytes until one without bit 7 or until five are read, then decodes them. */
  function ScanLength(s: Bytes): LengthScan {
    var n := Continuations(s) + 1;
    if n > 5 then BadLength(5, false)
    else if n > |s| then MoreLength
    else
      match Decode(s)
      case None => BadLength(n, true)
      case Some(f) => Length(f.value, n)
  }

  /** Streaming and batch decoding agree: same success, same value, same bytes. */
  lemma {:induction false} StreamingAgreesWithBatch(s: Bytes, f: Field)
    ensures ScanLength(s) == Length(f.value, f.size) <==> Decode(s) == Some(f)
    ensures ScanLength(s).MoreLength? ==> |s| < 5 && forall k :: 0 <= k < |s| ==> s[k] >= 128
  {
    if Decode(s) == Some(f) {
      DecodeAccepts(s, f.value, f.size);
      ContinuationsOfPrefix(s, f.size);
    }
  }

  /** Reads the length VarInt, then a body of `lo` to `hi` bytes. */
  function ScanFrame(s: Bytes, lo: nat, hi: nat): (r: Scan)
    ensures r.Body? ==> lo <= |r.body| <= hi
  {
    match ScanLength(s)
    case MoreLength => More
    case BadLength(n, thrown) => Reject(n, thrown)
    case Length(v, n) =>
      if v < lo || v > hi then Reject(n, false)
      else if |s| < n + v then More
      else Body(n + v, s[n..n + v])
  }

  lemma {:induction false} ScanLengthIsOnline(s: Bytes, j: nat)
    requires j <= |s|
    ensures var r := ScanLength(s);
      && (!r.MoreLength? ==> 1 <= r.used <= |s|)
      && ScanLength(s[..j]) == if r.MoreLength? || j < r.used then MoreLength else r
  {
    var n := Continuations(s) + 1;
    ContinuationsOfPrefix(s, j);
    if n <= j && n <= 5 {
      assert s[..j][..n] == s[..n];
    }
  }

  /** The outcome is known after exactly `used` bytes: before that the reader wants
      more, and whatever follows changes nothing. */
  lemma {:induction false} ScanIsOnline(s: Bytes, lo: nat, hi: nat, j: nat)
    requires j <= |s|
    ensures var r := ScanFrame(s, lo, hi);
      && (!r.More? ==> 1 <= r.Used() <= |s|)
      && ScanFrame(s[..j], lo, hi) == if r.More? || j < r.Used() then More else r
  {
    ScanLengthIsOnline(s, j);
    match ScanLength(s)
    case MoreLength =>
    case BadLength(_, _) =>
    case Length(v, n) =>
      if n + v <= j {
        assert s[..j][n..n + v] == s[n..n + v];
      }
  }

  /** What a reader knows, from the batch decoder alone. A length out of bounds is refused as
      soon as it is read, before any of its body; a body is there with its last byte. Five
      bytes that are no length are refused, with an exception if the fifth would end one. */
  lemma {:induction false} ScanFrameExactly(s: Bytes, lo: nat, hi: nat)
    ensures match Decode(s)
      case Some(f) =>
        if f.value < lo || f.value > hi then ScanFrame(s, lo, hi) == Reject(f.size, false)
        else if |s| < f.size + f.value then ScanFrame(s, lo, hi) == More
        else ScanFrame(s, lo, hi) == Body(f.size + f.value, s[f.size..f.size + f.value])
      case None =>
        if |s| < 5 then ScanFrame(s, lo, hi) == More
        else ScanFrame(s, lo, hi) == Reject(5, s[4] < 128)
  {
    ScanLengthExactly(s);
    hide ScanLength, Decode;
  }

  lemma {:induction false} ScanLengthExactly(s: Bytes)
    ensures ScanLength(s) == match Decode(s)
      case Some(f) => Length(f.value, f.size)
      case None => if |s| < 5 then MoreLength else BadLength(5, s[4] < 128)
  {
    var n := Continuations(s) + 1;
    if Decode(s).None? {
      if n <= 4 && n <= |s| {
        SumBound(s[..n]);
        ShortSum(n);
      }
    }
  }

  lemma {:induction false} ShortSum(n: nat)
    requires n <= 4
    ensures Pow2(7 * n) <= TWO_TO_THE_32
  {
    GroupPowers();
    assert n == 0 || n == 1 || n == 2 || n == 3 || n == 4;
  }

  /** A frame in front of anything is read back, and nothing after it is touched. */
  lemma {:induction false} ScanOfFrame(payload: Bytes, rest: Bytes, lo: nat, hi: nat)
    requires lo <= |payload| <= hi && |payload| <= MAX_INT32
    ensures ScanFrame(Frame(payload) + rest, lo, hi) == Body(|Frame(payload)|, payload)
  {
    var e := Encode(|payload|);
    var s := e + (payload + rest);
    assert Frame(payload) + rest == s;
    RoundTrip(|payload|, payload + rest);
    StreamingAgreesWithBatch(s, Field(|payload|, |e|));
    assert s[|e|..|e| + |payload|] == payload;
  }

  function FrameAll(payloads: seq<Bytes>): Bytes {
    if payloads == [] then [] else Frame(payloads[0]) + FrameAll(payloads[1..])
  }

  /** `count` frames read one after the other, and the bytes left unread. */
  function ReadAll(s: Bytes, count: nat): Option<(seq<Bytes>, Bytes)>
    decreases count
  {
    if count == 0 then Some(([], s)) else
    match ScanFrame(s, 1, MAX_INT32)
    case More => None
    case Reject(_, _) => None
    case Body(used, body) =>
      if used > |s| then None else
      match ReadAll(s[used..], count - 1)
      case None => None
      case Some((bodies, rest)) => Some(([body] + bodies, rest))
  }

  predicate Framable(payload: Bytes) {
    1 <= |payload| <= MAX_INT32
  }

  /** Any list of packets survives framing, with any bytes behind it left alone. */
  lemma {:induction false} FramesRoundTrip(payloads: seq<Bytes>, rest: Bytes)
    requires forall p :: p in payloads ==> Framable(p)
    ensures ReadAll(FrameAll(payloads) + rest, |payloads|) == Some((payloads, rest))
  {
    hide Frame, ScanFrame;
    if payloads == [] {
      assert FrameAll(payloads) + rest == rest;
    } else {
      var p, tail := payloads[0], payloads[1..];
      assert Framable(p);
      var more := FrameAll(tail) + rest;
      assert FrameAll(payloads) + rest == Frame(p) + more;
      ScanOfFrame(p, more, 1, MAX_INT32);
      assert (Frame(p) + more)[|Frame(p)|..] == more;
      FramesRoundTrip(tail, rest);
      assert payloads == [p] + tail;
    }
  }

  /** No two lists of packets have the same frames on the wire. */
  lemma {:induction false} FramesUnique(a: seq<Bytes>, b: seq<Bytes>)
    requires forall p :: p in a ==> Framable(p)
    requires forall p :: p in b ==> Framable(p)
    requires FrameAll(a) == FrameAll(b)
    ensures a == b
  {
    if a != [] && b != [] {
      var p, q := a[0], b[0];
      assert Framable(p) && Framable(q);
      var s, t := FrameAll(a[1..]), FrameAll(b[1..]);
      ScanOfFrame(p, s, 1, MAX_INT32);
      ScanOfFrame(q, t, 1, MAX_INT32);
      assert Frame(p) + s == Frame(q) + t;
      assert p == q;
      assert s == (Frame(p) + s)[|Frame(p)|..] == t;
      FramesUnique(a[1..], b[1..]);
      assert a == [p] + a[1..] && b == [q] + b[1..];
    }
  }

  /** A serialized handshake, unframed and parsed, is the handshake, whatever follows. */
  lemma {:induction false} SerializedHandshake(h: Handshake, rest: Bytes)
    requires Valid(h)
    ensures var wire := Frame(Payload(h));
      && ScanFrame(wire + rest, 1, MAX_PACKET_BYTES) == Body(|wire|, Payload(h))
      && Parse(Payload(h)) == Some(h)
      && 8 <= |wire| <= 268
  {
    HandshakeRoundTrip(h);
    FrameSizes(h);
    ScanOfFrame(Payload(h), rest, 1, MAX_PACKET_BYTES);
  }
}
