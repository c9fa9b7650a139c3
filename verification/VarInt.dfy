/** The bounded 32-bit VarInt codec of the protocol's "VarInt and VarLong" encoding:
    seven value bits a byte, least significant group first, bit 7 set on every byte
    but the last. */
module VarInt {
  import opened Basics
  import opened Bits

  // ---- what the encoding means ----

  /** The base-128 sum of the low seven bits of every byte. */
  function Sum(s: Bytes): nat {
    if s == [] then 0 else s[0] % 128 + 128 * Sum(s[1..])
  }

  /** How many bytes at the front of `s` announce a further byte. */
  function Continuations(s: Bytes): (n: nat)
    ensures n <= |s|
    ensures forall k :: 0 <= k < n ==> s[k] >= 128
    ensures n < |s| ==> s[n] < 128
  {
    if s != [] && s[0] >= 128 then 1 + Continuations(s[1..]) else 0
  }

  /** One complete encoding: one to five bytes, only the last without bit 7, and a
      value that fits 32 bits. Encodings need not be minimal. */
  predicate IsVarInt(p: Bytes) {
    && 1 <= |p| <= 5
    && Continuations(p) == |p| - 1
    && Sum(p) < TWO_TO_THE_32
  }

  /** No shorter encoding of the same value exists (see Shortest). */
  predicate Minimal(p: Bytes) {
    |p| == 1 || (|p| > 1 && p[|p| - 1] != 0)
  }

  datatype Field = Field(value: uint32, size: nat)

  /** The VarInt at the front of `s`, if there is one. */
  function Decode(s: Bytes): (r: Option<Field>)
    ensures r.Some? ==> 1 <= r.value.size <= 5 && r.value.size <= |s|
  {
    var n := Continuations(s) + 1;
    if n <= |s| && n <= 5 && Sum(s[..n]) < TWO_TO_THE_32
    then Some(Field(Sum(s[..n]), n))
    else None
  }

  function Encode(value: nat): Bytes {
    if value < 128 then [value] else [128 + value % 128] + Encode(value / 128)
  }

  // ---- properties of the encoding ----

  lemma {:induction false} SumAppend(p: Bytes, b: byte)
    ensures Sum(p + [b]) == Sum(p) + Shl(b % 128, 7 * |p|)
  {
    if p == [] {
      assert p + [b] == [b];
      assert Sum([b]) == b % 128 + 128 * Sum([b][1..]);
    } else {
      assert (p + [b])[1..] == p[1..] + [b];
      SumAppend(p[1..], b);
      var n := 7 * (|p| - 1);
      Pow2Seven(n);
      assert (b % 128) * (128 * Pow2(n)) == 128 * ((b % 128) * Pow2(n));
    }
  }

  lemma {:induction false} Pow2Seven(n: nat)
    ensures Pow2(n + 7) == 128 * Pow2(n)
  {
    assert Pow2(n + 7) == 2 * Pow2(n + 6);
    assert Pow2(n + 6) == 2 * Pow2(n + 5);
    assert Pow2(n + 5) == 2 * Pow2(n + 4);
    assert Pow2(n + 4) == 2 * Pow2(n + 3);
    assert Pow2(n + 3) == 2 * Pow2(n + 2);
    assert Pow2(n + 2) == 2 * Pow2(n + 1);
    assert Pow2(n + 1) == 2 * Pow2(n);
  }

  lemma {:induction false} SumBound(p: Bytes)
    ensures Sum(p) < Pow2(7 * |p|)
  {
    if p != [] {
      SumBound(p[1..]);
      Pow2Seven(7 * (|p| - 1));
    }
  }

  lemma {:induction false} ContinuationsOfPrefix(s: Bytes, n: nat)
    requires n <= |s|
    ensures Continuations(s[..n]) == if Continuations(s) < n then Continuations(s) else n
  {
    var c := Continuations(s[..n]);
    assert forall k :: 0 <= k < c ==> s[..n][k] == s[k];
    if c < n {
      assert s[..n][c] == s[c];
    }
  }

  /** The batch decoder accepts exactly the encodings, wherever they end. */
  lemma {:induction false} DecodeAccepts(s: Bytes, value: uint32, size: nat)
    ensures Decode(s) == Some(Field(value, size))
       <==> size <= |s| && IsVarInt(s[..size]) && Sum(s[..size]) == value
  {
    if size <= |s| {
      ContinuationsOfPrefix(s, size);
    }
  }

  /** What follows an encoding has no influence on it. */
  lemma {:induction false} DecodeLocal(p: Bytes, rest: Bytes)
    requires IsVarInt(p)
    ensures Decode(p + rest) == Some(Field(Sum(p), |p|))
  {
    assert (p + rest)[..|p|] == p;
    DecodeAccepts(p + rest, Sum(p), |p|);
  }

  /** Cuts the VarInt at the front of a stream off: its spelling and what follows. */
  function Cut(s: Bytes): Option<(Bytes, Bytes)> {
    match Decode(s)
    case None => None
    case Some(f) => Some((s[..f.size], s[f.size..]))
  }

  lemma {:induction false} CutAccepts(s: Bytes, p: Bytes, rest: Bytes)
    ensures Cut(s) == Some((p, rest)) <==> IsVarInt(p) && s == p + rest
  {
    if IsVarInt(p) && s == p + rest {
      DecodeLocal(p, rest);
    } else if Cut(s) == Some((p, rest)) {
      DecodeAccepts(s, Sum(p), |p|);
    }
  }

  lemma {:induction false} EncodeIsVarInt(value: nat, limit: nat)
    requires value < Pow2(7 * (limit + 1))
    ensures var p := Encode(value);
      && 1 <= |p| <= limit + 1 && Continuations(p) == |p| - 1
      && Sum(p) == value && Minimal(p)
    decreases value
  {
    var p := Encode(value);
    if value >= 128 {
      Pow2Seven(7 * limit);
      assert Pow2(0) == 1 && Pow2(7) == 128 by {
        Pow2Seven(0);
      }
      EncodeIsVarInt(value / 128, limit - 1);
      assert p[1..] == Encode(value / 128);
    } else {
      assert p[1..] == [];
      assert Sum(p) == value;
    }
  }

  lemma {:induction false} Encoded(value: uint32)
    ensures IsVarInt(Encode(value)) && Sum(Encode(value)) == value && Minimal(Encode(value))
  {
    Pow2Seven(28); Pow2Seven(21); Pow2Seven(14); Pow2Seven(7); Pow2Seven(0);
    assert Pow2(0) == 1;
    EncodeIsVarInt(value, 4);
  }

  /** Reading inverts writing, whatever bytes follow. */
  lemma {:induction false} RoundTrip(value: uint32, rest: Bytes)
    ensures Decode(Encode(value) + rest) == Some(Field(value, |Encode(value)|))
  {
    Encoded(value);
    DecodeLocal(Encode(value), rest);
  }

  /** Writing gives the shortest accepted encoding, and the only one of its length;
      it is reached exactly by the encodings without a final zero group. */
  lemma {:induction false} Shortest(p: Bytes)
    requires p != [] && Continuations(p) == |p| - 1
    ensures |Encode(Sum(p))| <= |p|
    ensures |Encode(Sum(p))| == |p| <==> p == Encode(Sum(p))
    ensures p == Encode(Sum(p)) <==> Minimal(p)
    decreases |p|
  {
    if |p| > 1 {
      var t := p[1..];
      assert p == [p[0]] + t;
      Shortest(t);
      hide Encode, Sum, Minimal;
      ShortestStep(p[0], t);
    }
  }

  lemma {:induction false} ShortestStep(b: byte, t: Bytes)
    requires b >= 128 && t != []
    requires t == Encode(Sum(t)) <==> Minimal(t)
    ensures var p := [b] + t;
      && Encode(Sum(p)) == (if Sum(t) == 0 then [b % 128] else [b] + Encode(Sum(t)))
      && (p == Encode(Sum(p)) <==> Minimal(p))
  {
    var p := [b] + t;
    assert p[1..] == t;
    hide Continuations;
    assert Sum(p) == b % 128 + 128 * Sum(t);
    if Sum(t) == 0 {
      assert Encode(0) == [0];
    } else {
      assert Sum(p) / 128 == Sum(t) && Sum(p) % 128 == b % 128;
      if p == Encode(Sum(p)) {
        assert Encode(Sum(p))[1..] == t;
      }
    }
    assert p[|p| - 1] == t[|t| - 1];
    if |t| == 1 {
      assert t == [t[0]];
      assert Sum(t) == t[0] % 128 + 128 * Sum(t[1..]);
    }
  }

  /** Two accepted encodings that begin the same stream are the same encoding. */
  lemma {:induction false} PrefixFree(p: Bytes, q: Bytes, s: Bytes, t: Bytes)
    requires IsVarInt(p) && IsVarInt(q) && p + s == q + t
    ensures p == q && s == t
  {
    DecodeLocal(p, s);
    DecodeLocal(q, t);
    assert p == (p + s)[..|p|] && q == (q + t)[..|q|];
    assert s == (p + s)[|p|..] && t == (q + t)[|q|..];
  }

  // ---- the bit tests of the loops ----

  lemma {:induction false} GroupPowers()
    ensures Pow2(0) == 1 && Pow2(7) == 128 && Pow2(14) == 0x4000
    ensures Pow2(21) == 0x20_0000 && Pow2(28) == 0x1000_0000
  {
    Pow2Seven(0); Pow2Seven(7); Pow2Seven(14); Pow2Seven(21);
  }

  lemma {:induction false} AndNibble(b: byte)
    ensures And(b, 0xF0) == 0 <==> b < 16
  {
    hide And;
    AndEven(b, 0x78); AndEven(b / 2, 0x3C); AndEven(b / 2 / 2, 0x1E); AndEven(b / 2 / 2 / 2, 0xF);
    assert b / 2 / 2 / 2 / 2 == b / 16 < 16;
    assert Pow2(4) == 16;
    AndMask(b / 16, 4);
  }

  lemma {:induction false} AndHigh(b: byte)
    ensures And(b, 0x80) == 0 <==> b < 128
  {
    hide And;
    AndEven(b, 0x40); AndEven(b / 2, 0x20); AndEven(b / 4, 0x10); AndEven(b / 8, 8);
    AndEven(b / 16, 4); AndEven(b / 32, 2); AndEven(b / 64, 1);
    assert Pow2(1) == 2;
    AndMask(b / 128, 1);
    assert b / 128 == if b < 128 then 0 else 1;
  }

  lemma {:induction false} ByteMasks(b: byte)
    ensures And(b, 0x7F) == b % 128
    ensures And(b, 0x80) == 0 <==> b < 128
    ensures And(b, 0xF0) == 0 <==> b < 16
  {
    hide And;
    GroupPowers();
    AndMask(b, 7);
    AndNibble(b);
    AndHigh(b);
  }

  lemma {:induction false} GroupFits(b: byte, value: nat, n: nat)
    requires n <= 4 && value < Pow2(7 * n) && (n == 4 ==> b < 16)
    ensures value + Shl(b % 128, 7 * n) < TWO_TO_THE_32
  {
    GroupPowers();
    assert n == 0 || n == 1 || n == 2 || n == 3 || n == 4;
  }

  /** A fifth byte with a high nibble makes every continuation fail. */
  lemma {:induction false} FifthByte(s: Bytes)
    requires |s| >= 5 && (forall k :: 0 <= k < 4 ==> s[k] >= 128) && s[4] >= 16
    ensures Decode(s).None?
  {
    if s[4] < 128 {
      assert Continuations(s) == 4;
      assert s[..5] == s[..4] + [s[4]];
      SumAppend(s[..4], s[4]);
      GroupPowers();
    }
  }

  /** The update of the decoding loop; the shift drops bits beyond 32. */
  function OrGroup(value: uint32, current: byte, i: nat): nat {
    Or(value, Shl(And(current, 0x7F), i) % TWO_TO_THE_32)
  }

  /** One iteration of the decoding loop: or-ing in the next group extends the sum. */
  lemma {:induction false} AppendGroup(s: Bytes, n: nat, value: uint32)
    requires n < |s| && n <= 4 && value == Sum(s[..n]) && (n == 4 ==> s[n] < 16)
    ensures OrGroup(value, s[n], 7 * n) == Sum(s[..n + 1]) < TWO_TO_THE_32
  {
    var g := s[n] % 128;
    assert Sum(s[..n + 1]) == value + Shl(g, 7 * n) by {
      assert s[..n + 1] == s[..n] + [s[n]];
      SumAppend(s[..n], s[n]);
    }
    assert value < Pow2(7 * n) by {
      SumBound(s[..n]);
    }
    GroupFits(s[n], value, n);
    OrAbove(value, g, 7 * n);
    OrGroupIs(value, s[n], 7 * n);
  }

  lemma {:induction false} OrGroupIs(value: uint32, current: byte, i: nat)
    requires Shl(current % 128, i) < TWO_TO_THE_32
    ensures OrGroup(value, current, i) == Or(value, Shl(current % 128, i))
  {
    hide Or, Shl, And;
    ByteMasks(current);
  }

  /** The group written next, and what is left after it. */
  lemma {:induction false} NextGroup(rest: uint32)
    ensures And(rest, 0x7F) == rest % 128 && Shr(rest, 7) == rest / 128
    ensures Or(rest % 128, 0x80) == rest % 128 + 128
  {
    GroupPowers();
    AndMask(rest, 7);
    assert Shl(1, 7) == 128;
    OrAbove(rest % 128, 1, 7);
  }

  // ---- the two loops ----

  /** varint::read on the span of `length` bytes at `start`. */
  method Read(buffer: array?<byte>, start: nat, length: nat) returns (r: Result<Field>)
    requires buffer != null ==> start + length <= buffer.Length
    ensures r.Failure? ==> r.error == InvalidArgument
    ensures r.Success? <==> buffer != null && Decode(buffer[start..start + length]).Some?
    ensures r.Success? ==> Decode(buffer[start..start + length]) == Some(r.value)
  {
    hide And, Pow2, OrGroup;
    if buffer == null {
      return Failure(InvalidArgument);
    }
    ghost var s := buffer[start..start + length];
    var value: uint32 := 0;
    var bytesRead := 0;
    var i := 0;
    while i < 32 && bytesRead < length
      invariant i == 7 * bytesRead <= 35 && bytesRead <= length
      invariant forall k :: 0 <= k < bytesRead ==> s[k] >= 128
      invariant value == Sum(s[..bytesRead])
      decreases 32 - i
    {
      var current := buffer[start + bytesRead];
      ByteMasks(current);
      if i == 28 && And(current, 0xF0) != 0 {
        FifthByte(s);
        return Failure(InvalidArgument);
      }
      AppendGroup(s, bytesRead, value);
      value := OrGroup(value, current, i);
      bytesRead := bytesRead + 1;
      if And(current, 0x80) == 0 {
        assert Continuations(s) == bytesRead - 1;
        return Success(Field(value, bytesRead));
      }
      i := i + 7;
    }
    return Failure(InvalidArgument);
  }

  /** varint::write into the span of `capacity` bytes at `start`. */
  method Write(buffer: array?<byte>, start: nat, capacity: nat, value: uint32) returns (r: Result<nat>)
    requires buffer != null ==> start + capacity <= buffer.Length
    modifies buffer
    ensures r.Failure? ==> r.error == LengthError
    ensures r.Success? <==> buffer != null && |Encode(value)| <= capacity
    ensures r.Success? ==> r.value == |Encode(value)|
    ensures r.Success? ==>
      buffer[..] == old(buffer[..start]) + Encode(value) + old(buffer[start + |Encode(value)|..])
    ensures r.Failure? && buffer != null ==> buffer[..] == old(buffer[..])
  {
    hide And, Or, Shr, Pow2;
    var required := 1;
    var remaining: uint32 := value;
    while remaining >= 128
      invariant required - 1 + |Encode(remaining)| == |Encode(value)|
      invariant buffer != null ==> buffer[..] == old(buffer[..])
    {
      NextGroup(remaining);
      remaining := Shr(remaining, 7);
      required := required + 1;
    }
    if buffer == null || capacity < required {
      return Failure(LengthError);
    }
    ghost var before := buffer[..];
    var rest: uint32 := value;
    var written := 0;
    var more := true;
    while more
      invariant 0 <= written <= |Encode(value)| <= capacity
      invariant more ==> Encode(value)[written..] == Encode(rest)
      invariant !more ==> written == |Encode(value)|
      invariant buffer[..start] == before[..start]
      invariant buffer[start..start + written] == Encode(value)[..written]
      invariant buffer[start + written..] == before[start + written..]
      decreases more, rest
    {
      NextGroup(rest);
      ghost var tail := Encode(rest);
      var current: byte := And(rest, 0x7F);
      rest := Shr(rest, 7);
      if rest != 0 {
        current := Or(current, 0x80);
      }
      buffer[start + written] := current;
      written := written + 1;
      more := rest != 0 && written < capacity;
    }
    assert buffer[..] == buffer[..start] + buffer[start..start + written] + buffer[start + written..];
    return Success(written);
  }
}
