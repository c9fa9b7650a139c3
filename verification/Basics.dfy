/** The machine types of the proxy, the results of operations that may throw, and
    the bit operations of the codec written out on unbounded integers. */
module Basics {
  type byte = x: int | 0 <= x < 0x100
  type uint16 = x: int | 0 <= x < 0x1_0000
  type uint32 = x: int | 0 <= x < TWO_TO_THE_32
  type uint64 = x: int | 0 <= x < TWO_TO_THE_64

  const TWO_TO_THE_32 := 0x1_0000_0000
  const TWO_TO_THE_64 := 0x1_0000_0000_0000_0000

  type Bytes = seq<byte>

  /** `s` with the bytes from `at` on replaced by `data`. */
  function Overwrite(s: Bytes, at: nat, data: Bytes): (r: Bytes)
    requires at + |data| <= |s|
    ensures |r| == |s| && r[at..at + |data|] == data
  {
    s[..at] + data + s[at + |data|..]
  }

  /** memcpy. */
  method Copy(target: array<byte>, at: nat, data: Bytes)
    requires at + |data| <= target.Length
    modifies target
    ensures target[..] == Overwrite(old(target[..]), at, data)
  {
    for i := 0 to |data|
      invariant target[..at] == old(target[..at])
      invariant target[at..at + i] == data[..i]
      invariant target[at + |data|..] == old(target[at + |data|..])
    {
      target[at + i] := data[i];
    }
    assert target[..] == target[..at] + target[at..at + |data|] + target[at + |data|..];
  }

  /** `s` without its element at `i`. */
  function Remove<T>(s: seq<T>, i: nat): seq<T>
    requires i < |s|
  {
    s[..i] + s[i + 1..]
  }

  /** What follows the first `n` bytes. */
  function Drop(s: Bytes, n: nat): Bytes {
    if n <= |s| then s[n..] else []
  }

  datatype Option<+T> = None | Some(value: T)

  /** The exceptions the code throws, by C++ class. */
  datatype Error = InvalidArgument | LengthError | SystemError

  datatype Result<+T> = Success(value: T) | Failure(error: Error) {
    predicate IsFailure() {
      Failure?
    }

    function PropagateFailure<U>(): Result<U>
      requires Failure?
    {
      Failure(error)
    }

    function Extract(): T
      requires Success?
    {
      value
    }
  }
}

/** `&`, `|`, `<<` and `>>` on unsigned integers, bit by bit. */
module Bits {
  function Pow2(k: nat): (p: nat)
    ensures p > 0
  {
    if k == 0 then 1 else 2 * Pow2(k - 1)
  }

  function And(a: nat, b: nat): nat
    decreases a + b
  {
    if a == 0 || b == 0 then 0
    else (if a % 2 == 1 && b % 2 == 1 then 1 else 0) + 2 * And(a / 2, b / 2)
  }

  function Or(a: nat, b: nat): nat
    decreases a + b
  {
    if a == 0 && b == 0 then 0
    else (if a % 2 == 1 || b % 2 == 1 then 1 else 0) + 2 * Or(a / 2, b / 2)
  }

  function Shl(a: nat, k: nat): nat {
    a * Pow2(k)
  }

  function Shr(a: nat, k: nat): nat {
    var p := Pow2(k);
    DivNonNegative(a, p);
    a / p
  }

  lemma {:induction false} DivNonNegative(a: nat, p: nat)
    requires p > 0
    ensures a / p >= 0
  {
  }

  lemma {:induction false} DoubleMod(a: nat, p: nat)
    requires p > 0
    ensures a % (2 * p) == a % 2 + 2 * ((a / 2) % p)
  {
    var h := a / 2;
    var q, r := h / p, h % p;
    assert h == q * p + r;
    assert a == a % 2 + 2 * (q * p + r);
    assert 2 * (q * p) == q * (2 * p);
    var m := a % 2 + 2 * r;
    assert a == q * (2 * p) + m && 0 <= m < 2 * p;
    DivModUnique(a, 2 * p, q, m);
  }

  lemma {:induction false} DivModUnique(a: int, d: int, q: int, r: int)
    requires d > 0 && 0 <= r < d && a == q * d + r
    ensures a / d == q && a % d == r
  {
    var q', r' := a / d, a % d;
    var x := q - q';
    assert x * d == q * d - q' * d;
    assert x * d == r' - r;
    if x >= 1 {
      MulAtLeast(x, d);
    } else if x <= -1 {
      MulAtLeast(-x, d);
    }
  }

  lemma {:induction false} MulAtLeast(x: int, d: int)
    requires x >= 1 && d > 0
    ensures x * d >= d
    decreases x
  {
    if x > 1 {
      MulAtLeast(x - 1, d);
      assert x * d == (x - 1) * d + d;
    }
  }

  lemma {:induction false} AndMaskStep(a: nat, p: nat)
    requires p > 0 && And(a / 2, p - 1) == (a / 2) % p
    ensures And(a, 2 * p - 1) == a % (2 * p)
  {
    DoubleMod(a, p);
    var m := 2 * p - 1;
    assert m % 2 == 1 && m / 2 == p - 1;
  }

  /** Masking with the low `k` bits set is the remainder modulo `2^k`. */
  lemma {:induction false} AndMask(a: nat, k: nat)
    ensures And(a, Pow2(k) - 1) == a % Pow2(k)
    decreases k
  {
    if k == 0 {
      DivModUnique(a, Pow2(k), a, 0);
    } else {
      AndMask(a / 2, k - 1);
      AndMaskStep(a, Pow2(k - 1));
    }
  }

  /** A mask with its low bit clear ignores the low bit of the other operand. */
  lemma {:induction false} AndEven(a: nat, m: nat)
    ensures And(a, 2 * m) == 2 * And(a / 2, m)
  {
    if a > 0 && m > 0 {
      assert (2 * m) % 2 == 0 && (2 * m) / 2 == m;
    }
  }

  /** Or-ing a value into the bits above another is addition: no bit is shared. */
  lemma {:induction false} OrAbove(low: nat, high: nat, k: nat)
    requires low < Pow2(k)
    ensures Or(low, Shl(high, k)) == low + Shl(high, k)
    decreases k
  {
    if k == 0 {
      OrZero(high);
    } else {
      var p := Pow2(k - 1);
      assert Pow2(k) == 2 * p;
      assert high * (2 * p) == 2 * (high * p);
      if low != 0 || Shl(high, k) != 0 {
        OrAbove(low / 2, high, k - 1);
        assert Shl(high, k) / 2 == Shl(high, k - 1);
      }
    }
  }

  lemma {:induction false} OrZero(a: nat)
    ensures Or(0, a) == a
    decreases a
  {
    if a > 0 {
      OrZero(a / 2);
    }
  }
}

/** Sums over sequences. */
module Sums {
  import opened Basics

  function SumOf<T>(f: T -> nat, s: seq<T>): nat {
    if s == [] then 0 else SumOf(f, s[..|s| - 1]) + f(s[|s| - 1])
  }

  lemma {:induction false} SumOfAppend<T>(f: T -> nat, s: seq<T>, x: T)
    ensures SumOf(f, s + [x]) == SumOf(f, s) + f(x)
  {
    assert (s + [x])[..|s|] == s;
  }

  lemma {:induction false} SumOfConcat<T>(f: T -> nat, a: seq<T>, b: seq<T>)
    ensures SumOf(f, a + b) == SumOf(f, a) + SumOf(f, b)
    decreases |b|
  {
    if b == [] {
      assert a + b == a;
    } else {
      var b0, x := b[..|b| - 1], b[|b| - 1];
      SumOfConcat(f, a, b0);
      SumOfAppend(f, a + b0, x);
      assert a + b == (a + b0) + [x];
    }
  }

  lemma {:induction false} SumOfRemove<T>(f: T -> nat, s: seq<T>, i: nat)
    requires i < |s|
    ensures SumOf(f, s) == SumOf(f, Remove(s, i)) + f(s[i])
  {
    var a, b := s[..i], s[i + 1..];
    assert s == (a + [s[i]]) + b;
    SumOfConcat(f, a + [s[i]], b);
    SumOfAppend(f, a, s[i]);
    SumOfConcat(f, a, b);
  }

  lemma {:induction false} SumOfReplace<T>(f: T -> nat, s: seq<T>, i: nat, x: T)
    requires i < |s|
    ensures SumOf(f, s[i := x]) + f(s[i]) == SumOf(f, s) + f(x)
  {
    SumOfRemove(f, s, i);
    SumOfRemove(f, s[i := x], i);
    assert Remove(s[i := x], i) == Remove(s, i);
  }
}
