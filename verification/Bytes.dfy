/** Bytes, powers of two, and the C bit operators on unsigned integers.

    The operators are written bit by bit on natural numbers, so that `|=`, `^` and
    `<<` in the source are modelled as themselves and their arithmetic meaning is
    proved here. */
module Bytes {

  type byte = x: int | 0 <= x < 256
  type bytes = seq<byte>

  const KEY_SIZE := 32
  const TWO64 := 0x1_0000_0000_0000_0000
  const TWO32 := 0x1_0000_0000

  /** 32 bytes: a key, a point or a scalar. */
  type key = k: bytes | |k| == KEY_SIZE witness seq(KEY_SIZE, _ => 0)

  /** Optional values. */
  datatype Option<+T> = None | Some(value: T)

  function Pow2(n: nat): (p: nat)
    ensures p >= 1
  {
    if n == 0 then 1 else 2 * Pow2(n - 1)
  }

  function Xor(a: nat, b: nat): nat
    decreases a + b
  {
    if a == 0 && b == 0 then 0 else (a % 2 + b % 2) % 2 + 2 * Xor(a / 2, b / 2)
  }

  function Or(a: nat, b: nat): nat
    decreases a + b
  {
    if a == 0 && b == 0 then 0
    else (if a % 2 == 0 && b % 2 == 0 then 0 else 1) + 2 * Or(a / 2, b / 2)
  }

  predicate AllZero(s: bytes)
  {
    forall i :: 0 <= i < |s| ==> s[i] == 0
  }

  /** `x << n` without a word size. Written by doubling, so its laws stay linear. */
  function Shl(x: nat, n: nat): nat
  {
    if n == 0 then x else 2 * Shl(x, n - 1)
  }

  lemma {:induction false} ShlOne(n: nat)
    ensures Shl(1, n) == Pow2(n)
  {
    if n > 0 { ShlOne(n - 1); }
  }

  lemma {:induction false} ShlMono(x: nat, y: nat, n: nat)
    requires x <= y
    ensures Shl(x, n) <= Shl(y, n)
  {
    if n > 0 { ShlMono(x, y, n - 1); }
  }

  lemma {:induction false} ShlBound(x: nat, m: nat, n: nat)
    requires x < Pow2(m)
    ensures Shl(x, n) < Pow2(m + n)
  {
    if n > 0 { ShlBound(x, m, n - 1); }
  }

  lemma {:induction false} Pow2Mono(m: nat, n: nat)
    requires m <= n
    ensures Pow2(m) <= Pow2(n)
    decreases n
  {
    if m < n { Pow2Mono(m, n - 1); }
  }

  lemma Pow2Byte(n: nat)
    ensures Pow2(n + 8) == 256 * Pow2(n) == 2 * Pow2(n + 7)
  {
    assert Pow2(n + 2) == 4 * Pow2(n);
    assert Pow2(n + 4) == 16 * Pow2(n);
    assert Pow2(n + 6) == 64 * Pow2(n);
  }

  lemma Pow2Zero()
    ensures Pow2(0) == 1
  {
  }

  lemma Pow2Values()
    ensures Pow2(7) == 128 && Pow2(8) == 256 && Pow2(32) == TWO32
    ensures 2 * Pow2(63) == Pow2(64) == TWO64
  {
    Pow2Zero();
    hide Pow2;
    Pow2Byte(0); Pow2Byte(8); Pow2Byte(16); Pow2Byte(24);
    Pow2Byte(32); Pow2Byte(40); Pow2Byte(48); Pow2Byte(56);
  }

  /** An exclusive-or never needs more bits than its operands. */
  lemma {:induction false} XorBound(a: nat, b: nat, n: nat)
    requires a < Pow2(n) && b < Pow2(n)
    ensures Xor(a, b) < Pow2(n)
    decreases n
  {
    if a != 0 || b != 0 { XorBound(a / 2, b / 2, n - 1); }
  }

  /** `a ^ b` is zero exactly when the operands agree. */
  lemma {:induction false} XorZero(a: nat, b: nat)
    ensures Xor(a, b) == 0 <==> a == b
    decreases a + b
  {
    if a != 0 || b != 0 {
      XorZero(a / 2, b / 2);
    }
  }

  lemma XorBits(t: nat, x: nat, u: nat, y: nat)
    requires t < 2 && u < 2
    ensures Xor(t + 2 * x, u + 2 * y) == (t + u) % 2 + 2 * Xor(x, y)
  {
    assert (t + 2 * x) / 2 == x && (u + 2 * y) / 2 == y;
    assert (t + 2 * x) % 2 == t && (u + 2 * y) % 2 == u;
  }

  lemma XorHalves(a: nat, b: nat)
    ensures Xor(a, b) == (a % 2 + b % 2) % 2 + 2 * Xor(a / 2, b / 2)
  {
  }

  lemma ParityCancel(x: nat, u: nat)
    requires x < 2 && u < 2
    ensures ((x + u) % 2 + u) % 2 == x
  {
  }

  /** Exclusive-or with the same operand twice gives the first value back. */
  lemma {:induction false} XorCancel(a: nat, b: nat)
    ensures Xor(Xor(a, b), b) == a
    decreases a + b
  {
    if a != 0 || b != 0 {
      hide Xor;
      XorCancel(a / 2, b / 2);
      XorHalves(a, b);
      ParityCancel(a % 2, b % 2);
      XorBits((a % 2 + b % 2) % 2, Xor(a / 2, b / 2), b % 2, b / 2);
    }
  }

  lemma {:induction false} OrZero(a: nat, b: nat)
    ensures Or(a, b) == 0 <==> a == 0 && b == 0
    decreases a + b
  {
    if a != 0 || b != 0 { OrZero(a / 2, b / 2); }
  }

  lemma {:induction false} OrBound(a: nat, b: nat, n: nat)
    requires a < Pow2(n) && b < Pow2(n)
    ensures Or(a, b) < Pow2(n)
    decreases n
  {
    if a != 0 || b != 0 { OrBound(a / 2, b / 2, n - 1); }
  }

  lemma {:induction false} OrRightZero(a: nat)
    ensures Or(a, 0) == a && Or(0, a) == a
  {
    if a != 0 { OrRightZero(a / 2); }
  }

  /** Or-ing in a value shifted past every set bit is an addition: no bit is lost. */
  lemma {:induction false} OrShifted(v: nat, c: nat, s: nat)
    requires v < Pow2(s)
    ensures Or(v, Shl(c, s)) == v + Shl(c, s)
    decreases s
  {
    if s == 0 {
      OrRightZero(c);
    } else {
      OrShifted(v / 2, c, s - 1);
      OrBits(v % 2, v / 2, Shl(c, s - 1));
    }
  }

  lemma OrBits(t: nat, x: nat, y: nat)
    requires t < 2
    ensures Or(t + 2 * x, 2 * y) == t + 2 * Or(x, y)
  {
    assert (t + 2 * x) / 2 == x && (t + 2 * x) % 2 == t;
  }

  function XorByte(a: byte, b: byte): (r: byte)
    ensures r == 0 <==> a == b
    ensures Xor(r, b) == a
  {
    assert Pow2(8) == 256;
    XorBound(a, b, 8);
    XorZero(a, b);
    XorCancel(a, b);
    Xor(a, b)
  }

  /** Masking a byte twice gives it back. */
  lemma XorByteTwice(x: byte, y: byte)
    ensures XorByte(XorByte(x, y), y) == x
  {
    hide Xor;
    var r := XorByte(x, y);
  }

  function OrByte(a: byte, b: byte): (r: byte)
    ensures r == 0 <==> a == 0 && b == 0
  {
    assert Pow2(8) == 256;
    OrBound(a, b, 8);
    OrZero(a, b);
    Or(a, b)
  }

  /** Subtraction of two `uint64_t`, with the C wrap-around. */
  function Sub64(a: nat, b: nat): (r: nat)
    ensures b <= a < TWO64 ==> r == a - b
  {
    (a - b) % TWO64
  }

  function Flatten(parts: seq<bytes>): bytes
  {
    if parts == [] then [] else parts[0] + Flatten(parts[1..])
  }

  lemma {:induction false} FlattenSnoc(parts: seq<bytes>, p: bytes)
    ensures Flatten(parts + [p]) == Flatten(parts) + p
  {
    if parts == [] {
      assert [p][1..] == [];
      assert parts + [p] == [p];
    } else {
      FlattenSnoc(parts[1..], p);
      assert (parts + [p])[1..] == parts[1..] + [p];
    }
  }
}
