/** Scalars modulo the order of the prime subgroup, in place on 32-byte buffers.

    The app keeps scalars little-endian and the SDK computes big-endian, so every
    operation reverses its operands, calls the SDK, and reverses the result in place. */
module Scalars {
  import opened Bytes
  import opened Status

  /** l of section 5.1 of RFC 8032. */
  const L := 0x1000000000000000000000000000000014def9dea2f79cd65812631a5cf5d3ed

  function Rev(s: bytes): (r: bytes)
    ensures |r| == |s| && forall i :: 0 <= i < |s| ==> r[i] == s[|s| - 1 - i]
  {
    seq(|s|, i requires 0 <= i < |s| => s[|s| - 1 - i])
  }

  lemma RevRev(s: bytes)
    ensures Rev(Rev(s)) == s
  {
  }

  function FromBE(s: bytes): nat
  {
    if s == [] then 0 else 256 * FromBE(s[..|s| - 1]) + s[|s| - 1]
  }

  /** The `n` low bytes of `v`, most significant first. */
  function ToBE(v: nat, n: nat): (s: bytes)
    ensures |s| == n
  {
    if n == 0 then [] else ToBE(v / 256, n - 1) + [v % 256]
  }

  /** The number a scalar buffer holds. */
  function LE(s: bytes): nat
  {
    FromBE(Rev(s))
  }

  function ToLE(v: nat): (s: bytes)
    ensures |s| == KEY_SIZE
  {
    Rev(ToBE(v, KEY_SIZE))
  }

  lemma {:induction false} FromToBE(v: nat, n: nat)
    requires v < Pow2(8 * n)
    ensures FromBE(ToBE(v, n)) == v
    decreases n
  {
    if n > 0 {
      Pow2Byte(8 * (n - 1));
      FromToBE(v / 256, n - 1);
      var s := ToBE(v, n);
      assert s[..|s| - 1] == ToBE(v / 256, n - 1);
    }
  }

  lemma {:induction false} ToFromBE(s: bytes)
    ensures ToBE(FromBE(s), |s|) == s
  {
    if s != [] {
      var t := s[..|s| - 1];
      ToFromBE(t);
      LastDigit(FromBE(t), s[|s| - 1]);
      assert s == t + [s[|s| - 1]];
    }
  }

  lemma LastDigit(x: nat, b: byte)
    ensures (256 * x + b) / 256 == x && (256 * x + b) % 256 == b
  {
  }

  /** A buffer is its number: two 32-byte buffers with one number are equal. */
  lemma ToLELE(s: bytes)
    requires |s| == KEY_SIZE
    ensures ToLE(LE(s)) == s
  {
    hide FromBE, ToBE;
    ToFromBE(Rev(s));
    RevRev(s);
  }

  lemma OrderFits()
    ensures L < Pow2(256)
  {
    hide Pow2;
    Pow2Values();
    Pow2Byte(64); Pow2Byte(72); Pow2Byte(80); Pow2Byte(88); Pow2Byte(96); Pow2Byte(104); Pow2Byte(112); Pow2Byte(120);
    Pow2Byte(128); Pow2Byte(136); Pow2Byte(144); Pow2Byte(152);
    Pow2Byte(160); Pow2Byte(168); Pow2Byte(176); Pow2Byte(184);
    Pow2Byte(192); Pow2Byte(200); Pow2Byte(208); Pow2Byte(216);
    Pow2Byte(224); Pow2Byte(232); Pow2Byte(240); Pow2Byte(248);
  }

  /** Reduced values survive the trip through a buffer. */
  lemma LEToLE(v: nat)
    requires v < L
    ensures LE(ToLE(v)) == v
  {
    hide Pow2, FromBE, ToBE;
    OrderFits();
    FromToBE(v, KEY_SIZE);
    RevRev(ToBE(v, KEY_SIZE));
  }

  // --- the SDK's big-endian arithmetic, as its documentation states it ------------

  method Store(r: array<byte>, s: bytes)
    requires r.Length >= KEY_SIZE && |s| == KEY_SIZE
    modifies r
    ensures r[..KEY_SIZE] == s && r[KEY_SIZE..] == old(r[KEY_SIZE..])
  {
    for i := 0 to KEY_SIZE
      invariant forall j :: 0 <= j < i ==> r[j] == s[j]
      invariant forall j :: KEY_SIZE <= j < r.Length ==> r[j] == old(r[j])
    {
      r[i] := s[i];
    }
  }

  method Zero(r: array<byte>)
    modifies r
    ensures forall i :: 0 <= i < r.Length ==> r[i] == 0
  {
    for i := 0 to r.Length
      invariant forall j :: 0 <= j < i ==> r[j] == 0
    {
      r[i] := 0;
    }
  }

  /** `monero_reverse32`: `r` may be `s` itself. */
  method Reverse32(r: array<byte>, s: array<byte>) returns (sw: nat)
    modifies r
    ensures sw == if r.Length < 32 || s.Length < 32 then SW_WRONG_DATA_RANGE else 0
    ensures sw == 0 ==> r[..32] == Rev(old(s[..32])) && r[32..] == old(r[32..])
    ensures sw != 0 ==> r[..] == old(r[..])
  {
    if r.Length < 32 || s.Length < 32 { return SW_WRONG_DATA_RANGE; }
    for i := 0 to 16
      invariant forall j :: 0 <= j < i || 32 - i <= j < 32 ==> r[j] == old(s[31 - j])
      invariant forall j :: i <= j < 32 - i ==> s[j] == old(s[j])
      invariant forall j :: 32 <= j < r.Length ==> r[j] == old(r[j])
    {
      var x := s[i];
      r[i] := s[31 - i];
      r[31 - i] := x;
    }
    sw := 0;
  }

  /** The three reversed-operand operations differ in one line. */
  datatype Op = Add | Sub | Mul

  function Compute(op: Op, x: nat, y: nat): nat
  {
    match op
    case Add => (x + y) % L
    case Sub => (x - y) % L
    case Mul => (x * y) % L
  }

  lemma ComputeReduced(op: Op, x: nat, y: nat)
    ensures Compute(op, x, y) < L
  {
  }

  /** What the SDK does with an operand that is not reduced, which its documentation leaves
      open: an answer, or an error. */
  type Odd = (Op, bytes, bytes) -> Option<key>

  /** The three operations on big-endian operands: exact below the modulus. */
  function SdkOp(odd: Odd, op: Op, a: bytes, b: bytes): Option<key>
  {
    if FromBE(a) < L && FromBE(b) < L then Some(ToBE(Compute(op, FromBE(a), FromBE(b)), KEY_SIZE)) else odd(op, a, b)
  }

  /** cx_math_addm/subm/multm_no_throw */
  method MathOp(odd: Odd, op: Op, r: array<byte>, a: array<byte>, b: array<byte>) returns (ok: bool)
    requires r.Length >= KEY_SIZE && a.Length == b.Length == KEY_SIZE
    modifies r
    ensures ok == old(SdkOp(odd, op, a[..], b[..])).Some?
    ensures ok ==> r[..KEY_SIZE] == old(SdkOp(odd, op, a[..], b[..])).value && r[KEY_SIZE..] == old(r[KEY_SIZE..])
  {
    var v := SdkOp(odd, op, a[..], b[..]);
    ok := v.Some?;
    if ok { Store(r, v.value); }
  }

  /** The same on the app's little-endian buffers. */
  function ModValue(odd: Odd, op: Op, a: key, b: key): Option<key>
  {
    match SdkOp(odd, op, Rev(a), Rev(b))
    case None => None
    case Some(v) => Some(Rev(v))
  }

  /** On reduced operands this is the residue. */
  lemma ModValueReduced(odd: Odd, op: Op, a: key, b: key)
    requires LE(a) < L && LE(b) < L
    ensures ModValue(odd, op, a, b) == Some(ToLE(Compute(op, LE(a), LE(b))))
  {
    hide FromBE, ToBE, Compute;
  }

  /** `monero_addm`, `monero_subm`, `monero_multm`: `r` may be either operand. */
  method ModOp(odd: Odd, op: Op, r: array<byte>, a: array<byte>, b: array<byte>) returns (sw: nat)
    modifies r
    ensures r.Length < 32 || a.Length < 32 || b.Length < 32 ==> sw == SW_WRONG_DATA_RANGE
    ensures r.Length >= 32 && a.Length >= 32 && b.Length >= 32 ==>
      sw == if old(ModValue(odd, op, a[..32], b[..32])).Some? then 0 else SW_SECURITY_INTERNAL
    ensures sw == 0 ==> r[..KEY_SIZE] == old(ModValue(odd, op, a[..32], b[..32])).value
    ensures sw == 0 ==> r[KEY_SIZE..] == old(r[KEY_SIZE..])
  {
    hide SdkOp, Rev;
    if r.Length < 32 { return SW_WRONG_DATA_RANGE; }
    var ra := new byte[32];
    var rb := new byte[32];
    sw := Reverse32(ra, a);
    if sw != 0 { return; }
    sw := Reverse32(rb, b);
    if sw != 0 { return; }
    assert ra[..] == ra[..32] && rb[..] == rb[..32];
    var ok := MathOp(odd, op, r, ra, rb);
    if !ok { return SW_SECURITY_INTERNAL; }
    sw := Reverse32(r, r);
    Zero(ra);
    Zero(rb);
  }

  /** `monero_reduce`: `r` may be `a` itself. */
  method Reduce(r: array<byte>, a: array<byte>) returns (sw: nat)
    modifies r
    ensures sw == if r.Length < 32 || a.Length < 32 then SW_WRONG_DATA_RANGE else 0
    ensures sw == 0 ==> LE(r[..KEY_SIZE]) == old(LE(a[..KEY_SIZE])) % L && r[KEY_SIZE..] == old(r[KEY_SIZE..])
  {
    hide FromBE, ToBE, Rev;
    var ra := new byte[32];
    sw := Reverse32(ra, a);
    if sw != 0 { Zero(ra); return SW_WRONG_DATA_RANGE; }
    assert ra[..] == ra[..32];
    var v := FromBE(ra[..]) % L;
    Store(ra, ToBE(v, KEY_SIZE));
    sw := Reverse32(r, ra);
    LEToLE(v);
    Zero(ra);
  }
}
