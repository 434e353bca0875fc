/** Unsigned LEB128 integers (DWARF 5, section 7.6), as the app writes and reads them. */
module Varint {
  import opened Bytes
  import opened Status

  /** The canonical encoding: groups of seven bits, low group first. */
  function Encode(v: nat): (e: bytes)
    ensures |e| >= 1
  {
    if v < 128 then [v] else [128 + v % 128] + Encode(v / 128)
  }

  /** The number a byte string stands for, most significant group last. */
  function Value(vi: bytes): nat
  {
    if vi == [] then 0 else vi[0] % 128 + 128 * Value(vi[1..])
  }

  /** Only the last byte has its top bit clear. */
  predicate Terminated(vi: bytes)
  {
    |vi| >= 1 && vi[|vi| - 1] < 128 && forall i :: 0 <= i < |vi| - 1 ==> vi[i] >= 128
  }

  /** A terminated varint that fits 64 bits: at most ten bytes, the tenth 0 or 1. */
  predicate Wire(vi: bytes)
  {
    Terminated(vi) && |vi| <= 10 && (|vi| == 10 ==> vi[9] <= 1)
  }

  /** Two varints that start the same byte string are the same varint. */
  lemma WirePrefixUnique(bs: bytes, m: nat, n: nat)
    requires m <= |bs| && n <= |bs| && Terminated(bs[..m]) && Terminated(bs[..n])
    ensures m == n
  {
    assert forall k :: 0 <= k < m ==> bs[..m][k] == bs[k];
    assert forall k :: 0 <= k < n ==> bs[..n][k] == bs[k];
  }

  lemma {:induction false} ValueSnoc(vi: bytes, b: byte)
    ensures Value(vi + [b]) == Value(vi) + Shl(b % 128, 7 * |vi|)
  {
    if vi == [] {
      assert vi + [b] == [b];
      assert [b][1..] == [];
    } else {
      ValueSnoc(vi[1..], b);
      assert (vi + [b])[1..] == vi[1..] + [b];
      ShlSeven(b % 128, 7 * (|vi| - 1));
    }
  }

  lemma ShlSeven(x: nat, n: nat)
    ensures Shl(x, n + 7) == 128 * Shl(x, n)
  {
    assert Shl(x, n + 2) == 4 * Shl(x, n);
    assert Shl(x, n + 4) == 16 * Shl(x, n);
    assert Shl(x, n + 6) == 64 * Shl(x, n);
  }

  lemma Pow2Seven(n: nat)
    ensures Pow2(n + 7) == 128 * Pow2(n)
  {
    Pow2Byte(n);
  }

  lemma {:induction false} ValueBound(vi: bytes)
    ensures Value(vi) < Pow2(7 * |vi|)
  {
    if vi != [] {
      ValueBound(vi[1..]);
      Pow2Seven(7 * (|vi| - 1));
    }
  }

  /** A wire varint always fits `uint64_t`. */
  lemma WireFits(vi: bytes)
    requires Wire(vi)
    ensures Value(vi) < TWO64
  {
    hide Value, Shl, Pow2;
    Pow2Values();
    ValueBound(vi);
    if |vi| < 10 {
      Pow2Mono(7 * |vi|, 63);
    } else {
      assert vi == vi[..9] + [vi[9]];
      ValueSnoc(vi[..9], vi[9]);
      ValueBound(vi[..9]);
      ShlMono(vi[9], 1, 63);
      ShlOne(63);
    }
  }

  /** The encoder's length is the number of seven-bit groups of the value. */
  lemma {:induction false} EncodeLength(v: nat, k: nat)
    requires k >= 1
    ensures |Encode(v)| <= k <==> v < Pow2(7 * k)
    decreases k
  {
    hide Pow2;
    Pow2Values();
    if k > 1 {
      EncodeLength(v / 128, k - 1);
      Pow2Seven(7 * (k - 1));
    }
  }

  lemma {:induction false} EncodeTerminated(v: nat)
    ensures Terminated(Encode(v)) && Value(Encode(v)) == v
  {
    if v < 128 {
      assert [v][1..] == [];
    } else {
      EncodeTerminated(v / 128);
      ConsTerminated(v % 128, Encode(v / 128));
    }
  }

  lemma ConsTerminated(x: nat, e: bytes)
    requires x < 128 && Terminated(e)
    ensures Terminated([128 + x] + e) && Value([128 + x] + e) == x + 128 * Value(e)
  {
    assert ([128 + x] + e)[1..] == e;
  }

  /** Round trip: the encoding of a 64-bit value is a wire varint with that value. */
  lemma EncodeIsWire(v: nat)
    requires v < TWO64
    ensures Wire(Encode(v)) && Value(Encode(v)) == v
  {
    hide Value, Shl, Pow2, Encode;
    EncodeTerminated(v);
    Pow2Values();
    EncodeLength(v, 10);
    Pow2Mono(64, 70);
    var e := Encode(v);
    if |e| == 10 {
      assert e == e[..9] + [e[9]];
      ValueSnoc(e[..9], e[9]);
      if 2 <= e[9] { ShlMono(2, e[9], 63); }
      ShlTwo(63);
    }
  }

  lemma {:induction false} ShlTwo(n: nat)
    ensures Shl(2, n) == 2 * Pow2(n)
  {
    if n > 0 { ShlTwo(n - 1); }
  }

  /** Writes the varint of `value` into `varint`, at most `maxLen` bytes. */
  method EncodeVarint(varint: array<byte>, maxLen: nat, value: nat) returns (sw: nat, outLen: nat)
    requires maxLen <= varint.Length && value < TWO64
    modifies varint
    ensures sw == if value < Pow2(7 * maxLen) && maxLen > 0 then 0 else SW_WRONG_DATA_RANGE
    ensures sw == 0 ==> outLen <= maxLen && varint[..outLen] == Encode(value)
    ensures sw == 0 ==> varint[outLen..] == old(varint[outLen..])
    ensures varint[maxLen..] == old(varint[maxLen..])
  {
    if maxLen == 0 { return SW_WRONG_DATA_RANGE, 0; }
    EncodeLength(value, maxLen);
    outLen := 0;
    var v := value;
    while v >= 0x80
      invariant outLen <= maxLen - 1
      invariant Encode(value) == varint[..outLen] + Encode(v)
      invariant forall j :: outLen <= j < varint.Length ==> varint[j] == old(varint[j])
    {
      if outLen == maxLen - 1 { return SW_WRONG_DATA_RANGE, outLen; }
      ghost var before := varint[..outLen];
      varint[outLen] := 128 + v % 128;
      assert varint[..outLen + 1] == before + [128 + v % 128];
      v := v / 128;
      outLen := outLen + 1;
    }
    ghost var before := varint[..outLen];
    varint[outLen] := v;
    assert varint[..outLen + 1] == before + [v];
    outLen := outLen + 1;
    sw := 0;
  }

  /** Reads one varint from the first `maxLen` bytes of `varint`. It answers exactly when
      those bytes start with a wire varint, and then with that varint's value and length. */
  method DecodeVarint(varint: seq<byte>, maxLen: nat) returns (sw: nat, value: nat, outLen: nat)
    requires maxLen <= |varint|
    ensures sw == 0 <==> exists n :: 0 <= n <= maxLen && Wire(varint[..n])
    ensures sw == 0 ==> 1 <= outLen <= maxLen && Wire(varint[..outLen]) && value == Value(varint[..outLen]) < TWO64
    ensures sw != 0 ==> sw == SW_WRONG_DATA_RANGE
  {
    value, outLen := 0, 0;
    if maxLen == 0 { sw := SW_WRONG_DATA_RANGE; return; }
    var len := 0;
    while len < maxLen
      invariant 0 <= len <= maxLen && len <= 10
      invariant forall i :: 0 <= i < len ==> varint[i] >= 128
      invariant len == 10 ==> varint[9] > 1
      invariant len < 10 ==> value == Value(varint[..len])
    {
      var b := varint[len];
      if len >= 10 || (len == 9 && b > 1) {
        NoWire(varint, maxLen, 9);
        sw := SW_WRONG_DATA_RANGE;
        return;
      }
      assert varint[..len + 1] == varint[..len] + [b];
      ByteFits(varint[..len], b);
      value := Accumulate(value, 7 * len, b);
      len := len + 1;
      if b < 128 {
        assert Wire(varint[..len]);
        WireFits(varint[..len]);
        outLen := len;
        sw := 0;
        return;
      }
    }
    NoWire(varint, maxLen, maxLen);
    sw := SW_WRONG_DATA_RANGE;
  }

  /** No varint starts here when nothing ends within `maxLen` bytes, or not in time. */
  lemma NoWire(bs: bytes, maxLen: nat, k: nat)
    requires maxLen <= |bs| && k <= maxLen
    requires forall i :: 0 <= i < k ==> bs[i] >= 128
    requires k == maxLen || (k == 9 && bs[9] > 1)
    ensures !exists n :: 0 <= n <= maxLen && Wire(bs[..n])
  {
    forall n | 0 <= n <= maxLen
      ensures !Wire(bs[..n])
    {
      if n > 0 { assert bs[..n][n - 1] == bs[n - 1]; }
      if n > 9 { assert bs[..n][9] == bs[9]; }
    }
  }

  /** The length of the wire varint that starts `bs` within `max` bytes, from `n` up. */
  function Decode(bs: bytes, max: nat, n: nat): (r: Option<nat>)
    requires max <= |bs|
    ensures r.Some? ==> n <= r.value <= max && Wire(bs[..r.value])
    decreases max + 1 - n
  {
    if n > max then None else if Wire(bs[..n]) then Some(n) else Decode(bs, max, n + 1)
  }

  lemma WireUnique(bs: bytes, m: nat, n: nat)
    requires m <= |bs| && n <= |bs| && Wire(bs[..m]) && Wire(bs[..n])
    ensures m == n
  {
    WirePrefixUnique(bs, m, n);
  }

  lemma {:induction false} DecodeFinds(bs: bytes, max: nat, n: nat, m: nat)
    requires n <= m <= max <= |bs| && Wire(bs[..m])
    ensures Decode(bs, max, n) == Some(m)
    decreases m - n
  {
    hide Wire;
    if Wire(bs[..n]) {
      WireUnique(bs, n, m);
    } else {
      DecodeFinds(bs, max, n + 1, m);
    }
  }

  /** Round trip: an encoding followed by anything decodes to its value and length. */
  lemma DecodeEncode(v: nat, rest: bytes, max: nat)
    requires v < TWO64 && |Encode(v)| <= max <= |Encode(v) + rest|
    ensures Decode(Encode(v) + rest, max, 1) == Some(|Encode(v)|)
    ensures (Encode(v) + rest)[..|Encode(v)|] == Encode(v) && Value(Encode(v)) == v
  {
    hide Encode, Value, Wire;
    EncodeIsWire(v);
    assert (Encode(v) + rest)[..|Encode(v)|] == Encode(v);
    DecodeFinds(Encode(v) + rest, max, 1, |Encode(v)|);
  }

  // --- the resumable accumulator of the prefix parser ------------------------------

  datatype Progress = Malformed | More(val: nat, shift: nat) | Complete(val: nat, shift: nat)

  /** `val |= (uint64_t)(c & 0x7f) << shift` */
  function Accumulate(val: nat, shift: nat, c: byte): nat
  {
    Or(val, Shl(c % 128, shift) % TWO64)
  }

  /** One byte into the accumulator `(val, shift)`; the shift is on `uint64_t`. */
  function VarintByte(val: nat, shift: nat, c: byte): Progress
  {
    if shift > 63 || (shift == 63 && c > 1) then Malformed
    else
      var v := Accumulate(val, shift, c);
      if c >= 128 then More(v, shift + 7) else Complete(v, shift + 7)
  }

  /** All the bytes of `bs`, one after the other. */
  function Fold(bs: bytes): Progress
  {
    if bs == [] then More(0, 0)
    else
      match Fold(bs[..|bs| - 1])
      case Malformed => Malformed
      case Complete(v, s) => Malformed
      case More(v, s) => VarintByte(v, s, bs[|bs| - 1])
  }

  /** A proper start of a varint: no byte has ended it. */
  predicate Open(bs: bytes)
  {
    |bs| <= 9 && forall i :: 0 <= i < |bs| ==> bs[i] >= 128
  }

  /** Folding an unfinished varint has shifted by seven bits a byte and lost nothing. */
  lemma {:induction false} FoldOpen(bs: bytes)
    requires Open(bs)
    ensures Fold(bs) == More(Value(bs), 7 * |bs|) && Value(bs) < Pow2(7 * |bs|)
  {
    if bs != [] {
      FoldOpen(bs[..|bs| - 1]);
      FoldByte(bs[..|bs| - 1], bs[|bs| - 1]);
      assert bs == bs[..|bs| - 1] + [bs[|bs| - 1]];
    }
  }

  /** One more byte on an unfinished varint: refused, finished, or still unfinished, each
      exactly when the bytes so far say so, and no set bit is ever shifted out. */
  lemma FoldByte(pre: bytes, c: byte)
    requires Open(pre)
    ensures VarintByte(Value(pre), 7 * |pre|, c)
         == if Wire(pre + [c]) then Complete(Value(pre + [c]), 7 * |pre + [c]|)
            else if Open(pre + [c]) then More(Value(pre + [c]), 7 * |pre + [c]|)
            else Malformed
    ensures Value(pre + [c]) < Pow2(7 * |pre + [c]|)
  {
    SnocShape(pre, c);
    ValueBound(pre + [c]);
    if !(|pre| == 9 && c > 1) { ByteFits(pre, c); }
  }

  lemma SnocShape(pre: bytes, c: byte)
    requires Open(pre)
    ensures Wire(pre + [c]) <==> c < 128 && (|pre| == 9 ==> c <= 1)
    ensures Open(pre + [c]) <==> c >= 128 && |pre| < 9
  {
    var bs := pre + [c];
    assert bs[|pre|] == c;
    assert forall i :: 0 <= i < |pre| ==> bs[i] == pre[i];
  }

  lemma ByteFits(pre: bytes, c: byte)
    requires |pre| <= 9 && (|pre| == 9 ==> c <= 1)
    ensures Accumulate(Value(pre), 7 * |pre|, c) == Value(pre + [c])
  {
    hide Value, Shl, Pow2, Or, Xor;
    ValueBound(pre);
    ValueSnoc(pre, c);
    ShiftFits(c % 128, |pre|);
    OrShifted(Value(pre), c % 128, 7 * |pre|);
  }

  lemma ShiftFits(x: nat, k: nat)
    requires x < 128 && k <= 9 && (k == 9 ==> x <= 1)
    ensures Shl(x, 7 * k) < TWO64
  {
    Pow2Values();
    if k < 9 {
      ShlBound(x, 7, 7 * k);
      Pow2Mono(7 + 7 * k, 64);
    } else {
      ShlBound(x, 1, 63);
    }
  }

  /** The two decoders agree: the parser's byte-by-byte fold completes on a terminated
      byte string exactly when it is a wire varint, with the same value; on every other
      terminated string it refuses. */
  lemma {:induction false} FoldAgrees(bs: bytes)
    requires Terminated(bs)
    ensures Fold(bs) == if Wire(bs) then Complete(Value(bs), 7 * |bs|) else Malformed
  {
    var pre, c := bs[..|bs| - 1], bs[|bs| - 1];
    assert bs == pre + [c];
    if |pre| <= 9 {
      FoldOpen(pre);
      FoldByte(pre, c);
    } else {
      FoldTooLong(pre);
    }
  }

  lemma {:induction false} FoldTooLong(bs: bytes)
    requires |bs| >= 10 && forall i :: 0 <= i < |bs| ==> bs[i] >= 128
    ensures Fold(bs) == Malformed
  {
    if |bs| == 10 {
      FoldOpen(bs[..9]);
      assert bs[..|bs| - 1] == bs[..9];
      FoldByte(bs[..9], bs[9]);
    } else {
      FoldTooLong(bs[..|bs| - 1]);
    }
  }
}
