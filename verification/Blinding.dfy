/** Blinding an output's amount and mask with its amount key, and undoing it. */
module Blinding {
  import opened Bytes
  import opened Status
  import opened Modular
  import opened Scalars
  import opened Signatures

  /** The three hashes of an amount key, and what the SDK does with unreduced operands. */
  datatype Streams = Streams(toScalar: bytes -> key, ecdh: bytes -> key, mask: bytes -> key, odd: Odd)

  datatype Amount = Amount(v: key, k: key)

  const NO_MASK: key := seq(KEY_SIZE, _ => 0)

  /** Eight bytes of `m` on the first eight of `v`. */
  function MaskEight(v: key, m: key): key
  {
    seq(KEY_SIZE, i requires 0 <= i < KEY_SIZE => if i < 8 then XorByte(v[i], m[i]) else v[i])
  }

  lemma MaskTwice(v: key, m: key)
    ensures MaskEight(MaskEight(v, m), m) == v
  {
    hide Xor;
    forall i | 0 <= i < KEY_SIZE
      ensures MaskEight(MaskEight(v, m), m)[i] == v[i]
    {
      if i < 8 { XorByteTwice(v[i], m[i]); }
    }
  }

  /** The long form: both values shifted by scalars of the amount key. */
  function Shifted(h: Streams, op: Op, x: Amount, ak: key): Option<Amount>
  {
    var s1 := h.toScalar(ak);
    var k, v := ModValue(h.odd, op, x.k, s1), ModValue(h.odd, op, x.v, h.toScalar(s1));
    if k.None? || v.None? then None else Some(Amount(v.value, k.value))
  }

  /** What `monero_apdu_blind` returns for value `v` and mask `k` under amount key `ak`. */
  function Blinded(h: Streams, x: Amount, ak: key, short: bool): Option<Amount>
  {
    if short then Some(Amount(MaskEight(x.v, h.ecdh(ak)), NO_MASK)) else Shifted(h, Add, x, ak)
  }

  /** What `monero_unblind` recovers. */
  function Unblinded(h: Streams, x: Amount, ak: key, short: bool): Option<Amount>
  {
    if short then Some(Amount(MaskEight(x.v, h.ecdh(ak)), h.mask(ak))) else Shifted(h, Sub, x, ak)
  }

  /** The scalars of an amount key are hashes reduced modulo l. */
  predicate ReducedFor(h: Streams, ak: key)
  {
    LE(h.toScalar(ak)) < L && LE(h.toScalar(h.toScalar(ak))) < L
  }

  lemma AddThenSub(x: nat, y: nat)
    requires x < L
    ensures Compute(Sub, Compute(Add, x, y), y) == x
  {
    hide Same, Compute;
    OpSame(Add, x, y, x, y);
    OpSame(Sub, Compute(Add, x, y), y, x + y, y);
    ComputeIs(Sub, Compute(Add, x, y), y, x + y - y);
    Unique(x, 0, x, L);
  }

  lemma OneBack(odd: Odd, x: key, s: key)
    requires LE(x) < L && LE(s) < L
    ensures ModValue(odd, Add, x, s).Some?
    ensures ModValue(odd, Sub, ModValue(odd, Add, x, s).value, s) == Some(x)
  {
    hide LE, ToLE, Compute, ModValue;
    var y := Compute(Add, LE(x), LE(s));
    ModValueReduced(odd, Add, x, s);
    ComputeReduced(Add, LE(x), LE(s));
    LEToLE(y);
    ModValueReduced(odd, Sub, ToLE(y), s);
    AddThenSub(LE(x), LE(s));
    ToLELE(x);
  }

  /** Main result: unblinding gives back the value, and in the long form the mask too, when both
      are below l; in the short form the mask is the one the amount key determines. */
  lemma UnblindBlind(h: Streams, x: Amount, ak: key, short: bool)
    ensures short || (LE(x.v) < L && LE(x.k) < L && ReducedFor(h, ak)) ==>
      var y := Blinded(h, x, ak, short);
      y.Some? && Unblinded(h, y.value, ak, short) == Some(if short then x.(k := h.mask(ak)) else x)
  {
    hide LE, ModValue, MaskEight;
    if short {
      MaskTwice(x.v, h.ecdh(ak));
    } else if LE(x.v) < L && LE(x.k) < L && ReducedFor(h, ak) {
      OneBack(h.odd, x.v, h.toScalar(h.toScalar(ak)));
      OneBack(h.odd, x.k, h.toScalar(ak));
    }
  }

  /** Whatever the SDK answers for operands that are not reduced, it is a residue. */
  ghost predicate Residues(odd: Odd)
  {
    forall op: Op, a: bytes, b: bytes :: odd(op, a, b).Some? ==> FromBE(odd(op, a, b).value) < L
  }

  lemma ModValueResidue(odd: Odd, op: Op, a: key, b: key)
    requires Residues(odd) && ModValue(odd, op, a, b).Some?
    ensures LE(ModValue(odd, op, a, b).value) < L
  {
    hide FromBE, ToBE, Compute, Rev;
    if FromBE(Rev(a)) < L && FromBE(Rev(b)) < L {
      ModValueReduced(odd, op, a, b);
      ComputeReduced(op, LE(a), LE(b));
      LEToLE(Compute(op, LE(a), LE(b)));
    } else {
      var v := odd(op, Rev(a), Rev(b)).value;
      assert Rev(Rev(v)) == v by { RevRev(v); }
    }
  }

  /** With such an SDK the long form gives back exactly the values that are reduced. */
  lemma UnblindBlindIff(h: Streams, x: Amount, ak: key)
    requires Residues(h.odd) && ReducedFor(h, ak)
    ensures LE(x.v) < L && LE(x.k) < L <==>
      Blinded(h, x, ak, false).Some? && Unblinded(h, Blinded(h, x, ak, false).value, ak, false) == Some(x)
  {
    hide LE, ModValue, Residues;
    if LE(x.v) < L && LE(x.k) < L {
      UnblindBlind(h, x, ak, false);
    } else if Blinded(h, x, ak, false).Some? && Unblinded(h, Blinded(h, x, ak, false).value, ak, false) == Some(x) {
      var y := Blinded(h, x, ak, false).value;
      ModValueResidue(h.odd, Sub, y.v, h.toScalar(h.toScalar(ak)));
      ModValueResidue(h.odd, Sub, y.k, h.toScalar(ak));
    }
  }

  // --- what the two forms are, byte by byte and as residues ---------------------------------------

  /** `w` is `v` with its first eight bytes under the key stream `m`. */
  predicate EightMasked(v: key, m: key, w: key)
  {
    (forall i :: 0 <= i < 8 ==> w[i] == XorByte(v[i], m[i])) && w[8..] == v[8..]
  }

  /** Modulo l, the mask is moved by the scalar of the amount key, and the value by the scalar of
      that scalar: forward when blinding, back when unblinding. */
  predicate Moved(h: Streams, x: Amount, ak: key, y: Amount, forward: bool)
  {
    var s := h.toScalar(ak);
    var k, v := LE(s), LE(h.toScalar(s));
    if forward then LE(y.k) == (LE(x.k) + k) % L && LE(y.v) == (LE(x.v) + v) % L
    else LE(y.k) == (LE(x.k) - k) % L && LE(y.v) == (LE(x.v) - v) % L
  }

  predicate AllReduced(h: Streams, x: Amount, ak: key)
  {
    LE(x.v) < L && LE(x.k) < L && ReducedFor(h, ak)
  }

  lemma BlindedIs(h: Streams, x: Amount, ak: key, short: bool)
    requires Blinded(h, x, ak, short).Some?
    ensures
      var y := Blinded(h, x, ak, short).value;
      && (short ==> EightMasked(x.v, h.ecdh(ak), y.v) && AllZero(y.k))
      && (!short && AllReduced(h, x, ak) ==> Moved(h, x, ak, y, true))
  {
    hide LE, ModValue, Compute;
    if !short && AllReduced(h, x, ak) {
      ShiftedOne(h, Add, x.k, h.toScalar(ak));
      ShiftedOne(h, Add, x.v, h.toScalar(h.toScalar(ak)));
      ComputeSums(LE(x.k), LE(h.toScalar(ak)));
      ComputeSums(LE(x.v), LE(h.toScalar(h.toScalar(ak))));
    }
  }

  lemma UnblindedIs(h: Streams, x: Amount, ak: key, short: bool)
    requires Unblinded(h, x, ak, short).Some?
    ensures
      var y := Unblinded(h, x, ak, short).value;
      && (short ==> EightMasked(x.v, h.ecdh(ak), y.v) && y.k == h.mask(ak))
      && (!short && AllReduced(h, x, ak) ==> Moved(h, x, ak, y, false))
  {
    hide LE, ModValue, Compute;
    if !short && AllReduced(h, x, ak) {
      ShiftedOne(h, Sub, x.k, h.toScalar(ak));
      ShiftedOne(h, Sub, x.v, h.toScalar(h.toScalar(ak)));
      ComputeSums(LE(x.k), LE(h.toScalar(ak)));
      ComputeSums(LE(x.v), LE(h.toScalar(h.toScalar(ak))));
    }
  }

  lemma ShiftedOne(h: Streams, op: Op, x: key, s: key)
    requires LE(x) < L && LE(s) < L
    ensures ModValue(h.odd, op, x, s).Some? && LE(ModValue(h.odd, op, x, s).value) == Compute(op, LE(x), LE(s))
  {
    hide LE, ToLE, Compute, ModValue;
    ModValueReduced(h.odd, op, x, s);
    ComputeReduced(op, LE(x), LE(s));
    LEToLE(Compute(op, LE(x), LE(s)));
  }

  lemma ComputeSums(x: nat, y: nat)
    ensures Compute(Add, x, y) == (x + y) % L && Compute(Sub, x, y) == (x - y) % L
  {
  }

  // --- the C code, in place ---------------------------------------------------------------------

  method MaskLoop(v: array<byte>, m: key)
    requires Scalar(v)
    modifies v
    ensures v[..] == MaskEight(old(v[..]), m)
  {
    for i := 0 to 8
      invariant forall j :: 0 <= j < i ==> v[j] == XorByte(old(v[j]), m[j])
      invariant forall j :: i <= j < v.Length ==> v[j] == old(v[j])
    {
      v[i] := XorByte(v[i], m[i]);
    }
  }

  method StoreKey(a: array<byte>, s: key)
    requires Scalar(a)
    modifies a
    ensures a[..] == s
  {
    Store(a, s);
    assert a[..KEY_SIZE] == a[..];
  }

  method ShiftInto(h: Streams, op: Op, r: array<byte>, a: array<byte>) returns (sw: nat)
    requires Scalar(r) && Scalar(a) && r != a
    modifies r
    ensures sw == if old(ModValue(h.odd, op, r[..], a[..])).Some? then 0 else SW_SECURITY_INTERNAL
    ensures sw == 0 ==> r[..] == old(ModValue(h.odd, op, r[..], a[..])).value
  {
    hide ModValue;
    assert r[..32] == r[..] && a[..32] == a[..];
    sw := ModOp(h.odd, op, r, r, a);
    assert r[..32] == r[..];
  }

  /** The common long branch: mask first, then value, each with the next scalar of the key. */
  method Shift(h: Streams, op: Op, v: array<byte>, k: array<byte>, ak: array<byte>) returns (sw: nat)
    requires Scalar(v) && Scalar(k) && Scalar(ak) && v != k && v != ak && k != ak
    modifies v, k, ak
    ensures sw == if Shifted(h, op, Amount(old(v[..]), old(k[..])), old(ak[..])).Some? then 0 else SW_SECURITY_INTERNAL
    ensures sw == 0 ==> Shifted(h, op, Amount(old(v[..]), old(k[..])), old(ak[..])) == Some(Amount(v[..], k[..]))
  {
    hide ModValue;
    StoreKey(ak, h.toScalar(ak[..]));
    sw := ShiftInto(h, op, k, ak);
    if sw != 0 { return; }
    StoreKey(ak, h.toScalar(ak[..]));
    sw := ShiftInto(h, op, v, ak);
  }

  /** The arithmetic of `monero_apdu_blind`. */
  method Blind(h: Streams, v: array<byte>, k: array<byte>, ak: array<byte>, short: bool) returns (sw: nat)
    requires Scalar(v) && Scalar(k) && Scalar(ak) && v != k && v != ak && k != ak
    modifies v, k, ak
    ensures sw ==
      if Blinded(h, Amount(old(v[..]), old(k[..])), old(ak[..]), short).Some? then 0 else SW_SECURITY_INTERNAL
    ensures sw == 0 ==> Blinded(h, Amount(old(v[..]), old(k[..])), old(ak[..]), short) == Some(Amount(v[..], k[..]))
  {
    hide MaskEight, Shifted;
    if short {
      StoreKey(k, NO_MASK);
      StoreKey(ak, h.ecdh(ak[..]));
      MaskLoop(v, ak[..]);
      sw := 0;
    } else {
      sw := Shift(h, Add, v, k, ak);
    }
  }

  /** `monero_unblind` */
  method Unblind(h: Streams, v: array<byte>, k: array<byte>, ak: array<byte>, short: bool) returns (sw: nat)
    requires Scalar(v) && Scalar(k) && Scalar(ak) && v != k && v != ak && k != ak
    modifies v, k, ak
    ensures sw ==
      if Unblinded(h, Amount(old(v[..]), old(k[..])), old(ak[..]), short).Some? then 0 else SW_SECURITY_INTERNAL
    ensures sw == 0 ==> Unblinded(h, Amount(old(v[..]), old(k[..])), old(ak[..]), short) == Some(Amount(v[..], k[..]))
  {
    hide MaskEight, Shifted;
    if short {
      StoreKey(k, h.mask(ak[..]));
      StoreKey(ak, h.ecdh(ak[..]));
      MaskLoop(v, ak[..]);
      sw := 0;
    } else {
      sw := Shift(h, Sub, v, k, ak);
    }
  }
}
