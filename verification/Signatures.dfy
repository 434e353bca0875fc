/** The scalar responses of CLSAG and MLSAG, and the equations a verifier checks. */
module Signatures {
  import opened Bytes
  import opened Modular
  import opened Group
  import opened Scalars

  /** s = a - c*(mu_P*p + mu_C*z) mod l */
  function ClsagValue(a: nat, p: nat, z: nat, muP: nat, muC: nat, c: nat): (s: nat)
    ensures s < L
  {
    (a - c * (muP * p + muC * z)) % L
  }

  /** ss = alpha - c*xin mod l */
  function MlsagValue(alpha: nat, xin: nat, c: nat): (s: nat)
    ensures s < L
  {
    (alpha - c * xin) % L
  }

  lemma OpSame(op: Op, x: nat, y: nat, u: int, v: int)
    requires Same(x, u, L) && Same(y, v, L)
    ensures Same(Compute(op, x, y), match op case Add => u + v case Sub => u - v case Mul => u * v, L)
  {
    match op
    case Add => SameAdd(x, y, u, v, L); Reduced(x + y, L);
    case Sub => SameAdd(x, y, u, v, L); Reduced(x - y, L);
    case Mul => SameMul(x, y, u, v, L); Reduced(x * y, L);
  }

  /** The chain of reduced operations is the formula, whatever the operands. */
  lemma ClsagChain(a: nat, p: nat, z: nat, muP: nat, muC: nat, c: nat)
    ensures
      var s := Compute(Mul, p % L, muP % L);
      var t := Compute(Mul, muC % L, z % L);
      var u := Compute(Mul, c % L, Compute(Add, s, t));
      Compute(Sub, a % L, u) == ClsagValue(a, p, z, muP, muC, c)
  {
    hide Compute, Same;
    var s := Compute(Mul, p % L, muP % L);
    var t := Compute(Mul, muC % L, z % L);
    Reduced(a, L); Reduced(p, L); Reduced(z, L); Reduced(muP, L); Reduced(muC, L); Reduced(c, L);
    OpSame(Mul, p % L, muP % L, p, muP);
    OpSame(Mul, muC % L, z % L, muC, z);
    OpSame(Add, s, t, p * muP, muC * z);
    OpSame(Mul, c % L, Compute(Add, s, t), c, p * muP + muC * z);
    OpSame(Sub, a % L, Compute(Mul, c % L, Compute(Add, s, t)), a, c * (p * muP + muC * z));
    ComputeIs(Sub, a % L, Compute(Mul, c % L, Compute(Add, s, t)), a - c * (p * muP + muC * z));
    assert p * muP == muP * p;
  }

  /** A computed value is reduced, so it is the residue it is congruent to. */
  lemma ComputeIs(op: Op, x: nat, y: nat, v: int)
    requires Same(Compute(op, x, y), v, L)
    ensures Compute(op, x, y) == v % L
  {
    ComputeReduced(op, x, y);
    Unique(Compute(op, x, y), 0, Compute(op, x, y), L);
  }

  lemma MlsagChain(alpha: nat, xin: nat, c: nat)
    ensures Compute(Sub, alpha % L, Compute(Mul, c % L, xin % L)) == MlsagValue(alpha, xin, c)
  {
    hide Compute, Same;
    Reduced(alpha, L); Reduced(xin, L); Reduced(c, L);
    OpSame(Mul, c % L, xin % L, c, xin);
    OpSame(Sub, alpha % L, Compute(Mul, c % L, xin % L), alpha, c * xin);
    ComputeIs(Sub, alpha % L, Compute(Mul, c % L, xin % L), alpha - c * xin);
  }

  predicate Scalar(a: array<byte>)
  {
    a.Length == KEY_SIZE
  }

  /** Reduction of a 32-byte buffer into itself. */
  method ReduceSelf(a: array<byte>)
    requires Scalar(a)
    modifies a
    ensures LE(a[..]) == old(LE(a[..])) % L
  {
    hide LE;
    assert a[..KEY_SIZE] == a[..];
    var sw := Reduce(a, a);
    assert a[..KEY_SIZE] == a[..];
  }

  /** A modular operation in place, on scalars the code has reduced before. */
  method ModOpInto(op: Op, r: array<byte>, a: array<byte>, b: array<byte>)
    requires Scalar(r) && Scalar(a) && Scalar(b) && LE(a[..]) < L && LE(b[..]) < L
    modifies r
    ensures LE(r[..]) == Compute(op, old(LE(a[..])), old(LE(b[..])))
  {
    hide LE, Compute, ModValue;
    assert a[..KEY_SIZE] == a[..] && b[..KEY_SIZE] == b[..];
    ModValueReduced(NoAnswer, op, a[..], b[..]);
    ghost var v := Compute(op, LE(a[..]), LE(b[..]));
    ComputeReduced(op, LE(a[..]), LE(b[..]));
    LEToLE(v);
    var sw := ModOp(NoAnswer, op, r, a, b);
    assert r[..KEY_SIZE] == r[..];
  }

  /** Never asked: every operand here is reduced. */
  function NoAnswer(op: Op, a: bytes, b: bytes): Option<key>
  {
    None
  }

  /** The arithmetic of `monero_apdu_clsag_sign`, in the buffers the C code reuses. */
  method ClsagSign(s: array<byte>, a: array<byte>, p: array<byte>, z: array<byte>,
                   muP: array<byte>, muC: array<byte>, c: array<byte>)
    requires Scalar(s) && Scalar(a) && Scalar(p) && Scalar(z) && Scalar(muP) && Scalar(muC) && Scalar(c)
    requires s != a && s != p && s != z && s != muP && s != muC && s != c
    requires a != p && a != z && a != muP && a != muC && a != c && p != z && p != muP && p != muC && p != c
    requires z != muP && z != muC && z != c && muP != muC && muP != c && muC != c
    modifies s, a, p, z, muP, muC, c
    ensures LE(s[..]) == ClsagValue(old(LE(a[..])), old(LE(p[..])), old(LE(z[..])), old(LE(muP[..])),
                                    old(LE(muC[..])), old(LE(c[..])))
    ensures LE(c[..]) == old(LE(c[..])) % L
  {
    hide LE, Compute, ClsagValue;
    ghost var va, vp, vz := LE(a[..]), LE(p[..]), LE(z[..]);
    ghost var vm, vn, vc := LE(muP[..]), LE(muC[..]), LE(c[..]);
    ReduceAll(a, p, z, muP, muC, c);
    Combine(s, a, p, z, muP, muC, c);
    ClsagChain(va, vp, vz, vm, vn, vc);
  }

  method ReduceAll(a: array<byte>, p: array<byte>, z: array<byte>,
                   muP: array<byte>, muC: array<byte>, c: array<byte>)
    requires Scalar(a) && Scalar(p) && Scalar(z) && Scalar(muP) && Scalar(muC) && Scalar(c)
    requires a != p && a != z && a != muP && a != muC && a != c && p != z && p != muP && p != muC && p != c
    requires z != muP && z != muC && z != c && muP != muC && muP != c && muC != c
    modifies a, p, z, muP, muC, c
    ensures LE(a[..]) == old(LE(a[..])) % L && LE(p[..]) == old(LE(p[..])) % L && LE(z[..]) == old(LE(z[..])) % L
    ensures LE(muP[..]) == old(LE(muP[..])) % L && LE(muC[..]) == old(LE(muC[..])) % L
    ensures LE(c[..]) == old(LE(c[..])) % L
  {
    hide LE;
    ReduceSelf(a);
    ReduceSelf(p);
    ReduceSelf(z);
    ReduceSelf(muP);
    ReduceSelf(muC);
    ReduceSelf(c);
  }

  method Combine(s: array<byte>, a: array<byte>, p: array<byte>, z: array<byte>,
                 muP: array<byte>, muC: array<byte>, c: array<byte>)
    requires Scalar(s) && Scalar(a) && Scalar(p) && Scalar(z) && Scalar(muP) && Scalar(muC) && Scalar(c)
    requires s != a && s != p && s != z && s != muP && s != muC && s != c
    requires muP != a && muP != p && muP != z && muP != muC && muP != c
    requires LE(a[..]) < L && LE(p[..]) < L && LE(z[..]) < L && LE(muP[..]) < L && LE(muC[..]) < L && LE(c[..]) < L
    modifies s, muP
    ensures
      var x := Compute(Mul, old(LE(p[..])), old(LE(muP[..])));
      var y := Compute(Mul, old(LE(muC[..])), old(LE(z[..])));
      var u := Compute(Mul, old(LE(c[..])), Compute(Add, x, y));
      LE(s[..]) == Compute(Sub, old(LE(a[..])), u)
  {
    hide LE, Compute;
    ghost var x := Compute(Mul, LE(p[..]), LE(muP[..]));
    ghost var y := Compute(Mul, LE(muC[..]), LE(z[..]));
    ComputeReduced(Mul, LE(p[..]), LE(muP[..]));
    ComputeReduced(Mul, LE(muC[..]), LE(z[..]));
    ComputeReduced(Add, x, y);
    ComputeReduced(Mul, LE(c[..]), Compute(Add, x, y));
    ModOpInto(Mul, s, p, muP);
    ModOpInto(Mul, muP, muC, z);
    ModOpInto(Add, s, s, muP);
    ModOpInto(Mul, muP, c, s);
    ModOpInto(Sub, s, a, muP);
  }

  /** The arithmetic of `monero_apdu_mlsag_sign`. */
  method MlsagSign(ss2: array<byte>, ss: array<byte>, alpha: array<byte>, xin: array<byte>, c: array<byte>)
    requires Scalar(ss2) && Scalar(ss) && Scalar(alpha) && Scalar(xin) && Scalar(c)
    requires ss2 != ss && ss2 != alpha && ss2 != xin && ss2 != c && ss != alpha && ss != xin && ss != c
    requires alpha != xin && alpha != c && xin != c
    modifies ss2, ss, alpha, xin
    ensures LE(ss2[..]) == MlsagValue(old(LE(alpha[..])), old(LE(xin[..])), old(LE(c[..])))
    ensures c[..] == old(c[..])
  {
    hide LE, Compute, MlsagValue;
    ghost var va, vx, vc := LE(alpha[..]), LE(xin[..]), LE(c[..]);
    assert c[..KEY_SIZE] == c[..];
    var sw := Reduce(ss, c);
    assert ss[..KEY_SIZE] == ss[..];
    ReduceSelf(xin);
    ComputeReduced(Mul, vc % L, vx % L);
    ModOpInto(Mul, ss, ss, xin);
    ReduceSelf(alpha);
    ModOpInto(Sub, ss2, alpha, ss);
    MlsagChain(va, vx, vc);
  }

  // --- what a verifier computes from the response ----------------------------------

  /** sX + c*mu_P*(pX) + c*mu_C*(zX) */
  function ClsagCommitment<P>(g: Curve<P>, s: nat, c: nat, muP: nat, muC: nat, pX: P, zX: P, x: P): P
  {
    g.add(g.add(Times(g, s, x), Times(g, c * muP, pX)), Times(g, c * muC, zX))
  }

  /** The response closes the ring: on any point of order l, G or the input's H, the
      verifier finds the nonce commitment again. */
  lemma ClsagCloses<P(!new)>(g: Curve<P>, a: nat, p: nat, z: nat, muP: nat, muC: nat, c: nat, x: P)
    requires IsGroup(g) && Times(g, L, x) == g.zero
    ensures ClsagCommitment(g, ClsagValue(a, p, z, muP, muC, c), c, muP, muC, Times(g, p, x), Times(g, z, x), x)
         == Times(g, a, x)
  {
    hide Times, IsGroup, ClsagValue, Same;
    var s := ClsagValue(a, p, z, muP, muC, c);
    var i, j := c * muP * p, c * muC * z;
    TimesTimes(g, c * muP, p, x);
    TimesTimes(g, c * muC, z, x);
    TimesSum(g, s, i, x);
    TimesSum(g, s + i, j, x);
    ClsagExponent(a, p, z, muP, muC, c);
    SameMultiples(g, s + i + j, a, L, x);
  }

  lemma ClsagExponent(a: nat, p: nat, z: nat, muP: nat, muC: nat, c: nat)
    ensures Same(ClsagValue(a, p, z, muP, muC, c) + c * muP * p + c * muC * z, a, L)
  {
    hide Same;
    var i, j := c * muP * p, c * muC * z;
    Cancel(a - c * (muP * p + muC * z), i + j, L);
    Spread(c, muP, p, muC, z);
  }

  lemma Spread(c: nat, muP: nat, p: nat, muC: nat, z: nat)
    ensures c * (muP * p + muC * z) == c * muP * p + c * muC * z
  {
    assert c * (muP * p) == c * muP * p && c * (muC * z) == c * muC * z;
  }

  lemma Cancel(u: int, v: int, m: nat)
    requires m > 0
    ensures Same(u % m + v, u + v, m)
  {
    Reduced(u, m);
    SameAdd(u % m, v, u, v, m);
  }

  /** ... and for MLSAG: ss*X + c*(xin*X) = alpha*X. */
  lemma MlsagCloses<P(!new)>(g: Curve<P>, alpha: nat, xin: nat, c: nat, x: P)
    requires IsGroup(g) && Times(g, L, x) == g.zero
    ensures g.add(Times(g, MlsagValue(alpha, xin, c), x), Times(g, c, Times(g, xin, x))) == Times(g, alpha, x)
  {
    hide Times, IsGroup, MlsagValue, Same;
    var s := MlsagValue(alpha, xin, c);
    TimesTimes(g, c, xin, x);
    TimesSum(g, s, c * xin, x);
    MlsagExponent(alpha, xin, c);
    SameMultiples(g, s + c * xin, alpha, L, x);
  }

  lemma MlsagExponent(alpha: nat, xin: nat, c: nat)
    ensures Same(MlsagValue(alpha, xin, c) + c * xin, alpha, L)
  {
    hide Same;
    Cancel(alpha - c * xin, c * xin, L);
  }
}
