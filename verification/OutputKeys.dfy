/** Every output the device derives can be found and spent by its owner. */
module OutputKeys {
  import opened Bytes
  import opened Status
  import opened Transcript
  import opened Modular
  import opened Group
  import opened Scalars
  import opened DeviceState
  import opened DeviceSpec
  import opened DeviceRuns
  import opened Nonces
  import Ordering
  import PrefixBinding
  import opened OutputBinding

  /** The environment computes on the points of `g`, written as 32 bytes by `enc`. What
      succeeds is the right multiple: of the base point `b`, of a point (which must be in the
      prime-order subgroup, or the call fails), eight times a multiple (failing exactly on the
      identity), and Hs(drv, i)*b + B. */
  ghost predicate OnCurve<P(!new)>(e: Env, g: Curve<P>, b: P, enc: P -> key)
  {
    && IsGroup(g) && Times(g, L, b) == g.zero
    && (forall k: key :: e.mulG(k).Some? ==> e.mulG(k).value == enc(Times(g, LE(k), b)))
    && (forall x: P, k: key {:trigger e.mul(enc(x), k)} ::
          e.mul(enc(x), k).Some? ==> e.mul(enc(x), k).value == enc(Times(g, LE(k), x)))
    && (forall x: P, k: key {:trigger e.derive(enc(x), k)} :: e.derive(enc(x), k) == EightTimes(g, enc, x, k))
    && (forall d: key, i: nat, x: P {:trigger e.outputKey(d, i, enc(x))} ::
          e.toScalar(d, i).Some? && e.outputKey(d, i, enc(x)).Some?
          ==> e.outputKey(d, i, enc(x)).value == enc(g.add(Times(g, LE(e.toScalar(d, i).value), b), x)))
  }

  /** `monero_ecmul_8k`: the cofactor first, then the scalar; the identity is an error. */
  ghost function EightTimes<P(!new)>(g: Curve<P>, enc: P -> key, x: P, k: key): Option<key>
  {
    if Times(g, LE(k), Times(g, 8, x)) == g.zero then None else Some(enc(Times(g, LE(k), Times(g, 8, x))))
  }

  lemma MulGIs<P(!new)>(e: Env, g: Curve<P>, b: P, enc: P -> key, k: key)
    requires OnCurve(e, g, b, enc)
    ensures IsGroup(g) && (e.mulG(k).Some? ==> e.mulG(k).value == enc(Times(g, LE(k), b)))
  {
  }

  lemma MulIs<P(!new)>(e: Env, g: Curve<P>, b: P, enc: P -> key, x: P, k: key)
    requires OnCurve(e, g, b, enc)
    ensures e.mul(enc(x), k).Some? ==> e.mul(enc(x), k).value == enc(Times(g, LE(k), x))
  {
  }

  lemma DeriveIs<P(!new)>(e: Env, g: Curve<P>, b: P, enc: P -> key, x: P, k: key)
    requires OnCurve(e, g, b, enc)
    ensures e.derive(enc(x), k) == EightTimes(g, enc, x, k)
  {
  }

  lemma OutputIs<P(!new)>(e: Env, g: Curve<P>, b: P, enc: P -> key, d: key, i: nat, x: P)
    requires OnCurve(e, g, b, enc) && e.toScalar(d, i).Some? && e.outputKey(d, i, enc(x)).Some?
    ensures e.outputKey(d, i, enc(x)).value == enc(g.add(Times(g, LE(e.toScalar(d, i).value), b), x))
    ensures IsGroup(g) && Times(g, L, b) == g.zero
  {
  }

  /** The two sides of a Diffie-Hellman exchange over any point, cofactor included. */
  lemma Shared<P(!new)>(e: Env, g: Curve<P>, b: P, enc: P -> key, x: P, j: key, k: key)
    requires OnCurve(e, g, b, enc)
    ensures e.derive(enc(Times(g, LE(j), x)), k) == e.derive(enc(Times(g, LE(k), x)), j)
  {
    hide OnCurve, LE, Times, IsGroup;
    MulGIs(e, g, b, enc, k);
    DeriveIs(e, g, b, enc, Times(g, LE(j), x), k);
    DeriveIs(e, g, b, enc, Times(g, LE(k), x), j);
    TimesCommute(g, 8, LE(j), x);
    TimesCommute(g, LE(k), LE(j), Times(g, 8, x));
    TimesCommute(g, 8, LE(k), x);
  }

  // --- recipients -----------------------------------------------------------------------------

  /** The address (A, B) of an owner with view secret `a`: B is a point, and A is a*G for a
      standard address, a*B for a subaddress. */
  ghost predicate Recipient<P(!new)>(g: Curve<P>, b: P, enc: P -> key, o: OutArgs, a: key, spend: P)
  {
    && o.spend == enc(spend)
    && o.view == enc(Times(g, LE(a), if o.sub != 0 then spend else b))
  }

  /** The keys the transaction publishes for an output. */
  predicate Published(o: OutArgs, x: Derivative, k: key)
  {
    k == o.pub || (o.need != 0 && k == x.addKey)
  }

  /** From a published key and the view secret the owner gets the derivation the device used,
      and so the same one-time key, amount key and view tag at that position. */
  predicate Finds(e: Env, o: OutArgs, x: Derivative, k: key, a: key)
  {
    && e.derive(k, a) == Derivation(e, o) && e.derive(k, a).Some?
    && e.outputKey(e.derive(k, a).value, o.index, o.spend) == Some(x.outKey)
    && e.toScalar(e.derive(k, a).value, o.index) == Some(x.amountKey)
    && (o.tagged != 0 ==>
          && e.viewTag(e.derive(k, a).value, o.index).Some?
          && x.viewTag == [e.viewTag(e.derive(k, a).value, o.index).value])
  }

  lemma DeriveFinds(e: Env, o: OutArgs, k: key, a: key)
    requires Derive(e, o).Some? && e.derive(k, a) == Derivation(e, o)
    ensures Finds(e, o, Derive(e, o).value, k, a)
  {
    hide AddKey, Derivation;
  }

  /** The key the owner starts from: the additional key of a subaddress when there is one, and
      the main key otherwise. */
  function Scanned(o: OutArgs, x: Derivative): key
  {
    if o.sub != 0 && o.need != 0 then x.addKey else o.pub
  }

  /** Main result: every non-change output that a real transaction accepts is recoverable by
      its owner, whatever kind of recipient it has. */
  lemma OutputRecoverable<P(!new)>(e: Env, g: Curve<P>, b: P, enc: P -> key, d: Dev, o: OutArgs, a: key, spend: P)
    requires OnCurve(e, g, b, enc) && Vouched(e, d, o) && o.change == 0 && Derive(e, o).Some?
    requires Recipient(g, b, enc, o, a, spend)
    ensures
      var x := Derive(e, o).value;
      Published(o, x, Scanned(o, x)) && Finds(e, o, x, Scanned(o, x), a)
  {
    hide OnCurve, LE, Times, Finds;
    var x := Derive(e, o).value;
    var secret := if o.sub != 0 && o.need != 0 then o.addSec else o.txKey;
    var point := if o.sub != 0 then spend else b;
    MulGIs(e, g, b, enc, o.txKey);
    MulIs(e, g, b, enc, spend, o.txKey);
    MulIs(e, g, b, enc, spend, o.addSec);
    Shared(e, g, b, enc, point, secret, a);
    assert Scanned(o, x) == enc(Times(g, LE(secret), point));
    DeriveFinds(e, o, Scanned(o, x), a);
  }

  /** A change output is derived with the wallet's own view key on the main key, so the wallet
      finds it by the ordinary scan. */
  lemma ChangeRecoverable(e: Env, o: OutArgs)
    requires o.change != 0 && Derive(e, o).Some?
    ensures Published(o, Derive(e, o).value, o.pub) && Finds(e, o, Derive(e, o).value, o.pub, e.wallet.secret)
  {
    hide Finds;
    DeriveFinds(e, o, o.pub, e.wallet.secret);
  }

  /** ... and the owner of the spend secret opens what it finds: x = Hs(drv, i) + s is the
      secret of the one-time key. */
  lemma OutputSpendable<P(!new)>(e: Env, g: Curve<P>, b: P, enc: P -> key, o: OutArgs, s: key)
    requires OnCurve(e, g, b, enc) && Derive(e, o).Some? && o.spend == enc(Times(g, LE(s), b))
    ensures
      var x := Derive(e, o).value;
      x.outKey == enc(Times(g, Compute(Add, LE(x.amountKey), LE(s)), b))
  {
    hide OnCurve, LE, Times, IsGroup, Compute, AddKey, Derivation, Same;
    var x, drv := Derive(e, o).value, Derivation(e, o).value;
    OutputIs(e, g, b, enc, drv, o.index, Times(g, LE(s), b));
    SumIs(LE(x.amountKey), LE(s));
    TimesSum(g, LE(x.amountKey), LE(s), b);
    TimesResidue(g, LE(x.amountKey) + LE(s), L, b);
  }

  lemma SumIs(x: nat, y: nat)
    ensures Compute(Add, x, y) == (x + y) % L
  {
  }

  // --- over runs ------------------------------------------------------------------------------

  /** `a` is the view secret of the recipient that was noted: the wallet's own for change, and
      otherwise that of the address. */
  ghost predicate OwnedBy<P(!new)>(e: Env, g: Curve<P>, b: P, enc: P -> key, r: Rec, a: key, spend: P)
  {
    if r.change != 0 then a == e.wallet.secret
    else r.spend == enc(spend) && r.view == enc(Times(g, LE(a), if r.sub != 0 then spend else b))
  }

  /** The published key the owner of a derived output starts from. */
  function ScannedNote(n: Note): key
    requires n.Derived?
  {
    if n.rec.change == 0 && n.rec.sub != 0 && n.addKey.Some? then n.addKey.value else n.mainKey
  }

  /** From the key `k` and the view secret `a`, the output at position `i` is the one derived:
      its one-time key, its amount key and its view tag. */
  predicate FoundAt(e: Env, n: Note, i: nat, k: key, a: key)
    requires n.Derived?
  {
    && e.derive(k, a).Some?
    && e.outputKey(e.derive(k, a).value, i, n.rec.spend) == Some(n.entry.key)
    && e.toScalar(e.derive(k, a).value, i) == Some(n.rec.amountKey)
    && (n.entry.viewTag != [] ==>
          && e.viewTag(e.derive(k, a).value, i).Some?
          && n.entry.viewTag == [e.viewTag(e.derive(k, a).value, i).value])
  }

  /** The note of a derivation, from its arguments. */
  function NoteFor(o: OutArgs, x: Derivative): Note
  {
    Derived(EntryFor(o, x), RecFor(o, x), o.pub, if o.need != 0 then Some(x.addKey) else None)
  }

  lemma DerivedNote(e: Env, d: Dev, c: Cmd, data: bytes) returns (o: OutArgs)
    requires var r := GenOutput(e, d, c, data); !r.Refuse? && r.note.Derived?
    ensures Vouched(e, d, o) && Derive(e, o).Some? && d.session.mode == Real
    ensures GenOutput(e, d, c, data).note == NoteFor(o, Derive(e, o).value)
  {
    hide ParseOut, Vouched, Derive, EntryFor, RecFor;
    o := ParseOut(e, d, data).args;
  }

  lemma NoteFound<P(!new)>(e: Env, g: Curve<P>, b: P, enc: P -> key, d: Dev, o: OutArgs, a: key, spend: P)
    requires OnCurve(e, g, b, enc) && Vouched(e, d, o) && Derive(e, o).Some?
    requires OwnedBy(e, g, b, enc, RecFor(o, Derive(e, o).value), a, spend)
    ensures var n := NoteFor(o, Derive(e, o).value); FoundAt(e, n, d.outputs.count, ScannedNote(n), a)
  {
    hide OnCurve, LE, Times, Derive;
    if o.change != 0 { ChangeRecoverable(e, o); } else { OutputRecoverable(e, g, b, enc, d, o, a, spend); }
    FoundFinds(e, o, ScannedNote(NoteFor(o, Derive(e, o).value)), a);
  }

  lemma FoundFinds(e: Env, o: OutArgs, k: key, a: key)
    requires Derive(e, o).Some? && Finds(e, o, Derive(e, o).value, k, a)
    ensures FoundAt(e, NoteFor(o, Derive(e, o).value), o.index, k, a)
  {
    hide AddKey, Derivation;
  }

  lemma OnlyDeriveDerives(e: Env, d: Dev, c: Cmd, options: byte, data: bytes)
    requires Access(d.session.inProgress, c.ins) == SW_OK
    requires var r := Serve(e, d, c, options, data); !r.Refuse? && r.note.Derived?
    ensures d.session.inProgress && Serve(e, d, c, options, data) == GenOutput(e, d, c, data)
  {
    hide FetchHandle, Sign, FetchKey, ParseOut, Derive, Vouched, Timelock, Opening, FeeOf, FeeLine, ParseStep,
      PidRefused, Shown, DisplayOf, GenOutput;
    if c.ins == INS_MLSAG || c.ins == INS_CLSAG { Ordering.SignKeepsStages(e, d, c, options, data); }
  }

  lemma NextDerived(e: Env, d: Dev, ev: Event) returns (s: Dev, o: OutArgs)
    requires Next(e, d, ev).Running? && Next(e, d, ev).note.Derived?
    ensures s == d.(session := s.session) && s.Signs() && s.session.gate == d.session.gate && d.Signs()
    ensures Vouched(e, s, o) && Derive(e, o).Some? && Next(e, d, ev).note == NoteFor(o, Derive(e, o).value)
  {
    hide Serve, Access, Dispatch, Protocol, Vouched, Derive, GenOutput, NoteFor;
    var c := ev.cmd;
    CommandRuns(e, d, c);
    Ordering.EnterKeeps(d, c);
    s := Entered(d, c);
    OnlyDeriveDerives(e, s, c, c.body[0], c.body[1..]);
    o := DerivedNote(e, s, c, c.body[1..]);
  }

  lemma CountIsPosition(e: Env, d: Dev, l: PrefixBinding.Stream)
    requires PrefixBinding.Bound(e, d, l) && d.Signs()
    ensures d.outputs.count == |l.entries| % TWO32
  {
    hide Entries, Flatten, PrefixSpec.Run;
  }

  /** Main result, for every output derived in every run: its owner finds it from a published
      key, at the position it was derived at. */
  lemma DerivedRecoverable<P(!new)>(e: Env, g: Curve<P>, b: P, enc: P -> key, evs: seq<Event>, n: nat, a: key, spend: P)
    requires OnCurve(e, g, b, enc) && n < |Play(e, evs).notes| && Play(e, evs).notes[n].Derived?
    requires OwnedBy(e, g, b, enc, Play(e, evs).notes[n].rec, a, spend)
    ensures
      var x, l := Play(e, evs).notes[n], PrefixBinding.StreamOf(Play(e, evs).notes[..n]);
      FoundAt(e, x, |l.entries| % TWO32, ScannedNote(x), a)
  {
    hide Play, Next, OnCurve, OwnedBy, Vouched, Derive, PrefixBinding.Bound, PrefixBinding.StreamOf, FoundAt,
      ScannedNote;
    FirstNote(e, evs);
    var m := NoteOrigin(e, evs, n);
    var d := Play(e, evs[..m]).d;
    PrefixBinding.BoundRun(e, evs[..m]);
    var s, o := NextDerived(e, d, evs[m]);
    CountIsPosition(e, d, PrefixBinding.StreamOf(Play(e, evs).notes[..n]));
    NoteFound(e, g, b, enc, s, o, a, spend);
  }

  /** ... and its owner opens it: Hs(drv, i) + s is the secret of the one-time key. */
  lemma DerivedSpendable<P(!new)>(e: Env, g: Curve<P>, b: P, enc: P -> key, evs: seq<Event>, n: nat, s: key)
    requires OnCurve(e, g, b, enc) && n < |Play(e, evs).notes| && Play(e, evs).notes[n].Derived?
    requires Play(e, evs).notes[n].rec.spend == enc(Times(g, LE(s), b))
    ensures
      var x := Play(e, evs).notes[n];
      x.entry.key == enc(Times(g, Compute(Add, LE(x.rec.amountKey), LE(s)), b))
  {
    hide Play, Next, OnCurve, Vouched, Derive, LE, Times, Compute;
    FirstNote(e, evs);
    var m := NoteOrigin(e, evs, n);
    var d, o := NextDerived(e, Play(e, evs[..m]).d, evs[m]);
    OutputSpendable(e, g, b, enc, o, s);
  }

  // --- payment IDs ------------------------------------------------------------------------------

  lemma MaskTwice(p: pid8, m: bytes)
    requires |m| >= 8
    ensures Mask8(Mask8(p, m), m) == p
  {
    hide XorByte;
    forall i | 0 <= i < 8
      ensures Mask8(Mask8(p, m), m)[i] == p[i]
    {
      XorByteTwice(p[i], m[i]);
    }
  }

  /** What a retained payment ID is: the plaintext masked under derive(pub, r). */
  /** After its first byte, which says what it is, the nonce is the plaintext under the digest of
      the derivation and the byte 0x8d. */
  predicate Unmasks(e: Env, nonce: nonce9, drv: key, plain: pid8)
  {
    var m := Digest(e.keccak, drv + [0x8d]);
    nonce[0] == 0x01 && (|m| >= 8 ==> forall i :: 0 <= i < 8 ==> plain[i] == XorByte(nonce[1 + i], m[i]))
  }

  lemma MaskUnmasks(e: Env, nonce: nonce9, drv: key, plain: pid8)
    requires nonce == [TX_EXTRA_NONCE_ENCRYPTED_PAYMENT_ID] + Mask8(plain, StealthMask(e, drv))
    ensures Unmasks(e, nonce, drv, plain)
  {
    hide XorByte;
    MaskTwice(plain, StealthMask(e, drv));
    assert nonce[1..] == Mask8(plain, StealthMask(e, drv));
  }

  lemma StealthIs(e: Env, d: Dev, c: Cmd, data: bytes)
    requires var r := Stealth(e, d, c, data); r.Reply? && r.note.PaymentId?
    ensures
      var n := Stealth(e, d, c, data).note;
      && d.Signs() && e.derive(n.pub, d.keys.r).Some?
      && Unmasks(e, n.nonce, e.derive(n.pub, d.keys.r).value, n.plain)
  {
    hide FetchKey, Mask8, StealthMask, Unmasks;
    var n := Stealth(e, d, c, data).note;
    MaskUnmasks(e, n.nonce, e.derive(n.pub, d.keys.r).value, n.plain);
  }

  /** The owner of the view key the payment ID was encrypted to reads it from the nonce in
      `extra` and the transaction's R, in every run. */
  lemma PaymentIdReadable<P(!new)>(e: Env, g: Curve<P>, b: P, enc: P -> key, evs: seq<Event>, c: Cmd, data: bytes,
                                     a: key)
    requires OnCurve(e, g, b, enc) && Play(e, evs).Alive?
    requires var r := Stealth(e, Play(e, evs).d, c, data);
      r.Reply? && r.note.PaymentId? && r.note.pub == enc(Times(g, LE(a), b))
    ensures
      var d := Play(e, evs).d;
      var n := Stealth(e, d, c, data).note;
      e.derive(d.keys.publicR, a).Some?
      && Unmasks(e, n.nonce, e.derive(d.keys.publicR, a).value, n.plain)
  {
    hide OnCurve, Play, Stealth, Unmasks, LE, Times;
    var d := Play(e, evs).d;
    var n := Stealth(e, d, c, data).note;
    TxKeyRun(e, evs);
    StealthIs(e, d, c, data);
    MulGIs(e, g, b, enc, d.keys.r);
    Shared(e, g, b, enc, b, a, d.keys.r);
  }
}
