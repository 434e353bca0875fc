/** Which bytes of a command are which: what every note of every run says, read off the bytes of
    the command that left it. */
module Layouts {
  import opened Bytes
  import opened Status
  import Varint
  import opened Scalars
  import Blinding
  import PrefixSpec
  import opened DeviceState
  import opened DeviceSpec
  import opened DeviceRuns
  import opened Ordering

  /** The secret behind a scalar handle: the placeholder stands for the view secret. */
  function SecretIn(e: Env, handle: bytes): key
    requires |handle| >= 32
  {
    if handle[..32] == ZERO_KEY then e.wallet.secret else e.unseal(handle[..32])
  }

  /** INS_GEN_TXOUT_KEYS: four bytes, a key handle, the main key, A, B, the index, is_change,
      is_subaddress, need, an additional key handle or 32 bytes, and the view-tag flag. */
  predicate DerivedSays(e: Env, b: bytes, n: Note)
    requires n.Derived?
  {
    && |b| >= 204 && b[168] <= 1 && b[169] <= 1 && b[170] <= 1
    && n.mainKey == b[68..100] && n.rec.view == b[100..132] && n.rec.spend == b[132..164]
    && n.rec.change == b[168] && n.rec.sub == b[169]
    && (if b[170] == 0 then n.addKey == None && TagSays(b[203], n)
        else (&& |b| >= 236 && TagSays(b[235], n) && n.addKey.Some?
              && n.addKey == if b[169] == 1 then e.mul(b[132..164], SecretIn(e, b[171..203]))
                             else e.mulG(SecretIn(e, b[171..203]))))
  }

  predicate TagSays(flag: byte, n: Note)
    requires n.Derived?
  {
    && flag <= 1 && (flag == 1 <==> |n.entry.viewTag| == 1) && (flag == 0 <==> n.entry.viewTag == [])
    && n.entry.kind == if flag == 1 then PrefixSpec.TXOUT_TO_TAGGED_KEY_TAG else PrefixSpec.TXOUT_TO_KEY_TAG
  }

  /** INS_STEALTH: the view key, a key handle, the payment ID. */
  predicate PaymentIdSays(b: bytes, n: Note)
    requires n.PaymentId?
  {
    |b| >= 104 && n.pub == b[..32] && n.plain == b[96..104]
  }

  /** INS_BLIND: an amount-key handle, the mask, the value. */
  predicate BlindedSays(e: Env, short: bool, b: bytes, n: Note)
    requires n.Blinded?
  {
    && |b| >= 128
    && var x, ak := Blinding.Amount(b[96..128], b[64..96]), e.unseal(b[..32]);
    && (short ==> Blinding.EightMasked(x.v, e.streams.ecdh(ak), n.hidden.v) && AllZero(n.hidden.k))
    && (!short && Blinding.AllReduced(e.streams, x, ak) ==> Blinding.Moved(e.streams, x, ak, n.hidden, true))
  }

  /** INS_VALIDATE, P1=2: is_subaddress, is_change, A, B, an amount-key handle, the commitment,
      the encrypted mask, the encrypted amount. */
  predicate OutputSays(e: Env, more: bool, short: bool, b: bytes, n: Note)
    requires n.Output?
  {
    && |b| >= 226
    && n.rec.sub == b[0] && n.rec.change == b[1] && n.rec.view == b[2..34] && n.rec.spend == b[34..66]
    && n.rec.amountKey == e.unseal(b[66..98]) && n.commitment == b[130..162]
    && n.terminal == !more && n.short == short
    && n.amount == (if short then b[194..202] else b[162..226])
    && var x, ak := Blinding.Amount(b[194..226], b[162..194]), e.unseal(b[66..98]);
    && (short ==> Blinding.EightMasked(x.v, e.streams.ecdh(ak), n.v) && n.k == e.streams.mask(ak))
    && (!short && Blinding.AllReduced(e.streams, x, ak) ==>
      Blinding.Moved(e.streams, x, ak, Blinding.Amount(n.v, n.k), false))
  }

  /** INS_MLSAG, P1=1: nothing, or Hi and xin, as a handle or in the clear. INS_CLSAG, P1=1: the
      handle of p, z, H. */
  predicate PreparedSays(e: Env, c: Cmd, b: bytes, n: Note)
    requires n.Prepared? && c.body != []
  {
    && n.handle == e.seal(c.random)
    && (if c.ins == INS_CLSAG then |b| >= 128 && n.secrets == [e.unseal(b[..32]), b[64..96]] && n.base == b[96..128]
        else if b == [] then n.secrets == [] && n.base == []
        else (&& |b| >= 64 && n.base == b[..32]
              && n.secrets == [if c.body[0] / 0x40 % 2 == 1 then b[32..64] else e.unseal(b[32..64])]))
  }

  /** P1=3. INS_MLSAG: the handles of xin and of the nonce. INS_CLSAG: the handles of the nonce and
      of p, then z, mu_P, mu_C. */
  predicate SignedSays(e: Env, c: Cmd, b: bytes, n: Note)
    requires n.Signed?
  {
    && n.clsag == (c.ins == INS_CLSAG)
    && (if n.clsag
        then (&& |b| >= 224 && n.handle == b[..32]
              && n.on == OnClsag(LE(e.unseal(b[64..96])), LE(b[128..160]), LE(b[160..192]), LE(b[192..224])))
        else |b| >= 128 && n.handle == b[64..96] && n.on == OnMlsag(LE(e.unseal(b[..32]))))
  }

  /** What the note says is what the bytes of the command say. */
  predicate Says(e: Env, c: Cmd, n: Note)
    requires c.body != []
  {
    var b, more, short := c.body[1..], c.body[0] >= 0x80, c.body[0] % 4 == 2;
    match n
    case PaymentId(_, _, _) => PaymentIdSays(b, n)
    case Derived(_, _, _, _) => DerivedSays(e, b, n)
    case PrefixHeader(header, _) => header == b
    case PrefixChunk(chunk, last) => chunk == b && last == !more
    case Masked(mask) => |b| >= 64 && mask == e.streams.mask(e.unseal(b[..32]))
    case Blinded(_) => BlindedSays(e, short, b, n)
    case Fee(fee, data, _, follows) =>
      data == b && |b| >= 2 && Varint.Wire(b[1..]) && fee == Varint.Value(b[1..]) && follows == more
    case PseudoOut(data, follows) => data == b && |b| == 32 && follows == more
    case Output(_, _, _, _, _, _, _, _, _) => OutputSays(e, more, short, b, n)
    case Absorbed(commitment) => |b| >= 32 && commitment == b[..32] && more
    case Finalized(message, proof, _) => |b| >= 64 && message == b[..32] && proof == b[32..64] && !more
    case Prepared(_, _, _, _, _) => PreparedSays(e, c, b, n)
    case Hashed(first, msg, last, clsag) =>
      && first == (c.p2 == 1) && last == !more && clsag == (c.ins == INS_CLSAG)
      && (clsag || !first ==> |b| >= 32 && msg == b[..32])
    case Signed(_, _, _, _, _, _, _) => SignedSays(e, c, b, n)
    case _ => true
  }

  predicate SaysResult(e: Env, c: Cmd, r: Result)
    requires c.body != []
  {
    !r.Refuse? ==> Says(e, c, r.note)
  }

  // --- handler by handler ---------------------------------------------------------------------------

  lemma FetchReads(e: Env, d: Dev, b: bytes, kind: nat)
    requires d.session.inProgress && FetchHandle(e, d, b, kind).Got?
    ensures
      var f := FetchHandle(e, d, b, kind);
      |b| >= 64 && f.value == e.unseal(b[..32]) && f.rest == b[64..]
  {
  }

  lemma FetchKeyReads(e: Env, d: Dev, b: bytes)
    requires d.session.inProgress && FetchKey(e, d, b).Got?
    ensures
      var f := FetchKey(e, d, b);
      |b| >= 64 && f.value == SecretIn(e, b) && f.rest == b[64..]
  {
  }

  lemma SaysStealth(e: Env, d: Dev, c: Cmd)
    requires c.body != []
    ensures SaysResult(e, c, Stealth(e, d, c, c.body[1..]))
  {
    hide FetchKey, Mask8, StealthMask;
    var b := c.body[1..];
    if d.session.inProgress && |b| >= 32 && FetchKey(e, d, b[32..]).Got? {
      FetchKeyReads(e, d, b[32..]);
    }
  }

  /** Where the arguments of an output lie. */
  lemma ParsedSays(e: Env, d: Dev, b: bytes)
    requires d.session.inProgress && ParseOut(e, d, b).Parsed?
    ensures
      var a := ParseOut(e, d, b).args;
      && |b| >= 204 && a.pub == b[68..100] && a.view == b[100..132] && a.spend == b[132..164]
      && a.change == b[168] <= 1 && a.sub == b[169] <= 1 && a.need == b[170] <= 1
      && (a.need == 0 ==> a.tagged == b[203])
      && (a.need == 1 ==> |b| >= 236 && a.addSec == SecretIn(e, b[171..203]) && a.tagged == b[235])
      && a.tagged <= 1
  {
    hide FetchKey;
    FetchKeyReads(e, d, b[4..]);
    var t := b[68..];
    assert b[4..][64..] == t;
    assert t[..32] == b[68..100] && t[32..64] == b[100..132] && t[64..96] == b[132..164];
    if t[102] != 0 {
      FetchKeyReads(e, d, t[103..]);
      assert t[103..][..32] == b[171..203] && t[103..][64..] == b[235..];
      assert b[171..203][..32] == b[171..203];
    } else {
      assert t[103..][32..] == b[203..];
    }
  }

  lemma SaysDerive(e: Env, d: Dev, c: Cmd)
    requires c.body != [] && d.session.inProgress
    ensures SaysResult(e, c, GenOutput(e, d, c, c.body[1..]))
  {
    hide ParseOut, Vouched, Derivation;
    if ParseOut(e, d, c.body[1..]).Parsed? { ParsedSays(e, d, c.body[1..]); }
  }

  lemma SaysPrefix(e: Env, d: Dev, c: Cmd)
    requires c.body != []
    ensures SaysResult(e, c, PrefixHash(e, d, c, c.body[0], c.body[1..]))
  {
    hide Timelock, PrefixSpec.Run;
  }

  lemma SaysMask(e: Env, d: Dev, c: Cmd)
    requires c.body != [] && d.session.inProgress
    ensures SaysResult(e, c, CommitmentMask(e, d, c, c.body[1..]))
  {
    hide FetchHandle;
    if FetchHandle(e, d, c.body[1..], TYPE_AMOUNT_KEY).Got? { FetchReads(e, d, c.body[1..], TYPE_AMOUNT_KEY); }
  }

  lemma SaysBlind(e: Env, d: Dev, c: Cmd)
    requires c.body != [] && d.session.inProgress
    ensures SaysResult(e, c, Blind(e, d, c, c.body[0], c.body[1..]))
  {
    hide FetchHandle, Blinding.Blinded, Blinding.EightMasked, Blinding.Moved, Blinding.AllReduced;
    var b := c.body[1..];
    if FetchHandle(e, d, b, TYPE_AMOUNT_KEY).Got? {
      FetchReads(e, d, b, TYPE_AMOUNT_KEY);
      if |b| >= 128 {
        assert b[64..][..32] == b[64..96] && b[64..][32..64] == b[96..128];
        var x, ak := Blinding.Amount(b[96..128], b[64..96]), e.unseal(b[..32]);
        if Blinding.Blinded(e.streams, x, ak, Short(c.body[0])).Some? {
          Blinding.BlindedIs(e.streams, x, ak, Short(c.body[0]));
        }
      }
    }
  }

  lemma SaysFee(e: Env, d: Dev, c: Cmd)
    requires c.body != []
    ensures SaysResult(e, c, PrehashInit(e, d, c, c.body[0], c.body[1..]))
  {
    hide Varint.Wire, Varint.Value, Varint.Decode, FeeLine;
    var b := c.body[1..];
    if FeeOf(b).Num? { assert b[1..][..|b| - 1] == b[1..]; }
  }

  /** Where the parts of an output step lie. */
  lemma StepSays(e: Env, d: Dev, c: Cmd, b: bytes)
    requires d.session.inProgress && c.version >= 2 && ParseStep(e, d, c, b).Stepped?
    ensures
      var o := ParseStep(e, d, c, b).o;
      && |b| >= 226 && o.sub == b[0] && o.change == b[1] && o.view == b[2..34] && o.spend == b[34..66]
      && o.amountKey == e.unseal(b[66..98]) && o.commitment == b[130..162]
      && o.mask == b[162..194] && o.amount == b[194..226]
  {
    hide FetchHandle;
    FetchReads(e, d, b[66..], TYPE_AMOUNT_KEY);
    assert b[66..][64..] == b[130..] && b[66..][..32] == b[66..98];
    var t := b[130..];
    assert t[..32] == b[130..162] && t[32..64] == b[162..194] && t[64..96] == b[194..226];
  }

  lemma SaysOutput(e: Env, d: Dev, c: Cmd)
    requires c.body != [] && d.session.inProgress && c.version >= 2
    ensures SaysResult(e, c, PrehashUpdate(e, d, c, c.body[0], c.body[1..]))
  {
    hide ParseStep, PidRefused, Opening, ChangeWord, Shown, DisplayOf, RecBytes, AllZero, Blinding.EightMasked,
      Blinding.Moved, Blinding.AllReduced;
    var b, short := c.body[1..], Short(c.body[0]);
    if ParseStep(e, d, c, b).Stepped? {
      var o := ParseStep(e, d, c, b).o;
      StepSays(e, d, c, b);
      if Opening(e, o, short).Stands? { OpeningSays(e, o, short); }
      assert b[162..194] + b[194..226] == b[162..226] && b[194..226][..8] == b[194..202];
    }
  }

  lemma OpeningSays(e: Env, o: OutStep, short: bool)
    requires Opening(e, o, short).Stands?
    ensures
      var x, y, ak := Blinding.Amount(o.amount, o.mask), Opening(e, o, short).x, o.amountKey;
      && (short ==> Blinding.EightMasked(x.v, e.streams.ecdh(ak), y.v) && y.k == e.streams.mask(ak))
      && (!short && Blinding.AllReduced(e.streams, x, ak) ==> Blinding.Moved(e.streams, x, ak, y, false))
  {
    hide Commitment, AllZero, Blinding.EightMasked, Blinding.Moved, Blinding.AllReduced, Blinding.Unblinded;
    Blinding.UnblindedIs(e.streams, Blinding.Amount(o.amount, o.mask), o.amountKey, short);
  }

  lemma SaysClose(e: Env, d: Dev, c: Cmd)
    requires c.body != []
    ensures More(c.body[0]) ==> SaysResult(e, c, AbsorbCommitment(d, c, c.body[1..]))
    ensures !More(c.body[0]) ==> SaysResult(e, c, FinalizePrehash(e, d, c, c.body[1..]))
  {
  }

  lemma SaysValidate(e: Env, d: Dev, c: Cmd)
    requires c.body != [] && d.session.inProgress && (d.Signs() ==> c.version >= 2)
    ensures SaysResult(e, c, Validate(e, d, c, c.body[0], c.body[1..]))
  {
    hide PrehashInit, PrehashUpdate, AbsorbCommitment, FinalizePrehash, ValidateGate, Says;
    if d.Signs() {
      SaysFee(e, d, c);
      SaysOutput(e, d, c);
      SaysClose(e, d, c);
    } else {
      FakeValidateQuiet(e, d, c);
    }
  }

  lemma FakeValidateQuiet(e: Env, d: Dev, c: Cmd)
    requires c.body != [] && d.session.inProgress && !d.Signs()
    ensures SaysResult(e, c, Validate(e, d, c, c.body[0], c.body[1..]))
  {
    hide ParseStep, FeeOf, FeeLine;
  }

  lemma SaysPrepare(e: Env, d: Dev, c: Cmd)
    requires c.body != [] && d.session.inProgress
    ensures c.ins == INS_MLSAG ==> SaysResult(e, c, MlsagPrepare(e, d, c, c.body[0], c.body[1..]))
    ensures c.ins == INS_CLSAG ==> SaysResult(e, c, ClsagPrepare(e, d, c, c.body[1..]))
  {
    hide FetchHandle, MlsagPoints, ClsagPoints;
    var b := c.body[1..];
    if |b| >= 32 && FetchHandle(e, d, b[32..], TYPE_SCALAR).Got? {
      FetchReads(e, d, b[32..], TYPE_SCALAR);
      assert b[32..][..32] == b[32..64];
    }
    if |b| >= 64 { assert b[32..][..32] == b[32..64]; }
    if FetchHandle(e, d, b, TYPE_SCALAR).Got? {
      FetchReads(e, d, b, TYPE_SCALAR);
      if |b| >= 128 { assert b[64..][..32] == b[64..96] && b[64..][32..64] == b[96..128]; }
    }
  }

  lemma SaysHash(e: Env, d: Dev, c: Cmd)
    requires c.body != []
    ensures c.ins == INS_MLSAG ==> SaysResult(e, c, MlsagHash(e, d, c, c.body[0], c.body[1..]))
    ensures c.ins == INS_CLSAG ==> SaysResult(e, c, ClsagHash(e, d, c, c.body[0], c.body[1..]))
  {
    hide Challenge, History;
  }

  lemma SaysSign(e: Env, d: Dev, c: Cmd)
    requires c.body != [] && d.session.inProgress
    ensures c.ins == INS_MLSAG ==> SaysResult(e, c, MlsagSign(e, d, c, c.body[1..]))
    ensures c.ins == INS_CLSAG ==> SaysResult(e, c, ClsagSign(e, d, c, c.body[1..]))
  {
    hide FetchHandle, LE, ToLE, AllZero;
    var b := c.body[1..];
    if FetchHandle(e, d, b, TYPE_SCALAR).Got? { FetchReads(e, d, b, TYPE_SCALAR); }
    if FetchHandle(e, d, b, TYPE_ALPHA).Got? { FetchReads(e, d, b, TYPE_ALPHA); }
    if |b| >= 64 {
      var t := b[64..];
      if FetchHandle(e, d, t, TYPE_SCALAR).Got? { FetchReads(e, d, t, TYPE_SCALAR); }
      if FetchHandle(e, d, t, TYPE_ALPHA).Got? { FetchReads(e, d, t, TYPE_ALPHA); }
      assert |b| >= 96 ==> t[..32] == b[64..96];
      assert |b| >= 128 ==> t[64..] == b[128..];
      assert |b| >= 224 ==>
        b[128..][..32] == b[128..160] && b[128..][32..64] == b[160..192] && b[128..][64..96] == b[192..224];
    }
  }

  lemma SaysRound(e: Env, d: Dev, c: Cmd)
    requires c.body != [] && d.session.inProgress && (c.ins == INS_MLSAG || c.ins == INS_CLSAG)
    ensures SaysResult(e, c, Sign(e, d, c, c.body[0], c.body[1..]))
  {
    hide MlsagPrepare, MlsagHash, MlsagSign, ClsagPrepare, ClsagHash, ClsagSign, SignGate, Says;
    SaysPrepare(e, d, c);
    SaysHash(e, d, c);
    SaysSign(e, d, c);
  }

  // --- every step, every run --------------------------------------------------------------------------

  lemma SaysOther(e: Env, d: Dev, c: Cmd, data: bytes)
    requires c.body != []
    ensures SaysResult(e, c, Restart(d, c)) && SaysResult(e, c, OpenTx(e, d, c, data)) && SaysResult(e, c, CloseTx(d))
    ensures SaysResult(e, c, SetMode(d, data)) && SaysResult(e, c, Outside(d, c))
  {
  }

  lemma SaysServe(e: Env, d: Dev, c: Cmd)
    requires c.body != [] && Access(d.session.inProgress, c.ins) == SW_OK && (d.Signs() ==> c.version >= 2)
    ensures SaysResult(e, c, Serve(e, d, c, c.body[0], c.body[1..]))
  {
    hide Says, Restart, OpenTx, CloseTx, SetMode, Stealth, GenOutput, PrefixHash, CommitmentMask, Blind, Validate, Sign,
      Outside;
    SaysOther(e, d, c, c.body[1..]);
    SaysStealth(e, d, c);
    SaysPrefix(e, d, c);
    if d.session.inProgress {
      SaysDerive(e, d, c);
      SaysMask(e, d, c);
      SaysBlind(e, d, c);
      SaysValidate(e, d, c);
      if c.ins == INS_MLSAG || c.ins == INS_CLSAG { SaysRound(e, d, c); }
    }
  }

  lemma SaysNext(e: Env, d: Dev, ev: Event, t: Trail)
    requires OrderInv(d.session, t) && Next(e, d, ev).Running? && ev.Command?
    ensures ev.cmd.body != [] && Says(e, ev.cmd, Next(e, d, ev).note)
  {
    hide Serve, Access, Dispatch, Protocol, OrderInv, Sequenced, Says;
    var c := ev.cmd;
    CommandRuns(e, d, c);
    EnterKeeps(d, c);
    OrderSequences(d, c, t);
    SequencedVersion(Entered(d, c), c);
    SaysServe(e, Entered(d, c), c);
  }

  lemma SequencedVersion(d: Dev, c: Cmd)
    requires Sequenced(d, c)
    ensures d.Signs() ==> c.version >= 2
  {
  }

  /** Main result: in every run, every note that a command left says what the bytes of that
      command say. */
  lemma NotesSay(e: Env, evs: seq<Event>, n: nat) returns (m: nat)
    requires 0 < n < |Play(e, evs).notes|
    ensures m < |evs| && Play(e, evs[..m]).notes == Play(e, evs).notes[..n]
    ensures evs[m].Command? ==> evs[m].cmd.body != [] && Says(e, evs[m].cmd, Play(e, evs).notes[n])
    ensures !evs[m].Command? ==> var x := Play(e, evs).notes[n]; x.Accepted? || x.Ended? || x.Init? || x.Quiet?
  {
    hide Play, Next, OrderInv, TrailOf, Says;
    m := NoteOrigin(e, evs, n);
    OrderRun(e, evs[..m]);
    var d := Play(e, evs[..m]).d;
    if evs[m].Command? {
      SaysNext(e, d, evs[m], TrailOf(Play(e, evs).notes[..n]));
    } else {
      UserSays(e, d, evs[m]);
    }
  }

  lemma UserSays(e: Env, d: Dev, ev: Event)
    requires !ev.Command? && Next(e, d, ev).Running?
    ensures var x := Next(e, d, ev).note; x.Accepted? || x.Ended? || x.Init? || x.Quiet?
  {
  }
}
