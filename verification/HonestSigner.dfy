/** The second half of an ordinary transaction: what the device does with the commands that review
    and sign it. */
module HonestSigner {
  import opened Bytes
  import opened Status
  import opened Transcript
  import opened Varint
  import opened Scalars
  import Blinding
  import opened DeviceState
  import opened DeviceSpec
  import opened ChangeAddress
  import opened OutputKeys
  import opened ReviewBinding
  import opened Responses
  import opened HonestHost

  // --- the fee, the outputs, the commitments -------------------------------------------------------

  /** A type byte and the fee. */
  function FeeData(fee: nat): bytes
  {
    [6] + Encode(fee)
  }

  lemma FeeReads(fee: nat)
    requires fee < TWO64
    ensures FeeOf(FeeData(fee)) == Num(fee)
  {
    hide Encode, Value, Wire, Decode;
    EncodeIsWire(fee);
    var x := Encode(fee);
    assert FeeData(fee)[1..] == x && x + [] == x;
    assert |x| <= 10 by { WireShort(x); }
    DecodeEncode(fee, [], |x|);
  }

  lemma WireShort(x: bytes)
    requires Wire(x)
    ensures |x| <= 10
  {
  }

  /** Bit 7 of the options says that more follows. */
  function Follow(more: bool): byte { if more then 0x80 else 0 }

  lemma ShowsFee(e: Env, d: Dev, fee: nat, more: bool)
    requires InTx(e, d, d.keys.r, Gate(INS_BLIND, 0, 0)) && fee < TWO64
    ensures
      var s := Next(e, d, Command(Send(d.session.protocol, INS_VALIDATE, 1, 1, Follow(more), FeeData(fee))));
      && s.Running? && s.note.Fee? && s.note.data == FeeData(fee) && s.note.more == more
      && UnderReview(e, s.d, d.keys.r, Gate(INS_VALIDATE, 1, 1))
      && Later(d, s.d) && s.d.session.stages == d.session.stages && s.d.session.more == more
  {
    hide Serve, FeeData;
    Served(e, d, INS_VALIDATE, 1, 1, Follow(more), FeeData(fee), ZERO_KEY);
    FeeServed(e, d, fee, more, Send(d.session.protocol, INS_VALIDATE, 1, 1, Follow(more), FeeData(fee)));
  }

  lemma FeeServed(e: Env, d: Dev, fee: nat, more: bool, c: Cmd)
    requires InTx(e, d, d.keys.r, Gate(INS_BLIND, 0, 0)) && fee < TWO64
    requires c.ins == INS_VALIDATE && c.p1 == c.p2 == 1
    ensures
      var s := Serve(e, d, c, Follow(more), FeeData(fee));
      && s.Ask? && s.note.Fee? && s.note.data == FeeData(fee) && s.note.more == more
      && UnderReview(e, Awaiting(s.d), d.keys.r, Gate(INS_VALIDATE, 1, 1))
      && Later(d, s.d) && s.d.session.stages == d.session.stages && s.d.session.more == more
  {
    hide FeeOf, FeeLine, FeeData;
    FeeReads(fee);
  }

  lemma TakesPseudo(e: Env, d: Dev, x: key, p2: byte, more: bool)
    requires p2 > 1 && InTx(e, d, d.keys.r, Gate(INS_VALIDATE, 1, p2 - 1))
    requires d.session.more
    ensures
      var s := Next(e, d, Command(Send(d.session.protocol, INS_VALIDATE, 1, p2, Follow(more), x)));
      && s.Running? && s.note == PseudoOut(x, more) && InTx(e, s.d, d.keys.r, Gate(INS_VALIDATE, 1, p2))
      && Later(d, s.d) && s.d.session.stages == d.session.stages && s.d.session.more == more
  {
    hide Serve;
    Served(e, d, INS_VALIDATE, 1, p2, Follow(more), x, ZERO_KEY);
    PseudoServed(e, d, x, p2, more, Send(d.session.protocol, INS_VALIDATE, 1, p2, Follow(more), x));
  }

  lemma PseudoServed(e: Env, d: Dev, x: key, p2: byte, more: bool, c: Cmd)
    requires p2 > 1 && InTx(e, d, d.keys.r, Gate(INS_VALIDATE, 1, p2 - 1))
    requires c.ins == INS_VALIDATE && c.p1 == 1 && c.p2 == p2 && d.session.more
    ensures
      var s := Serve(e, d, c, Follow(more), x);
      && s.Reply? && s.note == PseudoOut(x, more) && InTx(e, s.d, d.keys.r, Gate(INS_VALIDATE, 1, p2))
      && Later(d, s.d) && s.d.session.stages == d.session.stages && s.d.session.more == more
  {
  }

  /** What the review of payment `x` needs of the calls. */
  predicate Commits(e: Env, x: Dest, ak: key) { Blinds(e, x, ak) && Sums(e, MaskOf(e, x, ak), x.v) }

  /** The commitment to the payment's value under its mask. */
  function CommitmentTo(e: Env, x: Dest, ak: key): key
    requires Commits(e, x, ak)
  {
    SumOf(e, MaskOf(e, x, ak), x.v)
  }

  function StepOf(e: Env, x: Dest, ak: key): OutStep
    requires Commits(e, x, ak) && HiddenOf(e, x, ak).Some?
  {
    var y := HiddenOf(e, x, ak).value;
    OutStep(Flag(x.sub), Flag(x.change), x.view, x.spend, ak, CommitmentTo(e, x, ak), y.k, y.v)
  }

  /** The step, with the amount as the device blinded it. */
  function StepData(e: Env, k: Keys, x: Dest, ak: key): bytes
    requires Commits(e, x, ak) && HiddenOf(e, x, ak).Some?
  {
    var y := HiddenOf(e, x, ak).value;
    [Flag(x.sub), Flag(x.change)] + x.view + x.spend + Handle(e, k, ak, TYPE_AMOUNT_KEY) + CommitmentTo(e, x, ak)
      + y.k + y.v
  }

  lemma ParsesStep(e: Env, d: Dev, x: Dest, ak: key, c: Cmd)
    requires d.session.inProgress && Seals(e) && Has(e, d.keys, ak, TYPE_AMOUNT_KEY) && !AllZero(ak) && c.version >= 2
    requires Commits(e, x, ak) && HiddenOf(e, x, ak).Some?
    ensures ParseStep(e, d, c, StepData(e, d.keys, x, ak)) == Stepped(StepOf(e, x, ak))
  {
    hide FetchHandle, Handle, Has, Sums, SumOf, HiddenOf, Blinds, AllZero;
    var o := StepOf(e, x, ak);
    var data := StepData(e, d.keys, x, ak);
    var t := o.commitment + o.mask + o.amount;
    assert data[66..] == Handle(e, d.keys, ak, TYPE_AMOUNT_KEY) + t;
    FetchesHandle(e, d, ak, TYPE_AMOUNT_KEY, t) by { assert InRange(TYPE_AMOUNT_KEY, ak); }
    assert data[0] == o.sub && data[1] == o.change && data[2..34] == x.view && data[34..66] == x.spend;
    assert t[..32] == o.commitment && t[32..64] == o.mask && t[64..96] == o.amount;
  }

  lemma OpensStep(e: Env, x: Dest, ak: key)
    requires Payable(x) && Commits(e, x, ak) && HiddenOf(e, x, ak).Some?
    ensures Opening(e, StepOf(e, x, ak), x.short) == Stands(Blinding.Amount(x.v, MaskOf(e, x, ak)))
  {
    hide HiddenOf, Blinds, Blinding.Unblinded, Commitment, Sums, SumOf, AllZero, LE;
    HidesAmount(e, x, ak);
    CommitmentSums(e, MaskOf(e, x, ak), x.v);
  }

  /** What the review of payment `x` notes. */
  predicate NotesOutput(e: Env, x: Dest, ak: key, terminal: bool, n: Note)
    requires Commits(e, x, ak)
  {
    && n.Output? && n.terminal == terminal && n.rec == Rec(x.view, x.spend, Flag(x.change), Flag(x.sub), ak)
    && n.commitment == CommitmentTo(e, x, ak) && n.v == x.v && n.k == MaskOf(e, x, ak) && n.short == x.short
  }

  /** P2 follows: the first step of the outputs, or the next. */
  predicate Follows(gate: Gate, p1: byte, p2: byte)
  {
    gate.ins == INS_VALIDATE && ((gate.p1 == p1 - 1 && p2 == 1) || (gate.p1 == p1 && p2 == gate.p2 + 1))
  }

  /** The output steps say whether more follow. */
  function StepOptions(x: Dest, terminal: bool): byte { FormOf(x) + Follow(!terminal) }

  /** The review of `x` may close the list. */
  predicate ClosesWith(e: Env, d: Dev, x: Dest, ak: key)
  {
    e.sha(Update(d.review.outKeys, RecBytes(Rec(x.view, x.spend, Flag(x.change), Flag(x.sub), ak)))) == d.review.outK
  }

  lemma ReviewsStep(e: Env, d: Dev, id: Option<Id>, x: Dest, ak: key, p2: byte, terminal: bool)
    requires Seals(e) && InTx(e, d, d.keys.r, d.session.gate) && Follows(d.session.gate, 2, p2)
    requires Payable(x) && Home(e, x) && Has(e, d.keys, ak, TYPE_AMOUNT_KEY) && !AllZero(ak)
    requires Commits(e, x, ak) && HiddenOf(e, x, ak).Some? && Retains(d, id) && GoesWith(id, x)
    requires terminal ==> ClosesWith(e, d, x, ak)
    ensures
      var data := StepData(e, d.keys, x, ak);
      var s := Next(e, d, Command(Send(d.session.protocol, INS_VALIDATE, 2, p2, StepOptions(x, terminal), data)));
      && s.Running? && NotesOutput(e, x, ak, terminal, s.note)
      && UnderReview(e, s.d, d.keys.r, Gate(INS_VALIDATE, 2, p2)) && Later(d, s.d)
      && s.d.session.stages == d.session.stages.(reviewed := d.session.stages.reviewed || terminal)
  {
    hide Serve, StepData, ParseStep, Commits, HiddenOf, AllZero, NotesOutput, Payable, Home, ClosesWith, GoesWith;
    var options, data := StepOptions(x, terminal), StepData(e, d.keys, x, ak);
    var c := Send(d.session.protocol, INS_VALIDATE, 2, p2, options, data);
    Served(e, d, INS_VALIDATE, 2, p2, options, data, ZERO_KEY);
    ParsesStep(e, d, x, ak, c);
    OpensStep(e, x, ak);
    StepServed(e, d, id, x, ak, p2, terminal, c, data);
  }

  lemma StepServed(e: Env, d: Dev, id: Option<Id>, x: Dest, ak: key, p2: byte, terminal: bool, c: Cmd, data: bytes)
    requires InTx(e, d, d.keys.r, d.session.gate) && Follows(d.session.gate, 2, p2)
    requires c.version == d.session.protocol && c.ins == INS_VALIDATE && c.p1 == 2 && c.p2 == p2
    requires Commits(e, x, ak) && HiddenOf(e, x, ak).Some? && Payable(x) && Home(e, x)
    requires Retains(d, id) && GoesWith(id, x)
    requires ParseStep(e, d, c, data) == Stepped(StepOf(e, x, ak))
    requires Opening(e, StepOf(e, x, ak), x.short) == Stands(Blinding.Amount(x.v, MaskOf(e, x, ak)))
    requires terminal ==> ClosesWith(e, d, x, ak)
    ensures
      var s := Serve(e, d, c, StepOptions(x, terminal), data);
      && s.Ask? && NotesOutput(e, x, ak, terminal, s.note)
      && UnderReview(e, Awaiting(s.d), d.keys.r, Gate(INS_VALIDATE, 2, p2)) && Later(d, s.d)
      && s.d.session.stages == d.session.stages.(reviewed := d.session.stages.reviewed || terminal)
  {
    hide ParseStep, Opening, Commits, HiddenOf, MaskOf, SumOf, AllZero, LE, RecBytes, AmountBytes, DisplayOf,
      ChangeWord, Home, GoesWith, PidRefused;
    HomeStands(e, x, ak);
    IdStands(e, Absorb(d, AmountBytes(StepOf(e, x, ak), StepOptions(x, terminal))), id, x, ak);
  }

  lemma IdStands(e: Env, d: Dev, id: Option<Id>, x: Dest, ak: key)
    requires Retains(d, id) && GoesWith(id, x) && Commits(e, x, ak) && HiddenOf(e, x, ak).Some?
    ensures !PidRefused(d, StepOf(e, x, ak))
  {
    hide Commits, CommitmentTo, HiddenOf, AllZero;
  }

  lemma HomeStands(e: Env, x: Dest, ak: key)
    requires Home(e, x) && Commits(e, x, ak) && HiddenOf(e, x, ak).Some?
    ensures ChangeWord(e, StepOf(e, x, ak), x.v) == 0
  {
    hide Commits, CommitmentTo, HiddenOf, AllZero, IsRoot, Derivable, RootOf, Tells;
    RootOfTells(e.wallet, e.mul, x.view, x.spend);
  }

  lemma AbsorbsOne(e: Env, d: Dev, h: key, p2: byte)
    requires InTx(e, d, d.keys.r, d.session.gate) && Follows(d.session.gate, 3, p2)
    ensures
      var s := Next(e, d, Command(Send(d.session.protocol, INS_VALIDATE, 3, p2, 0x80, h)));
      && s.Running? && s.note == Absorbed(h) && InTx(e, s.d, d.keys.r, Gate(INS_VALIDATE, 3, p2)) && Later(d, s.d)
      && s.d.session.stages == d.session.stages
  {
    hide Serve;
    Served(e, d, INS_VALIDATE, 3, p2, 0x80, h, ZERO_KEY);
    AbsorbServed(e, d, h, p2, Send(d.session.protocol, INS_VALIDATE, 3, p2, 0x80, h));
  }

  lemma AbsorbServed(e: Env, d: Dev, h: key, p2: byte, c: Cmd)
    requires InTx(e, d, d.keys.r, d.session.gate) && Follows(d.session.gate, 3, p2)
    requires c.ins == INS_VALIDATE && c.p1 == 3 && c.p2 == p2
    ensures
      var s := Serve(e, d, c, 0x80, h);
      && s.Reply? && s.note == Absorbed(h) && InTx(e, s.d, d.keys.r, Gate(INS_VALIDATE, 3, p2)) && Later(d, s.d)
      && s.d.session.stages == d.session.stages
  {
    assert h[..KEY_SIZE] == h;
  }

  lemma ClosesPrehash(e: Env, d: Dev, proof: key, p2: byte)
    requires Sane(e) && InTx(e, d, d.keys.r, d.session.gate) && Follows(d.session.gate, 3, p2)
    requires |d.signing.prefixH| == KEY_SIZE
    requires d.session.stages == Stages(true, true, true, false) && e.sha(d.review.commitments) == d.review.digest
    ensures
      var s := Next(e, d, Command(Send(d.session.protocol, INS_VALIDATE, 3, p2, 0, d.signing.prefixH + proof)));
      && s.Running? && s.note.Finalized? && s.note.message == d.signing.prefixH && s.note.proof == proof
      && s.note.prehash == s.d.signing.mlsagH && |s.d.signing.mlsagH| == KEY_SIZE
      && InTx(e, s.d, d.keys.r, Gate(INS_VALIDATE, 3, p2)) && Later(d, s.d)
      && s.d.session.stages == Stages(true, true, true, true)
  {
    hide Serve;
    Served(e, d, INS_VALIDATE, 3, p2, 0, d.signing.prefixH + proof, ZERO_KEY);
    CloseServed(e, d, proof, p2, Send(d.session.protocol, INS_VALIDATE, 3, p2, 0, d.signing.prefixH + proof));
  }

  lemma CloseServed(e: Env, d: Dev, proof: key, p2: byte, c: Cmd)
    requires Sane(e) && InTx(e, d, d.keys.r, d.session.gate) && Follows(d.session.gate, 3, p2)
    requires |d.signing.prefixH| == KEY_SIZE
    requires d.session.stages == Stages(true, true, true, false) && e.sha(d.review.commitments) == d.review.digest
    requires c.version == d.session.protocol && c.ins == INS_VALIDATE && c.p1 == 3 && c.p2 == p2
    ensures
      var s := Serve(e, d, c, 0, d.signing.prefixH + proof);
      && s.Reply? && s.note.Finalized? && s.note.message == d.signing.prefixH && s.note.proof == proof
      && s.note.prehash == s.d.signing.mlsagH && |s.d.signing.mlsagH| == KEY_SIZE
      && InTx(e, s.d, d.keys.r, Gate(INS_VALIDATE, 3, p2)) && Later(d, s.d)
      && s.d.session.stages == Stages(true, true, true, true)
  {
    var data := d.signing.prefixH + proof;
    assert data[..32] == d.signing.prefixH && data[32..64] == proof;
  }

  // --- the signature --------------------------------------------------------------------------------

  function RingIns(clsag: bool): byte { if clsag then INS_CLSAG else INS_MLSAG }

  /** In the signing phase, with the prehash closed; CLSAG needs protocol 4. */
  predicate InRound(e: Env, d: Dev, r: key, clsag: bool, p1: byte, p2: byte)
  {
    && InTx(e, d, r, Gate(RingIns(clsag), p1, p2)) && d.session.stages == Stages(true, true, true, true)
    && (clsag ==> d.session.protocol == 4) && |d.signing.mlsagH| == KEY_SIZE
  }

  /** The multiplications of a preparation succeed. */
  predicate Multiplies(e: Env, clsag: bool, x: Ring)
  {
    && e.mulG(x.alpha).Some? && e.mul(x.h, x.alpha).Some? && e.mul(x.h, x.p).Some?
    && (clsag ==> e.mul(x.h, x.z).Some?)
  }

  /** ... and these are the points answered, on the secrets asked for. */
  predicate PointsFor(e: Env, clsag: bool, x: Ring, n: Note)
    requires n.Prepared? && Multiplies(e, clsag, x)
  {
    && n.base == x.h && n.handle == e.seal(x.alpha)
    && n.secrets == (if clsag then [x.p, x.z] else [x.p])
    && n.points == [e.mulG(x.alpha).value, e.mul(x.h, x.alpha).value, e.mul(x.h, x.p).value]
                   + if clsag then [e.mul(x.h, x.z).value] else []
  }

  function PrepareData(e: Env, k: Keys, clsag: bool, x: Ring): bytes
  {
    if clsag then Handle(e, k, x.p, TYPE_SCALAR) + (x.z + x.h) else x.h + Handle(e, k, x.p, TYPE_SCALAR)
  }

  /** The device stands where a nonce may be prepared. */
  predicate MayPrepare(e: Env, d: Dev, clsag: bool)
  {
    && InTx(e, d, d.keys.r, d.session.gate) && d.session.gate.p1 == 3
    && (d.session.gate.ins == INS_VALIDATE || d.session.gate.ins == RingIns(clsag))
    && d.session.stages == Stages(true, true, true, true) && (clsag ==> d.session.protocol == 4)
    && |d.signing.mlsagH| == KEY_SIZE
  }

  lemma PreparesNonce(e: Env, d: Dev, clsag: bool, x: Ring)
    requires Seals(e) && MayPrepare(e, d, clsag) && d.keys.signCnt + 1 < TWO32
    requires Usable(e, x.p) && Has(e, d.keys, x.p, TYPE_SCALAR) && Multiplies(e, clsag, x)
    ensures
      var data := PrepareData(e, d.keys, clsag, x);
      var s := Next(e, d, Command(SendWith(d.session.protocol, RingIns(clsag), 1, 0, 0, data, x.alpha)));
      && s.Running? && s.note.Prepared? && PointsFor(e, clsag, x, s.note) && InRound(e, s.d, d.keys.r, clsag, 1, 0)
      && Has(e, s.d.keys, x.alpha, TYPE_ALPHA) && Has(e, s.d.keys, x.p, TYPE_SCALAR) && s.d.signing == d.signing
      && s.d.keys.signCnt == d.keys.signCnt + 1 && s.d.session.protocol == d.session.protocol
  {
    hide Serve, FetchHandle, Handle, InRange, Multiplies, PointsFor;
    var data := PrepareData(e, d.keys, clsag, x);
    Served(e, d, RingIns(clsag), 1, 0, 0, data, x.alpha);
    var c := SendWith(d.session.protocol, RingIns(clsag), 1, 0, 0, data, x.alpha);
    if clsag {
      FetchesHandle(e, d, x.p, TYPE_SCALAR, x.z + x.h);
      ClsagServed(e, d, x, c, data);
    } else {
      FetchesHandle(e, d, x.p, TYPE_SCALAR, []);
      assert data[KEY_SIZE..] == Handle(e, d.keys, x.p, TYPE_SCALAR) + [];
      MlsagServed(e, d, x, c, data);
    }
  }

  lemma ClsagServed(e: Env, d: Dev, x: Ring, c: Cmd, data: bytes)
    requires MayPrepare(e, d, true) && d.keys.signCnt + 1 < TWO32 && Multiplies(e, true, x)
    requires c.ins == INS_CLSAG && c.p1 == 1 && c.p2 == 0 && c.random == x.alpha && Has(e, d.keys, x.p, TYPE_SCALAR)
    requires FetchHandle(e, d, data, TYPE_SCALAR) == Got(x.p, x.z + x.h)
    ensures
      var s := Serve(e, d, c, 0, data);
      && s.Reply? && s.note.Prepared? && PointsFor(e, true, x, s.note) && InRound(e, s.d, d.keys.r, true, 1, 0)
      && Has(e, s.d.keys, x.alpha, TYPE_ALPHA) && Has(e, s.d.keys, x.p, TYPE_SCALAR) && s.d.signing == d.signing
      && s.d.keys.signCnt == d.keys.signCnt + 1 && s.d.session.protocol == d.session.protocol
  {
    hide FetchHandle;
    assert (x.z + x.h)[32..64] == x.h && (x.z + x.h)[..32] == x.z;
  }

  lemma MlsagServed(e: Env, d: Dev, x: Ring, c: Cmd, data: bytes)
    requires MayPrepare(e, d, false) && d.keys.signCnt + 1 < TWO32 && Multiplies(e, false, x)
    requires c.ins == INS_MLSAG && c.p1 == 1 && c.p2 == 0 && c.random == x.alpha && Has(e, d.keys, x.p, TYPE_SCALAR)
    requires |data| >= KEY_SIZE && data[..KEY_SIZE] == x.h
    requires FetchHandle(e, d, data[KEY_SIZE..], TYPE_SCALAR) == Got(x.p, [])
    ensures
      var s := Serve(e, d, c, 0, data);
      && s.Reply? && s.note.Prepared? && PointsFor(e, false, x, s.note) && InRound(e, s.d, d.keys.r, false, 1, 0)
      && Has(e, s.d.keys, x.alpha, TYPE_ALPHA) && Has(e, s.d.keys, x.p, TYPE_SCALAR) && s.d.signing == d.signing
      && s.d.keys.signCnt == d.keys.signCnt + 1 && s.d.session.protocol == d.session.protocol
  {
    hide FetchHandle;
  }

  /** P2 of a message: 1 starts the round. */
  function Position(first: bool): byte { if first then 1 else 2 }

  /** One message of the hash round; `last` when none follows. MLSAG starts with the prehash. */
  lemma HashesOne(e: Env, d: Dev, clsag: bool, m: key, first: bool, last: bool)
    requires InRound(e, d, d.keys.r, clsag, if first then 1 else 2, 0)
    requires !clsag && first ==> m == d.signing.mlsagH
    requires last ==> !first && (clsag ==> History(d.signing.history, m == d.signing.mlsagH) >= 4)
    ensures
      var c := Send(d.session.protocol, RingIns(clsag), 2, Position(first), Follow(!last), m);
      var s := Next(e, d, Command(c));
      && s.Running? && s.note == Hashed(first, m, last, clsag)
      && InRound(e, s.d, d.keys.r, clsag, 2, if last then 2 else 0)
      && s.d.keys == d.keys && s.d.signing.mlsagH == d.signing.mlsagH && s.d.session.protocol == d.session.protocol
      && (clsag ==> s.d.signing.history == History(if first then 0 else d.signing.history, m == d.signing.mlsagH))
  {
    hide Serve, History;
    var options := Follow(!last);
    Served(e, d, RingIns(clsag), 2, Position(first), options, m, ZERO_KEY);
    var c := Send(d.session.protocol, RingIns(clsag), 2, Position(first), options, m);
    assert m[..KEY_SIZE] == m;
    if clsag { ClsagHashServed(e, d, m, first, last, c); } else { MlsagHashServed(e, d, m, first, last, c); }
  }

  lemma ClsagHashServed(e: Env, d: Dev, m: key, first: bool, last: bool, c: Cmd)
    requires InRound(e, d, d.keys.r, true, if first then 1 else 2, 0) && m[..KEY_SIZE] == m
    requires last ==> !first && History(d.signing.history, m == d.signing.mlsagH) >= 4
    requires c.ins == INS_CLSAG && c.p1 == 2 && c.p2 == Position(first)
    ensures
      var s := Serve(e, d, c, Follow(!last), m);
      && s.Reply? && s.note == Hashed(first, m, last, true)
      && InRound(e, s.d, d.keys.r, true, 2, if last then 2 else 0)
      && s.d.keys == d.keys && s.d.signing.mlsagH == d.signing.mlsagH && s.d.session.protocol == d.session.protocol
      && s.d.signing.history == History(if first then 0 else d.signing.history, m == d.signing.mlsagH)
  {
    hide History, Challenge;
  }

  lemma MlsagHashServed(e: Env, d: Dev, m: key, first: bool, last: bool, c: Cmd)
    requires InRound(e, d, d.keys.r, false, if first then 1 else 2, 0) && m[..KEY_SIZE] == m
    requires (first ==> m == d.signing.mlsagH) && (last ==> !first)
    requires c.ins == INS_MLSAG && c.p1 == 2 && c.p2 == Position(first)
    ensures
      var s := Serve(e, d, c, Follow(!last), m);
      && s.Reply? && s.note == Hashed(first, m, last, false)
      && InRound(e, s.d, d.keys.r, false, 2, if last then 2 else 0)
      && s.d.keys == d.keys && s.d.signing.mlsagH == d.signing.mlsagH && s.d.session.protocol == d.session.protocol
  {
    hide Challenge;
  }

  /** What a response is computed on. */
  predicate Answers(e: Env, clsag: bool, x: Ring, n: Note)
  {
    && n.Signed? && n.clsag == clsag && n.handle == e.seal(x.alpha) && n.alpha == LE(x.alpha)
    && n.on == if clsag then OnClsag(LE(x.p), LE(x.z), LE(x.muP), LE(x.muC)) else OnMlsag(LE(x.p))
  }

  function SignData(e: Env, k: Keys, clsag: bool, x: Ring): bytes
  {
    var p, a := Handle(e, k, x.p, TYPE_SCALAR), Handle(e, k, x.alpha, TYPE_ALPHA);
    if clsag then a + (p + (x.z + x.muP + x.muC)) else p + (a + [])
  }

  lemma SignsOne(e: Env, d: Dev, clsag: bool, x: Ring)
    requires Seals(e) && InRound(e, d, d.keys.r, clsag, 2, 2) && !AllZero(x.alpha) && (clsag ==> !AllZero(x.z))
    requires Usable(e, x.p) && Has(e, d.keys, x.p, TYPE_SCALAR) && Has(e, d.keys, x.alpha, TYPE_ALPHA)
    ensures
      var data := SignData(e, d.keys, clsag, x);
      var s := Next(e, d, Command(Send(d.session.protocol, RingIns(clsag), 3, 0, 0, data)));
      && s.Running? && Answers(e, clsag, x, s.note) && MayPrepare(e, s.d, clsag) && s.d.keys == d.keys
      && s.d.signing.mlsagH == d.signing.mlsagH && s.d.session.protocol == d.session.protocol
  {
    hide Serve, FetchHandle, InRange, Handle, AllZero, LE;
    var p, a := Handle(e, d.keys, x.p, TYPE_SCALAR), Handle(e, d.keys, x.alpha, TYPE_ALPHA);
    var u := x.z + x.muP + x.muC;
    var data := SignData(e, d.keys, clsag, x);
    Served(e, d, RingIns(clsag), 3, 0, 0, data, ZERO_KEY);
    NonceInRange(x.alpha);
    FetchesHandle(e, d, x.alpha, TYPE_ALPHA, if clsag then p + u else []);
    FetchesHandle(e, d, x.p, TYPE_SCALAR, if clsag then u else a + []);
    HandleStarts(e, d.keys, x.alpha, if clsag then p + u else []);
    var c := Send(d.session.protocol, RingIns(clsag), 3, 0, 0, data);
    if clsag {
      ClsagSignServed(e, d, x, c, data, p + u);
    } else {
      MlsagSignServed(e, d, x, c, data, a + []);
    }
  }

  lemma NonceInRange(alpha: key)
    requires !AllZero(alpha)
    ensures InRange(TYPE_ALPHA, alpha)
  {
  }

  lemma HandleStarts(e: Env, k: Keys, alpha: key, t: bytes)
    ensures
      var data := Handle(e, k, alpha, TYPE_ALPHA) + t;
      |data| >= KEY_SIZE && data[..KEY_SIZE] == e.seal(alpha)
  {
  }

  lemma ClsagSignServed(e: Env, d: Dev, x: Ring, c: Cmd, data: bytes, t: bytes)
    requires InRound(e, d, d.keys.r, true, 2, 2) && !AllZero(x.z)
    requires c.ins == INS_CLSAG && c.p1 == 3 && |data| >= KEY_SIZE && data[..KEY_SIZE] == e.seal(x.alpha)
    requires FetchHandle(e, d, data, TYPE_ALPHA) == Got(x.alpha, t)
    requires FetchHandle(e, d, t, TYPE_SCALAR) == Got(x.p, x.z + x.muP + x.muC)
    ensures
      var s := Serve(e, d, c, 0, data);
      && s.Reply? && Answers(e, true, x, s.note) && MayPrepare(e, s.d, true) && s.d.keys == d.keys
      && s.d.signing.mlsagH == d.signing.mlsagH && s.d.session.protocol == d.session.protocol
  {
    hide FetchHandle, LE, ToLE, AllZero;
    var u := x.z + x.muP + x.muC;
    assert u[..32] == x.z && u[32..64] == x.muP && u[64..96] == x.muC;
  }

  lemma MlsagSignServed(e: Env, d: Dev, x: Ring, c: Cmd, data: bytes, t: bytes)
    requires InRound(e, d, d.keys.r, false, 2, 2)
    requires c.ins == INS_MLSAG && c.p1 == 3 && |t| >= KEY_SIZE && t[..KEY_SIZE] == e.seal(x.alpha)
    requires FetchHandle(e, d, data, TYPE_SCALAR) == Got(x.p, t)
    requires FetchHandle(e, d, t, TYPE_ALPHA) == Got(x.alpha, [])
    ensures
      var s := Serve(e, d, c, 0, data);
      && s.Reply? && Answers(e, false, x, s.note) && MayPrepare(e, s.d, false) && s.d.keys == d.keys
      && s.d.signing.mlsagH == d.signing.mlsagH && s.d.session.protocol == d.session.protocol
  {
    hide FetchHandle, LE, ToLE, AllZero;
  }
}
