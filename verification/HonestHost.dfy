/** A host that makes an ordinary transaction, and what the device does with each command. */
module HonestHost {
  import opened Bytes
  import opened Status
  import opened Transcript
  import opened Varint
  import opened Scalars
  import Blinding
  import Handles
  import AmountText
  import PrefixSpec
  import PrefixGrammar
  import Ordering
  import opened DeviceState
  import opened DeviceSpec
  import opened ChangeAddress
  import opened OutputKeys
  import opened Responses

  /** A payment: the address, the value, the form its amount is sent in with the mask of the long
      form, and how its output is derived; `own` is the secret of the additional key it may need. */
  datatype Dest = Dest(view: key, spend: key, v: key, short: bool, mask: key,
                       change: bool, sub: bool, need: bool, own: key, tagged: bool)

  /** The payment ID, and the view key it is encrypted to. */
  datatype Id = Id(pub: key, plain: pid8)

  /** One response: its nonce, the secrets p and z, the base, the messages of the round but for the
      prehash, and the weights. */
  datatype Ring = Ring(alpha: key, p: key, z: key, h: key, front: seq<key>, m1: key, m2: key, muP: key, muC: key)

  /** A transaction: protocol, key, main key, payment ID; version, unlock time and inputs of the
      prefix, and where it is cut into chunks; payments, fee, pseudo outputs, the third part of the
      prehash; and what is to be signed, by CLSAG or by MLSAG. */
  datatype Job = Job(version: byte, r: key, main: key, id: Option<Id>,
                     number: nat, lock: nat, inputs: seq<PrefixGrammar.Input>, cuts: seq<nat>,
                     xs: seq<Dest>, fee: nat, pseudo: seq<key>, proof: key, clsag: bool, rings: seq<Ring>)

  function Flag(x: bool): byte { if x then 1 else 0 }

  /** An amount the form carries and the review accepts. */
  predicate Payable(x: Dest)
  {
    && (if x.short then AllZero(x.v[8..]) else LE(x.v) < L && LE(x.mask) < L)
    && (x.change || LE(x.v[..8]) != 0)
  }

  /** The payment ID goes with the payment. */
  predicate GoesWith(id: Option<Id>, x: Dest)
  {
    id.Some? && !x.change ==> x.view == id.value.pub && (AllZero(id.value.plain) || !x.sub)
  }

  /** Change that carries anything goes to one of the wallet's accounts. */
  ghost predicate Home(e: Env, x: Dest)
  {
    x.change && !AllZero(x.v) ==>
      Derivable(e.wallet, e.mul, x.spend)
      && exists m :: 0 <= m < CHANGE_ACCOUNT_LOOKAHEAD && IsRoot(e.wallet, e.mul, x.view, x.spend, m)
  }

  /** A main key the payment can be found with: r times the spend key for a lone subaddress, and
      r.G for all others. */
  predicate Fits(e: Env, r: key, main: key, x: Dest)
  {
    x.change || (if x.sub && !x.need then e.mul(x.spend, r) else e.mulG(r)) == Some(main)
  }

  /** Sealed secrets come back, and digests of keccak have 32 bytes. */
  ghost predicate Sane(e: Env)
  {
    Seals(e) && forall h: Ctx :: |e.keccak(h)| == KEY_SIZE
  }

  /** A scalar whose handle is not one of the two placeholders. */
  predicate Usable(e: Env, r: key)
  {
    InRange(TYPE_SCALAR, r) && e.seal(r) != ZERO_KEY && e.seal(r) != FAKE_SPEND_KEY
  }

  // --- commands ---------------------------------------------------------------------------------

  function Send(version: byte, ins: byte, p1: byte, p2: byte, options: byte, data: bytes): Cmd
  {
    SendWith(version, ins, p1, p2, options, data, ZERO_KEY)
  }

  /** ... while the generator gives the scalar `random`. */
  function SendWith(version: byte, ins: byte, p1: byte, p2: byte, options: byte, data: bytes, random: key): Cmd
  {
    Cmd(version, ins, p1, p2, [options] + data, random, Elsewhere(SW_OK, {}, {}))
  }

  predicate Known(version: byte) { version == 3 || version == 4 }

  function StateOf(r: Result): State
  {
    match r
    case Refuse(sw) => Dead(sw)
    case Reply(d, note) => Running(d, note)
    case Ask(d, note) => Running(Awaiting(d), note)
  }

  /** A command that is let in is served. */
  lemma Served(e: Env, d: Dev, ins: byte, p1: byte, p2: byte, options: byte, data: bytes, random: key)
    requires d.session.screen == Idle && Known(d.session.protocol) && Access(d.session.inProgress, ins) == SW_OK
    ensures
      var c := SendWith(d.session.protocol, ins, p1, p2, options, data, random);
      Next(e, d, Command(c)) == StateOf(Serve(e, d, c, options, data))
  {
    hide Serve, Access;
    var c := SendWith(d.session.protocol, ins, p1, p2, options, data, random);
    assert c.body[0] == options && c.body[1..] == data;
    assert Protocol(d, d.session.protocol) == Some(d);
  }

  // --- handles ----------------------------------------------------------------------------------

  /** The 64 bytes a handle takes in a command. */
  function Handle(e: Env, k: Keys, x: key, kind: nat): (h: bytes)
    ensures |h| == 64
  {
    e.seal(x) + e.mac(Mint(k.keyId, e.seal(x), kind, Counter(kind, k.signCnt)))
  }

  predicate Has(e: Env, k: Keys, x: key, kind: nat)
  {
    Mint(k.keyId, e.seal(x), kind, Counter(kind, k.signCnt)) in k.minted
  }

  lemma FetchesHandle(e: Env, d: Dev, x: key, kind: nat, rest: bytes)
    requires d.session.inProgress && Seals(e) && Has(e, d.keys, x, kind) && InRange(kind, x)
    ensures FetchHandle(e, d, Handle(e, d.keys, x, kind) + rest, kind) == Got(x, rest)
  {
    hide FetchHandle, AllZero, LE;
    assert e.unseal(e.seal(x)) == x;
    Handles.FetchExactlyAsMinted(e, d, x, kind, Counter(kind, d.keys.signCnt), kind, rest);
  }

  lemma FetchesKey(e: Env, d: Dev, r: key, rest: bytes)
    requires d.session.inProgress && Seals(e) && Has(e, d.keys, r, TYPE_SCALAR) && Usable(e, r)
    ensures FetchKey(e, d, Handle(e, d.keys, r, TYPE_SCALAR) + rest) == Got(r, rest)
  {
    hide FetchHandle, InRange;
    FetchesHandle(e, d, r, TYPE_SCALAR, rest);
    var data := Handle(e, d.keys, r, TYPE_SCALAR) + rest;
    assert data[..KEY_SIZE] == e.seal(r);
  }

  // --- an output ----------------------------------------------------------------------------------

  /** The output for payment `x` at place `i`: its arguments, and the keys derived for it. */
  function ArgsOf(r: key, main: key, x: Dest, i: nat): OutArgs
  {
    OutArgs(r, main, x.view, x.spend, i, Flag(x.change), Flag(x.sub), Flag(x.need), if x.need then x.own else ZERO_KEY,
            Flag(x.tagged))
  }

  function GenData(e: Env, k: Keys, main: key, x: Dest, i: nat): bytes
  {
    Repeat(0, 4) + Handle(e, k, k.r, TYPE_SCALAR)
      + (main + x.view + x.spend + ToBE(i, 4) + Flags(x) + OwnHandle(e, k, x)
      + [Flag(x.tagged)])
  }

  function Flags(x: Dest): bytes { [Flag(x.change), Flag(x.sub), Flag(x.need)] }

  function OwnHandle(e: Env, k: Keys, x: Dest): bytes
  {
    if x.need then Handle(e, k, x.own, TYPE_SCALAR) else ZERO_KEY
  }

  /** The additional secret, where one is needed, has a handle. */
  predicate OwnReady(e: Env, k: Keys, x: Dest)
  {
    x.need ==> Usable(e, x.own) && Has(e, k, x.own, TYPE_SCALAR)
  }

  lemma ParsesOut(e: Env, d: Dev, main: key, x: Dest, i: nat)
    requires d.session.inProgress && Seals(e) && Has(e, d.keys, d.keys.r, TYPE_SCALAR) && Usable(e, d.keys.r)
    requires i < TWO32 && OwnReady(e, d.keys, x)
    ensures ParseOut(e, d, GenData(e, d.keys, main, x, i)) == Parsed(ArgsOf(d.keys.r, main, x, i))
  {
    hide FetchKey, ToBE, FromBE, Handle, Usable, Has, ParseTail, OwnReady;
    var data := GenData(e, d.keys, main, x, i);
    var u := OwnHandle(e, d.keys, x) + [Flag(x.tagged)];
    var t := main + x.view + x.spend + ToBE(i, 4) + Flags(x) + u;
    assert data[4..] == Handle(e, d.keys, d.keys.r, TYPE_SCALAR) + t;
    FetchesKey(e, d, d.keys.r, t);
    assert t[..32] == main && t[32..64] == x.view && t[64..96] == x.spend && t[96..100] == ToBE(i, 4);
    assert t[100] == Flags(x)[0] && t[101] == Flags(x)[1] && t[102] == Flags(x)[2] && t[103..] == u;
    assert U32(ToBE(i, 4)) == i by { Pow2Values(); FromToBE(i, 4); }
    ParsesTail(e, d, ArgsOf(d.keys.r, main, x, i).(addSec := ZERO_KEY, tagged := 0), x);
  }

  lemma ParsesTail(e: Env, d: Dev, a: OutArgs, x: Dest)
    requires d.session.inProgress && Seals(e) && OwnReady(e, d.keys, x)
    requires a.change <= 1 && a.sub <= 1 && a.need == Flag(x.need)
    ensures ParseTail(e, d, a, OwnHandle(e, d.keys, x) + [Flag(x.tagged)])
      == Parsed(a.(addSec := if x.need then x.own else ZERO_KEY, tagged := Flag(x.tagged)))
  {
    hide FetchKey, Handle, Usable, Has;
    if x.need {
      FetchesKey(e, d, x.own, [Flag(x.tagged)]);
    } else {
      assert (ZERO_KEY + [Flag(x.tagged)])[KEY_SIZE..] == [Flag(x.tagged)];
    }
  }

  // --- what the device does with each command ----------------------------------------------------

  /** In a real transaction under the key `r`, with nothing on screen. */
  predicate InTx(e: Env, d: Dev, r: key, gate: Gate)
  {
    && Known(d.session.protocol)
    && d.session == Session(d.session.protocol, Idle, Real, true, gate, d.session.stages, d.session.more)
    && d.keys.r == r && e.mulG(r) == Some(d.keys.publicR) && Has(e, d.keys, r, TYPE_SCALAR)
  }

  /** The payment ID retained is that of `id`. */
  predicate Retains(d: Dev, id: Option<Id>)
  {
    d.outputs.pidSet == id.Some? && (id.Some? ==> d.outputs.pidPub == id.value.pub && d.outputs.pid == id.value.plain)
  }

  /** No handle is lost on the way from `d` to `s`, and the payment ID and the protocol stay. */
  predicate Keeps(d: Dev, s: Dev)
  {
    && s.keys == d.keys.(minted := s.keys.minted) && d.keys.minted <= s.keys.minted
    && s.outputs.pidSet == d.outputs.pidSet && s.outputs.pidPub == d.outputs.pidPub && s.outputs.pid == d.outputs.pid
    && s.session.protocol == d.session.protocol
  }

  /** ... and the prefix hash stays. */
  predicate Later(d: Dev, s: Dev)
  {
    Keeps(d, s) && s.signing.prefixH == d.signing.prefixH
  }

  lemma SetsMode(e: Env, v: byte)
    requires Known(v)
    ensures
      var s := Next(e, InitFrom(0, {}), Command(Send(v, INS_SET_SIGNATURE_MODE, 0, 0, 0, [1])));
      && s.Running? && s.note == Quiet
      && s.d == InitFrom(0, {}).(session := Session(v, Idle, Real, false, Gate(0, 0, 0), NO_STAGE, false))
  {
    var c := Send(v, INS_SET_SIGNATURE_MODE, 0, 0, 0, [1]);
    assert c.body == [0, 1] && c.body[1..] == [1];
  }

  /** A transaction has opened, and nothing else has happened. */
  predicate Fresh(e: Env, d: Dev, r: key)
  {
    && InTx(e, d, r, Gate(INS_OPEN_TX, 1, 0)) && d.outputs.count == 0 && !d.outputs.pidSet
    && d.session.stages == NO_STAGE && d.keys.signCnt == 0
  }

  lemma OpensTx(e: Env, d: Dev, r: key)
    requires d.session == Session(d.session.protocol, Idle, Real, false, Gate(0, 0, 0), NO_STAGE, false)
    requires Known(d.session.protocol) && e.mulG(r).Some? && d.keys.signCnt == 0
    ensures
      var s := Next(e, d, Command(SendWith(d.session.protocol, INS_OPEN_TX, 1, 0, 0, Repeat(0, 4), r)));
      && s.Running? && s.note == Opened && Fresh(e, s.d, r) && s.d.session.protocol == d.session.protocol
  {
    hide Serve;
    Served(e, d, INS_OPEN_TX, 1, 0, 0, Repeat(0, 4), r);
    OpenServed(e, d, r);
  }

  lemma OpenServed(e: Env, d: Dev, r: key)
    requires d.session == Session(d.session.protocol, Idle, Real, false, Gate(0, 0, 0), NO_STAGE, false)
    requires Known(d.session.protocol) && e.mulG(r).Some? && d.keys.signCnt == 0
    ensures
      var c := SendWith(d.session.protocol, INS_OPEN_TX, 1, 0, 0, Repeat(0, 4), r);
      var s := Serve(e, d, c, 0, Repeat(0, 4));
      && s.Reply? && s.note == Opened && Fresh(e, s.d, r) && s.d.session.protocol == d.session.protocol
  {
  }

  // --- the payment ID -----------------------------------------------------------------------------

  lemma RetainsId(e: Env, d: Dev, id: Id)
    requires Seals(e) && Fresh(e, d, d.keys.r) && Usable(e, d.keys.r) && e.derive(id.pub, d.keys.r).Some?
    ensures
      var data := id.pub + (Handle(e, d.keys, d.keys.r, TYPE_SCALAR) + id.plain);
      var s := Next(e, d, Command(Send(d.session.protocol, INS_STEALTH, 0, 0, 0, data)));
      && s.Running? && s.note.PaymentId? && s.d.keys == d.keys && InTx(e, s.d, d.keys.r, Gate(INS_STEALTH, 0, 0))
      && Retains(s.d, Some(id)) && s.d.outputs.count == 0 && s.d.session.stages == NO_STAGE
      && s.d.session.protocol == d.session.protocol
  {
    hide Serve, FetchKey, Handle, Usable;
    var data := id.pub + (Handle(e, d.keys, d.keys.r, TYPE_SCALAR) + id.plain);
    Served(e, d, INS_STEALTH, 0, 0, 0, data, ZERO_KEY);
    FetchesKey(e, d, d.keys.r, id.plain);
    assert data[KEY_SIZE..] == Handle(e, d.keys, d.keys.r, TYPE_SCALAR) + id.plain;
    StealthServed(e, d, id, Send(d.session.protocol, INS_STEALTH, 0, 0, 0, data), data);
  }

  lemma StealthServed(e: Env, d: Dev, id: Id, c: Cmd, data: bytes)
    requires Fresh(e, d, d.keys.r) && c.ins == INS_STEALTH && c.p1 == c.p2 == 0 && e.derive(id.pub, d.keys.r).Some?
    requires |data| >= KEY_SIZE && data[..KEY_SIZE] == id.pub
    requires FetchKey(e, d, data[KEY_SIZE..]) == Got(d.keys.r, id.plain)
    ensures
      var s := Serve(e, d, c, 0, data);
      && s.Reply? && s.note.PaymentId? && s.d.keys == d.keys && InTx(e, s.d, d.keys.r, Gate(INS_STEALTH, 0, 0))
      && Retains(s.d, Some(id)) && s.d.outputs.count == 0 && s.d.session.stages == NO_STAGE
      && s.d.session.protocol == d.session.protocol
  {
    hide FetchKey, Mask8, StealthMask;
    assert id.plain[..8] == id.plain;
  }

  // --- an output, as derived ---------------------------------------------------------------------

  /** A key pair made during the transaction: its secret gets a handle. */
  lemma MakesKey(e: Env, d: Dev, x: key)
    requires InTx(e, d, d.keys.r, d.session.gate)
    ensures
      var s := Next(e, d, Command(MakeKey(e, d.session.protocol, x)));
      && s.Running? && s.note == Quiet && s.d == d.(keys := s.d.keys) && Later(d, s.d)
      && InTx(e, s.d, d.keys.r, d.session.gate)
      && Has(e, s.d.keys, x, TYPE_SCALAR)
  {
    var c := MakeKey(e, d.session.protocol, x);
    assert Protocol(d, d.session.protocol) == Some(d);
    assert Next(e, d, Command(c)) == StateOf(Outside(d, c));
  }

  const INS_GENERATE_KEYPAIR := 0x40

  function MakeKey(e: Env, version: byte, x: key): Cmd
  {
    Cmd(version, INS_GENERATE_KEYPAIR, 0, 0, [0], x, Elsewhere(SW_OK, {e.seal(x)}, {}))
  }

  /** What was derived for payment `x` at place `i`. */
  function DerivedFor(e: Env, r: key, main: key, x: Dest, i: nat): Note
    requires Derive(e, ArgsOf(r, main, x, i)).Some?
  {
    NoteFor(ArgsOf(r, main, x, i), Derive(e, ArgsOf(r, main, x, i)).value)
  }

  lemma Derives(e: Env, r: key, main: key, x: Dest, i: nat)
    requires Derive(e, ArgsOf(r, main, x, i)).Some?
    ensures
      var n := DerivedFor(e, r, main, x, i);
      && n.Derived? && n.mainKey == main && n.addKey.Some? == x.need && |n.entry.viewTag| == Flag(x.tagged)
      && n.rec.view == x.view && n.rec.spend == x.spend && n.rec.change == Flag(x.change) && n.rec.sub == Flag(x.sub)
  {
  }

  lemma GeneratesOne(e: Env, d: Dev, main: key, x: Dest, i: nat)
    requires Seals(e) && InTx(e, d, d.keys.r, d.session.gate) && Usable(e, d.keys.r) && OwnReady(e, d.keys, x)
    requires d.session.gate.ins in {INS_OPEN_TX, INS_STEALTH, INS_GEN_TXOUT_KEYS}
    requires d.outputs.count == i < TWO32 - 1 && (i > 0 ==> d.outputs.mainKey == main) && Fits(e, d.keys.r, main, x)
    requires Derive(e, ArgsOf(d.keys.r, main, x, i)).Some?
    ensures
      var data := GenData(e, d.keys, main, x, i);
      var s := Next(e, d, Command(Send(d.session.protocol, INS_GEN_TXOUT_KEYS, 0, 0, 0, data)));
      && s.Running? && s.note == DerivedFor(e, d.keys.r, main, x, i)
      && InTx(e, s.d, d.keys.r, Gate(INS_GEN_TXOUT_KEYS, 0, 0)) && Later(d, s.d)
      && s.d.outputs.count == i + 1 && s.d.outputs.mainKey == main
      && s.d.session.stages == d.session.stages && Has(e, s.d.keys, s.note.rec.amountKey, TYPE_AMOUNT_KEY)
  {
    hide Serve, InRange, Derive, ParseOut, GenData, OwnReady, Fits;
    Served(e, d, INS_GEN_TXOUT_KEYS, 0, 0, 0, GenData(e, d.keys, main, x, i), ZERO_KEY);
    ParsesOut(e, d, main, x, i);
    var data := GenData(e, d.keys, main, x, i);
    GenServed(e, d, main, x, i, Send(d.session.protocol, INS_GEN_TXOUT_KEYS, 0, 0, 0, data), data);
  }

  lemma VouchesFor(e: Env, d: Dev, main: key, x: Dest, i: nat)
    requires e.mulG(d.keys.r) == Some(d.keys.publicR) && Fits(e, d.keys.r, main, x)
    requires d.outputs.count == i && (i > 0 ==> d.outputs.mainKey == main)
    ensures Vouched(e, d, ArgsOf(d.keys.r, main, x, i))
  {
  }

  lemma GenServed(e: Env, d: Dev, main: key, x: Dest, i: nat, c: Cmd, data: bytes)
    requires InTx(e, d, d.keys.r, d.session.gate) && c.version == d.session.protocol && c.ins == INS_GEN_TXOUT_KEYS
    requires c.p1 == c.p2 == 0
    requires d.session.gate.ins in {INS_OPEN_TX, INS_STEALTH, INS_GEN_TXOUT_KEYS}
    requires d.outputs.count == i < TWO32 - 1 && (i > 0 ==> d.outputs.mainKey == main) && Fits(e, d.keys.r, main, x)
    requires Derive(e, ArgsOf(d.keys.r, main, x, i)).Some?
    requires ParseOut(e, d, data) == Parsed(ArgsOf(d.keys.r, main, x, i))
    ensures
      var s := Serve(e, d, c, 0, data);
      && s.Reply? && s.note == DerivedFor(e, d.keys.r, main, x, i)
      && InTx(e, s.d, d.keys.r, Gate(INS_GEN_TXOUT_KEYS, 0, 0)) && Later(d, s.d)
      && s.d.outputs.count == i + 1 && s.d.outputs.mainKey == main
      && s.d.session.stages == d.session.stages && Has(e, s.d.keys, s.note.rec.amountKey, TYPE_AMOUNT_KEY)
  {
    hide ParseOut, Derive, Chain, RecBytes, EntryFor, VouchWord, Fits;
    var a := ArgsOf(d.keys.r, main, x, i);
    VouchesFor(e, d, main, x, i);
    ChainsOnly(Pin(d, a), a, Derive(e, a).value);
  }

  lemma ChainsOnly(d: Dev, a: OutArgs, x: Derivative)
    ensures
      var s := Chain(d, a, x);
      && s.session == d.session && s.keys == d.keys && s.signing == d.signing && s.outputs.count == d.outputs.count
      && s.outputs.mainKey == d.outputs.mainKey && s.outputs.pidSet == d.outputs.pidSet
      && s.outputs.pidPub == d.outputs.pidPub && s.outputs.pid == d.outputs.pid
  {
    hide RecBytes, EntryFor;
  }

  // --- the prefix ---------------------------------------------------------------------------------

  /** The version and the unlock time. */
  function HeaderOf(number: nat, lock: nat): bytes
  {
    Encode(number) + Encode(lock)
  }

  /** A version of 64 bits, and an unlock time that can be shown. */
  predicate HeaderFits(number: nat, lock: nat)
  {
    number < TWO64 && lock < AmountText.Pow10(15)
  }

  lemma HeaderReads(number: nat, lock: nat)
    requires HeaderFits(number, lock)
    ensures Timelock(HeaderOf(number, lock)) == Num(lock) && |AmountText.Digits(lock)| <= TIMELOCK_WIDTH
  {
    hide Encode, Wire, Value, Timelock, AmountText.Digits, AmountText.Pow10;
    assert AmountText.Pow10(15) < TWO64 by { LockFits(); }
    EncodeIsWire(number);
    EncodeIsWire(lock);
    var x, y, h := Encode(number), Encode(lock), HeaderOf(number, lock);
    assert h[..|x|] == x && h[|x|..] == y;
    Ordering.CutReads(h, |x|);
    AmountText.DigitsLength(lock, 15);
  }

  lemma LockFits()
    ensures AmountText.Pow10(15) < TWO64
  {
    assert AmountText.Pow10(5) == 100_000;
    assert AmountText.Pow10(10) == 10_000_000_000;
    assert AmountText.Pow10(15) == 1_000_000_000_000_000;
  }

  /** The header has been taken; a lock is on screen. */
  predicate HeaderTaken(e: Env, d: Dev, s: Dev, lock: nat)
  {
    && Later(d, s) && s.session.stages == d.session.stages.(prefix := false)
    && (if lock == 0 then InTx(e, s, d.keys.r, Gate(INS_PREFIX_HASH, 1, 0))
        else UnderReview(e, s, d.keys.r, Gate(INS_PREFIX_HASH, 1, 0)))
  }

  /** The same, with a review on screen. */
  predicate UnderReview(e: Env, d: Dev, r: key, gate: Gate)
  {
    d.session.screen == Review && InTx(e, d.(session := d.session.(screen := Idle)), r, gate)
  }

  lemma StartsPrefix(e: Env, d: Dev, number: nat, lock: nat)
    requires InTx(e, d, d.keys.r, d.session.gate) && d.session.gate.ins == INS_GEN_TXOUT_KEYS
    requires HeaderFits(number, lock)
    ensures
      var c := Send(d.session.protocol, INS_PREFIX_HASH, 1, 0, 0, HeaderOf(number, lock));
      var s := Next(e, d, Command(c));
      && s.Running? && s.note.PrefixHeader? && s.note.header == HeaderOf(number, lock) && HeaderTaken(e, d, s.d, lock)
  {
    hide Serve, HeaderTaken;
    var h := HeaderOf(number, lock);
    Served(e, d, INS_PREFIX_HASH, 1, 0, 0, h, ZERO_KEY);
    StartServed(e, d, number, lock, Send(d.session.protocol, INS_PREFIX_HASH, 1, 0, 0, h), h);
  }

  lemma StartServed(e: Env, d: Dev, number: nat, lock: nat, c: Cmd, h: bytes)
    requires InTx(e, d, d.keys.r, d.session.gate) && d.session.gate.ins == INS_GEN_TXOUT_KEYS
    requires c.version == d.session.protocol && c.ins == INS_PREFIX_HASH && c.p1 == 1 && c.p2 == 0
    requires HeaderFits(number, lock) && h == HeaderOf(number, lock)
    ensures
      var s := StateOf(Serve(e, d, c, 0, h));
      s.Running? && s.note.PrefixHeader? && s.note.header == h && HeaderTaken(e, d, s.d, lock)
  {
    hide Timelock, HeaderOf, LockLine, AmountText.Digits, AmountText.Pow10, PrefixSpec.Run;
    HeaderReads(number, lock);
  }

  lemma Accepts(e: Env, d: Dev, gate: Gate)
    requires UnderReview(e, d, d.keys.r, gate)
    ensures
      var s := Next(e, d, Accept);
      && s.Running? && s.note == Accepted && InTx(e, s.d, d.keys.r, gate) && Later(d, s.d)
      && s.d.session.stages == d.session.stages.(approved := d.session.stages.approved || d.session.stages.reviewed)
      && s.d == d.(session := s.d.session) && s.d.session.more == d.session.more
  {
  }

  /** The chunk of the prefix after `p2` others; no more follow the last. */
  lemma TakesChunk(e: Env, d: Dev, data: bytes, p2: byte, last: bool)
    requires Sane(e) && InTx(e, d, d.keys.r, d.session.gate) && d.session.gate.ins == INS_PREFIX_HASH
    requires d.session.gate.p1 == (if p2 == 1 then 1 else 2) && (p2 == 1 || d.session.gate.p2 == p2 - 1) && 1 <= p2
    requires var o := PrefixSpec.Run(BindingOf(e, d), d.outputs.parser, data); o.Ok? && (last ==> o.p.done)
    ensures
      var c := Send(d.session.protocol, INS_PREFIX_HASH, 2, p2, if last then 0 else 0x80, data);
      var s := Next(e, d, Command(c));
      && s.Running? && s.note == PrefixChunk(data, last) && InTx(e, s.d, d.keys.r, Gate(INS_PREFIX_HASH, 2, p2))
      && Keeps(d, s.d) && s.d.outputs == d.outputs.(parser := s.d.outputs.parser)
      && (last ==> |s.d.signing.prefixH| == KEY_SIZE)
      && s.d.session.stages == d.session.stages.(prefix := last || d.session.stages.prefix)
  {
    hide Serve, PrefixSpec.Run;
    var options := if last then 0 else 0x80;
    Served(e, d, INS_PREFIX_HASH, 2, p2, options, data, ZERO_KEY);
    ChunkServed(e, d, data, p2, last, Send(d.session.protocol, INS_PREFIX_HASH, 2, p2, options, data));
  }

  lemma ChunkServed(e: Env, d: Dev, data: bytes, p2: byte, last: bool, c: Cmd)
    requires Sane(e) && InTx(e, d, d.keys.r, d.session.gate) && d.session.gate.ins == INS_PREFIX_HASH
    requires d.session.gate.p1 == (if p2 == 1 then 1 else 2) && (p2 == 1 || d.session.gate.p2 == p2 - 1) && 1 <= p2
    requires c.version == d.session.protocol && c.ins == INS_PREFIX_HASH && c.p1 == 2 && c.p2 == p2
    requires var o := PrefixSpec.Run(BindingOf(e, d), d.outputs.parser, data); o.Ok? && (last ==> o.p.done)
    ensures
      var s := Serve(e, d, c, if last then 0 else 0x80, data);
      && s.Reply? && s.note == PrefixChunk(data, last) && InTx(e, s.d, d.keys.r, Gate(INS_PREFIX_HASH, 2, p2))
      && Keeps(d, s.d) && s.d.outputs == d.outputs.(parser := s.d.outputs.parser)
      && (last ==> |s.d.signing.prefixH| == KEY_SIZE)
      && s.d.session.stages == d.session.stages.(prefix := last || d.session.stages.prefix)
  {
    hide PrefixSpec.Run, BindingOf;
  }

  // --- masks and blindings ------------------------------------------------------------------------

  lemma AsksMask(e: Env, d: Dev, ak: key)
    requires Seals(e) && InTx(e, d, d.keys.r, d.session.gate) && d.session.stages.prefix
    requires d.session.gate.ins == INS_PREFIX_HASH || d.session.gate.ins == INS_GEN_COMMITMENT_MASK
    requires Has(e, d.keys, ak, TYPE_AMOUNT_KEY) && !AllZero(ak)
    ensures
      var c := Send(d.session.protocol, INS_GEN_COMMITMENT_MASK, 0, 0, 0, Handle(e, d.keys, ak, TYPE_AMOUNT_KEY));
      var s := Next(e, d, Command(c));
      && s.Running? && s.note == DeviceState.Masked(e.streams.mask(ak))
      && InTx(e, s.d, d.keys.r, Gate(INS_GEN_COMMITMENT_MASK, 0, 0))
      && Later(d, s.d) && s.d.session.stages == d.session.stages
  {
    hide Serve, Handle, FetchHandle;
    var h := Handle(e, d.keys, ak, TYPE_AMOUNT_KEY);
    Served(e, d, INS_GEN_COMMITMENT_MASK, 0, 0, 0, h, ZERO_KEY);
    FetchesHandle(e, d, ak, TYPE_AMOUNT_KEY, []);
    assert h + [] == h;
    MaskServed(e, d, ak, Send(d.session.protocol, INS_GEN_COMMITMENT_MASK, 0, 0, 0, h), h);
  }

  lemma MaskServed(e: Env, d: Dev, ak: key, c: Cmd, h: bytes)
    requires InTx(e, d, d.keys.r, d.session.gate) && d.session.stages.prefix
    requires d.session.gate.ins == INS_PREFIX_HASH || d.session.gate.ins == INS_GEN_COMMITMENT_MASK
    requires c.ins == INS_GEN_COMMITMENT_MASK && c.p1 == c.p2 == 0
    requires FetchHandle(e, d, h, TYPE_AMOUNT_KEY) == Got(ak, [])
    ensures
      var s := Serve(e, d, c, 0, h);
      && s.Reply? && s.note == DeviceState.Masked(e.streams.mask(ak))
      && InTx(e, s.d, d.keys.r, Gate(INS_GEN_COMMITMENT_MASK, 0, 0))
      && Later(d, s.d) && s.d.session.stages == d.session.stages
  {
    hide FetchHandle;
  }

  /** Bit 1 of the options says that amounts are short. */
  function FormOf(x: Dest): byte { if x.short then 2 else 0 }

  /** The mask the commitment is made with: in the short form the amount key determines it. */
  function MaskOf(e: Env, x: Dest, ak: key): key
  {
    if x.short then e.streams.mask(ak) else x.mask
  }

  /** The host's amount can be blinded. */
  predicate Blinds(e: Env, x: Dest, ak: key)
  {
    x.short || Blinding.ReducedFor(e.streams, ak)
  }

  /** What the device answers the host's amount with. */
  function HiddenOf(e: Env, x: Dest, ak: key): (y: Option<Blinding.Amount>)
  {
    Blinding.Blinded(e.streams, Blinding.Amount(x.v, x.mask), ak, x.short)
  }

  /** ... which unblinds to it. */
  lemma HidesAmount(e: Env, x: Dest, ak: key)
    requires Payable(x) && Blinds(e, x, ak)
    ensures HiddenOf(e, x, ak).Some?
    ensures Blinding.Unblinded(e.streams, HiddenOf(e, x, ak).value, ak, x.short)
      == Some(Blinding.Amount(x.v, MaskOf(e, x, ak)))
  {
    hide Blinding.Blinded, Blinding.Unblinded, AllZero, LE;
    Blinding.UnblindBlind(e.streams, Blinding.Amount(x.v, x.mask), ak, x.short);
  }

  lemma AsksBlind(e: Env, d: Dev, x: Dest, ak: key)
    requires Seals(e) && InTx(e, d, d.keys.r, d.session.gate) && HiddenOf(e, x, ak).Some?
    requires d.session.gate.ins == INS_GEN_COMMITMENT_MASK || d.session.gate.ins == INS_BLIND
    requires Has(e, d.keys, ak, TYPE_AMOUNT_KEY) && !AllZero(ak)
    ensures
      var data := Handle(e, d.keys, ak, TYPE_AMOUNT_KEY) + (x.mask + x.v);
      var s := Next(e, d, Command(Send(d.session.protocol, INS_BLIND, 0, 0, FormOf(x), data)));
      && s.Running? && s.note == DeviceState.Blinded(HiddenOf(e, x, ak).value)
      && InTx(e, s.d, d.keys.r, Gate(INS_BLIND, 0, 0)) && Later(d, s.d) && s.d.session.stages == d.session.stages
  {
    hide Serve, Handle, FetchHandle, HiddenOf;
    var data := Handle(e, d.keys, ak, TYPE_AMOUNT_KEY) + (x.mask + x.v);
    Served(e, d, INS_BLIND, 0, 0, FormOf(x), data, ZERO_KEY);
    FetchesHandle(e, d, ak, TYPE_AMOUNT_KEY, x.mask + x.v);
    BlindServed(e, d, x, ak, Send(d.session.protocol, INS_BLIND, 0, 0, FormOf(x), data), data);
  }

  lemma BlindServed(e: Env, d: Dev, x: Dest, ak: key, c: Cmd, data: bytes)
    requires InTx(e, d, d.keys.r, d.session.gate) && c.ins == INS_BLIND && c.p1 == c.p2 == 0
    requires d.session.gate.ins == INS_GEN_COMMITMENT_MASK || d.session.gate.ins == INS_BLIND
    requires FetchHandle(e, d, data, TYPE_AMOUNT_KEY) == Got(ak, x.mask + x.v) && HiddenOf(e, x, ak).Some?
    ensures
      var s := Serve(e, d, c, FormOf(x), data);
      && s.Reply? && s.note == DeviceState.Blinded(HiddenOf(e, x, ak).value)
      && InTx(e, s.d, d.keys.r, Gate(INS_BLIND, 0, 0)) && Later(d, s.d) && s.d.session.stages == d.session.stages
  {
    hide FetchHandle, Blinding.Blinded;
    assert (x.mask + x.v)[32..64] == x.v && (x.mask + x.v)[..32] == x.mask;
  }
}
