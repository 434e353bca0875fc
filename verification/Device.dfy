/** The device as the C program keeps it: one state, updated in place by every command. Each
    method is proved to do what DeviceSpec says, status word and note included. */
module Device {
  import opened Bytes
  import opened Status
  import opened Transcript
  import opened Varint
  import PrefixSpec
  import PrefixSafety
  import PrefixParser
  import opened Scalars
  import Signatures
  import Blinding
  import Base58
  import opened ChangeAddress
  import opened DeviceState
  import opened AmountText
  import D = DeviceSpec
  import Runs = DeviceRuns
  import PrefixBinding

  /** The status word, state and note that a specified result stands for. */
  predicate Is(sw: nat, s: Dev, n: Note, r: D.Result)
  {
    match r
    case Refuse(x) => sw == x && sw != 0 && sw != SW_OK
    case Reply(d, m) => sw == SW_OK && s == d && n == m
    case Ask(d, m) => sw == 0 && s == d && n == m
  }

  predicate Fetches(sw: nat, value: key, rest: bytes, f: D.Fetched)
  {
    match f
    case Bad(x) => sw == x && sw != 0 && sw != SW_OK
    case Got(v, r) => sw == 0 && value == v && rest == r
  }

  /** The status word and the pair of values that blinding or unblinding comes to. */
  predicate Unblinds(sw: nat, x: Blinding.Amount, r: Option<Blinding.Amount>)
  {
    if r.Some? then sw == 0 && x == r.value else sw == SW_SECURITY_INTERNAL
  }

  class Vstate {
    const env: Env
    var session: Session
    var keys: Keys
    var outputs: Outputs
    var review: Reviewing
    var signing: Signing

    function State(): Dev
      reads this
    {
      Dev(session, keys, outputs, review, signing)
    }

    /** `monero_init` */
    constructor (e: Env)
      ensures env == e && State() == D.InitFrom(0, {})
    {
      env := e;
      session := Session(NO_PROTOCOL, Idle, NoMode, false, Gate(0, 0, 0), NO_STAGE, false);
      keys := Keys(ZERO_KEY, ZERO_KEY, 0, 0, {}, 0);
      outputs := D.InitFrom(0, {}).outputs;
      review := Reviewing(UNSET, ZERO_KEY, UNSET, ZERO_KEY);
      signing := Signing(UNSET, ZERO_KEY, ZERO_KEY, ZERO_KEY, 0);
    }

    method Init()
      modifies this
      ensures State() == D.InitFrom(old(keys.draws), old(keys.minted))
    {
      session := Session(NO_PROTOCOL, Idle, NoMode, false, Gate(0, 0, 0), NO_STAGE, false);
      keys := Keys(ZERO_KEY, ZERO_KEY, 0, keys.draws, keys.minted, 0);
      outputs := D.InitFrom(0, {}).outputs;
      review := Reviewing(UNSET, ZERO_KEY, UNSET, ZERO_KEY);
      signing := Signing(UNSET, ZERO_KEY, ZERO_KEY, ZERO_KEY, 0);
    }

    // --- pieces ------------------------------------------------------------------------

    method UpdateProtocol(c: Cmd)
      modifies this`session
      ensures State() == D.Advance(old(State()), c)
    {
      session := session.(gate := Gate(c.ins, c.p1, c.p2));
    }

    method DrawHmacKey()
      modifies this`keys
      ensures keys == old(keys).(keyId := old(keys.draws) + 1, draws := old(keys.draws) + 1)
    {
      keys := keys.(draws := keys.draws + 1);
      keys := keys.(keyId := keys.draws);
    }

    /** `monero_reset_tx`, in the order of the source. */
    method ResetTx()
      modifies this
      ensures State() == D.ResetTx(old(State()))
    {
      keys := keys.(r := ZERO_KEY, publicR := ZERO_KEY);
      DrawHmacKey();
      signing := signing.(keccakH := FRESH);
      review := review.(commitments := FRESH);
      review := review.(outKeys := FRESH);
      outputs := outputs.(addkExpected := false);
      outputs := outputs.(parser := PrefixSpec.RESET);
      session := session.(inProgress := false);
      outputs := outputs.(count := 0, mainKey := ZERO_KEY);
      session := session.(stages := NO_STAGE);
      outputs := outputs.(pidSet := false, pidNonce := ZERO_NONCE, pid := ZERO_PID);
      session := session.(more := false);
      outputs := outputs.(pidPub := ZERO_KEY);
      signing := signing.(prefixH := ZERO_KEY);
      review := review.(digest := ZERO_KEY);
      signing := signing.(mlsagH := ZERO_KEY, c := ZERO_KEY);
    }

    /** `monero_io_insert_hmac_for` */
    method InsertHmacFor(data: bytes, kind: nat)
      modifies this`keys
      ensures keys == D.MintHandle(old(keys), data, kind)
    {
      var count := if kind == TYPE_ALPHA then keys.signCnt else 0;
      keys := keys.(minted := keys.minted + {Mint(keys.keyId, data, kind, count)});
    }

    /** `monero_io_verify_hmac_for` */
    method VerifyHmacFor(data: bytes, mac: bytes, kind: nat) returns (sw: nat)
      ensures sw == if D.MacOk(env, keys, data, mac, kind) then 0 else SW_SECURITY_HMAC
    {
      var m := Mint(keys.keyId, data, kind, if kind == TYPE_ALPHA then keys.signCnt else 0);
      if m !in keys.minted || env.mac(m) != mac { return SW_SECURITY_HMAC; }
      sw := 0;
    }

    /** `monero_io_fetch_decrypt` */
    method FetchDecrypt(data: bytes, kind: nat) returns (sw: nat, value: key, rest: bytes)
      ensures Fetches(sw, value, rest, D.FetchHandle(env, State(), data, kind))
    {
      hide D.InRange, D.MacOk;
      value, rest := ZERO_KEY, data;
      var n := KEY_SIZE;
      if session.inProgress {
        n := 2 * KEY_SIZE;
        if |data| < n { return ERROR_IO_FULL, value, rest; }
        sw := VerifyHmacFor(data[..KEY_SIZE], data[KEY_SIZE..n], kind);
        if sw != 0 { return; }
      } else if |data| < n {
        return ERROR_IO_FULL, value, rest;
      }
      value := env.unseal(data[..KEY_SIZE]);
      rest := data[n..];
      sw := if D.InRange(kind, value) then 0 else SW_WRONG_DATA_RANGE;
    }

    /** `monero_io_fetch_decrypt_key` */
    method FetchDecryptKey(data: bytes) returns (sw: nat, value: key, rest: bytes)
      ensures Fetches(sw, value, rest, D.FetchKey(env, State(), data))
    {
      hide D.FetchHandle, D.MacOk;
      value, rest := ZERO_KEY, data;
      if |data| < KEY_SIZE { return ERROR_IO_FULL, value, rest; }
      if data[..KEY_SIZE] == ZERO_KEY {
        rest := data[KEY_SIZE..];
        if session.inProgress {
          if |rest| < KEY_SIZE { return ERROR_IO_FULL, value, rest; }
          sw := VerifyHmacFor(ZERO_KEY, data[KEY_SIZE..2 * KEY_SIZE], TYPE_SCALAR);
          if sw != 0 { return; }
          rest := data[2 * KEY_SIZE..];
        }
        return 0, env.wallet.secret, rest;
      }
      if data[..KEY_SIZE] == FAKE_SPEND_KEY { return SW_WRONG_DATA, value, rest; }
      sw, value, rest := FetchDecrypt(data, TYPE_SCALAR);
    }

    /** `monero_tx_stages_check` */
    method StagesCheck(need: Stages) returns (sw: nat)
      ensures sw == D.StagesCheck(session, need) && sw != 0
    {
      if session.mode != Real { return SW_OK; }
      var approved := need.approved && !session.stages.approved;
      var prefix := need.prefix && !session.stages.prefix;
      var reviewed := need.reviewed && !session.stages.reviewed;
      var prehash := need.prehash && !session.stages.prehash;
      if approved { return SW_SECURITY_USER_NOT_APPROVED; }
      if prefix { return SW_SECURITY_PREFIX_NOT_FINALIZED; }
      if reviewed { return SW_SECURITY_OUTPUTS_NOT_REVIEWED; }
      if prehash { return SW_SECURITY_PREHASH_NOT_FINALIZED; }
      sw := SW_OK;
    }

    method KeccakUpdate(b: bytes)
      modifies this`signing
      ensures State() == D.Absorb(old(State()), b)
    {
      signing := signing.(keccakH := Update(signing.keccakH, b));
    }

    // --- opening, closing, mode ----------------------------------------------------------

    method OpenTx(c: Cmd, data: bytes) returns (sw: nat, note: Note)
      modifies this
      ensures Is(sw, State(), note, D.OpenTx(env, old(State()), c, data))
    {
      note := Opened;
      if session.gate.ins != 0 { return SW_COMMAND_NOT_ALLOWED, note; }
      if c.p1 != 1 || c.p2 != 0 { return SW_WRONG_P1P2, note; }
      if |data| < 4 { return ERROR_IO_FULL, note; }
      ResetTx();
      session := session.(inProgress := true);
      DrawHmacKey();
      keys := keys.(r := c.random);
      var p := env.mulG(keys.r);
      if p.None? { return SW_SECURITY_INTERNAL, note; }
      keys := keys.(publicR := p.value);
      InsertHmacFor(env.seal(keys.r), TYPE_SCALAR);
      InsertHmacFor(ZERO_KEY, TYPE_SCALAR);
      InsertHmacFor(FAKE_SPEND_KEY, TYPE_SCALAR);
      UpdateProtocol(c);
      sw := SW_OK;
    }

    method CloseTx() returns (sw: nat, note: Note)
      modifies this
      ensures Is(sw, State(), note, D.CloseTx(old(State())))
    {
      ResetTx();
      session := session.(gate := Gate(0, 0, 0));
      sw, note := SW_OK, Ended;
    }

    method SetSignatureMode(data: bytes) returns (sw: nat, note: Note)
      modifies this
      ensures Is(sw, State(), note, D.SetMode(old(State()), data))
    {
      note := Quiet;
      if session.inProgress { return SW_COMMAND_NOT_ALLOWED, note; }
      session := session.(mode := Fake);
      if |data| < 1 { return ERROR_IO_FULL, note; }
      if data[0] == 1 {
        if session.protocol != 3 && session.protocol != 4 { return SW_PROTOCOL_NOT_SUPPORTED, note; }
        session := session.(mode := Real);
      } else if data[0] != 2 {
        return SW_WRONG_DATA, note;
      }
      sw := SW_OK;
    }

    // --- the payment ID ------------------------------------------------------------------

    /** The XOR loop of `monero_apdu_stealth` on its local buffer. */
    method MaskPaymentId(payId: array<byte>, m: bytes)
      requires payId.Length == 8 && |m| >= 8
      modifies payId
      ensures payId[..] == D.Mask8(old(payId[..]), m)
    {
      for i := 0 to 8
        invariant forall j :: 0 <= j < i ==> payId[j] == XorByte(old(payId[j]), m[j])
        invariant forall j :: i <= j < 8 ==> payId[j] == old(payId[j])
      {
        payId[i] := XorByte(payId[i], m[i]);
      }
    }

    method Stealth(c: Cmd, data: bytes) returns (sw: nat, note: Note)
      modifies this
      ensures Is(sw, State(), note, D.Stealth(env, old(State()), c, data))
    {
      hide D.FetchKey, D.Mask8, D.StealthMask;
      note := Quiet;
      if session.inProgress {
        if session.gate.ins != INS_OPEN_TX && session.gate.ins != INS_STEALTH { return SW_COMMAND_NOT_ALLOWED, note; }
        if c.p1 != 0 || c.p2 != 0 { return SW_WRONG_P1P2, note; }
      }
      var retain := session.inProgress && session.mode == Real;
      if |data| < KEY_SIZE { return ERROR_IO_FULL, note; }
      var pub := data[..KEY_SIZE];
      var sec, rest;
      sw, sec, rest := FetchDecryptKey(data[KEY_SIZE..]);
      if sw != 0 { return; }
      if retain {
        if outputs.pidSet || sec != keys.r { return SW_SECURITY_PAYMENT_ID, note; }
        outputs := outputs.(pidPub := pub);
      }
      if |rest| < 8 { return ERROR_IO_FULL, note; }
      var drv := env.derive(pub, sec);
      if drv.None? { return SW_SECURITY_INTERNAL, note; }
      var payId := new byte[8](i requires 0 <= i < 8 => rest[i]);
      assert payId[..] == rest[..8];
      MaskPaymentId(payId, D.StealthMask(env, drv.value));
      if retain {
        outputs := outputs.(pid := rest[..8]);
        outputs := outputs.(pidNonce := [TX_EXTRA_NONCE_ENCRYPTED_PAYMENT_ID] + payId[..], pidSet := true);
        note := PaymentId(outputs.pidNonce, pub, rest[..8]);
      }
      sw := SW_OK;
      if session.inProgress { UpdateProtocol(c); }
    }

    // --- deriving an output --------------------------------------------------------------

    method FetchOut(data: bytes) returns (sw: nat, a: D.OutArgs)
      ensures D.ParseOut(env, State(), data) == if sw == 0 then D.Parsed(a) else D.BadOut(sw)
      ensures sw != SW_OK
    {
      hide D.FetchKey;
      a := D.OutArgs(ZERO_KEY, ZERO_KEY, ZERO_KEY, ZERO_KEY, 0, 0, 0, 0, ZERO_KEY, 0);
      if |data| < 4 { return ERROR_IO_FULL, a; }
      var txKey, t;
      sw, txKey, t := FetchDecryptKey(data[4..]);
      if sw != 0 { return; }
      if |t| < 103 { return ERROR_IO_FULL, a; }
      a := a.(txKey := txKey, pub := t[..32], view := t[32..64], spend := t[64..96], index := D.U32(t[96..100]));
      a := a.(change := t[100], sub := t[101], need := t[102]);
      var k, rest := ZERO_KEY, t[103..];
      if a.need != 0 {
        sw, k, rest := FetchDecryptKey(t[103..]);
        if sw != 0 { return; }
      } else {
        if |rest| < KEY_SIZE { return ERROR_IO_FULL, a; }
        rest := rest[KEY_SIZE..];
      }
      if |rest| < 1 { return ERROR_IO_FULL, a; }
      if a.change > 1 || a.sub > 1 || a.need > 1 || rest[0] > 1 { return SW_WRONG_DATA, a; }
      a := a.(addSec := k, tagged := rest[0]);
      sw := 0;
    }

    /** The checks of a real transaction on the index and the main key. */
    method Vouch(a: D.OutArgs) returns (sw: nat)
      modifies this`outputs
      ensures sw == D.VouchWord(env, old(State()), a) && sw != SW_OK
      ensures sw == 0 && session.mode == Real ==> State() == D.Pin(old(State()), a)
    {
      if a.index != outputs.count { return SW_WRONG_DATA; }
      if outputs.count == 0 {
        outputs := outputs.(mainKey := a.pub);
      } else if a.pub != outputs.mainKey {
        return SW_WRONG_DATA;
      }
      if a.change == 0 {
        if a.sub != 0 && a.need == 0 {
          var expected := env.mul(a.spend, a.txKey);
          if expected.None? { return SW_SECURITY_INTERNAL; }
          if a.pub != expected.value { return SW_WRONG_DATA; }
        } else {
          var expected := env.mulG(a.txKey);
          if expected.None? { return SW_SECURITY_INTERNAL; }
          if a.pub != keys.publicR || a.pub != expected.value { return SW_WRONG_DATA; }
        }
      }
      sw := 0;
    }

    /** `monero_apu_generate_txout_keys` */
    method GenerateTxoutKeys(c: Cmd, data: bytes) returns (sw: nat, note: Note)
      modifies this
      ensures Is(sw, State(), note, D.GenOutput(env, old(State()), c, data))
    {
      hide D.ParseOut, D.VouchWord, D.RecBytes;
      note := Quiet;
      var g := session.gate.ins;
      if g != INS_OPEN_TX && g != INS_GEN_TXOUT_KEYS && g != INS_STEALTH { return SW_COMMAND_NOT_ALLOWED, note; }
      if c.p1 != 0 || c.p2 != 0 { return SW_WRONG_P1P2, note; }
      var a;
      sw, a := FetchOut(data);
      if sw != 0 { return; }
      var signs := session.mode == Real;
      if signs {
        sw := Vouch(a);
        if sw != 0 { return; }
      }
      sw, note := DeriveOut(c, a);
    }

    /** The derivation and the chains, once the arguments stand. */
    method DeriveOut(c: Cmd, a: D.OutArgs) returns (sw: nat, note: Note)
      modifies this
      ensures D.Derive(env, a).None? ==> sw == SW_SECURITY_INTERNAL
      ensures D.Derive(env, a).Some? ==>
        Is(sw, State(), note, D.GenOutputWith(env, old(State()), c, a, D.Derive(env, a).value))
    {
      hide D.RecBytes, D.Chain, D.EntryFor, D.RecFor;
      note := Quiet;
      var signs := session.mode == Real;
      var drv := D.Derivation(env, a);
      var addKey := D.AddKey(env, a);
      if addKey.None? || drv.None? { return SW_SECURITY_INTERNAL, note; }
      var ak := env.toScalar(drv.value, a.index);
      if ak.None? { return SW_SECURITY_INTERNAL, note; }
      var out := env.outputKey(drv.value, a.index, a.spend);
      if out.None? { return SW_SECURITY_INTERNAL, note; }
      var tag := Some(0);
      if a.tagged != 0 { tag := env.viewTag(drv.value, a.index); }
      if tag.None? { return SW_SECURITY_INTERNAL, note; }
      var x := D.Derivative(addKey.value, ak.value, out.value, if a.tagged != 0 then [tag.value] else []);
      sw, note := SW_OK, if signs then Derived(D.EntryFor(a, x), D.RecFor(a, x), a.pub,
                                               if a.need != 0 then Some(x.addKey) else None) else Quiet;
      if signs && c.version >= 2 { ChainOut(a, x); }
      InsertHmacFor(env.seal(x.amountKey), TYPE_AMOUNT_KEY);
      outputs := outputs.(count := (outputs.count + 1) % TWO32);
      UpdateProtocol(c);
    }

    /** out_keys, out_eph (framed) and addk, one update at a time. */
    method ChainOut(a: D.OutArgs, x: D.Derivative)
      modifies this`outputs, this`review
      ensures State() == D.Chain(old(State()), a, x)
      ensures outputs.count == old(outputs.count)
    {
      var k := review.outKeys;
      k := Update(k, a.view);
      k := Update(k, a.spend);
      k := Update(k, [a.change]);
      k := Update(k, [a.sub]);
      k := Update(k, x.amountKey);
      UpdateFive(review.outKeys, a.view, a.spend, [a.change], [a.sub], x.amountKey);
      review := review.(outKeys := k);
      var entry := D.EntryFor(a, x);
      var h := outputs.parser.eph;
      h := Update(h, PrefixSpec.Frame(entry.kind, outputs.count));
      h := Update(h, x.outKey);
      h := Update(h, x.viewTag);
      UpdateThree(outputs.parser.eph, PrefixSpec.Frame(entry.kind, outputs.count), x.outKey, x.viewTag);
      outputs := outputs.(parser := outputs.parser.(eph := h), extraR := a.pub);
      if a.need != 0 {
        outputs := outputs.(addkExpected := true);
        outputs := outputs.(parser := outputs.parser.(addk := Update(outputs.parser.addk, x.addKey)));
      }
    }

    static lemma UpdateThree(h: Ctx, a: bytes, b: bytes, t: bytes)
      ensures Update(Update(Update(h, a), b), t) == Update(h, a + b + t)
    {
      assert h.open + (a + b + t) == h.open + a + b + t;
    }

    static lemma UpdateFive(h: Ctx, a: bytes, b: bytes, x: bytes, y: bytes, t: bytes)
      ensures Update(Update(Update(Update(Update(h, a), b), x), y), t) == Update(h, a + b + x + y + t)
    {
      UpdateThree(h, a, b, x);
      UpdateThree(h, a + b + x, y, t);
      assert a + b + x + y + t == (a + b + x) + y + t;
    }

    // --- the prefix ----------------------------------------------------------------------

    /** While a real prefix streams, the parser is in a state its loop may run on. Every run
        keeps this (`PrefixBinding.ParserSafeInEveryRun`), so `AppMain` asks for nothing. */
    ghost predicate ParserReady()
      reads this
    {
      State().Signs() && session.gate.ins == INS_PREFIX_HASH ==>
        PrefixSafety.Safe(D.BindingOf(env, State()), outputs.parser)
    }

    /** The state-machine check of INS_PREFIX_HASH, which also enters its phase. */
    method CheckPrefixGate(c: Cmd) returns (sw: nat)
      modifies this`session
      ensures sw == D.PrefixGate(old(session.gate), c) && sw != 0
      ensures session == old(session).(gate := session.gate)
      ensures sw == SW_OK && c.p1 != 1 ==> old(session.gate.ins) == INS_PREFIX_HASH
    {
      if session.gate.ins != INS_GEN_TXOUT_KEYS && session.gate.ins != INS_PREFIX_HASH {
        return SW_COMMAND_NOT_ALLOWED;
      }
      if session.gate.ins == INS_GEN_TXOUT_KEYS {
        session := session.(gate := Gate(INS_PREFIX_HASH, 0, 0));
      }
      if session.gate.p1 == 0 {
        if c.p1 != 1 { return SW_SUBCOMMAND_NOT_ALLOWED; }
      } else if session.gate.p1 == 1 {
        if c.p1 != 2 || c.p2 != 1 { return SW_SUBCOMMAND_NOT_ALLOWED; }
      } else if session.gate.p1 == 2 {
        if c.p1 != 2 || c.p2 - 1 != session.gate.p2 { return SW_SUBCOMMAND_NOT_ALLOWED; }
      } else {
        return SW_COMMAND_NOT_ALLOWED;
      }
      sw := SW_OK;
    }

    /** `monero_io_fetch_varint` at the start of `data`. */
    method FetchVarint(data: bytes) returns (sw: nat, value: nat, n: nat)
      ensures sw == if D.VarintAt(data).Some? then 0 else SW_WRONG_DATA_RANGE
      ensures sw == 0 ==> n <= |data| && D.VarintAt(data) == Some(n) && value == Value(data[..n]) < TWO64
    {
      hide Wire, Value;
      if data == [] { return SW_WRONG_DATA_RANGE, 0, 0; }
      var max := D.Min(10, |data|);
      sw, value, n := DecodeVarint(data, max);
      if sw == 0 { DecodeFinds(data, max, 1, n); }
    }

    method FetchTimelock(data: bytes) returns (sw: nat, timelock: nat)
      ensures D.Timelock(data) == if sw == 0 then D.Num(timelock) else D.BadNumber(sw)
      ensures sw != SW_OK && timelock < TWO64
    {
      hide Value, D.VarintAt;
      var version, n, m;
      sw, version, n := FetchVarint(data);
      if sw != 0 { return sw, 0; }
      sw, timelock, m := FetchVarint(data[n..]);
      if sw != 0 { return sw, 0; }
      if n + m != |data| { return SW_WRONG_DATA, 0; }
      assert data[n..][..m] == data[n..n + m];
    }

    method PrefixHashInit(c: Cmd, data: bytes) returns (sw: nat, note: Note)
      modifies this
      ensures Is(sw, State(), note, D.PrefixInit(env, old(State()), c, data))
    {
      hide D.Timelock;
      note := Quiet;
      session := session.(stages := session.stages.(prefix := false));
      KeccakUpdate(data);
      if session.mode != Real {
        UpdateProtocol(c);
        return SW_OK, note;
      }
      if c.version >= 2 {
        outputs := outputs.(outEph := env.sha(outputs.parser.eph), addk := env.sha(outputs.parser.addk));
        outputs := outputs.(parser := PrefixSpec.RESET);
      }
      var timelock;
      sw, timelock := FetchTimelock(data);
      if sw != 0 { return; }
      if timelock != 0 {
        var uxAmount := new char[23];
        sw := Uint642Str(timelock, uxAmount, D.TIMELOCK_WIDTH);
        if sw != 0 { return; }
        note := PrefixHeader(data, uxAmount[..D.TIMELOCK_WIDTH]);
      } else {
        note := PrefixHeader(data, "");
        sw := SW_OK;
      }
      UpdateProtocol(c);
    }

    /** `monero_prefix_outkeys_parse` on one chunk. */
    method ParsePrefix(data: bytes) returns (sw: nat)
      requires PrefixSafety.Safe(D.BindingOf(env, State()), outputs.parser)
      modifies this`outputs
      ensures match PrefixSpec.Run(D.BindingOf(env, old(State())), old(outputs.parser), data)
        case Fail(x) => sw == x && sw != 0 && sw != SW_OK
        case Ok(p) => sw == 0 && outputs == old(outputs).(parser := p)
    {
      hide PrefixSpec.Run, PrefixSafety.Safe;
      var b := D.BindingOf(env, State());
      PrefixSpec.RunFails(b, outputs.parser, data);
      var verifier := new PrefixParser.Verifier.At(outputs.parser);
      sw := verifier.Parse(b, data);
      outputs := outputs.(parser := verifier.State());
    }

    method PrefixHashUpdate(c: Cmd, options: byte, data: bytes) returns (sw: nat, note: Note)
      requires session.mode == Real ==> PrefixSafety.Safe(D.BindingOf(env, State()), outputs.parser)
      modifies this
      ensures Is(sw, State(), note, D.PrefixUpdate(env, old(State()), c, options, data))
    {
      hide PrefixSpec.Run, PrefixSafety.Safe, D.BindingOf;
      note := Quiet;
      var checks := session.mode == Real && c.version >= 2;
      KeccakUpdate(data);
      if checks {
        SameBinding(old(State()), State());
        sw := ParsePrefix(data);
        if sw != 0 { return; }
      }
      if session.mode == Real { note := PrefixChunk(data, !D.More(options)); }
      if !D.More(options) {
        if checks && !outputs.parser.done { return SW_SECURITY_OUTKEYS_CHAIN_CONTROL, note; }
        signing := signing.(prefixH := env.keccak(signing.keccakH));
        signing := signing.(keccakH := Final(signing.keccakH));
        if session.mode == Real { session := session.(stages := session.stages.(prefix := true)); }
      }
      UpdateProtocol(c);
      sw := SW_OK;
    }

    method PrefixHash(c: Cmd, options: byte, data: bytes) returns (sw: nat, note: Note)
      requires session.inProgress && ParserReady()
      modifies this
      ensures Is(sw, State(), note, D.PrefixHash(env, old(State()), c, options, data))
    {
      hide D.PrefixGate, PrefixSafety.Safe, D.BindingOf;
      note := Quiet;
      sw := CheckPrefixGate(c);
      if sw != SW_OK { return; }
      SameBinding(old(State()), State());
      GateForgotten(old(State()), State(), c, data);
      GateForgottenToo(old(State()), State(), c, options, data);
      if c.p1 == 1 {
        sw, note := PrefixHashInit(c, data);
      } else {
        sw, note := PrefixHashUpdate(c, options, data);
      }
    }

    /** The handlers do not read the gate, and replace it. */
    lemma GateForgotten(d: Dev, s: Dev, c: Cmd, data: bytes)
      requires s == d.(session := d.session.(gate := s.session.gate))
      ensures D.PrefixInit(env, s, c, data) == D.PrefixInit(env, d, c, data)
    {
      hide D.Timelock;
    }

    lemma GateForgottenToo(d: Dev, s: Dev, c: Cmd, options: byte, data: bytes)
      requires s == d.(session := d.session.(gate := s.session.gate))
      ensures D.PrefixUpdate(env, s, c, options, data) == D.PrefixUpdate(env, d, c, options, data)
    {
      hide PrefixSpec.Run, D.BindingOf, D.More;
      assert D.BindingOf(env, s) == D.BindingOf(env, d) by { SameBinding(d, s); }
      assert s.outputs == d.outputs && s.signing == d.signing && s.keys == d.keys && s.review == d.review;
    }

    lemma SameBinding(d: Dev, s: Dev)
      requires s.session.mode == d.session.mode && s.outputs == d.outputs
      ensures D.BindingOf(env, s) == D.BindingOf(env, d)
    {
    }

    // --- masks and blinding --------------------------------------------------------------

    method GenCommitmentMask(c: Cmd, data: bytes) returns (sw: nat, note: Note)
      modifies this
      ensures Is(sw, State(), note, D.CommitmentMask(env, old(State()), c, data))
    {
      hide D.FetchHandle;
      note := Quiet;
      if session.gate.ins != INS_PREFIX_HASH && session.gate.ins != INS_GEN_COMMITMENT_MASK {
        return SW_COMMAND_NOT_ALLOWED, note;
      }
      sw := StagesCheck(NO_STAGE.(prefix := true));
      if sw != SW_OK { return; }
      if c.p1 != 0 || c.p2 != 0 { return SW_WRONG_P1P2, note; }
      var ak, rest;
      sw, ak, rest := FetchDecrypt(data, TYPE_AMOUNT_KEY);
      if sw != 0 { return; }
      if session.mode == Real { note := Masked(env.streams.mask(ak)); }
      UpdateProtocol(c);
      sw := SW_OK;
    }

    /** The arithmetic of `monero_apdu_blind` on its local buffers. */
    method BlindBuffers(value: key, mask: key, ak: key, short: bool) returns (sw: nat, v: key, k: key)
      ensures Unblinds(sw, Blinding.Amount(v, k),
        Blinding.Blinded(env.streams, Blinding.Amount(value, mask), ak, short))
    {
      hide Blinding.Blinded;
      var bv := Buffer(value);
      var bk := Buffer(mask);
      var ba := Buffer(ak);
      sw := Blinding.Blind(env.streams, bv, bk, ba, short);
      v, k := bv[..], bk[..];
    }

    method BlindAmount(c: Cmd, options: byte, data: bytes) returns (sw: nat, note: Note)
      modifies this
      ensures Is(sw, State(), note, D.Blind(env, old(State()), c, options, data))
    {
      hide D.FetchHandle;
      note := Quiet;
      if session.mode == Fake {
        if session.gate.ins != INS_PREFIX_HASH && session.gate.ins != INS_BLIND { return SW_COMMAND_NOT_ALLOWED, note; }
      } else if session.mode == Real {
        if session.gate.ins != INS_GEN_COMMITMENT_MASK && session.gate.ins != INS_BLIND {
          return SW_COMMAND_NOT_ALLOWED, note;
        }
      } else {
        return SW_COMMAND_NOT_ALLOWED, note;
      }
      if c.p1 != 0 || c.p2 != 0 { return SW_WRONG_P1P2, note; }
      var ak, rest;
      sw, ak, rest := FetchDecrypt(data, TYPE_AMOUNT_KEY);
      if sw != 0 { return; }
      if |rest| < 64 { return ERROR_IO_FULL, note; }
      var v, k;
      sw, v, k := BlindBuffers(rest[32..64], rest[..32], ak, D.Short(options));
      if sw != 0 { return; }
      if session.mode == Real { note := Blinded(Blinding.Amount(v, k)); }
      UpdateProtocol(c);
      sw := SW_OK;
    }

    // --- fee, outputs, commitments -------------------------------------------------------

    /** The state-machine check of INS_VALIDATE, which also enters its phase. */
    method CheckValidateGate(c: Cmd) returns (sw: nat)
      modifies this`session
      ensures sw == D.ValidateGate(old(session.gate), c) && sw != 0
      ensures session == old(session).(gate := session.gate)
      ensures old(session.gate.ins) != INS_BLIND ==> session.gate == old(session.gate)
      ensures sw == SW_OK && old(session.gate.ins) == INS_BLIND ==> c.p1 == 1
    {
      if session.gate.ins != INS_BLIND && session.gate.ins != INS_VALIDATE { return SW_COMMAND_NOT_ALLOWED; }
      if session.gate.ins == INS_BLIND {
        session := session.(gate := Gate(INS_VALIDATE, 1, 0));
        if c.p1 != 1 || c.p2 != 1 { return SW_SUBCOMMAND_NOT_ALLOWED; }
      }
      if session.gate.p1 == c.p1 {
        if session.gate.p2 != c.p2 - 1 { return SW_SUBCOMMAND_NOT_ALLOWED; }
      } else if session.gate.p1 == c.p1 - 1 {
        if c.p2 != 1 { return SW_SUBCOMMAND_NOT_ALLOWED; }
      } else {
        return SW_COMMAND_NOT_ALLOWED;
      }
      sw := SW_OK;
    }

    /** The fee APDU: a type byte and one varint, nothing else. */
    method FetchFee(data: bytes) returns (sw: nat, fee: nat)
      ensures D.FeeOf(data) == if sw == 0 then D.Num(fee) else D.BadNumber(sw)
      ensures sw != SW_OK && (sw == 0 ==> fee < TWO64)
    {
      hide Value, D.VarintAt;
      if |data| < 2 { return SW_WRONG_DATA, 0; }
      var n;
      sw, fee, n := FetchVarint(data[1..]);
      if sw != 0 { return sw, 0; }
      if 1 + n != |data| { return SW_WRONG_DATA, 0; }
      assert data[1..][..n] == data[1..];
    }

    method PrehashInit(c: Cmd, options: byte, data: bytes) returns (sw: nat, note: Note)
      modifies this
      ensures Is(sw, State(), note, D.PrehashInit(env, old(State()), c, options, data))
    {
      hide D.FeeOf, D.FeeLine;
      note := Quiet;
      if session.mode == Real && c.p2 == 1 {
        var fee;
        sw, fee := FetchFee(data);
        if sw != 0 { return; }
        session := session.(more := D.More(options));
        review := review.(outK := env.sha(review.outKeys));
        review := review.(outKeys := FRESH);
        review := review.(commitments := FRESH);
        signing := signing.(keccakH := FRESH);
        KeccakUpdate(data);
        UpdateProtocol(c);
        var text := ShowFee(fee);
        return 0, Fee(fee, data, text, D.More(options));
      }
      if session.mode == Real {
        if !session.more { return SW_SUBCOMMAND_NOT_ALLOWED, note; }
        if |data| != KEY_SIZE { return SW_WRONG_LENGTH, note; }
        session := session.(more := D.More(options));
        note := PseudoOut(data, D.More(options));
      }
      KeccakUpdate(data);
      UpdateProtocol(c);
      sw := SW_OK;
    }

    method ShowFee(fee: nat) returns (line: string)
      requires fee < TWO64
      ensures line == D.FeeLine(fee)
    {
      hide AmountText.Shown, CString;
      var uxAmount := new char[D.UX_AMOUNT];
      var sw := Amount2Str(fee, uxAmount, D.UX_AMOUNT);
      assert uxAmount[..D.UX_AMOUNT] == uxAmount[..];
      line := CString(uxAmount[..]) + " XMR";
      if |line| >= D.UX_AMOUNT { line := line[..D.UX_AMOUNT - 1]; }
    }

    method FetchStep(c: Cmd, data: bytes) returns (sw: nat, o: D.OutStep)
      ensures D.ParseStep(env, State(), c, data) == if sw == 0 then D.Stepped(o) else D.BadStep(sw)
      ensures sw != SW_OK
    {
      hide D.FetchHandle;
      o := D.OutStep(0, 0, ZERO_KEY, ZERO_KEY, ZERO_KEY, ZERO_KEY, ZERO_KEY, ZERO_KEY);
      var n := if c.version >= 2 then 2 else 1;
      if |data| < n + 64 { return ERROR_IO_FULL, o; }
      o := o.(sub := data[0], view := data[n..n + 32], spend := data[n + 32..n + 64]);
      if c.version >= 2 { o := o.(change := data[1]); }
      var ak, t;
      sw, ak, t := FetchDecrypt(data[n + 64..], TYPE_AMOUNT_KEY);
      if sw != 0 { return; }
      if |t| < 96 { return ERROR_IO_FULL, o; }
      o := o.(amountKey := ak, commitment := t[..32], mask := t[32..64], amount := t[64..96]);
    }

    /** `monero_unblind` on the buffers the step was read into. */
    method UnblindStep(o: D.OutStep, short: bool) returns (sw: nat, v: key, k: key)
      ensures Unblinds(sw, Blinding.Amount(v, k),
        Blinding.Unblinded(env.streams, Blinding.Amount(o.amount, o.mask), o.amountKey, short))
    {
      hide Blinding.Unblinded;
      var bv := Buffer(o.amount);
      var bk := Buffer(o.mask);
      var ba := Buffer(o.amountKey);
      sw := Blinding.Unblind(env.streams, bv, bk, ba, short);
      v, k := bv[..], bk[..];
    }

    /** Unblinds the amount and recomputes the commitment. */
    method OpenCommitment(o: D.OutStep, short: bool) returns (sw: nat, v: key, k: key)
      ensures D.Opening(env, o, short) == if sw == 0 then D.Stands(Blinding.Amount(v, k)) else D.Falls(sw)
      ensures sw != SW_OK
    {
      hide AllZero, Blinding.Unblinded;
      sw, v, k := UnblindStep(o, short);
      if sw != 0 { return; }
      if short && !AllZero(v[8..]) { return SW_SECURITY_AMOUNT_CHAIN_CONTROL, v, k; }
      var kG := env.mulG(k);
      if kG.None? { return SW_SECURITY_INTERNAL, v, k; }
      var aH := kG;
      if !AllZero(v) {
        aH := env.mulH(v);
        if aH.None? { return SW_SECURITY_INTERNAL, v, k; }
        aH := env.addPoints(aH.value, kG.value);
        if aH.None? { return SW_SECURITY_INTERNAL, v, k; }
      }
      if o.commitment != aH.value { return SW_SECURITY_COMMITMENT_CHAIN_CONTROL, v, k; }
      sw := 0;
    }

    method ReviewOutput(c: Cmd, options: byte, o: D.OutStep, v: key, k: key) returns (sw: nat, note: Note)
      requires session.mode == Real
      modifies this
      ensures Is(sw, State(), note, D.ReviewOutput(env, old(State()), c, options, o, v, k))
    {
      hide D.Shown, D.RecBytes, AllZero, D.More, D.Short, D.AmountBytes, D.AmountLine, D.AddressLine, D.ShownPid;
      note := Quiet;
      if c.version >= 2 {
        review := review.(outKeys := Update(review.outKeys, D.RecBytes(D.StepRec(o))));
      }
      review := review.(commitments := Update(review.commitments, o.commitment));
      var major := 0;
      if o.change != 0 {
        if !AllZero(v) {
          sw, major := CheckChangeAddress(env.wallet, env.mul, o.view, o.spend);
          if sw != 0 { return; }
        }
      }
      if !D.More(options) {
        if c.version >= 2 {
          var digest := env.sha(review.outKeys);
          review := review.(outKeys := Final(review.outKeys));
          if digest != review.outK { return SW_SECURITY_COMMITMENT_CHAIN_CONTROL, note; }
        }
        review := review.(digest := env.sha(review.commitments));
        review := review.(commitments := FRESH);
        session := session.(stages := session.stages.(reviewed := true));
      }
      if D.Shown(v) == 0 && o.change == 0 { return SW_SECURITY_AMOUNT_CHAIN_CONTROL, note; }
      var display := Show(o, v, major);
      note := Output(!D.More(options), D.StepRec(o), o.commitment, k, v, D.Short(options), D.Shown(v),
                     D.AmountBytes(o, options), display);
      UpdateProtocol(c);
      sw := 0;
    }

    /** What the review puts on screen. */
    method Show(o: D.OutStep, v: key, major: nat) returns (display: Display)
      ensures display == if o.change == 0
        then Payment(D.AmountLine(D.Shown(v)), D.AddressLine(env, D.ShownPid(outputs), o.view, o.spend, o.sub))
        else Return(D.AmountLine(D.Shown(v)), major)
    {
      hide D.Shown, D.AmountLine, D.AddressLine, D.ShownPid;
      var amount := ShowAmount(v);
      if o.change == 0 {
        var address := ShowAddress(o);
        return Payment(amount, address);
      }
      display := Return(amount, major);
    }

    method ShowAmount(v: key) returns (line: string)
      ensures line == D.AmountLine(D.Shown(v))
    {
      hide LE, AmountText.Shown, CString;
      var uxAmount := new char[23];
      Eight(v);
      var sw := Amount2Str(D.Shown(v), uxAmount, D.AMOUNT_WIDTH);
      line := CString(uxAmount[..D.AMOUNT_WIDTH]) + " XMR";
    }

    lemma Eight(v: key)
      ensures D.Shown(v) < TWO64
    {
      Base58.BEBound(Rev(v[..8]));
      Pow2Values();
    }

    method ShowAddress(o: D.OutStep) returns (line: string)
      ensures line == D.AddressLine(env, D.ShownPid(outputs), o.view, o.spend, o.sub)
    {
      hide Base58.PrefixOf, Base58.KindOf, Base58.Address, CString, D.ShownPid;
      var pid := D.ShownPid(outputs);
      var uxAddress := new char[160];
      var sw := Base58.PublicKeyText(env.addressHash, env.network, uxAddress, o.view, o.spend, o.sub, pid);
      line := CString(uxAddress[..]);
      var prefix := Base58.PrefixOf(env.network, Base58.KindOf(o.sub, pid));
      if prefix.Some? {
        Base58.AddressShape(env.addressHash, prefix.value, o.view, o.spend, pid);
        ghost var text := Base58.Address(env.addressHash, prefix.value, o.view, o.spend, pid);
        assert uxAddress[..][..|text|] == text;
        CStringIs(uxAddress[..], text);
      } else {
        CStringIs(uxAddress[..], "");
      }
    }

    method PrehashUpdate(c: Cmd, options: byte, data: bytes) returns (sw: nat, note: Note)
      modifies this
      ensures Is(sw, State(), note, D.PrehashUpdate(env, old(State()), c, options, data))
    {
      hide D.ParseStep, D.Opening, D.ReviewOutput, AllZero, D.AmountBytes, D.Short;
      note := Quiet;
      var o;
      sw, o := FetchStep(c, data);
      if sw != 0 { return; }
      KeccakUpdate(D.AmountBytes(o, options));
      if session.mode != Real {
        UpdateProtocol(c);
        return SW_OK, note;
      }
      if o.change == 0 && outputs.pidSet {
        if o.view != outputs.pidPub { return SW_SECURITY_PAYMENT_ID, note; }
        if !AllZero(outputs.pid) && o.sub != 0 { return SW_SECURITY_PAYMENT_ID, note; }
      }
      var v, k;
      sw, v, k := OpenCommitment(o, D.Short(options));
      if sw != 0 { return; }
      sw, note := ReviewOutput(c, options, o, v, k);
    }

    method PrehashFinalize(c: Cmd, options: byte, data: bytes) returns (sw: nat, note: Note)
      modifies this
      ensures Is(sw, State(), note,
        if D.More(options) then D.AbsorbCommitment(old(State()), c, data)
        else D.FinalizePrehash(env, old(State()), c, data))
    {
      note := Quiet;
      if D.More(options) {
        if |data| < KEY_SIZE { return ERROR_IO_FULL, note; }
        KeccakUpdate(data[..KEY_SIZE]);
        review := review.(commitments := Update(review.commitments, data[..KEY_SIZE]));
        if session.mode == Real { note := Absorbed(data[..KEY_SIZE]); }
      } else {
        sw := StagesCheck(Stages(true, true, true, false));
        if sw != SW_OK { return; }
        if session.mode == Real {
          var digest := env.sha(review.commitments);
          review := review.(commitments := Final(review.commitments));
          if digest != review.digest { return SW_SECURITY_COMMITMENT_CHAIN_CONTROL, note; }
        }
        var h := env.keccak(signing.keccakH);
        if |data| < 64 { return ERROR_IO_FULL, note; }
        signing := signing.(keccakH := FRESH);
        if c.version >= 3 {
          if data[..32] != signing.prefixH { return SW_SECURITY_PREFIX_HASH, note; }
        }
        UpdateThree(FRESH, data[..32], h, data[32..64]);
        assert [] + (data[..32] + h + data[32..64]) == data[..32] + h + data[32..64];
        KeccakUpdate(data[..32]);
        KeccakUpdate(h);
        KeccakUpdate(data[32..64]);
        signing := signing.(mlsagH := env.keccak(signing.keccakH));
        signing := signing.(keccakH := Final(signing.keccakH));
        if session.mode == Real {
          session := session.(stages := session.stages.(prehash := true));
          note := Finalized(data[..32], data[32..64], signing.mlsagH);
        }
      }
      UpdateProtocol(c);
      sw := SW_OK;
    }

    method Validate(c: Cmd, options: byte, data: bytes) returns (sw: nat, note: Note)
      modifies this
      ensures Is(sw, State(), note, D.Validate(env, old(State()), c, options, data))
    {
      hide D.ValidateGate, D.PrehashInit, D.PrehashUpdate, D.AbsorbCommitment, D.FinalizePrehash, D.More;
      note := Quiet;
      sw := CheckValidateGate(c);
      if sw != SW_OK { return; }
      if c.p1 == 1 {
        FeeForgetsGate(old(State()), State(), c, options, data);
        sw, note := PrehashInit(c, options, data);
      } else if c.p1 == 2 {
        sw, note := PrehashUpdate(c, options, data);
      } else if c.p1 == 3 {
        sw, note := PrehashFinalize(c, options, data);
      } else {
        sw := SW_WRONG_P1P2;
      }
    }

    lemma FeeForgetsGate(d: Dev, s: Dev, c: Cmd, options: byte, data: bytes)
      requires s == d.(session := d.session.(gate := s.session.gate))
      ensures D.PrehashInit(env, s, c, options, data) == D.PrehashInit(env, d, c, options, data)
    {
      hide D.FeeOf, D.FeeLine;
    }

    // --- signing -------------------------------------------------------------------------

    /** The state-machine check the two signature instructions share. */
    method CheckSignGate(c: Cmd) returns (sw: nat)
      ensures sw == D.SignGate(State(), c) && sw != 0
    {
      if session.protocol != 4 && (c.ins == INS_CLSAG || session.protocol != 3) { return SW_COMMAND_NOT_ALLOWED; }
      if session.gate.ins != INS_VALIDATE && session.gate.ins != c.ins { return SW_COMMAND_NOT_ALLOWED; }
      sw := StagesCheck(NO_STAGE.(prehash := true));
      if sw != SW_OK { return; }
      var g := session.gate;
      if g.ins == INS_VALIDATE {
        if g.p1 != 3 || c.p1 != 1 || c.p2 != 0 { return SW_SUBCOMMAND_NOT_ALLOWED; }
      } else if g.p1 == 1 {
        if 2 != c.p1 || 1 != c.p2 { return SW_SUBCOMMAND_NOT_ALLOWED; }
      } else if g.p1 == 2 {
        if 2 == c.p1 {
          if 0 == c.p2 || (g.p2 != 0 && 1 != c.p2) { return SW_SUBCOMMAND_NOT_ALLOWED; }
        } else if 3 != c.p1 || g.p2 == 0 {
          return SW_SUBCOMMAND_NOT_ALLOWED;
        }
      } else if g.p1 == 3 {
        if 1 != c.p1 { return SW_SUBCOMMAND_NOT_ALLOWED; }
      } else {
        return SW_COMMAND_NOT_ALLOWED;
      }
      sw := SW_OK;
    }

    /** The 32-bit count steps before anything is read; 0 means it wrapped. */
    method StepSignCount() returns (sw: nat)
      modifies this`keys
      ensures keys == old(keys).(signCnt := (old(keys.signCnt) + 1) % TWO32)
      ensures sw == if old(keys.signCnt) + 1 == TWO32 then SW_SECURITY_MAX_SIGNATURE_REACHED else 0
    {
      keys := keys.(signCnt := (keys.signCnt + 1) % TWO32);
      sw := if keys.signCnt == 0 then SW_SECURITY_MAX_SIGNATURE_REACHED else 0;
    }

    /** A scalar handle verifies the same under any signature count. */
    lemma ScalarIgnoresCount(d: Dev, k: Keys, data: bytes)
      requires k == d.keys.(signCnt := k.signCnt)
      ensures D.FetchHandle(env, d.(keys := k), data, TYPE_SCALAR) == D.FetchHandle(env, d, data, TYPE_SCALAR)
    {
    }

    method MlsagPoints(alpha: key, base: bytes, xin: bytes) returns (sw: nat, points: seq<key>)
      ensures D.MlsagPoints(env, alpha, base, xin) == if sw == 0 then Some(points) else None
      ensures sw == 0 || sw == SW_SECURITY_INTERNAL
    {
      points := [];
      var aG := env.mulG(alpha);
      if aG.None? { return SW_SECURITY_INTERNAL, points; }
      if base == [] { return 0, [aG.value]; }
      var aH := env.mul(base, alpha);
      if aH.None? { return SW_SECURITY_INTERNAL, points; }
      var image := env.mul(base, xin);
      if image.None? { return SW_SECURITY_INTERNAL, points; }
      sw, points := 0, [aG.value, aH.value, image.value];
    }

    method ClsagPoints(a: key, base: bytes, p: bytes, z: bytes) returns (sw: nat, points: seq<key>)
      ensures D.ClsagPoints(env, a, base, p, z) == if sw == 0 then Some(points) else None
      ensures sw == 0 || sw == SW_SECURITY_INTERNAL
    {
      points := [];
      var aG := env.mulG(a);
      if aG.None? { return SW_SECURITY_INTERNAL, points; }
      var aH := env.mul(base, a);
      if aH.None? { return SW_SECURITY_INTERNAL, points; }
      var image := env.mul(base, p);
      if image.None? { return SW_SECURITY_INTERNAL, points; }
      var other := env.mul(base, z);
      if other.None? { return SW_SECURITY_INTERNAL, points; }
      sw, points := 0, [aG.value, aH.value, image.value, other.value];
    }

    method MlsagPrepare(c: Cmd, options: byte, data: bytes) returns (sw: nat, note: Note)
      modifies this
      ensures Is(sw, State(), note, D.MlsagPrepare(env, old(State()), c, options, data))
    {
      hide D.FetchHandle, D.MlsagPoints;
      note := Quiet;
      sw := StepSignCount();
      if sw != 0 { return; }
      ScalarIgnoresCount(old(State()), keys, if |data| < KEY_SIZE then data else data[KEY_SIZE..]);
      var xin, rest := ZERO_KEY, [];
      if data != [] {
        if |data| < KEY_SIZE { return ERROR_IO_FULL, note; }
        if options / 0x40 % 2 != 0 {
          if |data| < 2 * KEY_SIZE { return ERROR_IO_FULL, note; }
          xin := data[KEY_SIZE..2 * KEY_SIZE];
          assert data[KEY_SIZE..][..KEY_SIZE] == xin;
        } else {
          sw, xin, rest := FetchDecrypt(data[KEY_SIZE..], TYPE_SCALAR);
          if sw != 0 { return; }
        }
      }
      InsertHmacFor(env.seal(c.random), TYPE_ALPHA);
      var base := if data == [] then [] else data[..KEY_SIZE];
      var points;
      sw, points := MlsagPoints(c.random, base, if data == [] then [] else xin);
      if sw != 0 { return; }
      note := Prepared(keys.signCnt, env.seal(c.random), base, if data == [] then [] else [xin], points);
      UpdateProtocol(c);
      sw := SW_OK;
    }

    method ClsagPrepare(c: Cmd, data: bytes) returns (sw: nat, note: Note)
      modifies this
      ensures Is(sw, State(), note, D.ClsagPrepare(env, old(State()), c, data))
    {
      hide D.FetchHandle, D.ClsagPoints;
      note := Quiet;
      sw := StepSignCount();
      if sw != 0 { return; }
      ScalarIgnoresCount(old(State()), keys, data);
      var p, t;
      sw, p, t := FetchDecrypt(data, TYPE_SCALAR);
      if sw != 0 { return; }
      if |t| < 64 { return ERROR_IO_FULL, note; }
      var z, h := t[..32], t[32..64];
      InsertHmacFor(env.seal(c.random), TYPE_ALPHA);
      var points;
      sw, points := ClsagPoints(c.random, h, p, z);
      if sw != 0 { return; }
      note := Prepared(keys.signCnt, env.seal(c.random), h, [p, z], points);
      UpdateProtocol(c);
      sw := SW_OK;
    }

    /** The common end of a hash step. */
    method HashStep(c: Cmd, msg: bytes, more: bool, clsag: bool) returns (note: Note)
      modifies this
      ensures Is(SW_OK, State(), note, D.HashInto(env, old(State()), c, old(signing.keccakH), msg, more, clsag))
    {
      hide D.Challenge;
      note := if session.mode == Real then Hashed(c.p2 == 1, msg, !more, clsag) else Quiet;
      KeccakUpdate(msg);
      if !more {
        signing := signing.(c := D.Challenge(env, signing.keccakH));
        signing := signing.(keccakH := Final(signing.keccakH));
      }
      UpdateProtocol(c);
      if more { session := session.(gate := session.gate.(p2 := 0)); }
    }

    lemma HashForgetsContext(d: Dev, h: Ctx, c: Cmd, msg: bytes, more: bool, clsag: bool)
      ensures D.HashInto(env, d.(signing := d.signing.(keccakH := h)), c, h, msg, more, clsag)
           == D.HashInto(env, d, c, h, msg, more, clsag)
    {
      hide D.Challenge;
    }

    method MlsagHash(c: Cmd, options: byte, data: bytes) returns (sw: nat, note: Note)
      modifies this
      ensures Is(sw, State(), note, D.MlsagHash(env, old(State()), c, options, data))
    {
      hide D.HashInto, D.More;
      note := Quiet;
      var msg := [];
      if c.p2 == 1 {
        signing := signing.(keccakH := FRESH);
        msg := signing.mlsagH;
      } else {
        if |data| < KEY_SIZE { return ERROR_IO_FULL, note; }
        msg := data[..KEY_SIZE];
      }
      HashForgetsContext(old(State()), signing.keccakH, c, msg, D.More(options), false);
      note := HashStep(c, msg, D.More(options), false);
      sw := SW_OK;
    }

    method ClsagHash(c: Cmd, options: byte, data: bytes) returns (sw: nat, note: Note)
      modifies this
      ensures Is(sw, State(), note, D.ClsagHash(env, old(State()), c, options, data))
    {
      hide D.HashInto, D.More;
      note := Quiet;
      if c.p2 == 1 {
        signing := signing.(keccakH := FRESH);
        signing := signing.(history := 0);
      }
      if |data| < KEY_SIZE { return ERROR_IO_FULL, note; }
      var msg := data[..KEY_SIZE];
      signing := signing.(history := signing.history * 2 % 8);
      if msg == signing.mlsagH { signing := signing.(history := signing.history + 1); }
      if !D.More(options) {
        if signing.history < 4 { return SW_SECURITY_INTERNAL, note; }
      }
      HashForgetsContext(old(State()).(signing := old(signing).(history := signing.history)), signing.keccakH, c, msg,
        D.More(options), true);
      note := HashStep(c, msg, D.More(options), true);
      sw := SW_OK;
    }

    static method Buffer(s: key) returns (a: array<byte>)
      ensures fresh(a) && a.Length == KEY_SIZE && a[..] == s
    {
      a := new byte[KEY_SIZE](i requires 0 <= i < KEY_SIZE => s[i]);
    }

    /** The response, computed in place as in the source. */
    static method MlsagResponse(alpha: key, xin: key, ch: key) returns (s: key)
      ensures s == ToLE(Signatures.MlsagValue(LE(alpha), LE(xin), LE(ch)))
    {
      hide LE, ToLE, Signatures.MlsagValue;
      var a := Buffer(alpha);
      var x := Buffer(xin);
      var c := Buffer(ch);
      var ss := new byte[KEY_SIZE];
      var ss2 := new byte[KEY_SIZE];
      Signatures.MlsagSign(ss2, ss, a, x, c);
      s := ss2[..];
      ToLELE(s);
    }

    static method ClsagResponse(a: key, p: key, z: key, muP: key, muC: key, ch: key) returns (s: key, reduced: key)
      ensures s == ToLE(Signatures.ClsagValue(LE(a), LE(p), LE(z), LE(muP), LE(muC), LE(ch)))
      ensures reduced == ToLE(LE(ch) % L)
    {
      hide LE, ToLE, Signatures.ClsagValue;
      var ba := Buffer(a);
      var bp := Buffer(p);
      var bz := Buffer(z);
      var bm := Buffer(muP);
      var bn := Buffer(muC);
      var bc := Buffer(ch);
      var bs := new byte[KEY_SIZE];
      Signatures.ClsagSign(bs, ba, bp, bz, bm, bn, bc);
      s, reduced := bs[..], bc[..];
      ToLELE(s);
      ToLELE(reduced);
    }

    method MlsagSign(c: Cmd, data: bytes) returns (sw: nat, note: Note)
      modifies this
      ensures Is(sw, State(), note, D.MlsagSign(env, old(State()), c, data))
    {
      hide LE, ToLE, Signatures.MlsagValue;
      note := Quiet;
      sw := StagesCheck(Stages(false, false, true, true));
      if sw != SW_OK { return; }
      var xin, alpha, t, u := ZERO_KEY, ZERO_KEY, data, data;
      if session.mode == Fake {
        if |data| < 64 { return ERROR_IO_FULL, note; }
        xin, alpha := data[..32], data[32..64];
      } else if session.mode == Real {
        sw, xin, t := FetchDecrypt(data, TYPE_SCALAR);
        if sw != 0 { return; }
        sw, alpha, u := FetchDecrypt(t, TYPE_ALPHA);
        if sw != 0 { return; }
      } else {
        return SW_SECURITY_INTERNAL, note;
      }
      if AllZero(xin) || AllZero(alpha) { return SW_SECURITY_RANGE_VALUE, note; }
      var s := MlsagResponse(alpha, xin, signing.c);
      if session.mode == Real {
        note := Signed(false, keys.signCnt, t[..KEY_SIZE], LE(alpha), signing.c, s, OnMlsag(LE(xin)));
      }
      UpdateProtocol(c);
      sw := SW_OK;
    }

    method ClsagSign(c: Cmd, data: bytes) returns (sw: nat, note: Note)
      modifies this
      ensures Is(sw, State(), note, D.ClsagSign(env, old(State()), c, data))
    {
      hide LE, ToLE, Signatures.ClsagValue;
      note := Quiet;
      sw := StagesCheck(Stages(false, false, true, true));
      if sw != SW_OK { return; }
      var a, p, u := ZERO_KEY, ZERO_KEY, data;
      if session.mode == Fake {
        if |data| < 160 { return ERROR_IO_FULL, note; }
        a, p, u := data[..32], data[32..64], data[64..];
      } else if session.mode == Real {
        sw, a, u := FetchDecrypt(data, TYPE_ALPHA);
        if sw != 0 { return; }
        sw, p, u := FetchDecrypt(u, TYPE_SCALAR);
        if sw != 0 { return; }
        if |u| < 96 { return ERROR_IO_FULL, note; }
      } else {
        return SW_SECURITY_INTERNAL, note;
      }
      var z, muP, muC := u[..32], u[32..64], u[64..96];
      assert session.mode == Fake ==> z == data[64..96];
      if AllZero(a) || AllZero(p) || AllZero(z) { return SW_WRONG_DATA_RANGE, note; }
      var s, reduced := ClsagResponse(a, p, z, muP, muC, signing.c);
      signing := signing.(c := reduced);
      if session.mode == Real {
        note := Signed(true, keys.signCnt, data[..KEY_SIZE], LE(a), reduced, s,
          OnClsag(LE(p), LE(z), LE(muP), LE(muC)));
      }
      UpdateProtocol(c);
      sw := SW_OK;
    }

    method Sign(c: Cmd, options: byte, data: bytes) returns (sw: nat, note: Note)
      modifies this
      ensures Is(sw, State(), note, D.Sign(env, old(State()), c, options, data))
    {
      hide D.SignGate, D.MlsagPrepare, D.MlsagHash, D.MlsagSign, D.ClsagPrepare, D.ClsagHash, D.ClsagSign;
      note := Quiet;
      sw := CheckSignGate(c);
      if sw != SW_OK { return; }
      if c.ins == INS_MLSAG {
        if c.p1 == 1 {
          sw, note := MlsagPrepare(c, options, data);
        } else if c.p1 == 2 {
          sw, note := MlsagHash(c, options, data);
        } else {
          sw, note := MlsagSign(c, data);
        }
      } else {
        if c.p1 == 1 {
          sw, note := ClsagPrepare(c, data);
        } else if c.p1 == 2 {
          sw, note := ClsagHash(c, options, data);
        } else {
          sw, note := ClsagSign(c, data);
        }
      }
    }

    // --- dispatch, the main loop, the user -----------------------------------------------

    /** Every command outside this model: what it answers comes with it. */
    method Outside(c: Cmd) returns (sw: nat, note: Note)
      modifies this
      ensures Is(sw, State(), note, D.Outside(old(State()), c))
    {
      note := Quiet;
      var x := c.elsewhere;
      if x.sw != 0 && x.sw != SW_OK { return x.sw, note; }
      if session.inProgress { keys := D.MintAside(keys, x); }
      sw := SW_OK;
      if c.ins == INS_GET_TX_PROOF {
        signing := signing.(keccakH := Final(Update(FRESH, c.random)));
        note := Disturbed;
      } else if x.sw == 0 && (c.ins == INS_GET_KEY || c.ins == INS_DISPLAY_ADDRESS) {
        session := session.(screen := Other);
        sw := 0;
      }
    }

    /** `check_protocol` */
    method CheckProtocol(version: byte) returns (sw: nat)
      modifies this
      ensures sw == if D.Protocol(old(State()), version).Some? then SW_OK else SW_PROTOCOL_NOT_SUPPORTED
      ensures sw == SW_OK ==> State() == D.Protocol(old(State()), version).value
    {
      if version == 0 || version == 3 || version == 4 {
        if session.protocol == NO_PROTOCOL { session := session.(protocol := version); }
        if session.protocol == version { return SW_OK; }
      }
      sw := SW_PROTOCOL_NOT_SUPPORTED;
    }

    method Serve(c: Cmd, options: byte, data: bytes) returns (sw: nat, note: Note)
      requires ParserReady() && D.Access(session.inProgress, c.ins) == SW_OK
      modifies this
      ensures Is(sw, State(), note, D.Serve(env, old(State()), c, options, data))
    {
      hide D.OpenTx, D.CloseTx, D.SetMode, D.Stealth, D.GenOutput, D.PrefixHash, D.CommitmentMask, D.Blind, D.Validate,
        D.Sign, D.Outside;
      note := Quiet;
      if c.ins == INS_RESET {
        if c.elsewhere.sw != SW_OK {
          return if c.elsewhere.sw == 0 then SW_SECURITY_INTERNAL else c.elsewhere.sw, note;
        }
        Init();
        return SW_OK, DeviceState.Init;
      }
      if c.ins == INS_OPEN_TX {
        sw, note := OpenTx(c, data);
      } else if c.ins == INS_CLOSE_TX {
        sw, note := CloseTx();
      } else if c.ins == INS_SET_SIGNATURE_MODE {
        sw, note := SetSignatureMode(data);
      } else if c.ins == INS_STEALTH {
        sw, note := Stealth(c, data);
      } else if c.ins == INS_GEN_TXOUT_KEYS {
        sw, note := GenerateTxoutKeys(c, data);
      } else if c.ins == INS_PREFIX_HASH {
        sw, note := PrefixHash(c, options, data);
      } else if c.ins == INS_GEN_COMMITMENT_MASK {
        sw, note := GenCommitmentMask(c, data);
      } else if c.ins == INS_BLIND {
        sw, note := BlindAmount(c, options, data);
      } else if c.ins == INS_VALIDATE {
        sw, note := Validate(c, options, data);
      } else if c.ins == INS_MLSAG || c.ins == INS_CLSAG {
        sw, note := Sign(c, options, data);
      } else {
        sw, note := Outside(c);
      }
    }

    /** `monero_dispatch` */
    method Dispatch(c: Cmd) returns (sw: nat, note: Note)
      requires ParserReady()
      modifies this
      ensures Is(sw, State(), note, D.Dispatch(env, old(State()), c))
    {
      hide D.Serve, D.Protocol, PrefixSafety.Safe, D.BindingOf;
      note := Quiet;
      sw := CheckProtocol(c.version);
      if sw != SW_OK { return; }
      EnteringKeepsBinding(old(State()), State(), c.version);
      sw := D.Access(session.inProgress, c.ins);
      if sw != SW_OK { return; }
      if c.body == [] { return ERROR_IO_FULL, note; }
      sw, note := Serve(c, c.body[0], c.body[1..]);
    }

    lemma EnteringKeepsBinding(d: Dev, s: Dev, version: byte)
      requires D.Protocol(d, version) == Some(s)
      ensures D.BindingOf(env, s) == D.BindingOf(env, d) && s.outputs == d.outputs
      ensures s.session == d.session.(protocol := s.session.protocol)
    {
    }

    /** One round of `app_main`: the app is killed by a command while a reply is owed, and by
        every status but success. */
    method HandleCommand(c: Cmd) returns (alive: bool, note: Note, sw: nat)
      requires ParserReady()
      modifies this
      ensures D.Next(env, old(State()), Command(c)) == if alive then D.Running(State(), note) else D.Dead(sw)
    {
      hide D.Dispatch;
      if session.screen != Idle { return false, Quiet, SW_COMMAND_NOT_ALLOWED; }
      sw, note := Dispatch(c);
      if sw == 0 {
        session := session.(screen := if session.screen == Other then Other else Review);
        alive := true;
      } else {
        alive := sw == SW_OK;
      }
    }

    /** The two confirmation callbacks: only the review that closed the output set approves. */
    method ApproveIfTerminalReview()
      modifies this`session
      ensures session == old(session).(stages := old(session.stages).(
        approved := old(session.stages.approved) || old(session.stages.reviewed)))
    {
      if session.stages.reviewed {
        session := session.(stages := session.stages.(approved := true));
      }
    }

    method Answer(accept: bool) returns (note: Note)
      modifies this
      ensures D.Next(env, old(State()), if accept then Accept else Reject) == D.Running(State(), note)
    {
      note := Quiet;
      if session.screen == Review {
        if accept {
          ApproveIfTerminalReview();
          if session.inProgress && session.mode == Real { note := Accepted; }
        } else {
          ResetTx();
          note := Ended;
        }
      }
      session := session.(screen := Idle);
    }

    method Restart() returns (note: Note)
      modifies this
      ensures D.Next(env, old(State()), UserReset) == D.Running(State(), note)
    {
      Init();
      note := DeviceState.Init;
    }

    /** One step of the app: a command, an answer on the device, or its restart. */
    method Step(ev: Event) returns (alive: bool, note: Note, sw: nat)
      requires ParserReady()
      modifies this
      ensures D.Next(env, old(State()), ev) == if alive then D.Running(State(), note) else D.Dead(sw)
    {
      hide D.Next;
      alive, sw := true, SW_OK;
      match ev {
        case Command(c) => alive, note, sw := HandleCommand(c);
        case Accept => note := Answer(true);
        case Reject => note := Answer(false);
        case UserReset => note := Restart();
      }
    }

    lemma RunReady(d: Dev, evs: seq<Event>, notes: seq<Note>)
      requires Runs.Play(env, evs) == Runs.Alive(d, notes)
      ensures d.Signs() && d.session.gate.ins == INS_PREFIX_HASH ==>
        PrefixSafety.Safe(D.BindingOf(env, d), d.outputs.parser)
    {
      hide Runs.Play, PrefixSafety.Safe, D.BindingOf;
      PrefixBinding.ParserSafeInEveryRun(env, evs);
    }

    /** `app_main`: round after round until a status ends the app. What is proved of
        `DeviceRuns.Play` is thereby proved of this class. */
    method AppMain(evs: seq<Event>) returns (alive: bool, sw: nat, notes: seq<Note>)
      requires State() == D.InitFrom(0, {})
      modifies this
      ensures Runs.Play(env, evs) == if alive then Runs.Alive(State(), notes) else Runs.Halted(sw, notes)
    {
      hide D.Next, D.InitFrom, PrefixSafety.Safe, D.BindingOf;
      alive, sw, notes := true, SW_OK, [DeviceState.Init];
      for i := 0 to |evs|
        invariant alive && Runs.Play(env, evs[..i]) == Runs.Alive(State(), notes)
      {
        assert evs[..i + 1][..i] == evs[..i];
        RunReady(State(), evs[..i], notes);
        var note;
        alive, note, sw := Step(evs[i]);
        if !alive {
          Runs.HaltedStays(env, evs, i + 1);
          return;
        }
        notes := notes + [note];
      }
      assert evs[..|evs|] == evs;
    }
  }
}
