/** What each command does to the device, as functions of its state. The class in Device is
    proved against these; the theorems about runs are proved on them. */
module DeviceSpec {
  import opened Bytes
  import opened Status
  import opened Transcript
  import opened Varint
  import opened PrefixSpec
  import opened OutputBinding
  import opened Scalars
  import opened Signatures
  import opened DeviceState
  import opened AmountText
  import Base58
  import Blinding
  import opened ChangeAddress

  /** An error status, a reply sent at once, or a reply owed until the user answers. */
  datatype Result = Refuse(sw: nat) | Reply(d: Dev, note: Note) | Ask(d: Dev, note: Note)

  datatype Fetched = Got(value: key, rest: bytes) | Bad(sw: nat)

  // --- shared pieces -----------------------------------------------------------------

  predicate More(options: byte) { options >= 0x80 }

  predicate Short(options: byte) { options % 4 == 2 }

  function RecBytes(r: Rec): (b: bytes)
    ensures |b| == 98
  {
    r.view + r.spend + [r.change] + [r.sub] + r.amountKey
  }

  /** `update_protocol` */
  function Advance(d: Dev, c: Cmd): Dev
  {
    d.(session := d.session.(gate := Gate(c.ins, c.p1, c.p2)))
  }

  function Counter(kind: nat, signCnt: nat): nat
  {
    if kind == TYPE_ALPHA then signCnt else 0
  }

  /** `monero_io_insert_hmac_for`, during a transaction. */
  function MintHandle(k: Keys, data: bytes, kind: nat): Keys
  {
    k.(minted := k.minted + {Mint(k.keyId, data, kind, Counter(kind, k.signCnt))})
  }

  /** `monero_io_verify_hmac_for`: nobody but the device can produce a MAC. */
  predicate MacOk(e: Env, k: Keys, data: bytes, mac: bytes, kind: nat)
  {
    var m := Mint(k.keyId, data, kind, Counter(kind, k.signCnt));
    m in k.minted && e.mac(m) == mac
  }

  /** The range check each type of handle gets: 0 < s < l for a scalar, s != 0 otherwise. */
  predicate InRange(kind: nat, s: key)
  {
    !AllZero(s) && (kind == TYPE_SCALAR ==> LE(s) < L)
  }

  /** `monero_io_fetch_decrypt` */
  function FetchHandle(e: Env, d: Dev, data: bytes, kind: nat): Fetched
  {
    var n := if d.session.inProgress then 2 * KEY_SIZE else KEY_SIZE;
    if |data| < n then Bad(ERROR_IO_FULL)
    else if d.session.inProgress && !MacOk(e, d.keys, data[..KEY_SIZE], data[KEY_SIZE..n], kind) then
      Bad(SW_SECURITY_HMAC)
    else if !InRange(kind, e.unseal(data[..KEY_SIZE])) then Bad(SW_WRONG_DATA_RANGE)
    else Got(e.unseal(data[..KEY_SIZE]), data[n..])
  }

  /** `monero_io_fetch_decrypt_key`: the placeholder for the view key, or a scalar handle.
      The spend key's placeholder is refused by every command of a transaction. */
  function FetchKey(e: Env, d: Dev, data: bytes): Fetched
  {
    var n := if d.session.inProgress then 2 * KEY_SIZE else KEY_SIZE;
    if |data| < KEY_SIZE then Bad(ERROR_IO_FULL)
    else if data[..KEY_SIZE] == ZERO_KEY then
      if |data| < n then Bad(ERROR_IO_FULL)
      else if d.session.inProgress && !MacOk(e, d.keys, ZERO_KEY, data[KEY_SIZE..n], TYPE_SCALAR) then
        Bad(SW_SECURITY_HMAC)
      else Got(e.wallet.secret, data[n..])
    else if data[..KEY_SIZE] == FAKE_SPEND_KEY then Bad(SW_WRONG_DATA)
    else FetchHandle(e, d, data, TYPE_SCALAR)
  }

  /** `monero_tx_stages_check`: the status of the first missing stage. */
  function StagesCheck(s: Session, need: Stages): nat
  {
    if s.mode != Real then SW_OK
    else if need.approved && !s.stages.approved then SW_SECURITY_USER_NOT_APPROVED
    else if need.prefix && !s.stages.prefix then SW_SECURITY_PREFIX_NOT_FINALIZED
    else if need.reviewed && !s.stages.reviewed then SW_SECURITY_OUTPUTS_NOT_REVIEWED
    else if need.prehash && !s.stages.prehash then SW_SECURITY_PREHASH_NOT_FINALIZED
    else SW_OK
  }

  /** `monero_reset_tx`: the only boundary of the stages and the transcripts. */
  function ResetTx(d: Dev): Dev
  {
    var drawn := d.keys.draws + 1;
    Dev(
      d.session.(inProgress := false, stages := NO_STAGE, more := false),
      d.keys.(r := ZERO_KEY, publicR := ZERO_KEY, keyId := drawn, draws := drawn),
      d.outputs.(count := 0, mainKey := ZERO_KEY, pidSet := false, pidNonce := ZERO_NONCE,
                 pidPub := ZERO_KEY, pid := ZERO_PID, addkExpected := false, parser := PrefixSpec.RESET),
      d.review.(outKeys := FRESH, commitments := FRESH, digest := ZERO_KEY),
      d.signing.(keccakH := FRESH, prefixH := ZERO_KEY, mlsagH := ZERO_KEY, c := ZERO_KEY))
  }

  /** `monero_init`, at power on, on INS_RESET and from the settings: everything but the
      random generator's past starts over. */
  function InitFrom(draws: nat, minted: set<Mint>): Dev
  {
    Dev(
      Session(NO_PROTOCOL, Idle, NoMode, false, Gate(0, 0, 0), NO_STAGE, false),
      Keys(ZERO_KEY, ZERO_KEY, 0, draws, minted, 0),
      Outputs(0, ZERO_KEY, false, ZERO_NONCE, ZERO_KEY, ZERO_PID, ZERO_KEY, ZERO_KEY,
              ZERO_KEY, false, PrefixSpec.RESET.(eph := UNSET, addk := UNSET)),
      Reviewing(UNSET, ZERO_KEY, UNSET, ZERO_KEY),
      Signing(UNSET, ZERO_KEY, ZERO_KEY, ZERO_KEY, 0))
  }

  // --- opening, closing, mode ----------------------------------------------------------

  function OpenTx(e: Env, d: Dev, c: Cmd, data: bytes): Result
  {
    if d.session.gate.ins != 0 then Refuse(SW_COMMAND_NOT_ALLOWED)
    else if c.p1 != 1 || c.p2 != 0 then Refuse(SW_WRONG_P1P2)
    else if |data| < 4 then Refuse(ERROR_IO_FULL)
    else if e.mulG(c.random).None? then Refuse(SW_SECURITY_INTERNAL)
    else
      var d := ResetTx(d);
      var k := d.keys.(keyId := d.keys.draws + 1, draws := d.keys.draws + 1,
                       r := c.random, publicR := e.mulG(c.random).value);
      var k := MintHandle(MintHandle(MintHandle(k, e.seal(c.random), TYPE_SCALAR), ZERO_KEY, TYPE_SCALAR),
                          FAKE_SPEND_KEY, TYPE_SCALAR);
      Reply(Advance(d.(session := d.session.(inProgress := true), keys := k), c), Opened)
  }

  function CloseTx(d: Dev): Result
  {
    var d := ResetTx(d);
    Reply(d.(session := d.session.(gate := Gate(0, 0, 0))), Ended)
  }

  function SetMode(d: Dev, data: bytes): Result
  {
    if d.session.inProgress then Refuse(SW_COMMAND_NOT_ALLOWED)
    else if |data| < 1 then Refuse(ERROR_IO_FULL)
    else if data[0] == 1 then
      if d.session.protocol != 3 && d.session.protocol != 4 then Refuse(SW_PROTOCOL_NOT_SUPPORTED)
      else Reply(d.(session := d.session.(mode := Real)), Quiet)
    else if data[0] == 2 then Reply(d.(session := d.session.(mode := Fake)), Quiet)
    else Refuse(SW_WRONG_DATA)
  }

  // --- the payment ID ------------------------------------------------------------------

  /** Eight bytes of one key stream on the payment ID. */
  function Mask8(p: pid8, m: bytes): pid8
    requires |m| >= 8
  {
    seq(8, i requires 0 <= i < 8 => XorByte(p[i], m[i]))
  }

  function StealthMask(e: Env, drv: bytes): (m: bytes)
    ensures |m| >= 8
  {
    var m := Digest(e.keccak, drv + [ENCRYPTED_PAYMENT_ID_TAIL]);
    if |m| < 8 then ZERO_KEY else m
  }

  function Stealth(e: Env, d: Dev, c: Cmd, data: bytes): Result
  {
    var retain := d.Signs();
    if d.session.inProgress && d.session.gate.ins != INS_OPEN_TX && d.session.gate.ins != INS_STEALTH then
      Refuse(SW_COMMAND_NOT_ALLOWED)
    else if d.session.inProgress && (c.p1 != 0 || c.p2 != 0) then Refuse(SW_WRONG_P1P2)
    else if |data| < KEY_SIZE then Refuse(ERROR_IO_FULL)
    else
      var pub := data[..KEY_SIZE];
      match FetchKey(e, d, data[KEY_SIZE..])
      case Bad(sw) => Refuse(sw)
      case Got(sec, rest) =>
        if retain && (d.outputs.pidSet || sec != d.keys.r) then Refuse(SW_SECURITY_PAYMENT_ID)
        else if |rest| < 8 then Refuse(ERROR_IO_FULL)
        else if e.derive(pub, sec).None? then Refuse(SW_SECURITY_INTERNAL)
        else
          var plain := rest[..8];
          var nonce := [TX_EXTRA_NONCE_ENCRYPTED_PAYMENT_ID] + Mask8(plain, StealthMask(e, e.derive(pub, sec).value));
          if !d.session.inProgress then Reply(d, Quiet)
          else if !retain then Reply(Advance(d, c), Quiet)
          else
            var o := d.outputs.(pidPub := pub, pid := plain, pidNonce := nonce, pidSet := true);
            Reply(Advance(d.(outputs := o), c), PaymentId(nonce, pub, plain))
  }

  // --- deriving an output --------------------------------------------------------------

  datatype OutArgs = OutArgs(txKey: key, pub: key, view: key, spend: key, index: nat,
                             change: byte, sub: byte, need: byte, addSec: key, tagged: byte)

  datatype Parsed = Parsed(args: OutArgs) | BadOut(sw: nat)

  function U32(b: bytes): nat
    requires |b| == 4
  {
    FromBE(b)
  }

  function ParseOut(e: Env, d: Dev, data: bytes): Parsed
  {
    if |data| < 4 then BadOut(ERROR_IO_FULL)
    else
      match FetchKey(e, d, data[4..])
      case Bad(sw) => BadOut(sw)
      case Got(txKey, t) =>
        if |t| < 103 then BadOut(ERROR_IO_FULL)
        else
          var a := OutArgs(txKey, t[..32], t[32..64], t[64..96], U32(t[96..100]), t[100], t[101], t[102], ZERO_KEY, 0);
          ParseTail(e, d, a, t[103..])
  }

  function ParseTail(e: Env, d: Dev, a: OutArgs, t: bytes): Parsed
  {
    var k := if a.need != 0 then FetchKey(e, d, t)
             else if |t| < KEY_SIZE then Bad(ERROR_IO_FULL) else Got(ZERO_KEY, t[KEY_SIZE..]);
    match k
    case Bad(sw) => BadOut(sw)
    case Got(addSec, rest) =>
      if |rest| < 1 then BadOut(ERROR_IO_FULL)
      else if a.change > 1 || a.sub > 1 || a.need > 1 || rest[0] > 1 then BadOut(SW_WRONG_DATA)
      else Parsed(a.(addSec := addSec, tagged := rest[0]))
  }

  /** The main key in the form the recipient scans with, as the device computes it. */
  function ExpectedKey(e: Env, a: OutArgs): Option<key>
  {
    if a.sub != 0 && a.need == 0 then e.mul(a.spend, a.txKey) else e.mulG(a.txKey)
  }

  /** The checks on position and main key of a real transaction's output. */
  function VouchWord(e: Env, d: Dev, a: OutArgs): nat
  {
    if a.index != d.outputs.count then SW_WRONG_DATA
    else if d.outputs.count != 0 && a.pub != d.outputs.mainKey then SW_WRONG_DATA
    else if a.change != 0 then 0
    else if ExpectedKey(e, a).None? then SW_SECURITY_INTERNAL
    else if a.pub != ExpectedKey(e, a).value then SW_WRONG_DATA
    else if (a.sub == 0 || a.need != 0) && a.pub != d.keys.publicR then SW_WRONG_DATA
    else 0
  }

  predicate Vouched(e: Env, d: Dev, a: OutArgs)
  {
    VouchWord(e, d, a) == 0
  }

  /** The additional public key published for an output. */
  function AddKey(e: Env, a: OutArgs): Option<key>
  {
    if a.need == 0 then Some(ZERO_KEY)
    else if a.sub != 0 then e.mul(a.spend, a.addSec)
    else e.mulG(a.addSec)
  }

  function Derivation(e: Env, a: OutArgs): Option<key>
  {
    if a.change != 0 then e.derive(a.pub, e.wallet.secret)
    else e.derive(a.view, if a.sub != 0 && a.need != 0 then a.addSec else a.txKey)
  }

  datatype Derivative = Derivative(addKey: key, amountKey: key, outKey: key, viewTag: bytes)

  function Derive(e: Env, a: OutArgs): Option<Derivative>
  {
    var k, drv := AddKey(e, a), Derivation(e, a);
    if k.None? || drv.None? then None
    else
      var ak, out := e.toScalar(drv.value, a.index), e.outputKey(drv.value, a.index, a.spend);
      var tag := if a.tagged != 0 then e.viewTag(drv.value, a.index) else Some(0);
      if ak.None? || out.None? || tag.None? then None
      else Some(Derivative(k.value, ak.value, out.value, if a.tagged != 0 then [tag.value] else []))
  }

  function EntryFor(a: OutArgs, x: Derivative): Entry
  {
    Entry(if a.tagged != 0 then TXOUT_TO_TAGGED_KEY_TAG else TXOUT_TO_KEY_TAG, x.outKey, x.viewTag)
  }

  function RecFor(a: OutArgs, x: Derivative): Rec
  {
    Rec(a.view, a.spend, a.change, a.sub, x.amountKey)
  }

  /** One output on the three chains of a real transaction. */
  function Chain(d: Dev, a: OutArgs, x: Derivative): Dev
  {
    var o := d.outputs;
    var entry := EntryFor(a, x);
    var p := o.parser.(
      eph := Update(o.parser.eph, Frame(entry.kind, o.count) + entry.key + entry.viewTag),
      addk := if a.need != 0 then Update(o.parser.addk, x.addKey) else o.parser.addk);
    d.(outputs := o.(parser := p, extraR := a.pub, addkExpected := o.addkExpected || a.need != 0),
       review := d.review.(outKeys := Update(d.review.outKeys, RecBytes(RecFor(a, x)))))
  }

  function GenOutput(e: Env, d: Dev, c: Cmd, data: bytes): Result
  {
    var g := d.session.gate.ins;
    if g != INS_OPEN_TX && g != INS_GEN_TXOUT_KEYS && g != INS_STEALTH then Refuse(SW_COMMAND_NOT_ALLOWED)
    else if c.p1 != 0 || c.p2 != 0 then Refuse(SW_WRONG_P1P2)
    else
      match ParseOut(e, d, data)
      case BadOut(sw) => Refuse(sw)
      case Parsed(a) =>
        if d.session.mode == Real && !Vouched(e, d, a) then Refuse(VouchWord(e, d, a))
        else if Derive(e, a).None? then Refuse(SW_SECURITY_INTERNAL)
        else GenOutputWith(e, Pin(d, a), c, a, Derive(e, a).value)
  }

  /** The first output of a real transaction fixes the main public key. */
  function Pin(d: Dev, a: OutArgs): Dev
  {
    if d.session.mode == Real && d.outputs.count == 0 then d.(outputs := d.outputs.(mainKey := a.pub)) else d
  }

  function GenOutputWith(e: Env, d: Dev, c: Cmd, a: OutArgs, x: Derivative): Result
  {
    var chained := if d.session.mode == Real && c.version >= 2 then Chain(d, a, x) else d;
    var note := if d.session.mode == Real
                then Derived(EntryFor(a, x), RecFor(a, x), a.pub, if a.need != 0 then Some(x.addKey) else None)
                else Quiet;
    var o := chained.outputs.(count := (d.outputs.count + 1) % TWO32);
    Reply(Advance(chained.(outputs := o, keys := MintHandle(d.keys, e.seal(x.amountKey), TYPE_AMOUNT_KEY)), c), note)
  }

  // --- the prefix ----------------------------------------------------------------------

  function PrefixGate(g: Gate, c: Cmd): nat
  {
    if g.ins != INS_GEN_TXOUT_KEYS && g.ins != INS_PREFIX_HASH then SW_COMMAND_NOT_ALLOWED
    else
      var p1 := if g.ins == INS_GEN_TXOUT_KEYS then 0 else g.p1;
      if p1 == 0 then if c.p1 == 1 then SW_OK else SW_SUBCOMMAND_NOT_ALLOWED
      else if p1 == 1 then if c.p1 == 2 && c.p2 == 1 then SW_OK else SW_SUBCOMMAND_NOT_ALLOWED
      else if p1 == 2 then if c.p1 == 2 && c.p2 - 1 == g.p2 then SW_OK else SW_SUBCOMMAND_NOT_ALLOWED
      else SW_COMMAND_NOT_ALLOWED
  }

  function BindingOf(e: Env, d: Dev): Binding
  {
    var o := d.outputs;
    Binding(d.session.mode == Real, o.count, o.addkExpected, o.outEph, o.addk, o.extraR, o.pidSet, o.pidNonce, e.sha)
  }

  function Min(a: nat, b: nat): nat { if a < b then a else b }

  /** `monero_io_fetch_varint`: the length of the varint that starts `data`. */
  function VarintAt(data: bytes): Option<nat>
  {
    Decode(data, Min(10, |data|), 1)
  }

  /** A number the host sends, or the word its bytes are refused with. */
  datatype Number = Num(value: nat) | BadNumber(sw: nat)

  /** The two varints of the header, version and unlock time, and nothing after them. */
  function Timelock(data: bytes): Number
  {
    match VarintAt(data)
    case None => BadNumber(SW_WRONG_DATA_RANGE)
    case Some(n) =>
      match VarintAt(data[n..])
      case None => BadNumber(SW_WRONG_DATA_RANGE)
      case Some(m) => if n + m == |data| then Num(Value(data[n..n + m])) else BadNumber(SW_WRONG_DATA)
  }

  function Absorb(d: Dev, b: bytes): Dev
  {
    d.(signing := d.signing.(keccakH := Update(d.signing.keccakH, b)))
  }

  function CloseChains(e: Env, d: Dev): Dev
  {
    var o := d.outputs;
    d.(outputs := o.(outEph := e.sha(o.parser.eph), addk := e.sha(o.parser.addk), parser := PrefixSpec.RESET))
  }

  /** The unlock time is shown in 15 characters. */
  const TIMELOCK_WIDTH := 15

  function LockLine(v: nat): string
    requires |Digits(v)| <= TIMELOCK_WIDTH
  {
    Digits(v) + Nuls(TIMELOCK_WIDTH - |Digits(v)|)
  }

  function PrefixInit(e: Env, d: Dev, c: Cmd, data: bytes): Result
  {
    var d := Absorb(d.(session := d.session.(stages := d.session.stages.(prefix := false))), data);
    if d.session.mode != Real then Reply(Advance(d, c), Quiet)
    else
      var d := if c.version >= 2 then CloseChains(e, d) else d;
      match Timelock(data)
      case BadNumber(sw) => Refuse(sw)
      case Num(timelock) =>
        if |Digits(timelock)| > TIMELOCK_WIDTH then Refuse(SW_WRONG_DATA_RANGE)
        else if timelock == 0 then Reply(Advance(d, c), PrefixHeader(data, ""))
        else Ask(Advance(d, c), PrefixHeader(data, LockLine(timelock)))
  }

  function PrefixUpdate(e: Env, d: Dev, c: Cmd, options: byte, data: bytes): Result
  {
    var checks := d.session.mode == Real && c.version >= 2;
    var o := if checks then Run(BindingOf(e, d), d.outputs.parser, data) else PrefixSpec.Ok(d.outputs.parser);
    match o
    case Fail(sw) => Refuse(sw)
    case Ok(p) =>
      var d := Absorb(d.(outputs := d.outputs.(parser := p)), data);
      var note := if d.session.mode == Real then PrefixChunk(data, !More(options)) else Quiet;
      if More(options) then Reply(Advance(d, c), note)
      else if checks && !p.done then Refuse(SW_SECURITY_OUTKEYS_CHAIN_CONTROL)
      else Reply(Advance(PrefixFinal(e, d), c), note)
  }

  function PrefixFinal(e: Env, d: Dev): Dev
  {
    d.(signing := d.signing.(prefixH := e.keccak(d.signing.keccakH), keccakH := Final(d.signing.keccakH)),
       session := d.session.(stages := d.session.stages.(prefix := d.session.stages.prefix || d.session.mode == Real)))
  }

  function PrefixHash(e: Env, d: Dev, c: Cmd, options: byte, data: bytes): Result
  {
    var sw := PrefixGate(d.session.gate, c);
    if sw != SW_OK then Refuse(sw)
    else if c.p1 == 1 then PrefixInit(e, d, c, data)
    else PrefixUpdate(e, d, c, options, data)
  }

  // --- masks and blinding --------------------------------------------------------------

  function CommitmentMask(e: Env, d: Dev, c: Cmd, data: bytes): Result
  {
    var g := d.session.gate.ins;
    var sw := StagesCheck(d.session, NO_STAGE.(prefix := true));
    if g != INS_PREFIX_HASH && g != INS_GEN_COMMITMENT_MASK then Refuse(SW_COMMAND_NOT_ALLOWED)
    else if sw != SW_OK then Refuse(sw)
    else if c.p1 != 0 || c.p2 != 0 then Refuse(SW_WRONG_P1P2)
    else
      match FetchHandle(e, d, data, TYPE_AMOUNT_KEY)
      case Bad(sw) => Refuse(sw)
      case Got(ak, _) => Reply(Advance(d, c), if d.session.mode == Real then Masked(e.streams.mask(ak)) else Quiet)
  }

  function Blind(e: Env, d: Dev, c: Cmd, options: byte, data: bytes): Result
  {
    var g, m := d.session.gate.ins, d.session.mode;
    if m == NoMode || (g != INS_BLIND && g != (if m == Real then INS_GEN_COMMITMENT_MASK else INS_PREFIX_HASH)) then
      Refuse(SW_COMMAND_NOT_ALLOWED)
    else if c.p1 != 0 || c.p2 != 0 then Refuse(SW_WRONG_P1P2)
    else
      match FetchHandle(e, d, data, TYPE_AMOUNT_KEY)
      case Bad(sw) => Refuse(sw)
      case Got(ak, rest) =>
        if |rest| < 64 then Refuse(ERROR_IO_FULL)
        else
          match Blinding.Blinded(e.streams, Blinding.Amount(rest[32..64], rest[..32]), ak, Short(options))
          case None => Refuse(SW_SECURITY_INTERNAL)
          case Some(hidden) => Reply(Advance(d, c), if m == Real then Blinded(hidden) else Quiet)
  }

  // --- fee, outputs, commitments -------------------------------------------------------

  function ValidateGate(g: Gate, c: Cmd): nat
  {
    if g.ins != INS_BLIND && g.ins != INS_VALIDATE then SW_COMMAND_NOT_ALLOWED
    else if g.ins == INS_BLIND && (c.p1 != 1 || c.p2 != 1) then SW_SUBCOMMAND_NOT_ALLOWED
    else
      var p1 := if g.ins == INS_BLIND then 1 else g.p1;
      var p2 := if g.ins == INS_BLIND then 0 else g.p2;
      if p1 == c.p1 then if p2 == c.p2 - 1 then SW_OK else SW_SUBCOMMAND_NOT_ALLOWED
      else if p1 == c.p1 - 1 then if c.p2 == 1 then SW_OK else SW_SUBCOMMAND_NOT_ALLOWED
      else SW_COMMAND_NOT_ALLOWED
  }

  /** `[u8 type] [varint fee]` and nothing else. */
  function FeeOf(data: bytes): Number
  {
    if |data| < 2 then BadNumber(SW_WRONG_DATA)
    else
      match VarintAt(data[1..])
      case None => BadNumber(SW_WRONG_DATA_RANGE)
      case Some(n) => if 1 + n == |data| then Num(Value(data[1..])) else BadNumber(SW_WRONG_DATA)
  }

  /** The buffer an amount is shown from. */
  const UX_AMOUNT := 23

  /** The fee in full, and as much of the unit as the buffer still takes. */
  function FeeLine(v: nat): string
  {
    var line := CString(AmountText.Shown(v, UX_AMOUNT)) + " XMR";
    if |line| < UX_AMOUNT then line else line[..UX_AMOUNT - 1]
  }

  function FeeStep(e: Env, d: Dev, c: Cmd, options: byte, data: bytes): Result
  {
    match FeeOf(data)
    case BadNumber(sw) => Refuse(sw)
    case Num(fee) =>
      var d := d.(session := d.session.(more := More(options)),
                  review := d.review.(outK := e.sha(d.review.outKeys), outKeys := FRESH, commitments := FRESH),
                  signing := d.signing.(keccakH := Update(FRESH, data)));
      Ask(Advance(d, c), Fee(fee, data, FeeLine(fee), More(options)))
  }

  function PrehashInit(e: Env, d: Dev, c: Cmd, options: byte, data: bytes): Result
  {
    if d.session.mode != Real then Reply(Advance(Absorb(d, data), c), Quiet)
    else if c.p2 == 1 then FeeStep(e, d, c, options, data)
    else if !d.session.more then Refuse(SW_SUBCOMMAND_NOT_ALLOWED)
    else if |data| != KEY_SIZE then Refuse(SW_WRONG_LENGTH)
    else Reply(Advance(Absorb(d.(session := d.session.(more := More(options))), data), c),
               PseudoOut(data, More(options)))
  }

  datatype OutStep = OutStep(sub: byte, change: byte, view: key, spend: key, amountKey: key,
                             commitment: key, mask: key, amount: key)

  datatype Stepped = Stepped(o: OutStep) | BadStep(sw: nat)

  function ParseStep(e: Env, d: Dev, c: Cmd, data: bytes): Stepped
  {
    var n := if c.version >= 2 then 2 else 1;
    if |data| < n + 64 then BadStep(ERROR_IO_FULL)
    else
      var change := if c.version >= 2 then data[1] else 0;
      match FetchHandle(e, d, data[n + 64..], TYPE_AMOUNT_KEY)
      case Bad(sw) => BadStep(sw)
      case Got(ak, t) =>
        if |t| < 96 then BadStep(ERROR_IO_FULL)
        else Stepped(OutStep(data[0], change, data[n..n + 32], data[n + 32..n + 64], ak, t[..32], t[32..64], t[64..96]))
  }

  function StepRec(o: OutStep): Rec
  {
    Rec(o.view, o.spend, o.change, o.sub, o.amountKey)
  }

  /** The bytes of the encrypted amount that enter the prehash. */
  function AmountBytes(o: OutStep, options: byte): bytes
  {
    if Short(options) then o.amount[..8] else o.mask + o.amount
  }

  /** The payment ID a destination is shown with, and whether it may be shown at all. */
  predicate PidRefused(d: Dev, o: OutStep)
  {
    && o.change == 0 && d.outputs.pidSet
    && (o.view != d.outputs.pidPub || (!AllZero(d.outputs.pid) && o.sub != 0))
  }

  /** kG + vH, as computed: no multiplication by a zero v. */
  function Commitment(e: Env, k: key, v: key): Option<key>
  {
    match e.mulG(k)
    case None => None
    case Some(kG) =>
      if AllZero(v) then Some(kG)
      else match e.mulH(v)
        case None => None
        case Some(vH) => e.addPoints(vH, kG)
  }

  /** The 64-bit amount the review shows. */
  function Shown(v: key): nat
  {
    LE(v[..8])
  }

  datatype Unsealed = Stands(x: Blinding.Amount) | Falls(sw: nat)

  /** The unblinded amount stands: canonical when short, and C opens to it. */
  function Opening(e: Env, o: OutStep, short: bool): Unsealed
  {
    match Blinding.Unblinded(e.streams, Blinding.Amount(o.amount, o.mask), o.amountKey, short)
    case None => Falls(SW_SECURITY_INTERNAL)
    case Some(x) =>
      if short && !AllZero(x.v[8..]) then Falls(SW_SECURITY_AMOUNT_CHAIN_CONTROL)
      else
        match Commitment(e, x.k, x.v)
        case None => Falls(SW_SECURITY_INTERNAL)
        case Some(c) => if c != o.commitment then Falls(SW_SECURITY_COMMITMENT_CHAIN_CONTROL) else Stands(x)
  }

  /** A change output that carries anything must go to a root of the wallet's accounts. */
  function ChangeWord(e: Env, o: OutStep, v: key): (sw: nat)
    ensures sw != SW_OK
  {
    if o.change == 0 || AllZero(v) then 0
    else
      match RootOf(e.wallet, e.mul, o.view, o.spend)
      case Root(_) => 0
      case NoRoot(sw) => sw
  }

  /** The review shows 14 characters of the amount, and the unit. */
  const AMOUNT_WIDTH := 15

  function AmountLine(v: nat): string
  {
    CString(AmountText.Shown(v, AMOUNT_WIDTH)) + " XMR"
  }

  /** The payment ID shown with a destination: all zeros means none. */
  function ShownPid(o: Outputs): Option<pid8>
  {
    if o.pidSet && !AllZero(o.pid) then Some(o.pid) else None
  }

  /** The address text, which is empty on a network the app does not know. */
  function AddressLine(e: Env, pid: Option<pid8>, view: key, spend: key, sub: byte): string
  {
    match Base58.PrefixOf(e.network, Base58.KindOf(sub, pid))
    case None => ""
    case Some(prefix) => Base58.Address(e.addressHash, prefix, view, spend, pid)
  }

  function DisplayOf(e: Env, pid: Option<pid8>, r: Rec, v: key): Display
  {
    if r.change == 0 then Payment(AmountLine(Shown(v)), AddressLine(e, pid, r.view, r.spend, r.sub))
    else Return(AmountLine(Shown(v)), if AllZero(v) then 0 else MajorOf(e, r.view, r.spend))
  }

  function MajorOf(e: Env, view: key, spend: key): nat
  {
    match RootOf(e.wallet, e.mul, view, spend)
    case Root(major) => major
    case NoRoot(_) => 0
  }

  function ReviewOutput(e: Env, d: Dev, c: Cmd, options: byte, o: OutStep, v: key, k: key): Result
  {
    var r := d.review.(outKeys := if c.version >= 2 then Update(d.review.outKeys, RecBytes(StepRec(o)))
                                  else d.review.outKeys,
                       commitments := Update(d.review.commitments, o.commitment));
    var note := Output(!More(options), StepRec(o), o.commitment, k, v, Short(options), Shown(v),
                       AmountBytes(o, options), DisplayOf(e, ShownPid(d.outputs), StepRec(o), v));
    if ChangeWord(e, o, v) != 0 then Refuse(ChangeWord(e, o, v))
    else if !More(options) && c.version >= 2 && e.sha(r.outKeys) != r.outK then
      Refuse(SW_SECURITY_COMMITMENT_CHAIN_CONTROL)
    else if Shown(v) == 0 && o.change == 0 then Refuse(SW_SECURITY_AMOUNT_CHAIN_CONTROL)
    else if More(options) then Ask(Advance(d.(review := r), c), note)
    else
      var r := r.(outKeys := if c.version >= 2 then Final(r.outKeys) else r.outKeys,
                  digest := e.sha(r.commitments), commitments := FRESH);
      var s := d.session.(stages := d.session.stages.(reviewed := true));
      Ask(Advance(d.(session := s, review := r), c), note)
  }

  function PrehashUpdate(e: Env, d: Dev, c: Cmd, options: byte, data: bytes): Result
  {
    match ParseStep(e, d, c, data)
    case BadStep(sw) => Refuse(sw)
    case Stepped(o) =>
      var d := Absorb(d, AmountBytes(o, options));
      if d.session.mode != Real then Reply(Advance(d, c), Quiet)
      else if PidRefused(d, o) then Refuse(SW_SECURITY_PAYMENT_ID)
      else
        match Opening(e, o, Short(options))
        case Falls(sw) => Refuse(sw)
        case Stands(x) => ReviewOutput(e, d, c, options, o, x.v, x.k)
  }

  function AbsorbCommitment(d: Dev, c: Cmd, data: bytes): Result
  {
    if |data| < KEY_SIZE then Refuse(ERROR_IO_FULL)
    else
      var h := data[..KEY_SIZE];
      var d := Absorb(d.(review := d.review.(commitments := Update(d.review.commitments, h))), h);
      Reply(Advance(d, c), if d.session.mode == Real then Absorbed(h) else Quiet)
  }

  function FinalizePrehash(e: Env, d: Dev, c: Cmd, data: bytes): Result
  {
    var sw := StagesCheck(d.session, Stages(true, true, true, false));
    var signs := d.session.mode == Real;
    if sw != SW_OK then Refuse(sw)
    else if signs && e.sha(d.review.commitments) != d.review.digest then Refuse(SW_SECURITY_COMMITMENT_CHAIN_CONTROL)
    else if |data| < 64 then Refuse(ERROR_IO_FULL)
    else if c.version >= 3 && data[..32] != d.signing.prefixH then Refuse(SW_SECURITY_PREFIX_HASH)
    else
      var t := Ctx([], data[..32] + e.keccak(d.signing.keccakH) + data[32..64]);
      var r := if signs then d.review.(commitments := Final(d.review.commitments)) else d.review;
      var s := d.session.(stages := d.session.stages.(prehash := d.session.stages.prehash || signs));
      var d := d.(session := s, review := r, signing := d.signing.(mlsagH := e.keccak(t), keccakH := Final(t)));
      Reply(Advance(d, c), if signs then Finalized(data[..32], data[32..64], e.keccak(t)) else Quiet)
  }

  function Validate(e: Env, d: Dev, c: Cmd, options: byte, data: bytes): Result
  {
    var sw := ValidateGate(d.session.gate, c);
    if sw != SW_OK then Refuse(sw)
    else if c.p1 == 1 then PrehashInit(e, d, c, options, data)
    else if c.p1 == 2 then PrehashUpdate(e, d, c, options, data)
    else if c.p1 == 3 then if More(options) then AbsorbCommitment(d, c, data) else FinalizePrehash(e, d, c, data)
    else Refuse(SW_WRONG_P1P2)
  }

  // --- signing -------------------------------------------------------------------------

  function SignGate(d: Dev, c: Cmd): nat
  {
    var g := d.session.gate;
    var stages := StagesCheck(d.session, NO_STAGE.(prehash := true));
    if d.session.protocol != 4 && (c.ins == INS_CLSAG || d.session.protocol != 3) then SW_COMMAND_NOT_ALLOWED
    else if g.ins != INS_VALIDATE && g.ins != c.ins then SW_COMMAND_NOT_ALLOWED
    else if stages != SW_OK then stages
    else if g.ins == INS_VALIDATE then
      if g.p1 == 3 && c.p1 == 1 && c.p2 == 0 then SW_OK else SW_SUBCOMMAND_NOT_ALLOWED
    else if g.p1 == 1 then if c.p1 == 2 && c.p2 == 1 then SW_OK else SW_SUBCOMMAND_NOT_ALLOWED
    else if g.p1 == 2 then
      if c.p1 == 2 then if c.p2 != 0 && (g.p2 == 0 || c.p2 == 1) then SW_OK else SW_SUBCOMMAND_NOT_ALLOWED
      else if c.p1 == 3 && g.p2 != 0 then SW_OK else SW_SUBCOMMAND_NOT_ALLOWED
    else if g.p1 == 3 then if c.p1 == 1 then SW_OK else SW_SUBCOMMAND_NOT_ALLOWED
    else SW_COMMAND_NOT_ALLOWED
  }

  /** A new nonce under the next count, with the points answered beside its handle. */
  function Prepare(e: Env, d: Dev, c: Cmd, base: bytes, on: seq<key>, points: seq<key>): Result
    requires d.keys.signCnt + 1 < TWO32
  {
    var k := d.keys.(signCnt := d.keys.signCnt + 1);
    var sealed := e.seal(c.random);
    Reply(Advance(d.(keys := MintHandle(k, sealed, TYPE_ALPHA)), c),
          Prepared(k.signCnt, sealed, base, on, points))
  }

  /** alpha*G, and with a base point Hi also alpha*Hi and xin*Hi. */
  function MlsagPoints(e: Env, alpha: key, base: bytes, xin: bytes): Option<seq<key>>
  {
    if e.mulG(alpha).None? then None
    else if base == [] then Some([e.mulG(alpha).value])
    else if e.mul(base, alpha).None? || e.mul(base, xin).None? then None
    else Some([e.mulG(alpha).value, e.mul(base, alpha).value, e.mul(base, xin).value])
  }

  function MlsagPrepare(e: Env, d: Dev, c: Cmd, options: byte, data: bytes): Result
  {
    if d.keys.signCnt + 1 == TWO32 then Refuse(SW_SECURITY_MAX_SIGNATURE_REACHED)
    else if data == [] then PrepareWith(e, d, c, [], [], MlsagPoints(e, c.random, [], []))
    else if |data| < KEY_SIZE then Refuse(ERROR_IO_FULL)
    else
      var t := data[KEY_SIZE..];
      var x := if options / 0x40 % 2 == 0 then FetchHandle(e, d, t, TYPE_SCALAR)
               else if |t| < KEY_SIZE then Bad(ERROR_IO_FULL) else Got(t[..KEY_SIZE], t[KEY_SIZE..]);
      match x
      case Bad(sw) => Refuse(sw)
      case Got(xin, _) =>
        PrepareWith(e, d, c, data[..KEY_SIZE], [xin], MlsagPoints(e, c.random, data[..KEY_SIZE], xin))
  }

  function PrepareWith(e: Env, d: Dev, c: Cmd, base: bytes, on: seq<key>, points: Option<seq<key>>): Result
    requires d.keys.signCnt + 1 < TWO32
  {
    if points.None? then Refuse(SW_SECURITY_INTERNAL) else Prepare(e, d, c, base, on, points.value)
  }

  /** a*G, a*H, the key image p*H and the commitment image z*H. */
  function ClsagPoints(e: Env, a: key, base: bytes, p: bytes, z: bytes): Option<seq<key>>
  {
    if e.mulG(a).None? || e.mul(base, a).None? || e.mul(base, p).None? || e.mul(base, z).None? then None
    else Some([e.mulG(a).value, e.mul(base, a).value, e.mul(base, p).value, e.mul(base, z).value])
  }

  function ClsagPrepare(e: Env, d: Dev, c: Cmd, data: bytes): Result
  {
    if d.keys.signCnt + 1 == TWO32 then Refuse(SW_SECURITY_MAX_SIGNATURE_REACHED)
    else
      match FetchHandle(e, d, data, TYPE_SCALAR)
      case Bad(sw) => Refuse(sw)
      case Got(p, t) =>
        if |t| < 64 then Refuse(ERROR_IO_FULL)
        else PrepareWith(e, d, c, t[32..64], [p, t[..32]], ClsagPoints(e, c.random, t[32..64], p, t[..32]))
  }

  /** The challenge of a finished round: the digest, reduced. */
  function Challenge(e: Env, h: Ctx): key
  {
    ToLE(LE(e.keccak(h)) % L)
  }

  function HashInto(e: Env, d: Dev, c: Cmd, h: Ctx, msg: bytes, more: bool, clsag: bool): Result
  {
    var note := if d.session.mode == Real then Hashed(c.p2 == 1, msg, !more, clsag) else Quiet;
    var t := Update(h, msg);
    if more then
      var d := Advance(d.(signing := d.signing.(keccakH := t)), c);
      Reply(d.(session := d.session.(gate := d.session.gate.(p2 := 0))), note)
    else Reply(Advance(d.(signing := d.signing.(keccakH := Final(t), c := Challenge(e, t))), c), note)
  }

  function MlsagHash(e: Env, d: Dev, c: Cmd, options: byte, data: bytes): Result
  {
    var h := if c.p2 == 1 then FRESH else d.signing.keccakH;
    if c.p2 != 1 && |data| < KEY_SIZE then Refuse(ERROR_IO_FULL)
    else HashInto(e, d, c, h, if c.p2 == 1 then d.signing.mlsagH else data[..KEY_SIZE], More(options), false)
  }

  /** The last three messages: bit k says that the one k steps back was mlsagH. */
  function History(h: byte, hit: bool): byte
  {
    h * 2 % 8 + if hit then 1 else 0
  }

  function ClsagHash(e: Env, d: Dev, c: Cmd, options: byte, data: bytes): Result
  {
    var h := if c.p2 == 1 then FRESH else d.signing.keccakH;
    if |data| < KEY_SIZE then Refuse(ERROR_IO_FULL)
    else
      var msg := data[..KEY_SIZE];
      var history := History(if c.p2 == 1 then 0 else d.signing.history, msg == d.signing.mlsagH);
      if !More(options) && history < 4 then Refuse(SW_SECURITY_INTERNAL)
      else HashInto(e, d.(signing := d.signing.(history := history)), c, h, msg, More(options), true)
  }

  function MlsagSign(e: Env, d: Dev, c: Cmd, data: bytes): Result
  {
    var sw := StagesCheck(d.session, Stages(false, false, true, true));
    if sw != SW_OK then Refuse(sw)
    else if d.session.mode == NoMode then Refuse(SW_SECURITY_INTERNAL)
    else if d.session.mode == Fake then
      if |data| < 64 then Refuse(ERROR_IO_FULL)
      else if AllZero(data[..32]) || AllZero(data[32..64]) then Refuse(SW_SECURITY_RANGE_VALUE)
      else Reply(Advance(d, c), Quiet)
    else
      match FetchHandle(e, d, data, TYPE_SCALAR)
      case Bad(sw) => Refuse(sw)
      case Got(xin, t) =>
        match FetchHandle(e, d, t, TYPE_ALPHA)
        case Bad(sw) => Refuse(sw)
        case Got(alpha, _) =>
          var s := ToLE(MlsagValue(LE(alpha), LE(xin), LE(d.signing.c)));
          Reply(Advance(d, c), Signed(false, d.keys.signCnt, t[..KEY_SIZE], LE(alpha), d.signing.c, s,
                                       OnMlsag(LE(xin))))
  }

  function ClsagSign(e: Env, d: Dev, c: Cmd, data: bytes): Result
  {
    var sw := StagesCheck(d.session, Stages(false, false, true, true));
    var reduced := d.(signing := d.signing.(c := ToLE(LE(d.signing.c) % L)));
    if sw != SW_OK then Refuse(sw)
    else if d.session.mode == NoMode then Refuse(SW_SECURITY_INTERNAL)
    else if d.session.mode == Fake then
      if |data| < 160 then Refuse(ERROR_IO_FULL)
      else if AllZero(data[..32]) || AllZero(data[32..64]) || AllZero(data[64..96]) then Refuse(SW_WRONG_DATA_RANGE)
      else Reply(Advance(reduced, c), Quiet)
    else
      match FetchHandle(e, d, data, TYPE_ALPHA)
      case Bad(sw) => Refuse(sw)
      case Got(a, t) =>
        match FetchHandle(e, d, t, TYPE_SCALAR)
        case Bad(sw) => Refuse(sw)
        case Got(p, u) =>
          if |u| < 96 then Refuse(ERROR_IO_FULL)
          else if AllZero(u[..32]) then Refuse(SW_WRONG_DATA_RANGE)
          else
            var s := ToLE(ClsagValue(LE(a), LE(p), LE(u[..32]), LE(u[32..64]), LE(u[64..96]), LE(d.signing.c)));
            Reply(Advance(reduced, c), Signed(true, d.keys.signCnt, data[..KEY_SIZE], LE(a), reduced.signing.c, s,
                                               OnClsag(LE(p), LE(u[..32]), LE(u[32..64]), LE(u[64..96]))))
  }

  function Sign(e: Env, d: Dev, c: Cmd, options: byte, data: bytes): Result
  {
    var sw := SignGate(d, c);
    if sw != SW_OK then Refuse(sw)
    else if c.ins == INS_MLSAG then
      if c.p1 == 1 then MlsagPrepare(e, d, c, options, data)
      else if c.p1 == 2 then MlsagHash(e, d, c, options, data)
      else MlsagSign(e, d, c, data)
    else
      if c.p1 == 1 then ClsagPrepare(e, d, c, data)
      else if c.p1 == 2 then ClsagHash(e, d, c, options, data)
      else ClsagSign(e, d, c, data)
  }

  // --- the rest of the commands, and dispatch ------------------------------------------

  predicate AlwaysAllowed(ins: byte)
  {
    ins in {INS_RESET, 0x22, INS_GET_KEY, 0x26, 0x24, 0x32, 0x34, 0x36, 0x38, 0x3A, 0x3B, 0x30, 0x3C, 0x40, 0x42,
            0x44, 0x46, 0x48, 0x4A, 0x4C, 0x7A, INS_STEALTH, INS_GET_TX_PROOF, INS_CLOSE_TX, INS_OPEN_TX,
            INS_SET_SIGNATURE_MODE}
  }

  predicate InTransactionOnly(ins: byte)
  {
    ins in {INS_GEN_TXOUT_KEYS, INS_PREFIX_HASH, INS_BLIND, INS_VALIDATE, INS_MLSAG, INS_CLSAG, INS_GEN_COMMITMENT_MASK}
  }

  /** `check_ins_access` */
  function Access(inProgress: bool, ins: byte): nat
  {
    if AlwaysAllowed(ins) then SW_OK
    else if ins == INS_DISPLAY_ADDRESS then if inProgress then SW_COMMAND_NOT_ALLOWED else SW_OK
    else if InTransactionOnly(ins) then if inProgress then SW_OK else SW_COMMAND_NOT_ALLOWED
    else SW_INS_NOT_SUPPORTED
  }

  /** The handles a command outside the transaction may hand out: never a nonce's. */
  function MintAside(k: Keys, x: Elsewhere): Keys
  {
    k.(minted := k.minted + Mints(k.keyId, x.scalars, TYPE_SCALAR) + Mints(k.keyId, x.derivations, TYPE_DERIVATION))
  }

  function Mints(keyId: nat, handles: set<bytes>, kind: nat): set<Mint>
  {
    set h | h in handles :: Mint(keyId, h, kind, 0)
  }

  /** A key query, a proof, or an address on screen. Only a proof touches the transaction:
      it runs its domain separator through keccakH. */
  function Outside(d: Dev, c: Cmd): Result
  {
    var x := c.elsewhere;
    if x.sw != 0 && x.sw != SW_OK then Refuse(x.sw)
    else
      var k := if d.session.inProgress then MintAside(d.keys, x) else d.keys;
      if c.ins == INS_GET_TX_PROOF then
        Reply(d.(keys := k, signing := d.signing.(keccakH := Final(Update(FRESH, c.random)))), Disturbed)
      else if x.sw == 0 && (c.ins == INS_GET_KEY || c.ins == INS_DISPLAY_ADDRESS) then
        Ask(d.(session := d.session.(screen := Other), keys := k), Quiet)
      else Reply(d.(keys := k), Quiet)
  }

  function Restart(d: Dev, c: Cmd): Result
  {
    if c.elsewhere.sw != SW_OK then Refuse(if c.elsewhere.sw == 0 then SW_SECURITY_INTERNAL else c.elsewhere.sw)
    else Reply(InitFrom(d.keys.draws, d.keys.minted), Init)
  }

  function Serve(e: Env, d: Dev, c: Cmd, options: byte, data: bytes): Result
  {
    if c.ins == INS_RESET then Restart(d, c)
    else if c.ins == INS_OPEN_TX then OpenTx(e, d, c, data)
    else if c.ins == INS_CLOSE_TX then CloseTx(d)
    else if c.ins == INS_SET_SIGNATURE_MODE then SetMode(d, data)
    else if c.ins == INS_STEALTH then Stealth(e, d, c, data)
    else if c.ins == INS_GEN_TXOUT_KEYS then GenOutput(e, d, c, data)
    else if c.ins == INS_PREFIX_HASH then PrefixHash(e, d, c, options, data)
    else if c.ins == INS_GEN_COMMITMENT_MASK then CommitmentMask(e, d, c, data)
    else if c.ins == INS_BLIND then Blind(e, d, c, options, data)
    else if c.ins == INS_VALIDATE then Validate(e, d, c, options, data)
    else if c.ins == INS_MLSAG || c.ins == INS_CLSAG then Sign(e, d, c, options, data)
    else Outside(d, c)
  }

  /** `check_protocol`: the first command fixes the protocol. */
  function Protocol(d: Dev, version: byte): Option<Dev>
  {
    if version != 0 && version != 3 && version != 4 then None
    else if d.session.protocol != NO_PROTOCOL && d.session.protocol != version then None
    else Some(d.(session := d.session.(protocol := version)))
  }

  /** `monero_dispatch` */
  function Dispatch(e: Env, d: Dev, c: Cmd): Result
  {
    match Protocol(d, c.version)
    case None => Refuse(SW_PROTOCOL_NOT_SUPPORTED)
    case Some(d) =>
      var sw := Access(d.session.inProgress, c.ins);
      if sw != SW_OK then Refuse(sw)
      else if c.body == [] then Refuse(ERROR_IO_FULL)
      else Serve(e, d, c, c.body[0], c.body[1..])
  }

  // --- the main loop and the user ------------------------------------------------------

  /** The app runs on, or it has answered an error and quit. */
  datatype State = Running(d: Dev, note: Note) | Dead(sw: nat)

  /** A reply owed for a transaction step is a review on screen. */
  function Awaiting(d: Dev): Dev
  {
    d.(session := d.session.(screen := if d.session.screen == Other then Other else Review))
  }

  function Next(e: Env, d: Dev, ev: Event): State
  {
    match ev
    case Command(c) =>
      if d.session.screen != Idle then Dead(SW_COMMAND_NOT_ALLOWED)
      else (match Dispatch(e, d, c)
            case Refuse(sw) => Dead(sw)
            case Reply(d, note) => Running(d, note)
            case Ask(d, note) => Running(Awaiting(d), note))
    case Accept => Approve(d)
    case Reject => Deny(d)
    case UserReset => Running(InitFrom(d.keys.draws, d.keys.minted), Init)
  }

  /** `approve_if_terminal_review`, then the reply. */
  function Approve(d: Dev): State
  {
    var s := d.session;
    if s.screen != Review then Running(d.(session := s.(screen := Idle)), Quiet)
    else
      var stages := s.stages.(approved := s.stages.approved || s.stages.reviewed);
      Running(d.(session := s.(screen := Idle, stages := stages)), if d.Signs() then Accepted else Quiet)
  }

  function Deny(d: Dev): State
  {
    if d.session.screen != Review then Running(d.(session := d.session.(screen := Idle)), Quiet)
    else
      var d := ResetTx(d);
      Running(d.(session := d.session.(screen := Idle)), Ended)
  }
}
