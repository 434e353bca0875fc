/** The transaction-prefix verifier of src/monero_prefix.c as a function of one byte.

    The C loop takes runs of bytes at a time; this machine takes one, and is what the
    loop in PrefixParser is proved against. All counters are `uint64_t`: decrements are
    written with the C wrap-around, and PrefixSafety proves that none ever wraps. */
module PrefixSpec {
  import opened Bytes
  import opened Status
  import opened Varint
  import opened Transcript

  const TXIN_TO_KEY_TAG: byte := 0x02
  const TXOUT_TO_KEY_TAG: byte := 0x02
  const TXOUT_TO_TAGGED_KEY_TAG: byte := 0x03
  const TX_EXTRA_TAG_PADDING: byte := 0x00
  const TX_EXTRA_TAG_PUBKEY: byte := 0x01
  const TX_EXTRA_NONCE: byte := 0x02
  const TX_EXTRA_MERGE_MINING_TAG: byte := 0x03
  const TX_EXTRA_TAG_ADDITIONAL_PUBKEYS: byte := 0x04
  const TX_EXTRA_MYSTERIOUS_MINERGATE_TAG: byte := 0xDE
  const TX_EXTRA_PADDING_MAX_COUNT := 255
  const PID_NONCE_SIZE := 9

  datatype Pc =
    | VinCnt | VinTag | VinAmount | VinOffCnt | VinOff | VinKimg
    | VoutCnt | VoutAmount | VoutTag | VoutKey | VoutVtag
    | ExtraLen | ExtraTag | ExtraPubkey | ExtraAddkCnt | ExtraAddk
    | ExtraNonceLen | ExtraNoncePid | ExtraTlvLen | ExtraSkip | ExtraPadding
    | Done

  /** What the parser compares the stream with; none of it changes while it runs. */
  datatype Binding = Binding(
    isReal: bool,            // tx_sig_mode == TRANSACTION_CREATE_REAL
    outputs: nat,            // tx_output_cnt
    addkExpected: bool,
    outEph: bytes,
    addk: bytes,
    mainKey: bytes,          // EXTRA_R
    pidSet: bool,
    pidNonce: bytes,
    sha: Hash)
  {
    predicate Valid()
    {
      outputs < TWO32 && |mainKey| == KEY_SIZE && |pidNonce| == PID_NONCE_SIZE
    }
  }

  /** The prefix_* fields of G_monero_vstate and the two verify-side contexts. */
  datatype Parser = Parser(
    pc: Pc, viVal: nat, viShift: nat,
    vin: nat, off: nat, vout: nat, extra: nat,
    fieldOff: nat, tag: byte, acc: byte,
    rFound: bool, addkFound: bool, pidFound: bool, done: bool,
    eph: Ctx, addk: Ctx)

  /** `monero_prefix_outkeys_reset`, right after both contexts were re-initialised. */
  const RESET := Parser(VinCnt, 0, 0, 0, 0, 0, 0, 0, 0, 0, false, false, false, false, FRESH, FRESH)

  datatype Outcome = Ok(p: Parser) | Fail(sw: nat)

  function EnterVarint(s: Parser, pc: Pc): Parser
  {
    s.(pc := pc, viVal := 0, viShift := 0)
  }

  /** `monero_sha256_out_eph_frame`: kind and big-endian position of one output. */
  function Frame(kind: byte, index: nat): bytes
    requires index < TWO32
  {
    [kind, index / 0x100_0000, index / 0x1_0000 % 256, index / 256 % 256, index % 256]
  }

  function FinalizeExtra(b: Binding, s: Parser): Outcome
  {
    if !s.rFound then Fail(SW_SECURITY_OUTKEYS_CHAIN_CONTROL)
    else if b.addkExpected && !s.addkFound then Fail(SW_SECURITY_OUTKEYS_CHAIN_CONTROL)
    else if b.isReal && b.pidSet && !s.pidFound then Fail(SW_SECURITY_PAYMENT_ID)
    else Ok(s.(done := true, pc := Done))
  }

  /** Where every `extra` field ends: on to the next tag, or the end of `extra`. */
  function EndField(b: Binding, s: Parser): Outcome
  {
    if s.extra == 0 then FinalizeExtra(b, s) else Ok(s.(pc := ExtraTag))
  }

  /** `pfx_finalize_outkeys`, then on to the length of `extra`. */
  function CloseOutputs(b: Binding, s: Parser): Outcome
  {
    if b.sha(s.eph) != b.outEph then Fail(SW_SECURITY_OUTKEYS_CHAIN_CONTROL)
    else Ok(EnterVarint(s.(eph := Final(s.eph)), ExtraLen))
  }

  function FinishOutput(b: Binding, s: Parser): Outcome
  {
    var s := s.(vout := Sub64(s.vout, 1));
    if s.vout == 0 then CloseOutputs(b, s) else Ok(EnterVarint(s, VoutAmount))
  }

  function NextInput(s: Parser): Parser
  {
    var s := s.(vin := Sub64(s.vin, 1));
    if s.vin == 0 then EnterVarint(s, VoutCnt) else s.(pc := VinTag)
  }

  /** A key offset, or the offset count, was read: more offsets, or the key image. */
  function NextOffset(s: Parser): Parser
  {
    if s.off == 0 then s.(fieldOff := 0, pc := VinKimg) else EnterVarint(s, VinOff)
  }

  predicate ReadsVarint(pc: Pc)
  {
    pc in {VinCnt, VinAmount, VinOffCnt, VinOff, VoutCnt, VoutAmount, ExtraLen, ExtraAddkCnt, ExtraTlvLen}
  }

  /** The varints inside `extra` count against its declared length. */
  predicate InExtra(pc: Pc)
  {
    pc == ExtraAddkCnt || pc == ExtraTlvLen
  }

  /** What each varint means, once it is complete in `viVal`. */
  function OnVarint(b: Binding, s: Parser): Outcome
    requires ReadsVarint(s.pc)
  {
    match s.pc
    case VinCnt =>
      var s := s.(vin := s.viVal);
      if s.vin == 0 then Ok(EnterVarint(s, VoutCnt)) else Ok(s.(pc := VinTag))
    case VinAmount => Ok(EnterVarint(s, VinOffCnt))
    case VinOffCnt => Ok(NextOffset(s.(off := s.viVal)))
    case VinOff => Ok(NextOffset(s.(off := Sub64(s.off, 1))))
    case VoutCnt =>
      var s := s.(vout := s.viVal);
      if s.vout != b.outputs then Fail(SW_SECURITY_OUTKEYS_CHAIN_CONTROL)
      else if s.vout == 0 then CloseOutputs(b, s)
      else Ok(EnterVarint(s, VoutAmount))
    case VoutAmount => Ok(s.(pc := VoutTag))
    case ExtraLen => EndField(b, s.(extra := s.viVal))
    case ExtraAddkCnt =>
      if !b.addkExpected || s.viVal != b.outputs then Fail(SW_SECURITY_OUTKEYS_CHAIN_CONTROL)
      else if s.extra < s.viVal * KEY_SIZE % TWO64 then Fail(SW_WRONG_DATA)
      else Ok(s.(off := s.viVal, fieldOff := 0, pc := ExtraAddk))
    case ExtraTlvLen =>
      if s.extra < s.viVal then Fail(SW_WRONG_DATA)
      else Ok(s.(off := s.viVal, pc := ExtraSkip))
  }

  function VarintStep(b: Binding, s: Parser, c: byte): Outcome
    requires ReadsVarint(s.pc)
  {
    if InExtra(s.pc) && s.extra == 0 then Fail(SW_WRONG_DATA)
    else
      var s := if InExtra(s.pc) then s.(extra := s.extra - 1) else s;
      match VarintByte(s.viVal, s.viShift, c)
      case Malformed => Fail(SW_WRONG_DATA)
      case More(v, sh) => Ok(s.(viVal := v, viShift := sh))
      case Complete(v, sh) => OnVarint(b, s.(viVal := v, viShift := sh))
  }

  /** `pfx_state_extra_tag` */
  function TagStep(b: Binding, s: Parser, tag: byte): Outcome
  {
    var s := s.(extra := Sub64(s.extra, 1));
    if tag == TX_EXTRA_TAG_PUBKEY then
      if s.rFound then Fail(SW_SECURITY_OUTKEYS_CHAIN_CONTROL)
      else if s.extra < KEY_SIZE then Fail(SW_WRONG_DATA)
      else Ok(s.(fieldOff := 0, acc := 0, pc := ExtraPubkey))
    else if tag == TX_EXTRA_TAG_ADDITIONAL_PUBKEYS then Ok(EnterVarint(s, ExtraAddkCnt))
    else if tag == TX_EXTRA_NONCE then Ok(s.(pc := ExtraNonceLen))
    else if tag == TX_EXTRA_MERGE_MINING_TAG || tag == TX_EXTRA_MYSTERIOUS_MINERGATE_TAG then
      Ok(EnterVarint(s, ExtraTlvLen))
    else if b.isReal && tag != TX_EXTRA_TAG_PADDING then Fail(SW_WRONG_DATA)
    else if b.isReal && s.extra > TX_EXTRA_PADDING_MAX_COUNT - 1 then Fail(SW_WRONG_DATA)
    else Ok(s.(off := s.extra, pc := if b.isReal then ExtraPadding else ExtraSkip))
  }

  /** One byte of a field compared in place: R, or the encrypted payment ID. */
  function CompareStep(s: Parser, c: byte, want: bytes): Parser
  {
    var w: byte := if s.fieldOff < |want| then want[s.fieldOff] else 0;
    s.(acc := OrByte(s.acc, XorByte(c, w)), fieldOff := s.fieldOff + 1, extra := Sub64(s.extra, 1))
  }

  function PubkeyStep(b: Binding, s: Parser, c: byte): Outcome
  {
    var s := CompareStep(s, c, b.mainKey);
    if s.fieldOff != KEY_SIZE then Ok(s)
    else if s.acc != 0 then Fail(SW_SECURITY_OUTKEYS_CHAIN_CONTROL)
    else EndField(b, s.(rFound := true))
  }

  function PidStep(b: Binding, s: Parser, c: byte): Outcome
  {
    var s := CompareStep(s, c, b.pidNonce);
    if s.fieldOff != PID_NONCE_SIZE then Ok(s)
    else if s.acc != 0 then Fail(SW_SECURITY_PAYMENT_ID)
    else EndField(b, s.(pidFound := true))
  }

  function AddkStep(b: Binding, s: Parser, c: byte): Outcome
  {
    var s := s.(addk := Update(s.addk, [c]), fieldOff := s.fieldOff + 1, extra := Sub64(s.extra, 1));
    if s.fieldOff != KEY_SIZE then Ok(s)
    else
      var s := s.(fieldOff := 0, off := Sub64(s.off, 1));
      if s.off != 0 then Ok(s)
      else if b.sha(s.addk) != b.addk then Fail(SW_SECURITY_OUTKEYS_CHAIN_CONTROL)
      else EndField(b, s.(addk := Final(s.addk), addkFound := true))
  }

  function NonceLenStep(b: Binding, s: Parser, n: byte): Outcome
  {
    if s.extra == 0 then Fail(SW_WRONG_DATA)
    else
      var s := s.(extra := s.extra - 1);
      if s.extra < n then Fail(SW_WRONG_DATA)
      else if b.isReal then
        if !b.pidSet || s.pidFound || n != PID_NONCE_SIZE then Fail(SW_SECURITY_PAYMENT_ID)
        else Ok(s.(fieldOff := 0, acc := 0, pc := ExtraNoncePid))
      else Ok(s.(off := n, pc := ExtraSkip))
  }

  /** One byte of a run: unparsed content, or padding that must be zero. */
  function RunStep(b: Binding, s: Parser, c: byte): Outcome
  {
    if s.pc == ExtraPadding && c != 0 then Fail(SW_WRONG_DATA)
    else
      var s := s.(off := Sub64(s.off, 1), extra := Sub64(s.extra, 1));
      if s.off == 0 then EndField(b, s) else Ok(s)
  }

  function OutTagStep(b: Binding, s: Parser, tag: byte): Outcome
  {
    if tag != TXOUT_TO_KEY_TAG && tag != TXOUT_TO_TAGGED_KEY_TAG then Fail(SW_WRONG_DATA)
    else
      var index := Sub64(b.outputs, s.vout) % TWO32;
      Ok(s.(eph := Update(s.eph, Frame(tag, index)), tag := tag, fieldOff := 0, pc := VoutKey))
  }

  function OutKeyStep(b: Binding, s: Parser, c: byte): Outcome
  {
    var s := s.(eph := Update(s.eph, [c]), fieldOff := s.fieldOff + 1);
    if s.fieldOff != KEY_SIZE then Ok(s)
    else if s.tag == TXOUT_TO_TAGGED_KEY_TAG then Ok(s.(pc := VoutVtag))
    else FinishOutput(b, s)
  }

  function KimgStep(s: Parser): Parser
  {
    var s := s.(fieldOff := s.fieldOff + 1);
    if s.fieldOff != KEY_SIZE then s else NextInput(s)
  }

  /** One byte consumed; a run of length zero was settled before. */
  function Step(b: Binding, s: Parser, c: byte): Outcome
  {
    if ReadsVarint(s.pc) then VarintStep(b, s, c)
    else
      match s.pc
      case VinTag => if c != TXIN_TO_KEY_TAG then Fail(SW_WRONG_DATA) else Ok(EnterVarint(s, VinAmount))
      case VinKimg => Ok(KimgStep(s))
      case VoutTag => OutTagStep(b, s, c)
      case VoutKey => OutKeyStep(b, s, c)
      case VoutVtag => FinishOutput(b, s.(eph := Update(s.eph, [c])))
      case ExtraTag => TagStep(b, s, c)
      case ExtraPubkey => PubkeyStep(b, s, c)
      case ExtraAddk => AddkStep(b, s, c)
      case ExtraNonceLen => NonceLenStep(b, s, c)
      case ExtraNoncePid => PidStep(b, s, c)
      case ExtraSkip => RunStep(b, s, c)
      case ExtraPadding => RunStep(b, s, c)
      case _ => Ok(s)
  }

  /** A run of length zero: the loop passes it without a byte, but only once a byte is there. */
  predicate EmptyRun(s: Parser)
  {
    (s.pc == ExtraSkip || s.pc == ExtraPadding) && s.off == 0
  }

  function Settle(b: Binding, s: Parser): Outcome
  {
    if EmptyRun(s) then EndField(b, s) else Ok(s)
  }

  function Feed(b: Binding, s: Parser, c: byte): Outcome
  {
    match Settle(b, s)
    case Fail(sw) => Fail(sw)
    case Ok(s) => Step(b, s, c)
  }

  /** A whole chunk. */
  function Run(b: Binding, s: Parser, bs: bytes): Outcome
    decreases bs
  {
    if bs == [] then Ok(s)
    else
      match Feed(b, s, bs[0])
      case Fail(sw) => Fail(sw)
      case Ok(s) => Run(b, s, bs[1..])
  }

  function Then(b: Binding, o: Outcome, bs: bytes): Outcome
  {
    match o case Fail(sw) => Fail(sw) case Ok(s) => Run(b, s, bs)
  }

  /** A stream cut anywhere gives the same status and state. */
  lemma {:induction false} RunConcat(b: Binding, s: Parser, x: bytes, y: bytes)
    ensures Run(b, s, x + y) == Then(b, Run(b, s, x), y)
    decreases x
  {
    hide Feed;
    if x == [] {
      assert x + y == y;
    } else {
      assert (x + y)[0] == x[0] && (x + y)[1..] == x[1..] + y;
      match Feed(b, s, x[0])
      case Fail(sw) =>
      case Ok(t) => RunConcat(b, t, x[1..], y);
    }
  }

  lemma {:induction false} RunFails(b: Binding, s: Parser, bs: bytes)
    ensures ErrorWord(Run(b, s, bs))
    decreases bs
  {
    hide Feed;
    if bs != [] {
      FeedFails(b, s, bs[0]);
      match Feed(b, s, bs[0])
      case Fail(sw) =>
      case Ok(t) => RunFails(b, t, bs[1..]);
    }
  }

  /** The parser refuses with an error word, never with one of the two success words. */
  predicate ErrorWord(o: Outcome)
  {
    o.Fail? ==> o.sw != 0 && o.sw != SW_OK
  }

  lemma FeedFails(b: Binding, s: Parser, c: byte)
    ensures ErrorWord(Feed(b, s, c))
  {
    hide VarintStep, TagStep, PubkeyStep, PidStep, AddkStep, NonceLenStep, RunStep, OutTagStep, OutKeyStep,
      FinishOutput, EndField, KimgStep, ErrorWord;
    ClosingFails(b, s);
    match Settle(b, s)
    case Fail(sw) =>
    case Ok(t) => StepFails(b, t, c);
  }

  lemma ClosingFails(b: Binding, s: Parser)
    ensures ErrorWord(EndField(b, s)) && ErrorWord(CloseOutputs(b, s)) && ErrorWord(FinishOutput(b, s))
  {
  }

  lemma StepFails(b: Binding, s: Parser, c: byte)
    ensures ErrorWord(Step(b, s, c))
  {
    hide VarintStep, TagStep, PubkeyStep, PidStep, AddkStep, NonceLenStep, RunStep, OutTagStep, OutKeyStep,
      FinishOutput;
    if ReadsVarint(s.pc) { VarintFails(b, s, c); }
    FieldFails(b, s, c);
    ClosingFails(b, s.(eph := Update(s.eph, [c])));
  }

  lemma FieldFails(b: Binding, s: Parser, c: byte)
    ensures ErrorWord(TagStep(b, s, c)) && ErrorWord(PubkeyStep(b, s, c)) && ErrorWord(PidStep(b, s, c))
    ensures ErrorWord(AddkStep(b, s, c)) && ErrorWord(NonceLenStep(b, s, c)) && ErrorWord(RunStep(b, s, c))
    ensures ErrorWord(OutTagStep(b, s, c)) && ErrorWord(OutKeyStep(b, s, c))
  {
    hide CompareStep, Frame;
  }

  lemma VarintFails(b: Binding, s: Parser, c: byte)
    requires ReadsVarint(s.pc)
    ensures ErrorWord(VarintStep(b, s, c))
  {
    hide Accumulate;
  }

  predicate Accepts(b: Binding, s: Parser, bs: bytes)
  {
    var o := Run(b, s, bs);
    o.Ok? && o.p.pc == Done
  }
}
