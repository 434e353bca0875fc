/** `monero_prefix_outkeys_parse` and its helpers, in place on the prefix_* fields.

    The loop takes as many bytes of a field as the chunk holds. It is proved to compute
    the one-byte machine of PrefixSpec on the whole chunk, status and state, from every
    safe state. Its subtractions are plain ones, so their proofs are the proof that no counter
    of the C code underflows, but for the two of the additional keys, which wrap as in C. */
module PrefixParser {
  import opened Bytes
  import opened Status
  import opened Varint
  import opened Transcript
  import opened PrefixSpec
  import opened PrefixSafety
  import opened PrefixRuns

  class Verifier {
    var pc: Pc
    var viVal: nat
    var viShift: nat
    var vinRemaining: nat
    var offRemaining: nat
    var voutRemaining: nat
    var extraRemaining: nat
    var fieldOff: nat
    var outkeyTag: byte
    var extraAcc: byte
    var rFound: bool
    var addkFound: bool
    var pidFound: bool
    var outkeysDone: bool
    var eph: Ctx
    var addk: Ctx

    function State(): Parser
      reads this
    {
      Parser(pc, viVal, viShift, vinRemaining, offRemaining, voutRemaining, extraRemaining,
             fieldOff, outkeyTag, extraAcc, rFound, addkFound, pidFound, outkeysDone, eph, addk)
    }

    /** `sw` and the fields are what the machine answered. */
    ghost predicate Is(sw: nat, o: Outcome)
      reads this
    {
      if sw == 0 then o == Ok(State()) else o == Fail(sw)
    }

    /** `monero_prefix_outkeys_reset` with the two context inits that precede it. */
    constructor ()
      ensures State() == RESET
    {
      pc, viVal, viShift := VinCnt, 0, 0;
      vinRemaining, offRemaining, voutRemaining, extraRemaining := 0, 0, 0, 0;
      fieldOff, outkeyTag, extraAcc := 0, 0, 0;
      rFound, addkFound, pidFound, outkeysDone := false, false, false, false;
      eph, addk := FRESH, FRESH;
    }

    /** The parser as an earlier chunk left it. */
    constructor At(p: Parser)
      ensures State() == p
    {
      pc, viVal, viShift := p.pc, p.viVal, p.viShift;
      vinRemaining, offRemaining, voutRemaining, extraRemaining := p.vin, p.off, p.vout, p.extra;
      fieldOff, outkeyTag, extraAcc := p.fieldOff, p.tag, p.acc;
      rFound, addkFound, pidFound, outkeysDone := p.rFound, p.addkFound, p.pidFound, p.done;
      eph, addk := p.eph, p.addk;
    }

    /** 1 when the varint is complete, 0 when it goes on, -1 when it is malformed. */
    method TakeVarintByte(c: byte) returns (r: int)
      modifies this`viVal, this`viShift
      ensures match VarintByte(old(viVal), old(viShift), c)
        case Malformed => r == -1
        case More(v, sh) => r == 0 && viVal == v && viShift == sh
        case Complete(v, sh) => r == 1 && viVal == v && viShift == sh
    {
      var shift := viShift;
      if shift > 63 || (shift == 63 && c > 1) { return -1; }
      viVal := Accumulate(viVal, shift, c);
      viShift := shift + 7;
      r := if c >= 128 then 0 else 1;
    }

    method Enter(state: Pc)
      modifies this`pc, this`viVal, this`viShift
      ensures State() == EnterVarint(old(State()), state)
    {
      pc := state;
      viVal := 0;
      viShift := 0;
    }

    method FinishExtra(b: Binding) returns (sw: nat)
      modifies this`outkeysDone, this`pc
      ensures Is(sw, FinalizeExtra(b, old(State())))
    {
      if !rFound { return SW_SECURITY_OUTKEYS_CHAIN_CONTROL; }
      if b.addkExpected && !addkFound { return SW_SECURITY_OUTKEYS_CHAIN_CONTROL; }
      if b.isReal && b.pidSet && !pidFound { return SW_SECURITY_PAYMENT_ID; }
      outkeysDone := true;
      pc := Done;
      sw := 0;
    }

    method FinishField(b: Binding) returns (sw: nat)
      modifies this`outkeysDone, this`pc
      ensures Is(sw, EndField(b, old(State())))
    {
      sw := 0;
      if extraRemaining == 0 { sw := FinishExtra(b); } else { pc := ExtraTag; }
    }

    method FinishOutkeys(b: Binding) returns (sw: nat)
      modifies this`eph, this`pc, this`viVal, this`viShift
      ensures Is(sw, CloseOutputs(b, old(State())))
    {
      var digest := b.sha(eph);
      eph := Final(eph);
      if digest != b.outEph { return SW_SECURITY_OUTKEYS_CHAIN_CONTROL; }
      Enter(ExtraLen);
      sw := 0;
    }

    method NextOutput(b: Binding) returns (sw: nat)
      requires 0 < voutRemaining < TWO64
      modifies this`voutRemaining, this`eph, this`pc, this`viVal, this`viShift
      ensures Is(sw, FinishOutput(b, old(State())))
    {
      voutRemaining := voutRemaining - 1;
      sw := 0;
      if voutRemaining == 0 { sw := FinishOutkeys(b); } else { Enter(VoutAmount); }
    }

    /** The nine states that read a varint, one byte at a time. */
    method VarintState(b: Binding, c: byte) returns (sw: nat)
      requires b.Valid() && Safe(b, State()) && ReadsVarint(pc)
      modifies this
      ensures Is(sw, VarintStep(b, old(State()), c))
    {
      hide Pow2, VarintByte, EndField, CloseOutputs, Sound;
      sw := 0;
      if pc == ExtraAddkCnt || pc == ExtraTlvLen {
        if extraRemaining == 0 { return SW_WRONG_DATA; }
        extraRemaining := extraRemaining - 1;
      }
      var r := TakeVarintByte(c);
      if r < 0 { return SW_WRONG_DATA; }
      if r == 0 { return 0; }
      sw := VarintDone(b);
    }

    /** What follows a complete varint in each of those states. */
    method VarintDone(b: Binding) returns (sw: nat)
      requires b.Valid() && ReadsVarint(pc) && (pc == VinOff ==> 0 < offRemaining < TWO64)
      modifies this
      ensures Is(sw, OnVarint(b, old(State())))
    {
      hide Pow2, EndField, CloseOutputs;
      sw := 0;
      match pc {
        case VinCnt =>
          vinRemaining := viVal;
          if vinRemaining == 0 { Enter(VoutCnt); } else { pc := VinTag; }
        case VinAmount =>
          Enter(VinOffCnt);
        case VinOffCnt =>
          offRemaining := viVal;
          if offRemaining == 0 { fieldOff := 0; pc := VinKimg; } else { Enter(VinOff); }
        case VinOff =>
          offRemaining := offRemaining - 1;
          if offRemaining == 0 { fieldOff := 0; pc := VinKimg; } else { Enter(VinOff); }
        case VoutCnt =>
          voutRemaining := viVal;
          if voutRemaining != b.outputs { return SW_SECURITY_OUTKEYS_CHAIN_CONTROL; }
          if voutRemaining == 0 { sw := FinishOutkeys(b); } else { Enter(VoutAmount); }
        case VoutAmount =>
          pc := VoutTag;
        case ExtraLen =>
          extraRemaining := viVal;
          sw := FinishField(b);
        case ExtraAddkCnt =>
          if !b.addkExpected || viVal != b.outputs { return SW_SECURITY_OUTKEYS_CHAIN_CONTROL; }
          if extraRemaining < viVal * KEY_SIZE { return SW_WRONG_DATA; }
          offRemaining := viVal;
          fieldOff := 0;
          pc := ExtraAddk;
        case ExtraTlvLen =>
          if extraRemaining < viVal { return SW_WRONG_DATA; }
          offRemaining := viVal;
          pc := ExtraSkip;
      }
    }

    method TagState(b: Binding, tag: byte) returns (sw: nat)
      requires 0 < extraRemaining < TWO64
      modifies this
      ensures Is(sw, TagStep(b, old(State()), tag))
    {
      extraRemaining := extraRemaining - 1;
      sw := 0;
      if tag == TX_EXTRA_TAG_PUBKEY {
        if rFound { return SW_SECURITY_OUTKEYS_CHAIN_CONTROL; }
        if extraRemaining < KEY_SIZE { return SW_WRONG_DATA; }
        fieldOff := 0;
        extraAcc := 0;
        pc := ExtraPubkey;
      } else if tag == TX_EXTRA_TAG_ADDITIONAL_PUBKEYS {
        Enter(ExtraAddkCnt);
      } else if tag == TX_EXTRA_NONCE {
        pc := ExtraNonceLen;
      } else if tag == TX_EXTRA_MERGE_MINING_TAG || tag == TX_EXTRA_MYSTERIOUS_MINERGATE_TAG {
        Enter(ExtraTlvLen);
      } else {
        if b.isReal && tag != TX_EXTRA_TAG_PADDING { return SW_WRONG_DATA; }
        if b.isReal && extraRemaining > TX_EXTRA_PADDING_MAX_COUNT - 1 { return SW_WRONG_DATA; }
        offRemaining := extraRemaining;
        pc := if b.isReal then ExtraPadding else ExtraSkip;
      }
    }

    method NonceLenState(b: Binding, n: byte) returns (sw: nat)
      modifies this
      ensures Is(sw, NonceLenStep(b, old(State()), n))
    {
      if extraRemaining == 0 { return SW_WRONG_DATA; }
      extraRemaining := extraRemaining - 1;
      if extraRemaining < n { return SW_WRONG_DATA; }
      sw := 0;
      if b.isReal {
        if !b.pidSet || pidFound || n != PID_NONCE_SIZE { return SW_SECURITY_PAYMENT_ID; }
        fieldOff := 0;
        extraAcc := 0;
        pc := ExtraNoncePid;
        return 0;
      }
      offRemaining := n;
      pc := ExtraSkip;
    }

    method OutTagState(b: Binding, tag: byte) returns (sw: nat)
      requires b.Valid() && voutRemaining <= b.outputs
      modifies this
      ensures Is(sw, OutTagStep(b, old(State()), tag))
    {
      hide Frame;
      if tag != TXOUT_TO_KEY_TAG && tag != TXOUT_TO_TAGGED_KEY_TAG { return SW_WRONG_DATA; }
      eph := Update(eph, Frame(tag, b.outputs - voutRemaining));
      outkeyTag := tag;
      fieldOff := 0;
      pc := VoutKey;
      sw := 0;
    }

    method KimgState(avail: nat) returns (take: nat)
      requires pc == VinKimg && fieldOff < KEY_SIZE && 0 < vinRemaining < TWO64
      modifies this
      ensures take <= avail && take <= KEY_SIZE - old(fieldOff) && (avail > 0 ==> take > 0)
      ensures State() == KimgTake(old(State()), take)
    {
      var need := KEY_SIZE - fieldOff;
      take := if avail < need then avail else need;
      fieldOff := fieldOff + take;
      if fieldOff == KEY_SIZE {
        vinRemaining := vinRemaining - 1;
        if vinRemaining == 0 { Enter(VoutCnt); } else { pc := VinTag; }
      }
    }

    method OutKeyState(b: Binding, rest: bytes) returns (sw: nat, i: nat)
      requires pc == VoutKey && fieldOff < KEY_SIZE && 0 < voutRemaining < TWO64
      modifies this
      ensures i <= |rest| && i <= KEY_SIZE - old(fieldOff) && (rest != [] ==> i > 0)
      ensures Is(sw, OutKeyTake(b, old(State()), rest[..i]))
    {
      hide CloseOutputs;
      var need := KEY_SIZE - fieldOff;
      i := if |rest| < need then |rest| else need;
      eph := Update(eph, rest[..i]);
      fieldOff := fieldOff + i;
      sw := 0;
      if fieldOff == KEY_SIZE {
        if outkeyTag == TXOUT_TO_TAGGED_KEY_TAG { pc := VoutVtag; } else { sw := NextOutput(b); }
      }
    }

    /** `pfx_state_extra_addk` */
    method AddkState(b: Binding, rest: bytes) returns (sw: nat, i: nat)
      requires pc == ExtraAddk && fieldOff < KEY_SIZE && offRemaining < TWO64 && extraRemaining < TWO64
      modifies this
      ensures i <= |rest| && i <= KEY_SIZE - old(fieldOff) && (rest != [] ==> i > 0)
      ensures Is(sw, AddkTake(b, old(State()), rest[..i]))
    {
      hide EndField;
      var need := KEY_SIZE - fieldOff;
      i := if |rest| < need then |rest| else need;
      addk := Update(addk, rest[..i]);
      fieldOff := fieldOff + i;
      extraRemaining := Sub64(extraRemaining, i);
      sw := 0;
      if fieldOff == KEY_SIZE {
        fieldOff := 0;
        offRemaining := Sub64(offRemaining, 1);
        if offRemaining == 0 { sw := FinishAddk(b); }
      }
    }

    method FinishAddk(b: Binding) returns (sw: nat)
      modifies this`addk, this`addkFound, this`outkeysDone, this`pc
      ensures Is(sw, if b.sha(old(addk)) != b.addk then Fail(SW_SECURITY_OUTKEYS_CHAIN_CONTROL)
                     else EndField(b, old(State()).(addk := Final(old(addk)), addkFound := true)))
    {
      hide EndField;
      var digest := b.sha(addk);
      addk := Final(addk);
      if digest != b.addk { return SW_SECURITY_OUTKEYS_CHAIN_CONTROL; }
      addkFound := true;
      sw := FinishField(b);
    }

    /** `pfx_extra_compare`: whether the whole field is in, and how many bytes it took. */
    method Compare(rest: bytes, want: bytes) returns (full: bool, i: nat)
      requires fieldOff < |want| && |want| - fieldOff <= extraRemaining < TWO64
      modifies this`extraAcc, this`fieldOff, this`extraRemaining
      ensures i <= |rest| && i <= |want| - old(fieldOff) && (rest != [] ==> i > 0)
      ensures State() == CompareTake(old(State()), rest[..i], want)
      ensures full <==> fieldOff == |want|
    {
      hide OrByte, XorByte;
      var need := |want| - fieldOff;
      i := if |rest| < need then |rest| else need;
      for k := 0 to i
        invariant fieldOff == old(fieldOff) && extraRemaining == old(extraRemaining)
        invariant extraAcc == Differences(old(extraAcc), rest[..k], want, fieldOff)
      {
        assert rest[..k + 1] == rest[..k] + [rest[k]];
        DifferencesSnoc(old(extraAcc), rest[..k], rest[k], want, fieldOff);
        extraAcc := OrByte(extraAcc, XorByte(rest[k], want[fieldOff + k]));
      }
      fieldOff := fieldOff + i;
      extraRemaining := extraRemaining - i;
      full := fieldOff == |want|;
    }

    method PubkeyState(b: Binding, rest: bytes) returns (sw: nat, i: nat)
      requires b.Valid() && pc == ExtraPubkey && fieldOff < KEY_SIZE && KEY_SIZE - fieldOff <= extraRemaining < TWO64
      modifies this
      ensures i <= |rest| && i <= KEY_SIZE - old(fieldOff) && (rest != [] ==> i > 0)
      ensures Is(sw, PubkeyTake(b, old(State()), rest[..i]))
    {
      hide EndField, Differences;
      var full;
      full, i := Compare(rest, b.mainKey);
      if !full { return 0, i; }
      if extraAcc != 0 { return SW_SECURITY_OUTKEYS_CHAIN_CONTROL, i; }
      rFound := true;
      sw := FinishField(b);
    }

    method PidState(b: Binding, rest: bytes) returns (sw: nat, i: nat)
      requires b.Valid() && pc == ExtraNoncePid && fieldOff < PID_NONCE_SIZE
      requires PID_NONCE_SIZE - fieldOff <= extraRemaining < TWO64
      modifies this
      ensures i <= |rest| && i <= PID_NONCE_SIZE - old(fieldOff) && (rest != [] ==> i > 0)
      ensures Is(sw, PidTake(b, old(State()), rest[..i]))
    {
      hide EndField, Differences;
      var full;
      full, i := Compare(rest, b.pidNonce);
      if !full { return 0, i; }
      if extraAcc != 0 { return SW_SECURITY_PAYMENT_ID, i; }
      pidFound := true;
      sw := FinishField(b);
    }

    /** PFX_EXTRA_SKIP and PFX_EXTRA_PADDING. A run of length zero takes no byte. */
    method RunState(b: Binding, rest: bytes) returns (sw: nat, i: nat)
      requires (pc == ExtraSkip || pc == ExtraPadding) && offRemaining <= extraRemaining < TWO64 && rest != []
      modifies this
      ensures i <= |rest| && i <= old(offRemaining) && (i == 0 <==> old(offRemaining) == 0)
      ensures Is(sw, if i == 0 then EndField(b, old(State())) else SkipTake(b, old(State()), rest[..i]))
    {
      hide EndField;
      var need := offRemaining;
      i := if |rest| < need then |rest| else need;
      if pc == ExtraPadding {
        for k := 0 to i
          invariant AllZero(rest[..k]) && State() == old(State())
        {
          if rest[k] != 0 {
            assert rest[..i][k] != 0;
            return SW_WRONG_DATA, i;
          }
          assert rest[..k + 1] == rest[..k] + [rest[k]];
        }
      }
      offRemaining := offRemaining - i;
      extraRemaining := extraRemaining - i;
      sw := 0;
      if offRemaining == 0 { sw := FinishField(b); }
    }

    /** The states that take one byte. */
    method ByteState(b: Binding, c: byte) returns (sw: nat)
      requires b.Valid() && Safe(b, State()) && TakesByte(pc)
      modifies this
      ensures Is(sw, Step(b, old(State()), c))
    {
      hide VarintStep, Pow2, AccumulatorSafe, OnVarint, TagStep, NonceLenStep, OutTagStep, FinishOutput, Sound;
      if ReadsVarint(pc) {
        sw := VarintState(b, c);
        return;
      }
      match pc {
        case VinTag =>
          if c != TXIN_TO_KEY_TAG { return SW_WRONG_DATA; }
          Enter(VinAmount);
          sw := 0;
        case VoutTag =>
          sw := OutTagState(b, c);
        case VoutVtag =>
          eph := Update(eph, [c]);
          sw := NextOutput(b);
        case ExtraTag =>
          sw := TagState(b, c);
        case ExtraNonceLen =>
          sw := NonceLenState(b, c);
      }
    }

    /** The states that take as much of a field as the chunk holds. */
    method FieldState(b: Binding, rest: bytes) returns (sw: nat, i: nat)
      requires b.Valid() && Safe(b, State()) && rest != [] && !TakesByte(pc)
      modifies this
      ensures i <= |rest|
      ensures i == 0 ==> EmptyRun(old(State())) && Is(sw, Settle(b, old(State())))
      ensures i > 0 ==> !EmptyRun(old(State())) && Is(sw, Run(b, old(State()), rest[..i]))
    {
      hide Run, KimgTake, OutKeyTake, AddkTake, PubkeyTake, PidTake, SkipTake, EndField, Sound;
      ghost var s := State();
      if pc == VinKimg {
        i := KimgState(|rest|);
        KimgRun(b, s, rest[..i]);
        sw := 0;
      } else if pc == VoutKey {
        sw, i := OutKeyState(b, rest);
        OutKeyRun(b, s, rest[..i]);
      } else if pc == ExtraPubkey {
        sw, i := PubkeyState(b, rest);
        PubkeyRun(b, s, rest[..i]);
      } else if pc == ExtraAddk {
        sw, i := AddkState(b, rest);
        AddkRun(b, s, rest[..i]);
      } else if pc == ExtraNoncePid {
        sw, i := PidState(b, rest);
        PidRun(b, s, rest[..i]);
      } else if pc == Done {
        i := |rest|;
        DoneRun(b, s, rest[..i]);
        sw := 0;
      } else {
        sw, i := RunState(b, rest);
        if i > 0 { SkipRun(b, s, rest[..i]); }
      }
    }

    /** One round of the loop: some state's handler on the bytes left in the chunk. */
    method Round(b: Binding, rest: bytes) returns (sw: nat, i: nat)
      requires b.Valid() && Safe(b, State()) && rest != []
      modifies this
      ensures i <= |rest|
      ensures i == 0 ==> EmptyRun(old(State())) && Is(sw, Settle(b, old(State())))
      ensures i > 0 ==> !EmptyRun(old(State())) && Is(sw, Run(b, old(State()), rest[..i]))
    {
      hide Safe, Run, Step, Settle;
      if TakesByte(pc) {
        FeedByte(b, State(), rest[0]);
        assert rest[..1] == [rest[0]];
        i := 1;
        sw := ByteState(b, rest[0]);
      } else {
        sw, i := FieldState(b, rest);
      }
    }

    /** The whole chunk, from wherever the last one stopped. */
    method Parse(b: Binding, buf: bytes) returns (sw: nat)
      requires b.Valid() && Safe(b, State())
      modifies this
      ensures Is(sw, Run(b, old(State()), buf))
      ensures sw == 0 ==> Safe(b, State())
    {
      hide Safe, Feed, Run, Settle, EmptyRun;
      var i := 0;
      ghost var start := State();
      RunSafety(b, start, buf);
      while i < |buf|
        invariant 0 <= i <= |buf|
        invariant Safe(b, State())
        invariant Run(b, State(), buf[i..]) == Run(b, start, buf)
        decreases |buf| - i, if EmptyRun(State()) then 1 else 0
      {
        ghost var s := State();
        var n;
        sw, n := Round(b, buf[i..]);
        RoundProgress(b, s, buf[i..], n);
        if sw != 0 { return; }
        assert buf[i..][n..] == buf[i + n..];
        i := i + n;
      }
      sw := 0;
      assert buf[i..] == [];
      RunNil(b, State());
    }

    /** A stream delivered in any chunks, one `Parse` each, comes to what the machine makes of
        all its bytes, wherever the cuts fall. */
    method ParseChunks(b: Binding, chunks: seq<bytes>) returns (sw: nat)
      requires b.Valid() && Safe(b, State())
      modifies this
      ensures Is(sw, Run(b, old(State()), Flatten(chunks)))
      ensures sw == 0 ==> Safe(b, State())
    {
      hide Safe, Feed, Run;
      ghost var start := State();
      assert chunks[0..] == chunks;
      for i := 0 to |chunks|
        invariant Safe(b, State())
        invariant Run(b, State(), Flatten(chunks[i..])) == Run(b, start, Flatten(chunks))
      {
        RunConcat(b, State(), chunks[i], Flatten(chunks[i + 1..]));
        assert chunks[i..][1..] == chunks[i + 1..];
        sw := Parse(b, chunks[i]);
        if sw != 0 { return; }
      }
      sw := 0;
      RunNil(b, State());
    }
  }

  predicate TakesByte(pc: Pc)
  {
    ReadsVarint(pc) || pc in {VinTag, VoutTag, VoutVtag, ExtraTag, ExtraNonceLen}
  }

  lemma FeedByte(b: Binding, s: Parser, c: byte)
    requires TakesByte(s.pc)
    ensures Run(b, s, [c]) == Step(b, s, c) && !EmptyRun(s)
  {
    hide Step, Run;
    RunOne(b, s, c);
  }

  lemma RunNil(b: Binding, s: Parser)
    ensures Run(b, s, []) == Ok(s)
  {
  }

  lemma RunSafety(b: Binding, s: Parser, bs: bytes)
    requires b.Valid() && Safe(b, s)
    ensures Run(b, s, bs).Ok? ==> Safe(b, Run(b, s, bs).p)
  {
    hide Safe, Run;
    if Run(b, s, bs).Ok? { RunSafe(b, s, bs); }
  }

  /** A round that took `n` bytes leaves the same answer to be found on the rest. */
  lemma RoundProgress(b: Binding, s: Parser, bs: bytes, n: nat)
    requires b.Valid() && Safe(b, s) && bs != [] && n <= |bs| && (n == 0 ==> EmptyRun(s))
    ensures var o := if n == 0 then Settle(b, s) else Run(b, s, bs[..n]);
      && Run(b, s, bs) == Then(b, o, bs[n..])
      && (o.Ok? ==> Safe(b, o.p))
      && (o.Ok? && n == 0 ==> !EmptyRun(o.p))
  {
    hide Safe, Run, Settle;
    if n == 0 {
      assert bs[0..] == bs;
      RunSettled(b, s, bs);
      if Settle(b, s).Ok? { SettleSafe(b, s); }
    } else {
      RunSplit(b, s, bs, n);
      RunSafety(b, s, bs[..n]);
    }
  }
}
