/** What every reachable state of the prefix parser keeps. */
module PrefixSafety {
  import opened Bytes
  import opened Varint
  import opened Transcript
  import opened PrefixSpec
  import PrefixRuns

  /** The one configuration the parser cannot survive: additional keys expected, no output
      counted, and a vout digest that matches the empty transcript. */
  predicate Sound(b: Binding)
  {
    b.Valid() && (b.addkExpected && b.outputs == 0 ==> b.sha(FRESH) != b.outEph)
  }

  predicate BeforeOutputs(pc: Pc)
  {
    pc in {VinCnt, VinTag, VinAmount, VinOffCnt, VinOff, VinKimg, VoutCnt}
  }

  predicate AccumulatorSafe(s: Parser)
  {
    s.viShift <= 63 && s.viVal < Pow2(s.viShift) && s.viShift % 7 == 0
  }

  predicate CountersSafe(b: Binding, s: Parser)
  {
    match s.pc
    case VinTag => s.vin > 0
    case VinAmount => s.vin > 0
    case VinOffCnt => s.vin > 0
    case VinOff => s.vin > 0 && s.off > 0
    case VinKimg => s.vin > 0 && s.fieldOff < KEY_SIZE
    case VoutAmount => 0 < s.vout <= b.outputs
    case VoutTag => 0 < s.vout <= b.outputs
    case VoutKey => 0 < s.vout <= b.outputs && s.fieldOff < KEY_SIZE
    case VoutVtag => 0 < s.vout <= b.outputs
    case ExtraTag => s.extra > 0
    case ExtraPubkey => s.fieldOff < KEY_SIZE && s.extra >= KEY_SIZE - s.fieldOff
    case ExtraAddk => s.off > 0 && s.fieldOff < KEY_SIZE && s.extra >= KEY_SIZE * s.off - s.fieldOff
    case ExtraNoncePid => s.fieldOff < PID_NONCE_SIZE && s.extra >= PID_NONCE_SIZE - s.fieldOff
    case ExtraSkip => s.off <= s.extra
    case ExtraPadding => s.off == s.extra
    case _ => true
  }

  /** Every field offset is inside its field, no bit of an unfinished varint can be shifted
      out, and no counter is about to underflow: in a sound configuration none at all, and
      in any other none but those of the additional keys. */
  predicate Safe(b: Binding, s: Parser)
  {
    && s.vin < TWO64 && s.off < TWO64 && s.vout < TWO64 && s.extra < TWO64
    && (ReadsVarint(s.pc) ==> AccumulatorSafe(s))
    && (Sound(b) || s.pc != ExtraAddk ==> CountersSafe(b, s))
    && (s.pc == ExtraAddk ==> s.fieldOff < KEY_SIZE)
    && (BeforeOutputs(s.pc) ==> s.eph == FRESH)
    && (Sound(b) && !BeforeOutputs(s.pc) ==> b.addkExpected ==> b.outputs > 0)
    && (s.done <==> s.pc == Done)
  }

  lemma VarintByteSafe(s: Parser, c: byte)
    requires AccumulatorSafe(s)
    ensures match VarintByte(s.viVal, s.viShift, c)
      case Malformed => true
      case More(v, sh) => sh <= 63 && v < Pow2(sh) && sh % 7 == 0
      case Complete(v, sh) => v < TWO64
  {
    hide Pow2, Shl, Or, Accumulate;
    if s.viShift < 63 || c <= 1 {
      AccumulateBound(s.viVal, s.viShift, c);
      Pow2Mono(s.viShift + 7, if s.viShift < 63 then 63 else 70);
      Pow2Values();
    }
  }

  lemma AccumulateBound(val: nat, shift: nat, c: byte)
    requires shift <= 63 && val < Pow2(shift) && shift % 7 == 0 && (shift == 63 ==> c <= 1)
    ensures Accumulate(val, shift, c) < if shift < 63 then Pow2(shift + 7) else TWO64
  {
    hide Pow2, Shl, Or;
    var x := c % 128;
    assert shift == 7 * (shift / 7);
    ShiftFits(x, shift / 7);
    OrShifted(val, x, shift);
    Pow2Values();
    Pow2Small();
    ShlTop(x, shift, if shift < 63 then 7 else 1);
  }

  lemma Pow2Small()
    ensures Pow2(0) == 1 && Pow2(1) == 2
  {
  }

  /** A value of `m` bits shifted by `n` leaves room for any `n`-bit value below it. */
  lemma {:induction false} ShlTop(x: nat, n: nat, m: nat)
    requires x < Pow2(m)
    ensures Shl(x, n) + Pow2(n) <= Pow2(n + m)
  {
    if n > 0 { ShlTop(x, n - 1, m); }
  }

  /** What the handlers that close a field, an output or an input rely on. */
  predicate Ranges(b: Binding, s: Parser)
  {
    && s.vin < TWO64 && s.off < TWO64 && s.vout < TWO64 && s.extra < TWO64 && !s.done
    && (Sound(b) && b.addkExpected ==> b.outputs > 0)
  }

  lemma EndFieldSafe(b: Binding, s: Parser)
    requires Ranges(b, s) && EndField(b, s).Ok?
    ensures Safe(b, EndField(b, s).p)
  {
  }

  lemma CloseOutputsSafe(b: Binding, s: Parser)
    requires Ranges(b, s) && CloseOutputs(b, s).Ok?
    ensures Safe(b, CloseOutputs(b, s).p)
  {
    hide Pow2;
    Pow2Small();
  }

  lemma FinishOutputSafe(b: Binding, s: Parser)
    requires Ranges(b, s) && 0 < s.vout <= b.outputs && FinishOutput(b, s).Ok?
    ensures Safe(b, FinishOutput(b, s).p)
  {
    hide Pow2, CloseOutputs;
    Pow2Small();
    var t := s.(vout := s.vout - 1);
    if t.vout == 0 { CloseOutputsSafe(b, t); }
  }

  lemma VoutEmptySafe(b: Binding, s: Parser)
    requires b.Valid() && s.eph == FRESH && b.outputs == 0 && CloseOutputs(b, s).Ok? && !s.done
    requires s.vin < TWO64 && s.off < TWO64 && s.vout < TWO64 && s.extra < TWO64
    ensures Safe(b, CloseOutputs(b, s).p)
  {
    CloseOutputsSafe(b, s);
  }

  lemma EnterSafe(s: Parser, pc: Pc)
    ensures AccumulatorSafe(EnterVarint(s, pc))
  {
    Pow2Small();
  }

  lemma OnVarintSafe(b: Binding, s: Parser)
    requires b.Valid() && Safe(b, s.(viVal := 0, viShift := 0)) && ReadsVarint(s.pc) && s.viVal < TWO64
    requires OnVarint(b, s).Ok?
    ensures Safe(b, OnVarint(b, s).p)
  {
    hide OnVarint;
    if BeforeOutputs(s.pc) { OnInputVarintSafe(b, s); } else { OnLaterVarintSafe(b, s); }
  }

  lemma OnInputVarintSafe(b: Binding, s: Parser)
    requires b.Valid() && Safe(b, s.(viVal := 0, viShift := 0)) && ReadsVarint(s.pc) && s.viVal < TWO64
    requires BeforeOutputs(s.pc) && OnVarint(b, s).Ok?
    ensures Safe(b, OnVarint(b, s).p)
  {
    hide Safe, OnVarint, Sound;
    if s.pc == VoutCnt {
      OnCountSafe(b, s);
    } else if s.pc == VinCnt || s.pc == VinAmount {
      OnInputSafe(b, s);
    } else {
      OnOffsetSafe(b, s);
    }
  }

  lemma OnInputSafe(b: Binding, s: Parser)
    requires Safe(b, s.(viVal := 0, viShift := 0)) && s.viVal < TWO64 && (s.pc == VinCnt || s.pc == VinAmount)
    ensures OnVarint(b, s).Ok? && Safe(b, OnVarint(b, s).p)
  {
    hide Pow2, CloseOutputs, AccumulatorSafe;
    EnterSafe(s.(vin := s.viVal), VoutCnt);
    EnterSafe(s, VinOffCnt);
  }

  lemma OnOffsetSafe(b: Binding, s: Parser)
    requires Safe(b, s.(viVal := 0, viShift := 0)) && s.viVal < TWO64 && (s.pc == VinOffCnt || s.pc == VinOff)
    ensures OnVarint(b, s).Ok? && Safe(b, OnVarint(b, s).p)
  {
    hide Pow2, CloseOutputs, AccumulatorSafe;
    if s.pc == VinOff { EnterSafe(s.(off := s.off - 1), VinOff); } else { EnterSafe(s.(off := s.viVal), VinOff); }
  }

  lemma OnCountSafe(b: Binding, s: Parser)
    requires b.Valid() && Safe(b, s.(viVal := 0, viShift := 0)) && s.viVal < TWO64 && s.pc == VoutCnt
    requires OnVarint(b, s).Ok?
    ensures Safe(b, OnVarint(b, s).p)
  {
    hide Pow2, CloseOutputs, AccumulatorSafe;
    EnterSafe(s.(vout := s.viVal), VoutAmount);
    if s.viVal == 0 { VoutEmptySafe(b, s.(vout := 0)); }
  }

  lemma OnLaterVarintSafe(b: Binding, s: Parser)
    requires b.Valid() && Safe(b, s.(viVal := 0, viShift := 0)) && ReadsVarint(s.pc) && s.viVal < TWO64
    requires !BeforeOutputs(s.pc) && OnVarint(b, s).Ok?
    ensures Safe(b, OnVarint(b, s).p)
  {
    hide Pow2, EndField, AccumulatorSafe;
    if s.pc == ExtraLen { EndFieldSafe(b, s.(extra := s.viVal)); }
  }

  /** Every transition keeps it. */
  lemma FeedSafe(b: Binding, s: Parser, c: byte)
    requires b.Valid() && Safe(b, s) && Feed(b, s, c).Ok?
    ensures Safe(b, Feed(b, s, c).p)
  {
    hide Step, EndField, Safe;
    SettleSafe(b, s);
    StepSafe(b, Settle(b, s).p, c);
  }

  lemma SettleSafe(b: Binding, s: Parser)
    requires b.Valid() && Safe(b, s) && Settle(b, s).Ok?
    ensures Safe(b, Settle(b, s).p) && !EmptyRun(Settle(b, s).p)
  {
    hide Pow2, EndField;
    if EmptyRun(s) {
      EndFieldSafe(b, s);
      assert EndField(b, s).p.pc in {Done, ExtraTag} by { EndFieldPc(b, s); }
    }
  }

  lemma EndFieldPc(b: Binding, s: Parser)
    requires EndField(b, s).Ok?
    ensures EndField(b, s).p.pc in {Done, ExtraTag}
  {
  }

  lemma StepSafe(b: Binding, s: Parser, c: byte)
    requires b.Valid() && Safe(b, s) && !EmptyRun(s) && Step(b, s, c).Ok?
    ensures Safe(b, Step(b, s, c).p)
  {
    hide Pow2, VarintStep, OnVarint, TagStep, PubkeyStep, PidStep, AddkStep, NonceLenStep, RunStep, OutTagStep,
      OutKeyStep, KimgStep, FinishOutput;
    if ReadsVarint(s.pc) {
      VarintStepSafe(b, s, c);
    } else {
      match s.pc
      case VinTag => EnterSafe(s, VinAmount);
      case VinKimg => KimgSafe(b, s);
      case VoutTag => OutTagSafe(b, s, c);
      case VoutKey => OutKeySafe(b, s, c);
      case VoutVtag => FinishOutputSafe(b, s.(eph := Update(s.eph, [c])));
      case ExtraTag => TagSafe(b, s, c);
      case ExtraPubkey => PubkeySafe(b, s, c);
      case ExtraAddk => AddkSafe(b, s, c);
      case ExtraNonceLen => NonceLenSafe(b, s, c);
      case ExtraNoncePid => PidSafe(b, s, c);
      case ExtraSkip => RunStepSafe(b, s, c);
      case ExtraPadding => RunStepSafe(b, s, c);
      case _ =>
    }
  }

  lemma VarintStepSafe(b: Binding, s: Parser, c: byte)
    requires b.Valid() && Safe(b, s) && ReadsVarint(s.pc) && VarintStep(b, s, c).Ok?
    ensures Safe(b, VarintStep(b, s, c).p)
  {
    hide Pow2, OnVarint, VarintByte, Sound;
    VarintByteSafe(s, c);
    Pow2Small();
    var t := if InExtra(s.pc) then s.(extra := s.extra - 1) else s;
    match VarintByte(s.viVal, s.viShift, c)
    case Complete(v, sh) => OnVarintSafe(b, t.(viVal := v, viShift := sh));
    case _ =>
  }

  lemma KimgSafe(b: Binding, s: Parser)
    requires Safe(b, s) && s.pc == VinKimg
    ensures Safe(b, KimgStep(s))
  {
    hide Pow2;
    Pow2Small();
  }

  lemma OutTagSafe(b: Binding, s: Parser, c: byte)
    requires Safe(b, s) && s.pc == VoutTag && OutTagStep(b, s, c).Ok?
    ensures Safe(b, OutTagStep(b, s, c).p)
  {
  }

  lemma OutKeySafe(b: Binding, s: Parser, c: byte)
    requires Safe(b, s) && s.pc == VoutKey && OutKeyStep(b, s, c).Ok?
    ensures Safe(b, OutKeyStep(b, s, c).p)
  {
    hide Pow2, FinishOutput;
    var t := s.(eph := Update(s.eph, [c]), fieldOff := s.fieldOff + 1);
    if t.fieldOff == KEY_SIZE && t.tag != TXOUT_TO_TAGGED_KEY_TAG { FinishOutputSafe(b, t); }
  }

  lemma TagSafe(b: Binding, s: Parser, c: byte)
    requires Safe(b, s) && s.pc == ExtraTag && TagStep(b, s, c).Ok?
    ensures Safe(b, TagStep(b, s, c).p)
  {
    hide Safe, AccumulatorSafe;
    AtTagSafe(b, s);
    var t := s.(extra := s.extra - 1);
    EnterSafe(t, ExtraAddkCnt);
    EnterSafe(t, ExtraTlvLen);
    WithinExtraSafe(b, s, TagStep(b, s, c).p);
  }

  lemma AtTagSafe(b: Binding, s: Parser)
    requires Safe(b, s) && s.pc == ExtraTag
    ensures 0 < s.extra < TWO64 && s.off < TWO64
  {
    hide Sound, Pow2;
  }

  /** From a tag to any other state inside `extra`. */
  lemma WithinExtraSafe(b: Binding, s: Parser, t: Parser)
    requires Safe(b, s) && s.pc == ExtraTag && InExtraStates(t.pc)
    requires t.vin == s.vin && t.vout == s.vout && t.done == s.done && t.off < TWO64 && t.extra < TWO64
    requires CountersSafe(b, t) && (ReadsVarint(t.pc) ==> AccumulatorSafe(t))
    ensures Safe(b, t)
  {
    hide Sound, Pow2, AccumulatorSafe, CountersSafe;
  }

  predicate InExtraStates(pc: Pc)
  {
    pc in {ExtraPubkey, ExtraAddkCnt, ExtraNonceLen, ExtraTlvLen, ExtraSkip, ExtraPadding}
  }

  lemma PubkeySafe(b: Binding, s: Parser, c: byte)
    requires Safe(b, s) && s.pc == ExtraPubkey && PubkeyStep(b, s, c).Ok?
    ensures Safe(b, PubkeyStep(b, s, c).p)
  {
    hide EndField;
    var t := CompareStep(s, c, b.mainKey);
    if t.fieldOff == KEY_SIZE { EndFieldSafe(b, t.(rFound := true)); }
  }

  lemma PidSafe(b: Binding, s: Parser, c: byte)
    requires Safe(b, s) && s.pc == ExtraNoncePid && PidStep(b, s, c).Ok?
    ensures Safe(b, PidStep(b, s, c).p)
  {
    hide EndField;
    var t := CompareStep(s, c, b.pidNonce);
    if t.fieldOff == PID_NONCE_SIZE { EndFieldSafe(b, t.(pidFound := true)); }
  }

  lemma AddkSafe(b: Binding, s: Parser, c: byte)
    requires Safe(b, s) && s.pc == ExtraAddk && AddkStep(b, s, c).Ok?
    ensures Safe(b, AddkStep(b, s, c).p)
  {
    hide EndField;
    var t := s.(addk := Update(s.addk, [c]), fieldOff := 0, extra := Sub64(s.extra, 1), off := Sub64(s.off, 1));
    if s.fieldOff + 1 == KEY_SIZE && t.off == 0 { EndFieldSafe(b, t.(addk := Final(t.addk), addkFound := true)); }
  }

  lemma NonceLenSafe(b: Binding, s: Parser, n: byte)
    requires Safe(b, s) && s.pc == ExtraNonceLen && NonceLenStep(b, s, n).Ok?
    ensures Safe(b, NonceLenStep(b, s, n).p)
  {
  }

  lemma RunStepSafe(b: Binding, s: Parser, c: byte)
    requires Safe(b, s) && !EmptyRun(s) && (s.pc == ExtraSkip || s.pc == ExtraPadding) && RunStep(b, s, c).Ok?
    ensures Safe(b, RunStep(b, s, c).p)
  {
    hide EndField;
    var t := s.(off := s.off - 1, extra := s.extra - 1);
    if t.off == 0 { EndFieldSafe(b, t); }
  }

  lemma {:induction false} RunSafe(b: Binding, s: Parser, bs: bytes)
    requires b.Valid() && Safe(b, s) && Run(b, s, bs).Ok?
    ensures Safe(b, Run(b, s, bs).p)
    decreases bs
  {
    hide Feed, Safe;
    if bs != [] {
      FeedSafe(b, s, bs[0]);
      RunSafe(b, Feed(b, s, bs[0]).p, bs[1..]);
    }
  }

  /** A stream that reaches the additional keys when none was counted. */
  const UNDERFLOWING: bytes := [0, 0, 40, 4, 0]

  /** Every stream leaves the counters safe exactly when the configuration is sound. */
  lemma SafeIffSound(b: Binding)
    requires b.Valid()
    ensures Sound(b) <==> forall bs: bytes :: Run(b, RESET, bs).Ok? ==> CountersSafe(b, Run(b, RESET, bs).p)
  {
    assert Pow2(0) == 1;
    if Sound(b) {
      forall bs: bytes | Run(b, RESET, bs).Ok?
        ensures CountersSafe(b, Run(b, RESET, bs).p)
      {
        RunSafe(b, RESET, bs);
      }
    } else {
      AtNoKeys(b);
    }
  }

  /** In the other configuration the counter of additional keys does underflow. */
  lemma Underflows(b: Binding, k: bytes)
    requires b.Valid() && !Sound(b) && |k| == KEY_SIZE
    ensures var o := Run(b, RESET, UNDERFLOWING + k); o.Ok? && o.p.pc == ExtraAddk && o.p.off == TWO64 - 1
  {
    hide Run, Feed;
    AtNoKeys(b);
    var s := Run(b, RESET, UNDERFLOWING).p;
    RunConcat(b, RESET, UNDERFLOWING, k);
    PrefixRuns.AddkRun(b, s, k);
  }

  /** Bytes still missing before additional keys nobody counted can be found. */
  function Owed(s: Parser): int
  {
    if s.pc != ExtraAddk then KEY_SIZE * TWO64 else KEY_SIZE * (if s.off == 0 then TWO64 else s.off) - s.fieldOff
  }

  predicate Owing(o: Outcome, least: int)
  {
    o.Ok? ==> if o.p.addkFound then least <= 0 else o.p.pc != Done && Owed(o.p) >= least
  }

  lemma EndFieldOwes(b: Binding, s: Parser)
    requires b.addkExpected && !s.addkFound
    ensures Owing(EndField(b, s), KEY_SIZE * TWO64)
  {
  }

  lemma CloseOutputsOwes(b: Binding, s: Parser)
    requires !s.addkFound
    ensures Owing(CloseOutputs(b, s), KEY_SIZE * TWO64) && Owing(FinishOutput(b, s), KEY_SIZE * TWO64)
  {
  }

  lemma VarintOwes(b: Binding, s: Parser, c: byte)
    requires b.addkExpected && b.outputs == 0 && !s.addkFound && ReadsVarint(s.pc)
    ensures Owing(VarintStep(b, s, c), KEY_SIZE * TWO64)
  {
    hide VarintByte, EndField, CloseOutputs;
    var t := if InExtra(s.pc) && s.extra > 0 then s.(extra := s.extra - 1) else s;
    match VarintByte(s.viVal, s.viShift, c)
    case Complete(v, sh) =>
      EndFieldOwes(b, t.(viVal := v, viShift := sh, extra := v));
      CloseOutputsOwes(b, t.(viVal := v, viShift := sh, vout := v));
    case _ =>
  }

  lemma AddkOwes(b: Binding, s: Parser, c: byte)
    requires b.addkExpected && !s.addkFound && s.pc == ExtraAddk && s.fieldOff < KEY_SIZE && s.off < TWO64
    ensures Owing(AddkStep(b, s, c), Owed(s) - 1)
  {
  }

  lemma CompareOwes(b: Binding, s: Parser, c: byte)
    requires b.addkExpected && !s.addkFound
    ensures s.pc == ExtraPubkey ==> Owing(PubkeyStep(b, s, c), KEY_SIZE * TWO64)
    ensures s.pc == ExtraNoncePid ==> Owing(PidStep(b, s, c), KEY_SIZE * TWO64)
  {
    hide EndField, OrByte, XorByte;
    EndFieldOwes(b, CompareStep(s, c, b.mainKey).(rFound := true));
    EndFieldOwes(b, CompareStep(s, c, b.pidNonce).(pidFound := true));
  }

  lemma OutputOwes(b: Binding, s: Parser, c: byte)
    requires !s.addkFound
    ensures s.pc == VoutKey ==> Owing(OutKeyStep(b, s, c), KEY_SIZE * TWO64)
    ensures s.pc == VoutTag ==> Owing(OutTagStep(b, s, c), KEY_SIZE * TWO64)
    ensures s.pc == VinKimg ==> Owing(Ok(KimgStep(s)), KEY_SIZE * TWO64)
  {
    hide FinishOutput;
    CloseOutputsOwes(b, s.(eph := Update(s.eph, [c]), fieldOff := s.fieldOff + 1));
  }

  lemma ExtraOwes(b: Binding, s: Parser, c: byte)
    requires b.addkExpected && !s.addkFound
    ensures s.pc == ExtraTag ==> Owing(TagStep(b, s, c), KEY_SIZE * TWO64)
    ensures s.pc == ExtraNonceLen ==> Owing(NonceLenStep(b, s, c), KEY_SIZE * TWO64)
    ensures s.pc == ExtraSkip || s.pc == ExtraPadding ==> Owing(RunStep(b, s, c), KEY_SIZE * TWO64)
  {
    hide EndField;
    EndFieldOwes(b, s.(off := Sub64(s.off, 1), extra := Sub64(s.extra, 1)));
  }

  lemma FieldOwes(b: Binding, s: Parser, c: byte)
    requires b.addkExpected && b.outputs == 0 && !s.addkFound && s.pc != Done && s.pc != ExtraAddk && !ReadsVarint(s.pc)
    ensures Owing(Step(b, s, c), KEY_SIZE * TWO64)
  {
    hide TagStep, PubkeyStep, PidStep, NonceLenStep, RunStep, OutTagStep, OutKeyStep, KimgStep, FinishOutput;
    CompareOwes(b, s, c);
    OutputOwes(b, s, c);
    ExtraOwes(b, s, c);
    CloseOutputsOwes(b, s.(eph := Update(s.eph, [c])));
  }

  lemma FeedOwes(b: Binding, s: Parser, c: byte)
    requires b.Valid() && Safe(b, s) && b.addkExpected && b.outputs == 0 && !s.addkFound && s.pc != Done
    ensures Owing(Feed(b, s, c), Owed(s) - 1)
  {
    hide Step, EndField, AddkStep, VarintStep, CountersSafe, Pow2;
    if EmptyRun(s) {
      EndFieldOwes(b, s);
      if EndField(b, s).Ok? {
        EndFieldPc(b, s);
        FieldOwes(b, EndField(b, s).p, c);
      }
    } else if s.pc == ExtraAddk {
      AddkOwes(b, s, c);
      assert Step(b, s, c) == AddkStep(b, s, c) by { StepAddk(b, s, c); }
    } else if ReadsVarint(s.pc) {
      VarintOwes(b, s, c);
      assert Step(b, s, c) == VarintStep(b, s, c) by { StepVarint(b, s, c); }
    } else {
      FieldOwes(b, s, c);
    }
  }

  lemma StepAddk(b: Binding, s: Parser, c: byte)
    requires s.pc == ExtraAddk
    ensures Step(b, s, c) == AddkStep(b, s, c)
  {
    hide AddkStep;
  }

  lemma StepVarint(b: Binding, s: Parser, c: byte)
    requires ReadsVarint(s.pc)
    ensures Step(b, s, c) == VarintStep(b, s, c)
  {
    hide VarintStep;
  }

  lemma {:induction false} RunOwes(b: Binding, s: Parser, bs: bytes)
    requires b.Valid() && Safe(b, s) && b.addkExpected && b.outputs == 0 && !s.addkFound && s.pc != Done
    requires Accepts(b, s, bs)
    ensures |bs| >= Owed(s)
    decreases bs
  {
    hide Feed, Safe;
    if bs != [] {
      FeedOwes(b, s, bs[0]);
      FeedSafe(b, s, bs[0]);
      var t := Feed(b, s, bs[0]).p;
      if !t.addkFound { RunOwes(b, t, bs[1..]); }
    }
  }

  /** What the other configuration can accept at all is longer than any transaction: 2^64
      additional keys. */
  lemma UnsoundAccepts(b: Binding, bs: bytes)
    requires b.Valid() && !Sound(b) && Accepts(b, RESET, bs)
    ensures |bs| >= KEY_SIZE * TWO64
  {
    hide Accepts;
    assert Safe(b, RESET) by { ResetSafe(b); }
    RunOwes(b, RESET, bs);
  }

  lemma ResetSafe(b: Binding)
    ensures Safe(b, RESET)
  {
    Pow2Small();
  }

  lemma AtNoKeys(b: Binding)
    requires b.Valid() && !Sound(b)
    ensures
      var o := Run(b, RESET, UNDERFLOWING);
      && o.Ok? && !CountersSafe(b, o.p)
      && o.p.pc == ExtraAddk && o.p.off == 0 && o.p.fieldOff == 0 && o.p.extra == 38
  {
    hide VarintByte, Pow2, Feed, CountersSafe;
    var u := UNDERFLOWING;
    var s := EnterVarint(RESET.(eph := Final(FRESH)), ExtraLen);
    NoInputsNoOutputs(b);
    AddkWithoutKeys(b, s);
    assert u == [0, 0] + [40, 4, 0];
    RunConcat(b, RESET, [0, 0], [40, 4, 0]);
  }

  lemma NoInputsNoOutputs(b: Binding)
    requires b.outputs == 0 && b.sha(FRESH) == b.outEph
    ensures Run(b, RESET, [0, 0]) == Ok(EnterVarint(RESET.(eph := Final(FRESH)), ExtraLen))
  {
    hide VarintByte, Pow2, Run;
    SmallVarints();
    Run2(b, RESET, 0, 0);
  }

  lemma Run2(b: Binding, s: Parser, x: byte, y: byte)
    requires Feed(b, s, x).Ok?
    ensures Run(b, s, [x, y]) == Feed(b, Feed(b, s, x).p, y)
  {
    hide Feed, Run;
    RunConcat(b, s, [x], [y]);
    assert [x] + [y] == [x, y];
    Run1(b, s, x);
    Run1(b, Feed(b, s, x).p, y);
  }

  lemma AddkWithoutKeys(b: Binding, s: Parser)
    requires b.addkExpected && b.outputs == 0 && s == EnterVarint(RESET.(eph := Final(FRESH)), ExtraLen)
    ensures
      var o := Run(b, s, [40, 4, 0]);
      && o.Ok? && !CountersSafe(b, o.p)
      && o.p.pc == ExtraAddk && o.p.off == 0 && o.p.fieldOff == 0 && o.p.extra == 38
  {
    hide VarintByte, Pow2, Run;
    SmallVarints();
    Run2(b, s, 40, 4);
    RunConcat(b, s, [40, 4], [0]);
    assert [40, 4] + [0] == [40, 4, 0];
    var t := Feed(b, Feed(b, s, 40).p, 4).p;
    Run1(b, t, 0);
  }

  lemma Run1(b: Binding, s: Parser, x: byte)
    ensures Run(b, s, [x]) == Feed(b, s, x)
  {
    hide Feed;
    assert [x][1..] == [];
  }

  lemma SmallVarints()
    ensures VarintByte(0, 0, 0) == Complete(0, 7) && VarintByte(0, 0, 40) == Complete(40, 7)
  {
    hide Or;
    OrRightZero(0);
    OrRightZero(40);
  }
}
