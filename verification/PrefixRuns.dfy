/** Runs of bytes inside one field, in closed form: what the C loop does with a whole
    `take` of bytes is what the one-byte machine does with each of them. */
module PrefixRuns {
  import opened Bytes
  import opened Status
  import opened Transcript
  import opened PrefixSpec

  lemma RunOne(b: Binding, s: Parser, x: byte)
    ensures Run(b, s, [x]) == Feed(b, s, x)
  {
    hide Feed;
    assert [x][1..] == [];
  }

  lemma RunCons(b: Binding, s: Parser, x: byte, bs: bytes)
    ensures Run(b, s, [x] + bs) == Then(b, Feed(b, s, x), bs)
  {
    hide Feed;
    assert ([x] + bs)[0] == x && ([x] + bs)[1..] == bs;
  }

  /** The tail of a run: what is left after its first `n` bytes. */
  lemma RunSplit(b: Binding, s: Parser, bs: bytes, n: nat)
    requires n <= |bs|
    ensures Run(b, s, bs) == Then(b, Run(b, s, bs[..n]), bs[n..])
  {
    assert bs == bs[..n] + bs[n..];
    RunConcat(b, s, bs[..n], bs[n..]);
  }

  function KimgTake(s: Parser, n: nat): Parser
  {
    var s := s.(fieldOff := s.fieldOff + n);
    if s.fieldOff != KEY_SIZE then s else NextInput(s)
  }

  lemma {:induction false} KimgRun(b: Binding, s: Parser, x: bytes)
    requires s.pc == VinKimg && s.fieldOff < KEY_SIZE && |x| <= KEY_SIZE - s.fieldOff
    ensures Run(b, s, x) == Ok(KimgTake(s, |x|))
    decreases x
  {
    if x != [] {
      var t := KimgStep(s);
      RunCons(b, s, x[0], x[1..]);
      assert x == [x[0]] + x[1..];
      if |x| > 1 { KimgRun(b, t, x[1..]); }
    }
  }

  function OutKeyTake(b: Binding, s: Parser, x: bytes): Outcome
  {
    var s := s.(eph := Update(s.eph, x), fieldOff := s.fieldOff + |x|);
    if s.fieldOff != KEY_SIZE then Ok(s)
    else if s.tag == TXOUT_TO_TAGGED_KEY_TAG then Ok(s.(pc := VoutVtag))
    else FinishOutput(b, s)
  }

  lemma {:induction false} OutKeyRun(b: Binding, s: Parser, x: bytes)
    requires s.pc == VoutKey && s.fieldOff < KEY_SIZE && |x| <= KEY_SIZE - s.fieldOff
    ensures Run(b, s, x) == OutKeyTake(b, s, x)
    decreases x
  {
    hide Feed, OutKeyTake, OutKeyStep;
    OutKeyTakeCons(b, s, x);
    if x != [] {
      assert x == [x[0]] + x[1..];
      RunCons(b, s, x[0], x[1..]);
      FeedField(b, s, x[0]);
      if |x| > 1 { OutKeyRun(b, OutKeyStep(b, s, x[0]).p, x[1..]); }
    }
  }

  /** Inside a field of several bytes a byte goes straight to that field's handler. */
  lemma FeedField(b: Binding, s: Parser, c: byte)
    ensures s.pc == VoutKey ==> Feed(b, s, c) == OutKeyStep(b, s, c)
    ensures s.pc == ExtraAddk ==> Feed(b, s, c) == AddkStep(b, s, c)
    ensures s.pc == ExtraPubkey ==> Feed(b, s, c) == PubkeyStep(b, s, c)
    ensures s.pc == ExtraNoncePid ==> Feed(b, s, c) == PidStep(b, s, c)
    ensures (s.pc == ExtraSkip || s.pc == ExtraPadding) && s.off > 0 ==> Feed(b, s, c) == RunStep(b, s, c)
  {
    hide OutKeyStep, AddkStep, PubkeyStep, PidStep, RunStep, EndField;
  }

  lemma OutKeyTakeCons(b: Binding, s: Parser, x: bytes)
    requires s.pc == VoutKey && s.fieldOff < KEY_SIZE && |x| <= KEY_SIZE - s.fieldOff
    ensures x == [] ==> OutKeyTake(b, s, x) == Ok(s)
    ensures |x| == 1 ==> OutKeyTake(b, s, x) == OutKeyStep(b, s, x[0])
    ensures |x| > 1 ==>
      var o := OutKeyStep(b, s, x[0]);
      && o.Ok? && o.p.pc == VoutKey && o.p.fieldOff == s.fieldOff + 1
      && OutKeyTake(b, s, x) == OutKeyTake(b, o.p, x[1..])
  {
    hide FinishOutput;
    if x == [] {
      assert s.eph.open + [] == s.eph.open;
    } else {
      assert s.eph.open + [x[0]] + x[1..] == s.eph.open + x;
      assert |x| == 1 ==> x == [x[0]];
    }
  }

  function AddkTake(b: Binding, s: Parser, x: bytes): Outcome
  {
    var s := s.(addk := Update(s.addk, x), fieldOff := s.fieldOff + |x|, extra := Sub64(s.extra, |x|));
    if s.fieldOff != KEY_SIZE then Ok(s)
    else
      var s := s.(fieldOff := 0, off := Sub64(s.off, 1));
      if s.off != 0 then Ok(s)
      else if b.sha(s.addk) != b.addk then Fail(SW_SECURITY_OUTKEYS_CHAIN_CONTROL)
      else EndField(b, s.(addk := Final(s.addk), addkFound := true))
  }

  lemma {:induction false} AddkRun(b: Binding, s: Parser, x: bytes)
    requires s.pc == ExtraAddk && s.fieldOff < KEY_SIZE && |x| <= KEY_SIZE - s.fieldOff && s.extra < TWO64
    ensures Run(b, s, x) == AddkTake(b, s, x)
    decreases x
  {
    hide Feed, AddkTake, AddkStep;
    AddkTakeCons(b, s, x);
    if x != [] {
      assert x == [x[0]] + x[1..];
      RunCons(b, s, x[0], x[1..]);
      FeedField(b, s, x[0]);
      if |x| > 1 { AddkRun(b, AddkStep(b, s, x[0]).p, x[1..]); }
    }
  }

  lemma AddkTakeCons(b: Binding, s: Parser, x: bytes)
    requires s.pc == ExtraAddk && s.fieldOff < KEY_SIZE && |x| <= KEY_SIZE - s.fieldOff && s.extra < TWO64
    ensures x == [] ==> AddkTake(b, s, x) == Ok(s)
    ensures |x| == 1 ==> AddkTake(b, s, x) == AddkStep(b, s, x[0])
    ensures |x| > 1 ==>
      var o := AddkStep(b, s, x[0]);
      && o.Ok? && AddkTake(b, s, x) == AddkTake(b, o.p, x[1..])
      && o.p.pc == ExtraAddk && o.p.fieldOff == s.fieldOff + 1 && o.p.extra == Sub64(s.extra, 1)
  {
    hide EndField;
    if x == [] {
      assert s.addk.open + [] == s.addk.open;
    } else {
      assert s.addk.open + [x[0]] + x[1..] == s.addk.open + x;
      assert |x| == 1 ==> x == [x[0]];
    }
  }

  /** The difference accumulator of `pfx_extra_compare` after `x`, from offset `off`. */
  function Differences(acc: byte, x: bytes, want: bytes, off: nat): (d: byte)
    requires off + |x| <= |want|
    ensures d == 0 <==> acc == 0 && x == want[off..off + |x|]
    decreases x
  {
    if x == [] then acc
    else
      assert x == [x[0]] + x[1..];
      assert want[off..off + |x|] == [want[off]] + want[off + 1..off + 1 + |x[1..]|];
      Differences(OrByte(acc, XorByte(x[0], want[off])), x[1..], want, off + 1)
  }

  lemma {:induction false} DifferencesSnoc(acc: byte, x: bytes, c: byte, want: bytes, off: nat)
    requires off + |x| + 1 <= |want|
    ensures Differences(acc, x + [c], want, off)
         == OrByte(Differences(acc, x, want, off), XorByte(c, want[off + |x|]))
    decreases x
  {
    hide OrByte, XorByte;
    if x == [] {
      assert [] + [c] == [c] && [c][1..] == [];
    } else {
      assert (x + [c])[1..] == x[1..] + [c];
      DifferencesSnoc(OrByte(acc, XorByte(x[0], want[off])), x[1..], c, want, off + 1);
    }
  }

  function CompareTake(s: Parser, x: bytes, want: bytes): Parser
    requires s.fieldOff + |x| <= |want|
  {
    s.(acc := Differences(s.acc, x, want, s.fieldOff), fieldOff := s.fieldOff + |x|, extra := Sub64(s.extra, |x|))
  }

  lemma CompareNone(s: Parser, want: bytes)
    requires s.fieldOff <= |want| && s.extra < TWO64
    ensures CompareTake(s, [], want) == s
  {
  }

  lemma CompareTakeCons(s: Parser, x: bytes, want: bytes)
    requires x != [] && s.fieldOff + |x| <= |want| && |x| <= s.extra < TWO64
    ensures
      var t := CompareStep(s, x[0], want);
      && t == s.(acc := t.acc, fieldOff := s.fieldOff + 1, extra := s.extra - 1)
      && CompareTake(s, x, want) == CompareTake(t, x[1..], want)
      && (|x| == 1 ==> CompareTake(s, x, want) == t)
    ensures CompareTake(s, x, want).fieldOff == s.fieldOff + |x|
  {
    hide OrByte, XorByte;
  }

  function PubkeyTake(b: Binding, s: Parser, x: bytes): Outcome
    requires s.fieldOff + |x| <= |b.mainKey|
  {
    var s := CompareTake(s, x, b.mainKey);
    if s.fieldOff != KEY_SIZE then Ok(s)
    else if s.acc != 0 then Fail(SW_SECURITY_OUTKEYS_CHAIN_CONTROL)
    else EndField(b, s.(rFound := true))
  }

  lemma {:induction false} PubkeyRun(b: Binding, s: Parser, x: bytes)
    requires b.Valid() && s.pc == ExtraPubkey && s.fieldOff < KEY_SIZE && |x| <= KEY_SIZE - s.fieldOff
    requires |x| <= s.extra < TWO64
    ensures Run(b, s, x) == PubkeyTake(b, s, x)
    decreases x
  {
    hide Feed, PubkeyTake, PubkeyStep, CompareStep;
    PubkeyTakeCons(b, s, x);
    if x != [] {
      assert x == [x[0]] + x[1..];
      RunCons(b, s, x[0], x[1..]);
      FeedField(b, s, x[0]);
      if |x| > 1 { PubkeyRun(b, PubkeyStep(b, s, x[0]).p, x[1..]); }
    }
  }

  lemma PubkeyTakeCons(b: Binding, s: Parser, x: bytes)
    requires b.Valid() && s.pc == ExtraPubkey && s.fieldOff < KEY_SIZE && |x| <= KEY_SIZE - s.fieldOff
    requires |x| <= s.extra < TWO64
    ensures x == [] ==> PubkeyTake(b, s, x) == Ok(s)
    ensures |x| == 1 ==> PubkeyTake(b, s, x) == PubkeyStep(b, s, x[0])
    ensures |x| > 1 ==>
      var o := PubkeyStep(b, s, x[0]);
      && o.Ok? && o.p.pc == ExtraPubkey && o.p.fieldOff == s.fieldOff + 1 && o.p.extra == s.extra - 1
      && PubkeyTake(b, s, x) == PubkeyTake(b, o.p, x[1..])
  {
    hide EndField, CompareStep, CompareTake;
    if x == [] {
      CompareNone(s, b.mainKey);
    } else {
      CompareTakeCons(s, x, b.mainKey);
    }
  }

  function PidTake(b: Binding, s: Parser, x: bytes): Outcome
    requires s.fieldOff + |x| <= |b.pidNonce|
  {
    var s := CompareTake(s, x, b.pidNonce);
    if s.fieldOff != PID_NONCE_SIZE then Ok(s)
    else if s.acc != 0 then Fail(SW_SECURITY_PAYMENT_ID)
    else EndField(b, s.(pidFound := true))
  }

  lemma {:induction false} PidRun(b: Binding, s: Parser, x: bytes)
    requires b.Valid() && s.pc == ExtraNoncePid && s.fieldOff < PID_NONCE_SIZE && |x| <= PID_NONCE_SIZE - s.fieldOff
    requires |x| <= s.extra < TWO64
    ensures Run(b, s, x) == PidTake(b, s, x)
    decreases x
  {
    hide Feed, PidTake, PidStep, CompareStep;
    PidTakeCons(b, s, x);
    if x != [] {
      assert x == [x[0]] + x[1..];
      RunCons(b, s, x[0], x[1..]);
      FeedField(b, s, x[0]);
      if |x| > 1 { PidRun(b, PidStep(b, s, x[0]).p, x[1..]); }
    }
  }

  lemma PidTakeCons(b: Binding, s: Parser, x: bytes)
    requires b.Valid() && s.pc == ExtraNoncePid && s.fieldOff < PID_NONCE_SIZE && |x| <= PID_NONCE_SIZE - s.fieldOff
    requires |x| <= s.extra < TWO64
    ensures x == [] ==> PidTake(b, s, x) == Ok(s)
    ensures |x| == 1 ==> PidTake(b, s, x) == PidStep(b, s, x[0])
    ensures |x| > 1 ==>
      var o := PidStep(b, s, x[0]);
      && o.Ok? && o.p.pc == ExtraNoncePid && o.p.fieldOff == s.fieldOff + 1 && o.p.extra == s.extra - 1
      && PidTake(b, s, x) == PidTake(b, o.p, x[1..])
  {
    hide EndField, CompareStep, CompareTake;
    if x == [] {
      CompareNone(s, b.pidNonce);
    } else {
      CompareTakeCons(s, x, b.pidNonce);
    }
  }

  /** A non-empty take of a run of unparsed or padding bytes. */
  function SkipTake(b: Binding, s: Parser, x: bytes): Outcome
  {
    if s.pc == ExtraPadding && !AllZero(x) then Fail(SW_WRONG_DATA)
    else
      var s := s.(off := Sub64(s.off, |x|), extra := Sub64(s.extra, |x|));
      if s.off == 0 then EndField(b, s) else Ok(s)
  }

  lemma {:induction false} SkipRun(b: Binding, s: Parser, x: bytes)
    requires s.pc == ExtraSkip || s.pc == ExtraPadding
    requires 0 < |x| <= s.off <= s.extra < TWO64
    ensures Run(b, s, x) == SkipTake(b, s, x)
    decreases x
  {
    hide Feed, SkipTake, RunStep;
    assert x == [x[0]] + x[1..];
    SkipTakeCons(b, s, x);
    RunCons(b, s, x[0], x[1..]);
    FeedField(b, s, x[0]);
    if |x| > 1 && RunStep(b, s, x[0]).Ok? { SkipRun(b, RunStep(b, s, x[0]).p, x[1..]); }
  }

  lemma SkipTakeCons(b: Binding, s: Parser, x: bytes)
    requires s.pc == ExtraSkip || s.pc == ExtraPadding
    requires 0 < |x| <= s.off <= s.extra < TWO64
    ensures |x| == 1 ==> SkipTake(b, s, x) == RunStep(b, s, x[0])
    ensures |x| > 1 ==>
      match RunStep(b, s, x[0])
      case Fail(sw) => SkipTake(b, s, x) == Fail(sw)
      case Ok(t) =>
        && t.pc == s.pc && t.off == s.off - 1 && t.extra == s.extra - 1
        && SkipTake(b, s, x) == SkipTake(b, t, x[1..])
  {
    hide EndField;
    assert AllZero(x) <==> x[0] == 0 && AllZero(x[1..]);
  }

  /** An empty run changes nothing a later byte can see. */
  lemma RunSettled(b: Binding, s: Parser, bs: bytes)
    requires bs != []
    ensures Run(b, s, bs) == Then(b, Settle(b, s), bs)
  {
    hide Step, FinalizeExtra;
    if EmptyRun(s) && Settle(b, s).Ok? { assert !EmptyRun(Settle(b, s).p) by { SettledOnce(b, s); } }
  }

  lemma SettledOnce(b: Binding, s: Parser)
    requires EmptyRun(s) && Settle(b, s).Ok?
    ensures Settle(b, s).p.pc in {Done, ExtraTag}
  {
  }

  /** Past the end of the prefix nothing is looked at. */
  lemma {:induction false} DoneRun(b: Binding, s: Parser, x: bytes)
    requires s.pc == Done
    ensures Run(b, s, x) == Ok(s)
    decreases x
  {
    if x != [] {
      RunCons(b, s, x[0], x[1..]);
      assert x == [x[0]] + x[1..];
      DoneRun(b, s, x[1..]);
    }
  }
}
