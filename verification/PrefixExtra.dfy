/** The parser on the fields of `extra`, in a real transaction. */
module PrefixExtra {
  import opened Bytes
  import opened Status
  import opened Varint
  import opened Transcript
  import opened PrefixSpec
  import opened PrefixRuns
  import opened PrefixGrammar
  import opened PrefixPieces

  function FoundOf(s: Parser): Found
  {
    Found(s.rFound, s.addkFound, s.pidFound, s.addk)
  }

  predicate AtTag(b: Binding, s: Parser)
  {
    b.Valid() && b.isReal && s.pc == ExtraTag && 0 < s.extra < TWO64 && (b.addkExpected ==> b.outputs > 0)
  }

  /** `f` fits in what is left of `extra`; padding takes all of it. */
  predicate Fits(s: Parser, f: Field)
  {
    |FieldBytes(f)| <= s.extra && (f.Padding? ==> |FieldBytes(f)| == s.extra)
  }

  /** `t` is `s` once field `f` has gone by. */
  predicate AfterField(s: Parser, f: Field, t: Parser)
  {
    FoundOf(t) == Advance(FoundOf(s), f) && t.extra == s.extra - |FieldBytes(f)| && t.done == s.done
  }

  // --- the counted keys of a 0x04 block ---------------------------------------------

  predicate AtKeys(s: Parser, n: nat)
  {
    s.pc == ExtraAddk && s.fieldOff == 0 && s.off == n && 0 < n < TWO32 && KEY_SIZE * n <= s.extra < TWO64
  }

  function AfterKeys(b: Binding, s: Parser, keys: bytes): Parser
  {
    s.(addk := Final(Update(s.addk, keys)), addkFound := true, off := 0, fieldOff := 0, extra := Sub64(s.extra, |keys|))
  }

  lemma {:induction false} KeysRun(b: Binding, s: Parser, n: nat, keys: bytes)
    requires AtKeys(s, n) && |keys| == KEY_SIZE * n
    ensures Run(b, s, keys)
         == if b.sha(Update(s.addk, keys)) != b.addk then Fail(SW_SECURITY_OUTKEYS_CHAIN_CONTROL)
            else EndField(b, AfterKeys(b, s, keys))
    decreases n
  {
    hide Run, EndField;
    var k, rest := keys[..KEY_SIZE], keys[KEY_SIZE..];
    assert keys == k + rest;
    AddkRun(b, s, k);
    RunConcat(b, s, k, rest);
    if n == 1 {
      assert rest == [] && k == keys;
      ThenNothing(b, AddkTake(b, s, k));
    } else {
      var t := s.(addk := Update(s.addk, k), off := n - 1, extra := s.extra - KEY_SIZE);
      KeysRun(b, t, n - 1, rest);
      assert s.addk.open + k + rest == s.addk.open + keys;
    }
  }

  lemma {:induction false} KeysPeel(b: Binding, s: Parser, n: nat, bs: bytes)
    requires AtKeys(s, n) && Accepts(b, s, bs)
    ensures |bs| >= KEY_SIZE * n
    decreases n
  {
    hide EndField;
    if |bs| < KEY_SIZE {
      AddkRun(b, s, bs);
    } else if n > 1 {
      var k := bs[..KEY_SIZE];
      assert bs == k + bs[KEY_SIZE..];
      AddkRun(b, s, k);
      AcceptsAfter(b, s, k, bs[KEY_SIZE..]);
      KeysPeel(b, s.(addk := Update(s.addk, k), off := n - 1, extra := s.extra - KEY_SIZE), n - 1, bs[KEY_SIZE..]);
    }
  }

  // --- one field, forward ------------------------------------------------------------

  lemma MainKeyForward(b: Binding, s: Parser, key: bytes) returns (t: Parser)
    requires AtTag(b, s) && Fits(s, MainKey(key)) && FieldOk(b, MainKey(key), FoundOf(s))
    ensures AfterField(s, MainKey(key), t) && Run(b, s, FieldBytes(MainKey(key))) == EndField(b, t)
  {
    hide Run, EndField, Differences;
    RunOne(b, s, TX_EXTRA_TAG_PUBKEY);
    var s1 := s.(extra := s.extra - 1, fieldOff := 0, acc := 0, pc := ExtraPubkey);
    RunConcat(b, s, [TX_EXTRA_TAG_PUBKEY], key);
    PubkeyRun(b, s1, key);
    assert b.mainKey[0..0 + |key|] == key;
    t := CompareTake(s1, key, b.mainKey).(rFound := true);
  }

  /** Tag and length of a nonce field. */
  lemma NonceHead(b: Binding, s: Parser)
    requires AtTag(b, s) && s.extra >= 2 + PID_NONCE_SIZE && b.pidSet && !s.pidFound
    ensures Run(b, s, [TX_EXTRA_NONCE, PID_NONCE_SIZE])
         == Ok(s.(extra := s.extra - 2, fieldOff := 0, acc := 0, pc := ExtraNoncePid))
  {
    hide Run, EndField, VarintStep, PubkeyStep, PidStep, AddkStep, RunStep, OutTagStep, OutKeyStep, KimgStep,
      FinishOutput;
    RunOne(b, s, TX_EXTRA_NONCE);
    RunOne(b, s.(extra := s.extra - 1, pc := ExtraNonceLen), PID_NONCE_SIZE);
    RunConcat(b, s, [TX_EXTRA_NONCE], [PID_NONCE_SIZE]);
    assert [TX_EXTRA_NONCE] + [PID_NONCE_SIZE] == [TX_EXTRA_NONCE, PID_NONCE_SIZE];
  }

  lemma NonceForward(b: Binding, s: Parser, pid: bytes) returns (t: Parser)
    requires AtTag(b, s) && Fits(s, Nonce(pid)) && FieldOk(b, Nonce(pid), FoundOf(s))
    ensures AfterField(s, Nonce(pid), t) && Run(b, s, FieldBytes(Nonce(pid))) == EndField(b, t)
  {
    hide Run, EndField, Differences, Feed, Step;
    NonceHead(b, s);
    var u := s.(extra := s.extra - 2, fieldOff := 0, acc := 0, pc := ExtraNoncePid);
    RunConcat(b, s, [TX_EXTRA_NONCE, PID_NONCE_SIZE], pid);
    PidRun(b, u, pid);
    assert b.pidNonce[0..0 + |pid|] == pid;
    t := CompareTake(u, pid, b.pidNonce).(pidFound := true);
  }

  /** Tag and count of an additional-keys field. */
  lemma AddKeysHead(b: Binding, s: Parser, count: bytes)
    requires AtTag(b, s) && s.extra >= 1 + |count| + KEY_SIZE * b.outputs
    requires b.addkExpected && Wire(count) && Value(count) == b.outputs
    ensures Run(b, s, [TX_EXTRA_TAG_ADDITIONAL_PUBKEYS] + count)
         == Ok(WithVarint(EnterVarint(s.(extra := s.extra - 1), ExtraAddkCnt), count).(
                 off := b.outputs, fieldOff := 0, pc := ExtraAddk))
  {
    hide Run, EndField, Wire, Value;
    RunOne(b, s, TX_EXTRA_TAG_ADDITIONAL_PUBKEYS);
    VarintForward(b, EnterVarint(s.(extra := s.extra - 1), ExtraAddkCnt), count);
    RunConcat(b, s, [TX_EXTRA_TAG_ADDITIONAL_PUBKEYS], count);
  }

  lemma AddKeysForward(b: Binding, s: Parser, count: bytes, keys: bytes) returns (t: Parser)
    requires AtTag(b, s) && Fits(s, AddKeys(count, keys)) && FieldOk(b, AddKeys(count, keys), FoundOf(s))
    ensures AfterField(s, AddKeys(count, keys), t) && Run(b, s, FieldBytes(AddKeys(count, keys))) == EndField(b, t)
  {
    hide Run, EndField, Wire, Value, Feed, Step;
    AddKeysHead(b, s, count);
    var u := WithVarint(EnterVarint(s.(extra := s.extra - 1), ExtraAddkCnt), count).(
      off := b.outputs, fieldOff := 0, pc := ExtraAddk);
    RunConcat(b, s, [TX_EXTRA_TAG_ADDITIONAL_PUBKEYS] + count, keys);
    KeysRun(b, u, b.outputs, keys);
    t := AfterKeys(b, u, keys);
  }

  /** The state at the first byte of a run, which takes `n` bytes. */
  predicate AtRun(s: Parser, n: nat)
  {
    (s.pc == ExtraSkip || s.pc == ExtraPadding) && s.off == n <= s.extra < TWO64
  }

  lemma BodyForward(b: Binding, s: Parser, body: bytes) returns (t: Parser)
    requires AtRun(s, |body|) && (s.pc == ExtraPadding ==> AllZero(body))
    ensures FoundOf(t) == FoundOf(s) && t.extra == s.extra - |body| && t.done == s.done
    ensures body != [] ==> Run(b, s, body) == EndField(b, t)
    ensures body == [] ==> Run(b, s, body) == Ok(t) && EmptyRun(t)
  {
    hide Run, EndField;
    if body == [] {
      RunEmpty(b, s);
      t := s;
    } else {
      SkipRun(b, s, body);
      t := s.(off := 0, extra := s.extra - |body|);
    }
  }

  lemma TlvForward(b: Binding, s: Parser, f: Field) returns (t: Parser)
    requires AtTag(b, s) && f.Tlv? && Fits(s, f) && FieldOk(b, f, FoundOf(s))
    ensures AfterField(s, f, t)
    ensures !EmptyRunField(f) ==> Run(b, s, FieldBytes(f)) == EndField(b, t)
    ensures EmptyRunField(f) ==> Run(b, s, FieldBytes(f)) == Ok(t) && EmptyRun(t)
  {
    hide Run, EndField, Wire, Value, VarintStep, PubkeyStep, PidStep, AddkStep, RunStep, OutTagStep, OutKeyStep,
      KimgStep, FinishOutput;
    RunOne(b, s, f.tag);
    var s1 := EnterVarint(s.(extra := s.extra - 1), ExtraTlvLen);
    VarintForward(b, s1, f.length);
    var s2 := WithVarint(s1, f.length).(off := |f.body|, pc := ExtraSkip);
    RunConcat(b, s, [f.tag], f.length);
    RunConcat(b, s, [f.tag] + f.length, f.body);
    t := BodyForward(b, s2, f.body);
  }

  lemma PaddingForward(b: Binding, s: Parser, zeros: bytes) returns (t: Parser)
    requires AtTag(b, s) && Fits(s, Padding(zeros)) && FieldOk(b, Padding(zeros), FoundOf(s))
    ensures AfterField(s, Padding(zeros), t)
    ensures zeros != [] ==> Run(b, s, FieldBytes(Padding(zeros))) == EndField(b, t)
    ensures zeros == [] ==> Run(b, s, FieldBytes(Padding(zeros))) == Ok(t) && EmptyRun(t)
  {
    hide Run, EndField;
    RunOne(b, s, TX_EXTRA_TAG_PADDING);
    var s1 := s.(extra := s.extra - 1, off := s.extra - 1, pc := ExtraPadding);
    RunConcat(b, s, [TX_EXTRA_TAG_PADDING], zeros);
    t := BodyForward(b, s1, zeros);
  }

  /** A field that may stand here brings the parser to its end: at once, or, after a run of
      length zero, with the next byte. */
  lemma FieldForward(b: Binding, s: Parser, f: Field) returns (t: Parser)
    requires AtTag(b, s) && Fits(s, f) && FieldOk(b, f, FoundOf(s))
    ensures AfterField(s, f, t)
    ensures !EmptyRunField(f) ==> Run(b, s, FieldBytes(f)) == EndField(b, t)
    ensures EmptyRunField(f) ==> Run(b, s, FieldBytes(f)) == Ok(t) && EmptyRun(t)
  {
    hide Run, EndField, FieldOk;
    match f
    case MainKey(key) => t := MainKeyForward(b, s, key);
    case AddKeys(count, keys) => t := AddKeysForward(b, s, count, keys);
    case Nonce(pid) => t := NonceForward(b, s, pid);
    case Tlv(_, _, _) => t := TlvForward(b, s, f);
    case Padding(zeros) => t := PaddingForward(b, s, zeros);
  }

  // --- one field, peeled off ---------------------------------------------------------

  lemma TagPeel(b: Binding, s: Parser, bs: bytes)
    requires AtTag(b, s) && Accepts(b, s, bs)
    ensures bs != [] && TagStep(b, s, bs[0]).Ok? && Accepts(b, TagStep(b, s, bs[0]).p, bs[1..])
    ensures bs[0] in {TX_EXTRA_TAG_PADDING, TX_EXTRA_TAG_PUBKEY, TX_EXTRA_NONCE, TX_EXTRA_MERGE_MINING_TAG,
                      TX_EXTRA_TAG_ADDITIONAL_PUBKEYS, TX_EXTRA_MYSTERIOUS_MINERGATE_TAG}
  {
    hide Accepts;
    AcceptsSomething(b, s, bs);
  }

  lemma PubkeyFieldPeel(b: Binding, s: Parser, r: bytes)
    requires b.Valid() && s.pc == ExtraPubkey && s.fieldOff == 0 && s.acc == 0 && KEY_SIZE <= s.extra < TWO64
    requires Accepts(b, s, r)
    ensures |r| >= KEY_SIZE && r[..KEY_SIZE] == b.mainKey
  {
    hide EndField, Differences, Run;
    if |r| < KEY_SIZE {
      PubkeyRun(b, s, r);
    } else {
      PubkeyRun(b, s, r[..KEY_SIZE]);
      assert r == r[..KEY_SIZE] + r[KEY_SIZE..];
      AcceptsAfter(b, s, r[..KEY_SIZE], r[KEY_SIZE..]);
      assert b.mainKey[0..0 + |r[..KEY_SIZE]|] == b.mainKey;
    }
  }

  lemma MainKeyPeel(b: Binding, s: Parser, bs: bytes) returns (f: Field, rest: bytes)
    requires AtTag(b, s) && Accepts(b, s, bs) && bs != [] && bs[0] == TX_EXTRA_TAG_PUBKEY
    ensures Fits(s, f) && FieldOk(b, f, FoundOf(s)) && bs == FieldBytes(f) + rest
  {
    hide Accepts;
    TagPeel(b, s, bs);
    var r := bs[1..];
    PubkeyFieldPeel(b, TagStep(b, s, bs[0]).p, r);
    f, rest := MainKey(r[..KEY_SIZE]), r[KEY_SIZE..];
    assert r == f.key + rest;
  }

  lemma PidFieldPeel(b: Binding, s: Parser, r: bytes)
    requires b.Valid() && s.pc == ExtraNoncePid && s.fieldOff == 0 && s.acc == 0 && PID_NONCE_SIZE <= s.extra < TWO64
    requires Accepts(b, s, r)
    ensures |r| >= PID_NONCE_SIZE && r[..PID_NONCE_SIZE] == b.pidNonce
  {
    hide EndField, Differences, Run;
    if |r| < PID_NONCE_SIZE {
      PidRun(b, s, r);
    } else {
      PidRun(b, s, r[..PID_NONCE_SIZE]);
      assert r == r[..PID_NONCE_SIZE] + r[PID_NONCE_SIZE..];
      AcceptsAfter(b, s, r[..PID_NONCE_SIZE], r[PID_NONCE_SIZE..]);
      assert b.pidNonce[0..0 + |r[..PID_NONCE_SIZE]|] == b.pidNonce;
    }
  }

  lemma NoncePeel(b: Binding, s: Parser, bs: bytes) returns (f: Field, rest: bytes)
    requires AtTag(b, s) && Accepts(b, s, bs) && bs != [] && bs[0] == TX_EXTRA_NONCE
    ensures Fits(s, f) && FieldOk(b, f, FoundOf(s)) && bs == FieldBytes(f) + rest
  {
    hide Accepts;
    TagPeel(b, s, bs);
    var s1 := s.(extra := s.extra - 1, pc := ExtraNonceLen);
    LenPeel(b, s1, bs[1..]);
    var r := bs[2..];
    assert bs[1..][1..] == r;
    PidFieldPeel(b, NonceLenStep(b, s1, bs[1]).p, r);
    f, rest := Nonce(r[..PID_NONCE_SIZE]), r[PID_NONCE_SIZE..];
    assert r == f.pid + rest;
  }

  lemma LenPeel(b: Binding, s: Parser, bs: bytes)
    requires b.isReal && s.pc == ExtraNonceLen && Accepts(b, s, bs)
    ensures bs != [] && NonceLenStep(b, s, bs[0]).Ok? && bs[0] == PID_NONCE_SIZE
    ensures Accepts(b, NonceLenStep(b, s, bs[0]).p, bs[1..])
  {
    hide Accepts;
    AcceptsSomething(b, s, bs);
  }

  lemma TaggedConcat(bs: bytes, x: bytes, y: bytes, z: bytes)
    requires bs != [] && bs[1..] == x + (y + z)
    ensures bs == [bs[0]] + x + y + z
  {
    assert bs == [bs[0]] + bs[1..];
  }

  lemma AddKeysPeel(b: Binding, s: Parser, bs: bytes) returns (f: Field, rest: bytes)
    requires AtTag(b, s) && Accepts(b, s, bs) && bs != [] && bs[0] == TX_EXTRA_TAG_ADDITIONAL_PUBKEYS
    ensures Fits(s, f) && FieldOk(b, f, FoundOf(s)) && bs == FieldBytes(f) + rest
  {
    hide EndField, Accepts, Run, Wire, Value;
    TagPeel(b, s, bs);
    var s1 := EnterVarint(s.(extra := s.extra - 1), ExtraAddkCnt);
    var count, r := VarintPeel(b, s1, bs[1..]);
    var s2 := WithVarint(s1, count).(off := b.outputs, fieldOff := 0, pc := ExtraAddk);
    var n := KEY_SIZE * b.outputs;
    KeysPeel(b, s2, b.outputs, r);
    f, rest := AddKeys(count, r[..n]), r[n..];
    assert r == f.keys + rest;
    KeysRun(b, s2, b.outputs, f.keys);
    AcceptsAfter(b, s2, f.keys, rest);
    TaggedConcat(bs, count, f.keys, rest);
  }

  lemma BodyPeel(b: Binding, s: Parser, n: nat, bs: bytes)
    requires AtRun(s, n) && Accepts(b, s, bs)
    ensures |bs| >= n && (s.pc == ExtraPadding ==> AllZero(bs[..n]))
  {
    hide EndField;
    if n > 0 {
      if |bs| < n {
        if bs != [] { SkipRun(b, s, bs); }
        assert false;
      }
      SkipRun(b, s, bs[..n]);
      assert bs == bs[..n] + bs[n..];
      AcceptsAfter(b, s, bs[..n], bs[n..]);
    }
  }

  lemma TlvPeel(b: Binding, s: Parser, bs: bytes) returns (f: Field, rest: bytes)
    requires AtTag(b, s) && Accepts(b, s, bs) && bs != []
    requires bs[0] == TX_EXTRA_MERGE_MINING_TAG || bs[0] == TX_EXTRA_MYSTERIOUS_MINERGATE_TAG
    ensures Fits(s, f) && FieldOk(b, f, FoundOf(s)) && bs == FieldBytes(f) + rest
  {
    hide EndField, Accepts, Run, Wire, Value;
    TagPeel(b, s, bs);
    var s1 := EnterVarint(s.(extra := s.extra - 1), ExtraTlvLen);
    var length, r := VarintPeel(b, s1, bs[1..]);
    var n := Value(length);
    var s2 := WithVarint(s1, length).(off := n, pc := ExtraSkip);
    BodyPeel(b, s2, n, r);
    f, rest := Tlv(bs[0], length, r[..n]), r[n..];
    assert r == f.body + rest;
    TaggedConcat(bs, length, f.body, rest);
  }

  lemma PaddingPeel(b: Binding, s: Parser, bs: bytes) returns (f: Field, rest: bytes)
    requires AtTag(b, s) && Accepts(b, s, bs) && bs != [] && bs[0] == TX_EXTRA_TAG_PADDING
    ensures Fits(s, f) && FieldOk(b, f, FoundOf(s)) && bs == FieldBytes(f) + rest
  {
    hide EndField, Accepts, Run;
    TagPeel(b, s, bs);
    var n := s.extra - 1;
    BodyPeel(b, s.(extra := n, off := n, pc := ExtraPadding), n, bs[1..]);
    f, rest := Padding(bs[1..][..n]), bs[1..][n..];
    assert bs[1..] == f.zeros + rest;
  }

  /** Whatever is accepted at a tag starts with a field that may stand there. */
  lemma FieldPeel(b: Binding, s: Parser, bs: bytes) returns (f: Field, rest: bytes)
    requires AtTag(b, s) && Accepts(b, s, bs)
    ensures Fits(s, f) && FieldOk(b, f, FoundOf(s)) && bs == FieldBytes(f) + rest
  {
    hide Accepts, FieldOk, Fits;
    TagPeel(b, s, bs);
    if bs[0] == TX_EXTRA_TAG_PUBKEY {
      f, rest := MainKeyPeel(b, s, bs);
    } else if bs[0] == TX_EXTRA_NONCE {
      f, rest := NoncePeel(b, s, bs);
    } else if bs[0] == TX_EXTRA_TAG_ADDITIONAL_PUBKEYS {
      f, rest := AddKeysPeel(b, s, bs);
    } else if bs[0] == TX_EXTRA_TAG_PADDING {
      f, rest := PaddingPeel(b, s, bs);
    } else {
      f, rest := TlvPeel(b, s, bs);
    }
  }

  // --- all the fields ----------------------------------------------------------------

  /** What is accepted after a field, in terms of the state at its end. */
  lemma AcceptsPastField(b: Binding, s: Parser, f: Field, t: Parser, y: bytes)
    requires !EmptyRunField(f) ==> Run(b, s, FieldBytes(f)) == EndField(b, t)
    requires EmptyRunField(f) ==> Run(b, s, FieldBytes(f)) == Ok(t) && EmptyRun(t)
    ensures Accepts(b, s, FieldBytes(f) + y)
      <==> (EmptyRunField(f) ==> y != []) && EndField(b, t).Ok? && Accepts(b, EndField(b, t).p, y)
  {
    hide EndField, FieldBytes, EmptyRunField;
    AcceptsAfter(b, s, FieldBytes(f), y);
    if EmptyRunField(f) && y != [] { RunSettled(b, t, y); }
  }

  /** At the end of `extra`: everything required was found, or the stream is refused. */
  lemma LastField(b: Binding, t: Parser, y: bytes)
    requires b.isReal && t.extra == 0
    ensures EndField(b, t).Ok? <==> PrefixGrammar.Complete(b, FoundOf(t))
    ensures EndField(b, t).Ok? ==> Accepts(b, EndField(b, t).p, y)
  {
    if EndField(b, t).Ok? { DoneRun(b, EndField(b, t).p, y); }
  }

  lemma {:induction false} FieldsForward(b: Binding, s: Parser, fs: seq<Field>, y: bytes)
    requires AtTag(b, s) && |FieldsBytes(fs)| == s.extra && FieldsOk(b, fs, FoundOf(s))
    requires EndsInEmptyRun(fs) ==> y != []
    ensures Accepts(b, s, FieldsBytes(fs) + y)
    decreases fs
  {
    hide Accepts, Run, FieldOk, FieldBytes, EmptyRunField, PrefixGrammar.Complete, FinalizeExtra;
    var f, rest := fs[0], FieldsBytes(fs[1..]);
    if |fs| == 1 { assert fs[1..] == []; }
    var t := FieldForward(b, s, f);
    assert FieldBytes(f) + (rest + y) == FieldsBytes(fs) + y;
    AcceptsPastField(b, s, f, t, rest + y);
    if t.extra == 0 {
      FieldsEmpty(fs[1..]);
      LastField(b, t, rest + y);
    } else {
      FieldsForward(b, EndField(b, t).p, fs[1..], y);
    }
  }

  /** Every field has at least its tag. */
  lemma {:induction false} FieldsEmpty(fs: seq<Field>)
    ensures FieldsBytes(fs) == [] ==> fs == []
  {
    if fs != [] { assert |FieldBytes(fs[0])| >= 1; }
  }

  lemma {:induction false} FieldsPeel(b: Binding, s: Parser, bs: bytes) returns (fs: seq<Field>, y: bytes)
    requires AtTag(b, s) && Accepts(b, s, bs)
    ensures |FieldsBytes(fs)| == s.extra && FieldsOk(b, fs, FoundOf(s)) && bs == FieldsBytes(fs) + y
    ensures fs != [] && (EndsInEmptyRun(fs) ==> y != [])
    decreases s.extra
  {
    hide Accepts, Run, FieldOk, FieldBytes, EmptyRunField, PrefixGrammar.Complete, FinalizeExtra;
    var f, rest := FieldPeel(b, s, bs);
    var t := FieldForward(b, s, f);
    AcceptsPastField(b, s, f, t, rest);
    if t.extra == 0 {
      LastField(b, t, rest);
      fs, y := [f], rest;
      assert fs[1..] == [];
    } else {
      TagByte(f);
      var gs;
      gs, y := FieldsPeel(b, EndField(b, t).p, rest);
      fs := [f] + gs;
      assert fs[1..] == gs;
      assert bs == FieldBytes(f) + (FieldsBytes(gs) + y);
    }
  }

  lemma TagByte(f: Field)
    ensures |FieldBytes(f)| >= 1
  {
  }
}
