/** The parser on one piece of a prefix: what it does on a well-formed one (Forward), and
    that anything it accepts starts with one (Peel). */
module PrefixPieces {
  import opened Bytes
  import opened Status
  import opened Varint
  import opened Transcript
  import opened PrefixSpec
  import opened PrefixRuns
  import opened PrefixGrammar

  predicate Started(s: Parser, pc: Pc)
  {
    s.pc == pc && s.viVal == 0 && s.viShift == 0
  }

  /** Nothing the rest of the stream is judged by has changed. */
  predicate SameFindings(s: Parser, t: Parser)
  {
    && s.eph == t.eph && s.addk == t.addk && s.done == t.done
    && s.rFound == t.rFound && s.addkFound == t.addkFound && s.pidFound == t.pidFound
  }

  lemma AcceptsAfter(b: Binding, s: Parser, x: bytes, y: bytes)
    ensures Accepts(b, s, x + y) <==> Run(b, s, x).Ok? && Accepts(b, Run(b, s, x).p, y)
  {
    hide Run;
    RunConcat(b, s, x, y);
  }

  lemma AcceptsSomething(b: Binding, s: Parser, bs: bytes)
    requires Accepts(b, s, bs) && s.pc != Done
    ensures bs != [] && Feed(b, s, bs[0]).Ok? && Accepts(b, Feed(b, s, bs[0]).p, bs[1..])
  {
    hide Feed;
  }

  // --- varints ---------------------------------------------------------------------

  /** The state in the middle of a varint of which `pre` has been read. */
  predicate Midway(s: Parser, pre: bytes)
  {
    ReadsVarint(s.pc) && Open(pre) && s.viVal == Value(pre) && s.viShift == 7 * |pre|
  }

  function AfterByte(s: Parser, pre: bytes): Parser
  {
    s.(viVal := Value(pre), viShift := 7 * |pre|,
       extra := if InExtra(s.pc) && s.extra > 0 then s.extra - 1 else s.extra)
  }

  lemma MidwayStep(b: Binding, s: Parser, pre: bytes, c: byte)
    requires Midway(s, pre) && (InExtra(s.pc) ==> s.extra > 0)
    ensures Wire(pre + [c]) ==> Feed(b, s, c) == OnVarint(b, AfterByte(s, pre + [c]))
    ensures Open(pre + [c]) ==>
      Feed(b, s, c) == Ok(AfterByte(s, pre + [c])) && Midway(AfterByte(s, pre + [c]), pre + [c])
    ensures !Wire(pre + [c]) && !Open(pre + [c]) ==> Feed(b, s, c).Fail?
  {
    hide Value, Wire, Open, VarintByte, OnVarint;
    FieldByteOpen(pre, c);
  }

  lemma FieldByteOpen(pre: bytes, c: byte)
    requires Open(pre)
    ensures VarintByte(Value(pre), 7 * |pre|, c)
         == if Wire(pre + [c]) then Progress.Complete(Value(pre + [c]), 7 * |pre + [c]|)
            else if Open(pre + [c]) then More(Value(pre + [c]), 7 * |pre + [c]|)
            else Malformed
    ensures !(Wire(pre + [c]) && Open(pre + [c]))
  {
    hide Value, VarintByte;
    FoldByte(pre, c);
    SnocShape(pre, c);
  }

  /** The state a complete varint hands to its meaning. */
  function WithVarint(s: Parser, vi: bytes): Parser
  {
    s.(viVal := Value(vi), viShift := 7 * |vi|,
       extra := if InExtra(s.pc) && |vi| <= s.extra then s.extra - |vi| else s.extra)
  }

  lemma VarintForward(b: Binding, s: Parser, vi: bytes)
    requires ReadsVarint(s.pc) && Started(s, s.pc) && Wire(vi) && (InExtra(s.pc) ==> |vi| <= s.extra)
    ensures Run(b, s, vi) == OnVarint(b, WithVarint(s, vi))
  {
    hide Run, OnVarint;
    assert [] + vi == vi;
    VarintRest(b, s, [], vi);
  }

  lemma {:induction false} VarintRest(b: Binding, s: Parser, pre: bytes, rest: bytes)
    requires Midway(s, pre) && rest != [] && Wire(pre + rest) && (InExtra(s.pc) ==> |rest| <= s.extra)
    ensures Run(b, s, rest)
         == OnVarint(b, s.(viVal := Value(pre + rest), viShift := 7 * |pre + rest|,
                           extra := if InExtra(s.pc) then s.extra - |rest| else s.extra))
    decreases rest
  {
    hide Run, OnVarint, Feed, Value;
    var c := rest[0];
    assert rest == [c] + rest[1..] && pre + rest == (pre + [c]) + rest[1..];
    RunCons(b, s, c, rest[1..]);
    MidwayStep(b, s, pre, c);
    if |rest| == 1 {
      assert rest[1..] == [] && pre + rest == pre + [c];
      RunOne(b, s, c);
      assert rest == [c];
    } else {
      assert (pre + rest)[|pre|] == c;
      SnocShape(pre, c);
      VarintRest(b, AfterByte(s, pre + [c]), pre + [c], rest[1..]);
    }
  }

  /** Whatever is accepted from a varint state starts with a wire varint. */
  lemma VarintPeel(b: Binding, s: Parser, bs: bytes) returns (vi: bytes, rest: bytes)
    requires ReadsVarint(s.pc) && Started(s, s.pc) && Accepts(b, s, bs)
    ensures bs == vi + rest && Wire(vi) && (InExtra(s.pc) ==> |vi| <= s.extra)
    ensures OnVarint(b, WithVarint(s, vi)).Ok? && Accepts(b, OnVarint(b, WithVarint(s, vi)).p, rest)
  {
    hide Run, OnVarint, Accepts;
    assert [] + bs == bs;
    var n := PeelRest(b, s, [], bs);
    vi, rest := bs[..n], bs[n..];
    assert [] + bs[..n] == vi && bs == vi + rest;
    VarintForward(b, s, vi);
    AcceptsAfter(b, s, vi, rest);
  }

  lemma {:induction false} PeelRest(b: Binding, s: Parser, pre: bytes, bs: bytes) returns (n: nat)
    requires Midway(s, pre) && Accepts(b, s, bs)
    ensures n <= |bs| && Wire(pre + bs[..n]) && (InExtra(s.pc) ==> n <= s.extra)
    decreases bs
  {
    hide OnVarint, Feed, Value, Accepts;
    AcceptsSomething(b, s, bs);
    var c := bs[0];
    NoExtraLeft(b, s, c);
    MidwayStep(b, s, pre, c);
    if Wire(pre + [c]) {
      n := 1;
      assert bs[..1] == [c];
    } else {
      var m := PeelRest(b, AfterByte(s, pre + [c]), pre + [c], bs[1..]);
      n := m + 1;
      assert pre + [c] + bs[1..][..m] == pre + bs[..n];
    }
  }

  lemma NoExtraLeft(b: Binding, s: Parser, c: byte)
    ensures InExtra(s.pc) && s.extra == 0 ==> Feed(b, s, c).Fail?
  {
    hide OnVarint;
  }

  // --- inputs ------------------------------------------------------------------------

  /** After one input: the next one, or the output count. */
  predicate AfterInput(s: Parser, t: Parser)
  {
    && t.vin == s.vin - 1 && SameFindings(s, t)
    && (if t.vin == 0 then Started(t, VoutCnt) else t.pc == VinTag)
  }

  lemma InputForward(b: Binding, s: Parser, x: Input) returns (t: Parser)
    requires s.pc == VinTag && 0 < s.vin < TWO64 && InputOk(x)
    ensures Run(b, s, InputBytes(x)) == Ok(t) && AfterInput(s, t)
  {
    hide Run, Value, Wire;
    var s1 := EnterVarint(s, VinAmount);
    RunOne(b, s, TXIN_TO_KEY_TAG);
    VarintForward(b, s1, x.amount);
    var s2 := EnterVarint(WithVarint(s1, x.amount), VinOffCnt);
    VarintForward(b, s2, x.count);
    var s3 := NextOffset(WithVarint(s2, x.count).(off := |x.offsets|));
    WireFits(x.count);
    var s4 := OffsetsForward(b, s3, x.offsets);
    KimgRun(b, s4, x.image);
    t := KimgTake(s4, KEY_SIZE);
    RunConcat(b, s, [TXIN_TO_KEY_TAG], x.amount);
    RunConcat(b, s, [TXIN_TO_KEY_TAG] + x.amount, x.count);
    RunConcat(b, s, [TXIN_TO_KEY_TAG] + x.amount + x.count, Flatten(x.offsets));
    RunConcat(b, s, [TXIN_TO_KEY_TAG] + x.amount + x.count + Flatten(x.offsets), x.image);
  }

  /** Expecting `n` more key offsets, then the key image. */
  predicate AtOffsets(s: Parser, n: nat)
  {
    if n == 0 then s.pc == VinKimg && s.fieldOff == 0 else Started(s, VinOff) && s.off == n < TWO64
  }

  lemma {:induction false} OffsetsForward(b: Binding, s: Parser, offs: seq<bytes>) returns (t: Parser)
    requires AtOffsets(s, |offs|) && AllWire(offs)
    ensures Run(b, s, Flatten(offs)) == Ok(t) && AtOffsets(t, 0) && SameFindings(s, t) && t.vin == s.vin
    decreases offs
  {
    hide Run, Value, Wire;
    if offs == [] {
      t := s;
      RunEmpty(b, s);
    } else {
      VarintForward(b, s, offs[0]);
      var u := NextOffset(WithVarint(s, offs[0]).(off := s.off - 1));
      t := OffsetsForward(b, u, offs[1..]);
      RunConcat(b, s, offs[0], Flatten(offs[1..]));
    }
  }

  lemma RunEmpty(b: Binding, s: Parser)
    ensures Run(b, s, []) == Ok(s)
  {
  }

  lemma {:induction false} OffsetsPeel(b: Binding, s: Parser, n: nat, bs: bytes) returns (offs: seq<bytes>, rest: bytes)
    requires AtOffsets(s, n) && Accepts(b, s, bs)
    ensures |offs| == n && AllWire(offs) && bs == Flatten(offs) + rest
    decreases n
  {
    hide Accepts, Value, Wire;
    if n == 0 {
      offs, rest := [], bs;
      assert bs == [] + bs;
    } else {
      var vi, r := VarintPeel(b, s, bs);
      var u := NextOffset(WithVarint(s, vi).(off := s.off - 1));
      var o;
      o, rest := OffsetsPeel(b, u, n - 1, r);
      offs := [vi] + o;
      assert offs[1..] == o;
      assert bs == vi + (Flatten(o) + rest) == Flatten(offs) + rest;
    }
  }

  /** Whatever is accepted from inside a fixed-size field has all its bytes. */
  lemma {:induction false} KimgPeel(b: Binding, s: Parser, bs: bytes)
    requires s.pc == VinKimg && s.fieldOff < KEY_SIZE && Accepts(b, s, bs)
    ensures |bs| >= KEY_SIZE - s.fieldOff
  {
    if |bs| < KEY_SIZE - s.fieldOff { KimgRun(b, s, bs); }
  }

  lemma InputTagPeel(b: Binding, s: Parser, bs: bytes)
    requires s.pc == VinTag && Accepts(b, s, bs)
    ensures bs != [] && bs[0] == TXIN_TO_KEY_TAG && Accepts(b, EnterVarint(s, VinAmount), bs[1..])
  {
    hide Accepts;
    AcceptsSomething(b, s, bs);
  }

  /** Amount and offset count of an input, up to its first offset. */
  lemma InputHeadPeel(b: Binding, s: Parser, bs: bytes) returns (amount: bytes, count: bytes, t: Parser, rest: bytes)
    requires s.pc == VinAmount && Started(s, VinAmount) && 0 < s.vin < TWO64 && Accepts(b, s, bs)
    ensures Wire(amount) && Wire(count) && bs == amount + (count + rest)
    ensures AtOffsets(t, Value(count)) && Accepts(b, t, rest)
  {
    hide Accepts, Run, Value, Wire;
    var r;
    amount, r := VarintPeel(b, s, bs);
    var u := EnterVarint(WithVarint(s, amount), VinOffCnt);
    count, rest := VarintPeel(b, u, r);
    WireFits(count);
    t := NextOffset(WithVarint(u, count).(off := Value(count)));
  }

  lemma InputPeel(b: Binding, s: Parser, bs: bytes) returns (x: Input, rest: bytes)
    requires s.pc == VinTag && 0 < s.vin < TWO64 && Accepts(b, s, bs)
    ensures InputOk(x) && bs == InputBytes(x) + rest
  {
    hide Accepts, Run, Value, Wire, AtOffsets;
    InputTagPeel(b, s, bs);
    var amount, count, t, r := InputHeadPeel(b, EnterVarint(s, VinAmount), bs[1..]);
    var offs, image;
    offs, image, rest := OffsetsImagePeel(b, t, Value(count), r);
    x := Input(amount, count, offs, image);
    assert bs == [TXIN_TO_KEY_TAG] + (amount + (count + (Flatten(offs) + image + rest)));
    InputConcat(x, rest);
  }

  lemma OffsetsImagePeel(b: Binding, s: Parser, n: nat, bs: bytes) returns (offs: seq<bytes>, image: bytes, rest: bytes)
    requires AtOffsets(s, n) && Accepts(b, s, bs)
    ensures |offs| == n && AllWire(offs) && |image| == KEY_SIZE && bs == Flatten(offs) + image + rest
  {
    hide Accepts, Run, Value, Wire;
    var r;
    offs, r := OffsetsPeel(b, s, n, bs);
    var t := OffsetsForward(b, s, offs);
    AcceptsAfter(b, s, Flatten(offs), r);
    KimgPeel(b, t, r);
    image, rest := r[..KEY_SIZE], r[KEY_SIZE..];
    assert r == image + rest;
  }

  lemma InputConcat(x: Input, rest: bytes)
    ensures [TXIN_TO_KEY_TAG] + (x.amount + (x.count + (Flatten(x.offsets) + x.image + rest))) == InputBytes(x) + rest
  {
    hide Flatten;
  }

  lemma {:induction false} InputsForward(b: Binding, s: Parser, xs: seq<Input>) returns (t: Parser)
    requires s.pc == VinTag && s.vin == |xs| < TWO64 && xs != [] && InputsOk(xs)
    ensures Run(b, s, InputsBytes(xs)) == Ok(t) && Started(t, VoutCnt) && SameFindings(s, t)
    decreases xs
  {
    hide Run, InputBytes, InputOk;
    var u := InputForward(b, s, xs[0]);
    RunConcat(b, s, InputBytes(xs[0]), InputsBytes(xs[1..]));
    if |xs| == 1 {
      t := u;
      RunEmpty(b, u);
    } else {
      t := InputsForward(b, u, xs[1..]);
    }
  }

  lemma {:induction false} InputsPeel(b: Binding, s: Parser, bs: bytes) returns (xs: seq<Input>, rest: bytes)
    requires s.pc == VinTag && 0 < s.vin < TWO64 && Accepts(b, s, bs)
    ensures |xs| == s.vin && InputsOk(xs) && bs == InputsBytes(xs) + rest
    decreases s.vin
  {
    hide Accepts, InputBytes, InputOk;
    var x, r := InputPeel(b, s, bs);
    var u := InputForward(b, s, x);
    AcceptsAfter(b, s, InputBytes(x), r);
    if s.vin == 1 {
      xs, rest := [x], r;
      assert xs[1..] == [];
    } else {
      var ys;
      ys, rest := InputsPeel(b, u, r);
      xs := [x] + ys;
      assert xs[1..] == ys;
      assert bs == InputBytes(x) + (InputsBytes(ys) + rest);
    }
  }

  // --- outputs -----------------------------------------------------------------------

  /** At the amount of output `index`, with the outputs before it in the transcript. */
  predicate AtOutput(b: Binding, s: Parser, index: nat)
  {
    Started(s, VoutAmount) && index < b.outputs < TWO32 && s.vout == b.outputs - index && s.eph.closed == []
  }

  /** The state at the first byte of an output key. */
  function AtKey(s: Parser, amount: bytes, kind: byte, index: nat): Parser
    requires index < TWO32
  {
    WithVarint(s, amount).(eph := Update(s.eph, Frame(kind, index)), tag := kind, fieldOff := 0, pc := VoutKey)
  }

  lemma OutputHead(b: Binding, s: Parser, amount: bytes, kind: byte, index: nat)
    requires AtOutput(b, s, index) && Wire(amount)
    ensures Run(b, s, amount + [kind])
         == if kind == TXOUT_TO_KEY_TAG || kind == TXOUT_TO_TAGGED_KEY_TAG then Ok(AtKey(s, amount, kind, index))
            else Fail(SW_WRONG_DATA)
  {
    hide Run, Value, Wire, OutTagStep, Frame;
    VarintForward(b, s, amount);
    var t := WithVarint(s, amount).(pc := VoutTag);
    OutTagRun(b, t, kind);
    RunConcat(b, s, amount, [kind]);
    assert t.(eph := Update(s.eph, Frame(kind, index)), tag := kind, fieldOff := 0, pc := VoutKey)
        == AtKey(s, amount, kind, index);
  }

  lemma OutTagRun(b: Binding, s: Parser, kind: byte)
    requires s.pc == VoutTag && 0 < s.vout <= b.outputs < TWO32
    ensures Run(b, s, [kind])
         == if kind == TXOUT_TO_KEY_TAG || kind == TXOUT_TO_TAGGED_KEY_TAG
            then Ok(s.(eph := Update(s.eph, Frame(kind, b.outputs - s.vout)), tag := kind, fieldOff := 0,
              pc := VoutKey))
            else Fail(SW_WRONG_DATA)
  {
    hide Run, Frame;
    RunOne(b, s, kind);
  }

  lemma OutputBody(b: Binding, s: Parser, key: bytes, viewTag: bytes)
    requires s.pc == VoutKey && s.fieldOff == 0 && |key| == KEY_SIZE
    requires |viewTag| == if s.tag == TXOUT_TO_TAGGED_KEY_TAG then 1 else 0
    ensures var t := s.(eph := Update(Update(s.eph, key), viewTag), fieldOff := KEY_SIZE);
      Run(b, s, key + viewTag)
      == FinishOutput(b, if s.tag == TXOUT_TO_TAGGED_KEY_TAG then t.(pc := VoutVtag) else t)
  {
    hide Run, FinishOutput;
    OutKeyRun(b, s, key);
    var s3 := s.(eph := Update(s.eph, key), fieldOff := KEY_SIZE);
    RunConcat(b, s, key, viewTag);
    if s.tag == TXOUT_TO_TAGGED_KEY_TAG {
      assert viewTag == [viewTag[0]];
      RunOne(b, s3.(pc := VoutVtag), viewTag[0]);
    } else {
      assert viewTag == [] && s3.eph.open + [] == s3.eph.open;
      ThenNothing(b, FinishOutput(b, s3));
    }
  }

  /** After output `index`: the next one, or the digest comparison. */
  lemma OutputForward(b: Binding, s: Parser, o: Output, index: nat) returns (t: Parser)
    requires AtOutput(b, s, index) && OutputOk(o)
    ensures t.eph == Update(s.eph, OutputEntry(o, index)) && SameFindings(s.(eph := t.eph), t)
    ensures index + 1 < b.outputs ==> Run(b, s, OutputBytes(o)) == Ok(t) && AtOutput(b, t, index + 1)
    ensures index + 1 == b.outputs ==> Run(b, s, OutputBytes(o)) == CloseOutputs(b, t)
  {
    hide Run, Value, Wire, Frame, CloseOutputs;
    OutputHead(b, s, o.amount, o.kind, index);
    var s2 := AtKey(s, o.amount, o.kind, index);
    OutputBody(b, s2, o.key, o.viewTag);
    RunConcat(b, s, o.amount + [o.kind], o.key + o.viewTag);
    assert OutputBytes(o) == o.amount + [o.kind] + (o.key + o.viewTag);
    assert s.eph.open + Frame(o.kind, index) + o.key + o.viewTag == s.eph.open + OutputEntry(o, index);
    t := s2.(eph := Update(s.eph, OutputEntry(o, index)), fieldOff := KEY_SIZE, vout := s.vout - 1,
             pc := if o.kind == TXOUT_TO_TAGGED_KEY_TAG then VoutVtag else VoutKey);
    if index + 1 < b.outputs { t := EnterVarint(t, VoutAmount); }
  }

  lemma ThenNothing(b: Binding, o: Outcome)
    ensures Then(b, o, []) == o
  {
  }

  lemma OutKeyPeel(b: Binding, s: Parser, bs: bytes)
    requires s.pc == VoutKey && s.fieldOff == 0 && Accepts(b, s, bs)
    ensures |bs| >= KEY_SIZE + (if s.tag == TXOUT_TO_TAGGED_KEY_TAG then 1 else 0)
  {
    hide FinishOutput;
    if |bs| < KEY_SIZE {
      OutKeyRun(b, s, bs);
    } else if |bs| == KEY_SIZE && s.tag == TXOUT_TO_TAGGED_KEY_TAG {
      OutKeyRun(b, s, bs);
    }
  }

  /** Amount and kind of an output, up to its key. */
  lemma OutputHeadPeel(b: Binding, s: Parser, index: nat, bs: bytes) returns (amount: bytes, kind: byte, body: bytes)
    requires AtOutput(b, s, index) && Accepts(b, s, bs)
    ensures Wire(amount) && bs == (amount + [kind]) + body
  {
    hide Run, Accepts, Wire, OnVarint, Feed, Value;
    var r;
    amount, r := VarintPeel(b, s, bs);
    OnAmount(b, s, amount);
    AcceptsSomething(b, OnVarint(b, WithVarint(s, amount)).p, r);
    kind, body := r[0], r[1..];
    assert r == [kind] + body;
  }

  lemma OnAmount(b: Binding, s: Parser, amount: bytes)
    requires s.pc == VoutAmount
    ensures OnVarint(b, WithVarint(s, amount)).Ok? && OnVarint(b, WithVarint(s, amount)).p.pc == VoutTag
  {
    hide Value;
  }

  lemma OutputPeel(b: Binding, s: Parser, index: nat, bs: bytes) returns (o: Output, rest: bytes)
    requires AtOutput(b, s, index) && Accepts(b, s, bs)
    ensures OutputOk(o) && bs == OutputBytes(o) + rest
  {
    hide Run, Accepts, Value, Wire, Frame, AtKey;
    var amount, kind, body := OutputHeadPeel(b, s, index, bs);
    OutputHead(b, s, amount, kind, index);
    AcceptsAfter(b, s, amount + [kind], body);
    KeyState(s, amount, kind, index);
    o, rest := BodyPeel(b, AtKey(s, amount, kind, index), amount, kind, index, body);
    ConcatThree(amount + [kind], o.key + o.viewTag, rest);
    assert OutputBytes(o) == (amount + [kind]) + (o.key + o.viewTag);
  }

  lemma ConcatThree(x: bytes, y: bytes, z: bytes)
    ensures x + (y + z) == (x + y) + z
  {
  }

  lemma KeyState(s: Parser, amount: bytes, kind: byte, index: nat)
    requires index < TWO32
    ensures AtKey(s, amount, kind, index).pc == VoutKey
    ensures AtKey(s, amount, kind, index).fieldOff == 0 && AtKey(s, amount, kind, index).tag == kind
  {
  }

  lemma BodyPeel(b: Binding, s: Parser, amount: bytes, kind: byte, index: nat, bs: bytes)
    returns (o: Output, rest: bytes)
    requires index < TWO32 && s.pc == VoutKey && s.fieldOff == 0 && s.tag == kind && Accepts(b, s, bs)
    requires Wire(amount) && (kind == TXOUT_TO_KEY_TAG || kind == TXOUT_TO_TAGGED_KEY_TAG)
    ensures OutputOk(o) && o.amount == amount && o.kind == kind && bs == o.key + o.viewTag + rest
  {
    hide Wire, Accepts;
    OutKeyPeel(b, s, bs);
    var n := if kind == TXOUT_TO_TAGGED_KEY_TAG then 1 else 0;
    o := Output(amount, kind, bs[..KEY_SIZE], bs[KEY_SIZE..KEY_SIZE + n]);
    rest := bs[KEY_SIZE + n..];
  }

  lemma {:induction false} OutputsForward(b: Binding, s: Parser, xs: seq<Output>, index: nat) returns (t: Parser)
    requires AtOutput(b, s, index) && |xs| == b.outputs - index && OutputsOk(xs)
    ensures Run(b, s, OutputsBytes(xs)) == CloseOutputs(b, t)
    ensures t.eph == Update(s.eph, OutputsTranscript(xs, index)) && SameFindings(s.(eph := t.eph), t)
    decreases xs
  {
    hide Run, OutputBytes, OutputOk, CloseOutputs, OutputEntry;
    var u := OutputForward(b, s, xs[0], index);
    RunConcat(b, s, OutputBytes(xs[0]), OutputsBytes(xs[1..]));
    if |xs| == 1 {
      t := u;
      assert OutputEntry(xs[0], index) + [] == OutputEntry(xs[0], index);
      ThenNothing(b, CloseOutputs(b, u));
    } else {
      t := OutputsForward(b, u, xs[1..], index + 1);
      assert s.eph.open + OutputEntry(xs[0], index) + OutputsTranscript(xs[1..], index + 1)
          == s.eph.open + (OutputEntry(xs[0], index) + OutputsTranscript(xs[1..], index + 1));
    }
  }

  lemma {:induction false} OutputsPeel(b: Binding, s: Parser, index: nat, bs: bytes)
    returns (xs: seq<Output>, rest: bytes)
    requires AtOutput(b, s, index) && Accepts(b, s, bs)
    ensures |xs| == b.outputs - index && OutputsOk(xs) && bs == OutputsBytes(xs) + rest
    decreases b.outputs - index
  {
    hide Accepts, OutputBytes, OutputOk, CloseOutputs, OutputEntry;
    var o, r := OutputPeel(b, s, index, bs);
    if index + 1 == b.outputs {
      xs, rest := [o], r;
      assert xs[1..] == [];
    } else {
      var u := OutputForward(b, s, o, index);
      AcceptsAfter(b, s, OutputBytes(o), r);
      var ys;
      ys, rest := OutputsPeel(b, u, index + 1, r);
      xs := [o] + ys;
      assert xs[1..] == ys;
      assert bs == OutputBytes(o) + (OutputsBytes(ys) + rest);
    }
  }
}
