/** The prefix parser accepts exactly the language of PrefixGrammar. */
module PrefixAcceptance {
  import opened Bytes
  import opened Varint
  import opened Transcript
  import opened PrefixSpec
  import opened PrefixSafety
  import opened PrefixGrammar
  import opened PrefixPieces
  import opened PrefixExtra

  /** The output section done: its digest matched, and nothing of `extra` was seen yet. */
  predicate AtExtra(b: Binding, s: Parser)
  {
    && Started(s, ExtraLen) && s.addk == FRESH && !s.rFound && !s.addkFound && !s.pidFound
    && (b.addkExpected ==> b.outputs > 0)
  }

  predicate Clean(s: Parser)
  {
    s.eph == FRESH && s.addk == FRESH && !s.rFound && !s.addkFound && !s.pidFound
  }

  predicate InputSection(count: bytes, inputs: seq<Input>)
  {
    Wire(count) && Value(count) == |inputs| && InputsOk(inputs)
  }

  lemma InputsSectionForward(b: Binding, count: bytes, inputs: seq<Input>) returns (t: Parser)
    requires InputSection(count, inputs)
    ensures Run(b, RESET, count + InputsBytes(inputs)) == Ok(t) && Started(t, VoutCnt) && Clean(t)
  {
    hide Run, Wire, Value, InputsOk;
    VarintForward(b, RESET, count);
    WireFits(count);
    RunConcat(b, RESET, count, InputsBytes(inputs));
    var u := OnVarint(b, WithVarint(RESET, count)).p;
    if inputs == [] {
      t := u;
      RunEmpty(b, u);
    } else {
      t := InputsForward(b, u, inputs);
    }
  }

  lemma InputsSectionPeel(b: Binding, bs: bytes) returns (count: bytes, inputs: seq<Input>, rest: bytes)
    requires Accepts(b, RESET, bs)
    ensures InputSection(count, inputs) && bs == count + InputsBytes(inputs) + rest
  {
    hide Accepts, Run, Wire, Value, InputsOk;
    var r;
    count, r := VarintPeel(b, RESET, bs);
    WireFits(count);
    if Value(count) == 0 {
      inputs, rest := [], r;
      NoInputs();
    } else {
      inputs, rest := InputsPeel(b, OnVarint(b, WithVarint(RESET, count)).p, r);
    }
  }

  lemma NoInputs()
    ensures InputsOk([]) && InputsBytes([]) == []
  {
  }

  predicate OutputSection(b: Binding, count: bytes, outputs: seq<Output>)
    requires b.Valid()
  {
    && Wire(count) && Value(count) == |outputs| == b.outputs && OutputsOk(outputs)
    && Digest(b.sha, OutputsTranscript(outputs, 0)) == b.outEph
  }

  lemma OutputSectionForward(b: Binding, s: Parser, count: bytes, outputs: seq<Output>) returns (t: Parser)
    requires Sound(b) && Started(s, VoutCnt) && Clean(s) && OutputSection(b, count, outputs)
    ensures Run(b, s, count + OutputsBytes(outputs)) == Ok(t) && AtExtra(b, t)
  {
    hide Run, Wire, Value, OutputsOk;
    VarintForward(b, s, count);
    RunConcat(b, s, count, OutputsBytes(outputs));
    var o := OnVarint(b, WithVarint(s, count));
    if outputs == [] {
      t := o.p;
      RunEmpty(b, t);
    } else {
      var u := OutputsForward(b, o.p, outputs, 0);
      assert Update(FRESH, OutputsTranscript(outputs, 0)) == Ctx([], OutputsTranscript(outputs, 0));
      t := CloseOutputs(b, u).p;
    }
  }

  lemma OutputSectionPeel(b: Binding, s: Parser, bs: bytes) returns (count: bytes, outputs: seq<Output>, rest: bytes)
    requires Sound(b) && Started(s, VoutCnt) && Clean(s) && Accepts(b, s, bs)
    ensures OutputSection(b, count, outputs) && bs == count + OutputsBytes(outputs) + rest
  {
    hide Accepts, Run, Wire, Value, OutputsOk;
    var r;
    count, r := VarintPeel(b, s, bs);
    var o := OnVarint(b, WithVarint(s, count));
    if b.outputs == 0 {
      outputs, rest := [], r;
      NoOutputs();
    } else {
      outputs, rest := OutputsPeel(b, o.p, 0, r);
      var u := OutputsForward(b, o.p, outputs, 0);
      assert Update(FRESH, OutputsTranscript(outputs, 0)) == Ctx([], OutputsTranscript(outputs, 0));
      AcceptsAfter(b, o.p, OutputsBytes(outputs), rest);
    }
  }

  lemma NoOutputs()
    ensures OutputsOk([]) && OutputsBytes([]) == []
  {
  }

  predicate ExtraSection(b: Binding, length: bytes, fields: seq<Field>)
  {
    Wire(length) && Value(length) == |FieldsBytes(fields)| && FieldsOk(b, fields, NOTHING_FOUND)
  }

  lemma ExtraForward(b: Binding, s: Parser, length: bytes, fields: seq<Field>, y: bytes)
    requires b.Valid() && b.isReal && AtExtra(b, s) && ExtraSection(b, length, fields)
    requires EndsInEmptyRun(fields) ==> y != []
    ensures Accepts(b, s, length + FieldsBytes(fields) + y)
  {
    hide Accepts, Run, Wire, Value, FieldBytes, FieldOk;
    FieldsEmpty(fields);
    WireFits(length);
    VarintForward(b, s, length);
    var t := WithVarint(s, length).(extra := Value(length), pc := ExtraTag);
    FieldsForward(b, t, fields, y);
    AcceptsAfter(b, s, length, FieldsBytes(fields) + y);
    assert length + (FieldsBytes(fields) + y) == length + FieldsBytes(fields) + y;
  }

  lemma ExtraPeel(b: Binding, s: Parser, bs: bytes) returns (length: bytes, fields: seq<Field>, y: bytes)
    requires b.Valid() && b.isReal && AtExtra(b, s) && Accepts(b, s, bs)
    ensures ExtraSection(b, length, fields) && bs == length + FieldsBytes(fields) + y
    ensures EndsInEmptyRun(fields) ==> y != []
  {
    hide Accepts, Run, Wire, Value, FieldsOk, EndsInEmptyRun;
    var r;
    length, r := VarintPeel(b, s, bs);
    WireFits(length);
    fields, y := FieldsPeel(b, OnVarint(b, WithVarint(s, length)).p, r);
  }

  lemma PrefixConcat(p: Prefix, y: bytes)
    ensures (p.vinCount + InputsBytes(p.inputs))
              + ((p.voutCount + OutputsBytes(p.outputs)) + ((p.extraLen + FieldsBytes(p.fields)) + y))
         == PrefixBytes(p) + y
  {
    hide InputsBytes, OutputsBytes, FieldsBytes;
  }

  lemma PrefixForward(b: Binding, p: Prefix, suffix: bytes)
    requires Sound(b) && b.isReal && Prefixed(b, p) && (EndsInEmptyRun(p.fields) ==> suffix != [])
    ensures Accepts(b, RESET, PrefixBytes(p) + suffix)
  {
    hide Accepts, Run, Wire, Value, FieldsOk, EndsInEmptyRun, InputsOk, OutputsOk, PrefixBytes;
    var head := p.vinCount + InputsBytes(p.inputs);
    var mid := p.voutCount + OutputsBytes(p.outputs);
    var tail := p.extraLen + FieldsBytes(p.fields) + suffix;
    var t := InputsSectionForward(b, p.vinCount, p.inputs);
    var u := OutputSectionForward(b, t, p.voutCount, p.outputs);
    ExtraForward(b, u, p.extraLen, p.fields, suffix);
    AcceptsAfter(b, t, mid, tail);
    AcceptsAfter(b, RESET, head, mid + tail);
    PrefixConcat(p, suffix);
  }

  lemma PrefixPeel(b: Binding, bs: bytes) returns (p: Prefix, suffix: bytes)
    requires Sound(b) && b.isReal && Accepts(b, RESET, bs)
    ensures InLanguage(b, p, suffix, bs)
  {
    hide Accepts, Run, Wire, Value, FieldsOk, EndsInEmptyRun, InputsOk, OutputsOk, PrefixBytes;
    var vc, inputs, r := InputsSectionPeel(b, bs);
    var t := InputsSectionForward(b, vc, inputs);
    AcceptsAfter(b, RESET, vc + InputsBytes(inputs), r);
    var oc, outputs, q := OutputSectionPeel(b, t, r);
    var u := OutputSectionForward(b, t, oc, outputs);
    AcceptsAfter(b, t, oc + OutputsBytes(outputs), q);
    var len, fields, y := ExtraPeel(b, u, q);
    p, suffix := Prefix(vc, inputs, oc, outputs, len, fields), y;
    PrefixConcat(p, y);
  }

  lemma AcceptsWhenSound(b: Binding, bs: bytes)
    requires Sound(b) && b.isReal
    ensures Accepts(b, RESET, bs) <==> exists p, suffix :: InLanguage(b, p, suffix, bs)
  {
    hide Accepts, Prefixed, EndsInEmptyRun;
    if Accepts(b, RESET, bs) { var p, suffix := PrefixPeel(b, bs); }
    if p, suffix :| InLanguage(b, p, suffix, bs) { PrefixForward(b, p, suffix); }
  }

  /** Exact acceptance. From reset, in a real transaction, a byte string leaves the parser
      finished exactly when the configuration is sound and the string is a prefix of the
      language followed by anything, with at least one byte more when `extra` ends in a run of
      length zero. (A string of 2^64 keys may also do so in a configuration that is not.) */
  lemma AcceptsExactlyTheLanguage(b: Binding, bs: bytes)
    requires b.Valid() && b.isReal
    ensures Sound(b) || |bs| < KEY_SIZE * TWO64 ==>
      (Accepts(b, RESET, bs) <==> Sound(b) && exists p, suffix :: InLanguage(b, p, suffix, bs))
  {
    hide Accepts, InLanguage, Sound;
    if Sound(b) {
      AcceptsWhenSound(b, bs);
    } else if Accepts(b, RESET, bs) {
      UnsoundAccepts(b, bs);
    }
  }

  // --- what acceptance says about the fields of extra -------------------------------

  function CountMainKeys(fs: seq<Field>): nat
  {
    if fs == [] then 0 else (if fs[0].MainKey? then 1 else 0) + CountMainKeys(fs[1..])
  }

  function CountNonces(fs: seq<Field>): nat
  {
    if fs == [] then 0 else (if fs[0].Nonce? then 1 else 0) + CountNonces(fs[1..])
  }

  /** `extra` carries exactly one main key, and it is R; exactly one nonce, and it is the
      retained payment ID, or none when none was retained; and additional keys, one per
      output each time, exactly when the device made some. */
  lemma {:induction false} FieldsBindings(b: Binding, fs: seq<Field>, fd: Found)
    requires FieldsOk(b, fs, fd) && (fd.pid ==> b.pidSet) && (fd.addk ==> b.addkExpected)
    ensures CountMainKeys(fs) == if fd.r then 0 else 1
    ensures CountNonces(fs) == if b.pidSet && !fd.pid then 1 else 0
    ensures forall i :: 0 <= i < |fs| && fs[i].MainKey? ==> fs[i].key == b.mainKey
    ensures forall i :: 0 <= i < |fs| && fs[i].Nonce? ==> fs[i].pid == b.pidNonce
    ensures forall i :: 0 <= i < |fs| && fs[i].AddKeys? ==> b.addkExpected && |fs[i].keys| == KEY_SIZE * b.outputs
    ensures b.addkExpected && !fd.addk ==> exists i :: 0 <= i < |fs| && fs[i].AddKeys?
    decreases fs
  {
    if fs != [] {
      var gs := fs[1..];
      FieldsBindings(b, gs, Advance(fd, fs[0]));
      assert forall i :: 1 <= i < |fs| ==> fs[i] == gs[i - 1];
      if b.addkExpected && !fd.addk && !fs[0].AddKeys? {
        var j :| 0 <= j < |gs| && gs[j].AddKeys?;
        assert fs[j + 1].AddKeys?;
      }
    }
  }

  /** The first 0x04 block holds the very keys the device chained, or its hash collides. */
  lemma {:induction false} FirstAddKeys(b: Binding, fs: seq<Field>, fd: Found, made: bytes, i: nat)
    requires FieldsOk(b, fs, fd) && fd.ctx == FRESH && b.addk == Digest(b.sha, made)
    requires i < |fs| && fs[i].AddKeys? && forall j :: 0 <= j < i ==> !fs[j].AddKeys?
    ensures fs[i].keys == made || Collision(b.sha, fs[i].keys, made)
    decreases fs
  {
    if i == 0 {
      assert Update(FRESH, fs[0].keys) == Ctx([], fs[0].keys);
    } else {
      FirstAddKeys(b, fs[1..], Advance(fd, fs[0]), made, i - 1);
    }
  }
}
