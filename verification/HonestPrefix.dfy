/** A prefix that an ordinary transaction streams, and why the parser accepts it. */
module HonestPrefix {
  import opened Bytes
  import opened Transcript
  import opened Varint
  import PrefixSpec
  import PrefixSafety
  import opened PrefixGrammar
  import PrefixAcceptance
  import opened OutputBinding

  lemma WireOne(b: byte)
    requires b < 128
    ensures Wire([b]) && Value([b]) == b
  {
    assert [b][1..] == [];
  }

  /** The main key, the payment ID and the additional keys where there are any. */
  function FieldsFor(b: PrefixSpec.Binding, ks: seq<key>): seq<Field>
  {
    [MainKey(b.mainKey)] + (if b.pidSet then [Nonce(b.pidNonce)] else [])
      + if ks == [] then [] else [AddKeys(Encode(|ks|), Flatten(ks))]
  }

  /** A prefix with these inputs, the derived outputs, and the keys in `extra`. */
  function PrefixOf(b: PrefixSpec.Binding, inputs: seq<Input>, es: seq<Entry>, ks: seq<key>): Prefix
  {
    var fs := FieldsFor(b, ks);
    Prefix(Encode(|inputs|), inputs, Encode(|es|), OutputsOf(es), Encode(|FieldsBytes(fs)|), fs)
  }

  function OutputsOf(es: seq<Entry>): (xs: seq<Output>)
    ensures |xs| == |es| && forall i :: 0 <= i < |es| ==> xs[i] == Output([0], es[i].kind, es[i].key, es[i].viewTag)
  {
    seq(|es|, i requires 0 <= i < |es| => Output([0], es[i].kind, es[i].key, es[i].viewTag))
  }

  lemma OutputsFit(es: seq<Entry>)
    requires AllValid(es)
    ensures OutputsOk(OutputsOf(es)) && Signed(OutputsOf(es)) == es
  {
    hide Wire;
    WireOne(0);
  }

  /** What a host may stream for these outputs: one additional key for each of them, or none. */
  predicate Streamable(b: PrefixSpec.Binding, es: seq<Entry>, ks: seq<key>)
    requires |es| < TWO32
  {
    && b.Valid() && b.isReal && b.outputs == |es| && AllValid(es)
    && b.outEph == Digest(b.sha, Entries(es, 0)) && (b.addkExpected <==> ks != [])
    && (ks != [] ==> |ks| == |es| && b.addk == Digest(b.sha, Flatten(ks)))
  }

  lemma PrefixFits(b: PrefixSpec.Binding, inputs: seq<Input>, es: seq<Entry>, ks: seq<key>)
    requires |es| < TWO32 && Streamable(b, es, ks) && InputsOk(inputs) && |inputs| < TWO64
    ensures PrefixSpec.Accepts(b, PrefixSpec.RESET, PrefixBytes(PrefixOf(b, inputs, es, ks)))
  {
    hide PrefixSpec.Accepts, Wire, Value, Encode, InputsOk, OutputsOk, AllValid, Entries, OutputsBytes, InputsBytes,
      FieldsBytes, FieldsOk, FieldsFor, Flatten;
    var p := PrefixOf(b, inputs, es, ks);
    OutputsFit(es);
    EncodeIsWire(|inputs|);
    EncodeIsWire(|es|);
    SignedTranscript(p.outputs, 0);
    FieldsFit(b, es, ks);
    EncodeIsWire(|FieldsBytes(p.fields)|);
    assert Prefixed(b, p);
    assert PrefixBytes(p) == PrefixBytes(p) + [];
    assert InLanguage(b, p, [], PrefixBytes(p));
    PrefixAcceptance.AcceptsExactlyTheLanguage(b, PrefixBytes(p));
  }

  /** Fields that complete what was found, of at most `n` bytes. */
  predicate Completing(b: PrefixSpec.Binding, fs: seq<Field>, found: Found, n: nat)
  {
    FieldsOk(b, fs, found) && |FieldsBytes(fs)| <= n && !EndsInEmptyRun(fs)
  }

  lemma OneMore(b: PrefixSpec.Binding, f: Field, fs: seq<Field>, found: Found, n: nat)
    requires FieldOk(b, f, found) && !f.Padding? && !f.Tlv? && Completing(b, fs, Advance(found, f), n)
    ensures Completing(b, [f] + fs, found, n + |FieldBytes(f)|)
  {
    assert ([f] + fs)[1..] == fs && ([f] + fs)[0] == f;
  }

  /** The additional keys come last. */
  lemma KeysFit(b: PrefixSpec.Binding, es: seq<Entry>, ks: seq<key>, found: Found)
    requires |es| < TWO32 && Streamable(b, es, ks)
    requires found.r && (b.pidSet ==> found.pid) && !found.addk && found.ctx == FRESH
    ensures Completing(b, if ks == [] then [] else [AddKeys(Encode(|ks|), Flatten(ks))], found, 11 + KEY_SIZE * |ks|)
  {
    hide Wire, Value, Encode, AllValid, Entries, Flatten;
    if ks != [] {
      var f := AddKeys(Encode(|ks|), Flatten(ks));
      EncodeIsWire(|ks|);
      EncodeShort(|ks|);
      FlatKeys(ks);
      assert [] + Flatten(ks) == Flatten(ks);
      assert FieldOk(b, f, found);
      assert Completing(b, [], Advance(found, f), 0);
      OneMore(b, f, [], found, 0);
      assert [f] + [] == [f];
    }
  }

  lemma FieldsFit(b: PrefixSpec.Binding, es: seq<Entry>, ks: seq<key>)
    requires |es| < TWO32 && Streamable(b, es, ks)
    ensures FieldsOk(b, FieldsFor(b, ks), NOTHING_FOUND) && |FieldsBytes(FieldsFor(b, ks))| < TWO64
    ensures !EndsInEmptyRun(FieldsFor(b, ks))
  {
    hide Wire, Value, Encode, AllValid, Entries, Flatten, FieldsOk, FieldsBytes, EndsInEmptyRun;
    var last := if ks == [] then [] else [AddKeys(Encode(|ks|), Flatten(ks))];
    var main, n := MainKey(b.mainKey), 11 + KEY_SIZE * |ks|;
    var found := Advance(NOTHING_FOUND, main);
    if b.pidSet {
      var id := Nonce(b.pidNonce);
      KeysFit(b, es, ks, Advance(found, id));
      OneMore(b, id, last, found, n);
      OneMore(b, main, [id] + last, NOTHING_FOUND, n + |FieldBytes(id)|);
      assert FieldsFor(b, ks) == [main] + ([id] + last);
    } else {
      KeysFit(b, es, ks, found);
      OneMore(b, main, last, NOTHING_FOUND, n);
      assert FieldsFor(b, ks) == [main] + last;
    }
  }

  lemma EncodeShort(n: nat)
    requires n < TWO64
    ensures |Encode(n)| <= 10
  {
    hide Encode, Value;
    EncodeIsWire(n);
  }

  lemma {:induction false} FlatKeys(ks: seq<key>)
    ensures |Flatten(ks)| == KEY_SIZE * |ks|
  {
    if ks != [] { FlatKeys(ks[1..]); }
  }

  lemma FinishesParser(b: PrefixSpec.Binding, bs: bytes)
    requires b.Valid() && PrefixSpec.Accepts(b, PrefixSpec.RESET, bs)
    ensures var o := PrefixSpec.Run(b, PrefixSpec.RESET, bs); o.Ok? && o.p.done
  {
    hide PrefixSpec.Run;
    PrefixSafety.ResetSafe(b);
    PrefixSafety.RunSafe(b, PrefixSpec.RESET, bs);
  }
}
