/** The language of transaction prefixes, written down without the parser: a prefix is a
    tree, its bytes are the concatenation of its parts, and the bindings are conditions
    on the tree. PrefixAcceptance proves that the parser accepts exactly this language. */
module PrefixGrammar {
  import opened Bytes
  import opened Varint
  import opened Transcript
  import opened PrefixSpec

  datatype Input = Input(amount: bytes, count: bytes, offsets: seq<bytes>, image: bytes)

  datatype Output = Output(amount: bytes, kind: byte, key: bytes, viewTag: bytes)

  datatype Field =
    | MainKey(key: bytes)
    | AddKeys(count: bytes, keys: bytes)
    | Nonce(pid: bytes)
    | Tlv(tag: byte, length: bytes, body: bytes)
    | Padding(zeros: bytes)

  datatype Prefix = Prefix(
    vinCount: bytes, inputs: seq<Input>,
    voutCount: bytes, outputs: seq<Output>,
    extraLen: bytes, fields: seq<Field>)

  function InputBytes(x: Input): bytes
  {
    [TXIN_TO_KEY_TAG] + x.amount + x.count + Flatten(x.offsets) + x.image
  }

  predicate AllWire(vs: seq<bytes>)
  {
    forall i :: 0 <= i < |vs| ==> Wire(vs[i])
  }

  predicate InputOk(x: Input)
  {
    Wire(x.amount) && Wire(x.count) && Value(x.count) == |x.offsets| && AllWire(x.offsets) && |x.image| == KEY_SIZE
  }

  function InputsBytes(xs: seq<Input>): bytes
  {
    if xs == [] then [] else InputBytes(xs[0]) + InputsBytes(xs[1..])
  }

  predicate InputsOk(xs: seq<Input>)
  {
    forall i :: 0 <= i < |xs| ==> InputOk(xs[i])
  }

  function OutputBytes(o: Output): bytes
  {
    o.amount + [o.kind] + o.key + o.viewTag
  }

  predicate OutputOk(o: Output)
  {
    && Wire(o.amount) && |o.key| == KEY_SIZE
    && (o.kind == TXOUT_TO_KEY_TAG || o.kind == TXOUT_TO_TAGGED_KEY_TAG)
    && |o.viewTag| == if o.kind == TXOUT_TO_TAGGED_KEY_TAG then 1 else 0
  }

  function OutputsBytes(xs: seq<Output>): bytes
  {
    if xs == [] then [] else OutputBytes(xs[0]) + OutputsBytes(xs[1..])
  }

  predicate OutputsOk(xs: seq<Output>)
  {
    forall i :: 0 <= i < |xs| ==> OutputOk(xs[i])
  }

  /** What one output contributes to the OUT_EPH transcript at position `index`. */
  function OutputEntry(o: Output, index: nat): bytes
    requires index < TWO32
  {
    Frame(o.kind, index) + o.key + o.viewTag
  }

  function OutputsTranscript(xs: seq<Output>, index: nat): bytes
    requires index + |xs| <= TWO32
    decreases xs
  {
    if xs == [] then [] else OutputEntry(xs[0], index) + OutputsTranscript(xs[1..], index + 1)
  }

  /** What the fields before this one have established. */
  datatype Found = Found(r: bool, addk: bool, pid: bool, ctx: Ctx)

  const NOTHING_FOUND := Found(false, false, false, FRESH)

  function FieldBytes(f: Field): bytes
  {
    match f
    case MainKey(key) => [TX_EXTRA_TAG_PUBKEY] + key
    case AddKeys(count, keys) => [TX_EXTRA_TAG_ADDITIONAL_PUBKEYS] + count + keys
    case Nonce(pid) => [TX_EXTRA_NONCE, PID_NONCE_SIZE] + pid
    case Tlv(tag, length, body) => [tag] + length + body
    case Padding(zeros) => [TX_EXTRA_TAG_PADDING] + zeros
  }

  /** A field a real transaction may carry, after what was found before it. */
  predicate FieldOk(b: Binding, f: Field, fd: Found)
  {
    match f
    case MainKey(key) => !fd.r && key == b.mainKey
    case AddKeys(count, keys) =>
      && b.addkExpected && Wire(count) && Value(count) == b.outputs && |keys| == KEY_SIZE * b.outputs
      && b.sha(Update(fd.ctx, keys)) == b.addk
    case Nonce(pid) => b.pidSet && !fd.pid && pid == b.pidNonce
    case Tlv(tag, length, body) =>
      && (tag == TX_EXTRA_MERGE_MINING_TAG || tag == TX_EXTRA_MYSTERIOUS_MINERGATE_TAG)
      && Wire(length) && Value(length) == |body|
    case Padding(zeros) => AllZero(zeros) && |zeros| < TX_EXTRA_PADDING_MAX_COUNT
  }

  function Advance(fd: Found, f: Field): Found
  {
    match f
    case MainKey(_) => fd.(r := true)
    case AddKeys(_, keys) => fd.(addk := true, ctx := Final(Update(fd.ctx, keys)))
    case Nonce(_) => fd.(pid := true)
    case _ => fd
  }

  predicate Complete(b: Binding, fd: Found)
  {
    fd.r && (b.addkExpected ==> fd.addk) && (b.pidSet ==> fd.pid)
  }

  function FieldsBytes(fs: seq<Field>): bytes
  {
    if fs == [] then [] else FieldBytes(fs[0]) + FieldsBytes(fs[1..])
  }

  /** Padding carries no length, so it can only be the last field. */
  predicate FieldsOk(b: Binding, fs: seq<Field>, fd: Found)
    decreases fs
  {
    if fs == [] then Complete(b, fd)
    else
      && FieldOk(b, fs[0], fd) && (fs[0].Padding? ==> |fs| == 1)
      && FieldsOk(b, fs[1..], Advance(fd, fs[0]))
  }

  predicate EmptyRunField(f: Field)
  {
    (f.Tlv? && f.body == []) || (f.Padding? && f.zeros == [])
  }

  predicate EndsInEmptyRun(fs: seq<Field>)
  {
    fs != [] && EmptyRunField(fs[|fs| - 1])
  }

  function PrefixBytes(p: Prefix): bytes
  {
    p.vinCount + InputsBytes(p.inputs) + p.voutCount + OutputsBytes(p.outputs)
      + p.extraLen + FieldsBytes(p.fields)
  }

  /** A prefix this transaction may be signed with. */
  predicate Prefixed(b: Binding, p: Prefix)
    requires b.Valid()
  {
    && Wire(p.vinCount) && Value(p.vinCount) == |p.inputs| && InputsOk(p.inputs)
    && Wire(p.voutCount) && Value(p.voutCount) == |p.outputs| == b.outputs && OutputsOk(p.outputs)
    && Digest(b.sha, OutputsTranscript(p.outputs, 0)) == b.outEph
    && Wire(p.extraLen) && Value(p.extraLen) == |FieldsBytes(p.fields)|
    && FieldsOk(b, p.fields, NOTHING_FOUND)
  }

  /** `bs` is such a prefix and then anything; after a run of length zero at the very end
      of `extra` the parser needs one byte more to see that it is over. */
  predicate InLanguage(b: Binding, p: Prefix, suffix: bytes, bs: bytes)
    requires b.Valid()
  {
    Prefixed(b, p) && bs == PrefixBytes(p) + suffix && (EndsInEmptyRun(p.fields) ==> suffix != [])
  }
}
