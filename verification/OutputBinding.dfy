/** Why the OUT_EPH digest pins the signed outputs: the framed transcript is uniquely
    decodable, so equal digests mean equal lists of outputs, or a hash collision. */
module OutputBinding {
  import opened Bytes
  import opened Transcript
  import opened PrefixSpec
  import opened PrefixSafety
  import opened PrefixGrammar
  import opened PrefixAcceptance

  /** One output as it is derived, and as it is signed. */
  datatype Entry = Entry(kind: byte, key: bytes, viewTag: bytes)
  {
    predicate Valid()
    {
      && (kind == TXOUT_TO_KEY_TAG || kind == TXOUT_TO_TAGGED_KEY_TAG) && |key| == KEY_SIZE
      && |viewTag| == if kind == TXOUT_TO_TAGGED_KEY_TAG then 1 else 0
    }
  }

  function EntryBytes(e: Entry, index: nat): bytes
  {
    Frame(e.kind, index % TWO32) + e.key + e.viewTag
  }

  /** The transcript of a list of outputs, the first at position `index`; positions are
      `unsigned int`. */
  function Entries(es: seq<Entry>, index: nat): bytes
    decreases es
  {
    if es == [] then [] else EntryBytes(es[0], index) + Entries(es[1..], index + 1)
  }

  predicate AllValid(es: seq<Entry>)
  {
    forall i :: 0 <= i < |es| ==> es[i].Valid()
  }

  /** How the deriving side builds it: one entry appended per output. */
  lemma {:induction false} EntriesSnoc(es: seq<Entry>, e: Entry, index: nat)
    ensures Entries(es + [e], index) == Entries(es, index) + EntryBytes(e, index + |es|)
    decreases es
  {
    hide EntryBytes;
    if es == [] {
      assert es + [e] == [e] && [e][1..] == [];
    } else {
      assert (es + [e])[1..] == es[1..] + [e];
      EntriesSnoc(es[1..], e, index + 1);
    }
  }

  /** An entry's first byte says how long it is, so nothing can be shifted across. */
  lemma FirstEntry(x: Entry, y: Entry, i: nat, r: bytes, q: bytes)
    requires x.Valid() && y.Valid() && EntryBytes(x, i) + r == EntryBytes(y, i) + q
    ensures x == y && r == q
  {
    hide Frame;
    var n := |EntryBytes(x, i)|;
    var s := EntryBytes(x, i) + r;
    assert s[0] == x.kind by { FrameShape(x.kind, i); }
    assert s[0] == y.kind by { FrameShape(y.kind, i); }
    FrameShape(x.kind, i);
    assert s[..n] == EntryBytes(x, i) && s[n..] == r;
    assert s[..n] == EntryBytes(y, i) && s[n..] == q;
    assert s[5..37] == x.key && s[37..n] == x.viewTag;
    assert s[5..37] == y.key && s[37..n] == y.viewTag;
  }

  lemma FrameShape(kind: byte, i: nat)
    ensures |Frame(kind, i % TWO32)| == 5 && Frame(kind, i % TWO32)[0] == kind
  {
  }

  /** Unique decodability of the framed transcript. */
  lemma {:induction false} EntriesInjective(a: seq<Entry>, c: seq<Entry>, i: nat)
    requires AllValid(a) && AllValid(c) && Entries(a, i) == Entries(c, i)
    ensures a == c
    decreases a
  {
    hide EntryBytes;
    if a == [] || c == [] {
      EntriesEmpty(a, i);
      EntriesEmpty(c, i);
    } else {
      FirstEntry(a[0], c[0], i, Entries(a[1..], i + 1), Entries(c[1..], i + 1));
      EntriesInjective(a[1..], c[1..], i + 1);
    }
  }

  lemma EntriesEmpty(a: seq<Entry>, i: nat)
    ensures Entries(a, i) == [] <==> a == []
  {
    if a != [] { FrameShape(a[0].kind, i); }
  }

  function EntryOf(o: Output): Entry
  {
    Entry(o.kind, o.key, o.viewTag)
  }

  /** What the prefix signs, output by output. */
  function Signed(xs: seq<Output>): (es: seq<Entry>)
    ensures |es| == |xs| && forall i :: 0 <= i < |xs| ==> es[i] == EntryOf(xs[i])
  {
    seq(|xs|, i requires 0 <= i < |xs| => EntryOf(xs[i]))
  }

  lemma {:induction false} SignedTranscript(xs: seq<Output>, i: nat)
    requires i + |xs| <= TWO32
    ensures OutputsTranscript(xs, i) == Entries(Signed(xs), i)
    decreases xs
  {
    hide Frame;
    if xs != [] {
      assert Signed(xs)[1..] == Signed(xs[1..]);
      SignedTranscript(xs[1..], i + 1);
    }
  }

  /** The prefix signs the derived outputs, or two explicit byte strings collide. */
  predicate SignsOnly(b: Binding, p: Prefix, derived: seq<Entry>)
  {
    Signed(p.outputs) == derived || Collision(b.sha, Entries(Signed(p.outputs), 0), Entries(derived, 0))
  }

  /** When the parser accepts, the signed outputs are the derived ones: same number, and
      entry by entry the same kind, position, one-time key and view tag. */
  lemma SignedIsDerived(b: Binding, bs: bytes, derived: seq<Entry>)
    requires Sound(b) && b.isReal && AllValid(derived) && b.outEph == Digest(b.sha, Entries(derived, 0))
    requires Accepts(b, RESET, bs)
    ensures exists p, suffix :: InLanguage(b, p, suffix, bs) && SignsOnly(b, p, derived)
  {
    hide Accepts, FieldsOk, EndsInEmptyRun, Entries;
    AcceptsExactlyTheLanguage(b, bs);
    var p, suffix :| InLanguage(b, p, suffix, bs);
    SignedTranscript(p.outputs, 0);
    if Entries(Signed(p.outputs), 0) == Entries(derived, 0) {
      EntriesInjective(Signed(p.outputs), derived, 0);
    }
  }
}
