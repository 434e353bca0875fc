/** What the recipients the user reviewed get: each finds its output in the prefix that is
    signed, and the payment ID shown with it. */
module Recipients {
  import opened Bytes
  import opened Transcript
  import opened Group
  import opened OutputBinding
  import opened DeviceState
  import opened DeviceSpec
  import opened DeviceRuns
  import opened Ordering
  import PrefixGrammar
  import opened PrefixBinding
  import opened ReviewBinding
  import opened OutputKeys

  // --- the same outputs on both ledgers ---------------------------------------------------------

  lemma Recorded(s: Stream, l: Ledger, n: Note)
    ensures
      var t, m := Record(s, n), Tally(l, n);
      if n.Derived? then
        && t.entries == s.entries + [n.entry] && t.mains == s.mains + [n.mainKey] && m.derived == l.derived + [n.rec]
        && t.addKeys == s.addKeys + if n.addKey.Some? then [n.addKey.value] else []
      else if Boundary(n) then t == NO_STREAM && m == EMPTY
      else t.entries == s.entries && t.mains == s.mains && t.addKeys == s.addKeys && m.derived == l.derived
  {
  }

  lemma {:induction false} SameLength(ns: seq<Note>)
    ensures
      var s, l := StreamOf(ns), LedgerOf(ns);
      |s.mains| == |s.entries| == |l.derived| && |s.addKeys| <= |s.entries|
  {
    hide Record, Tally;
    if ns != [] {
      var ms := ns[..|ns| - 1];
      SameLength(ms);
      Recorded(StreamOf(ms), LedgerOf(ms), ns[|ns| - 1]);
    }
  }

  /** `ns[m]` derived the output at place `i` of the transaction in progress. */
  predicate Place(ns: seq<Note>, i: nat, m: nat)
  {
    var s, l := StreamOf(ns), LedgerOf(ns);
    && m < |ns| && ns[m].Derived? && i < |s.entries| == |s.mains| == |l.derived|
    && ns[m].entry == s.entries[i] && ns[m].mainKey == s.mains[i] && ns[m].rec == l.derived[i]
    && (|s.addKeys| == |s.entries| ==> ns[m].addKey == Some(s.addKeys[i]))
    && (ns[m].addKey.Some? ==> s.addKeys != [])
    && |StreamOf(ns[..m]).entries| == i
    && forall k :: m < k < |ns| ==> !Boundary(ns[k])
  }

  lemma {:induction false} PlaceOf(ns: seq<Note>, i: nat) returns (m: nat)
    requires i < |StreamOf(ns).entries|
    ensures Place(ns, i, m)
  {
    hide Record, Tally;
    var last := |ns| - 1;
    var ms := ns[..last];
    Recorded(StreamOf(ms), LedgerOf(ms), ns[last]);
    SameLength(ms);
    if i < |StreamOf(ms).entries| {
      m := PlaceOf(ms, i);
      assert ms[..m] == ns[..m];
      assert forall k :: 0 <= k < last ==> ms[k] == ns[k];
    } else {
      m := last;
    }
  }

  /** Steps that derive nothing and are no boundary leave what was derived. */
  lemma {:induction false} SameDerived(ns: seq<Note>, p: nat)
    requires p <= |ns| && forall i :: p <= i < |ns| ==> !Boundary(ns[i]) && !ns[i].Derived?
    ensures LedgerOf(ns).derived == LedgerOf(ns[..p]).derived && StreamOf(ns).entries == StreamOf(ns[..p]).entries
    decreases |ns|
  {
    hide Record, Tally;
    if p == |ns| {
      assert ns[..p] == ns;
    } else {
      var ms := ns[..|ns| - 1];
      assert ms[..p] == ns[..p];
      SameDerived(ms, p);
      Recorded(StreamOf(ms), LedgerOf(ms), ns[|ns| - 1]);
    }
  }

  // --- the output a recipient finds -------------------------------------------------------------

  /** The key a recipient starts from is the main key, or the additional key at its place. */
  predicate OwnKey(s: Stream, x: Note, i: nat)
    requires x.Derived? && s.mains != []
  {
    || ScannedNote(x) == s.mains[|s.mains| - 1]
    || (|s.addKeys| == |s.entries| && i < |s.addKeys| && ScannedNote(x) == s.addKeys[i])
  }

  /** The first block of additional keys and the derived ones have one digest and differ. */
  ghost predicate BlockCollides(e: Env, s: Stream, fs: seq<PrefixGrammar.Field>)
  {
    exists k: nat :: FirstBlock(fs, k) && Collision(e.sha, fs[k].keys, Flatten(s.addKeys))
  }

  /** The prefix streamed carries the derived outputs, and the key that the recipient of the
      output at place `i` starts from; or explicit byte strings collide. */
  ghost predicate CarriesFor(e: Env, s: Stream, x: Note, i: nat)
    requires s.mains != [] && x.Derived?
  {
    var b := BindingFor(e, s);
    || (exists p, suffix :: PrefixGrammar.InLanguage(b, p, suffix, s.streamed) && SignsOnly(b, p, s.entries)
                         && ExtraCarries(e, s, p.fields) && (OwnKey(s, x, i) || BlockCollides(e, s, p.fields)))
    || (Collision(e.sha, [], Entries(s.entries, 0)) && |s.streamed| >= KEY_SIZE * TWO64)
  }

  lemma {:induction false} KeysLength(ks: seq<key>)
    ensures |Flatten(ks)| == KEY_SIZE * |ks|
  {
    if ks != [] { KeysLength(ks[1..]); }
  }

  /** Additional keys are in the prefix for every output or for none, or the block collides. */
  lemma BlockCounts(e: Env, s: Stream, fs: seq<PrefixGrammar.Field>)
    requires s.mains != [] && 0 < |s.entries| <= TWO32 && ExtraCarries(e, s, fs)
    ensures s.addKeys == [] || |s.addKeys| == |s.entries| || BlockCollides(e, s, fs)
  {
    hide Flatten;
    if s.addKeys != [] {
      var k: nat :| FirstBlock(fs, k)
        && (fs[k].keys == Flatten(s.addKeys) || Collision(e.sha, fs[k].keys, Flatten(s.addKeys)));
      KeysLength(s.addKeys);
    }
  }

  lemma CarriesOwn(e: Env, s: Stream, x: Note, i: nat)
    requires s.mains != [] && x.Derived? && 0 < |s.entries| <= TWO32 && CarriesDerived(e, s)
    requires s.addKeys == [] || |s.addKeys| == |s.entries| ==> OwnKey(s, x, i)
    ensures CarriesFor(e, s, x, i)
  {
    hide OwnKey, BlockCollides, ExtraCarries, SignsOnly, PrefixGrammar.InLanguage, Entries;
    if p, suffix :| PrefixGrammar.InLanguage(BindingFor(e, s), p, suffix, s.streamed)
                    && SignsOnly(BindingFor(e, s), p, s.entries) && ExtraCarries(e, s, p.fields) {
      BlockCounts(e, s, p.fields);
    }
  }

  /** Main result: when the prefix is finalized, the bytes streamed carry the derived outputs,
      and the owner of the output at place `i` finds it from a key in `extra`: the main key,
      or the additional key at that place. */
  lemma RecoverableFromPrefix<P(!new)>(e: Env, g: Curve<P>, b: P, enc: P -> key, evs: seq<Event>, n: nat, i: nat)
    returns (m: nat)
    requires OnCurve(e, g, b, enc)
    requires n < |Play(e, evs).notes| && Play(e, evs).notes[n].PrefixChunk? && Play(e, evs).notes[n].last
    requires i < |StreamOf(Play(e, evs).notes[..n]).entries| <= TWO32
    ensures Place(Play(e, evs).notes[..n], i, m)
    ensures
      var x, s := Play(e, evs).notes[m], Record(StreamOf(Play(e, evs).notes[..n]), Play(e, evs).notes[n]);
      && s.mains != [] && s.entries == StreamOf(Play(e, evs).notes[..n]).entries && CarriesFor(e, s, x, i)
      && x.mainKey == s.mains[|s.mains| - 1]
      && forall a: key, spend: P :: OwnedBy(e, g, b, enc, x.rec, a, spend) ==> FoundAt(e, x, i, ScannedNote(x), a)
  {
    hide Play, OnCurve, OwnedBy, StreamOf, LedgerOf, CarriesDerived, CarriesFor, FoundAt, Record, Tally;
    var ns := Play(e, evs).notes;
    FinalizedPrefixIsDerived(e, evs, n);
    Recorded(StreamOf(ns[..n]), LedgerOf(ns[..n]), ns[n]);
    m := PlaceOf(ns[..n], i);
    assert ns[..n][..m] == ns[..m];
    CarriesOwn(e, Record(StreamOf(ns[..n]), ns[n]), ns[m], i);
    forall a: key, spend: P | OwnedBy(e, g, b, enc, ns[m].rec, a, spend)
      ensures FoundAt(e, ns[m], i, ScannedNote(ns[m]), a)
    {
      DerivedRecoverable(e, g, b, enc, evs, m, a, spend);
    }
  }

  // --- the output the user reviewed -------------------------------------------------------------

  /** Nothing was derived between the end of the prefix and a later step of the transaction. */
  lemma DerivedBefore(ns: seq<Note>, n: nat, q: nat)
    requires n < |ns| && TrailOf(ns[..n]).prefix < q < n && Complete(ns, n, TrailOf(ns[..n]))
    ensures
      var p := TrailOf(ns[..n]).prefix;
      && LedgerOf(ns[..q]).derived == LedgerOf(ns[..p]).derived
      && StreamOf(ns[..q]).entries == StreamOf(ns[..p]).entries
  {
    hide TrailOf, LedgerOf, StreamOf;
    TrailLatest(ns[..n]);
    var p := TrailOf(ns[..n]).prefix;
    assert ns[..q][..p] == ns[..p];
    SameDerived(ns[..q], p);
  }

  /** The transaction before `n` had one terminal step, which made `i` one of the places
      reviewed, and an output count that did not wrap. */
  predicate ReviewedOnce(ns: seq<Note>, n: nat, i: nat)
    requires n < |ns|
  {
    var t := TrailOf(ns[..n]);
    Complete(ns, n, t) ==>
      && LedgerOf(ns[..t.terminal]).terminals == 0 && i <= |LedgerOf(ns[..t.terminal]).reviewed|
      && |StreamOf(ns[..t.prefix]).entries| <= TWO32
  }

  /** End to end, for every real response of every run whose review had one terminal step: the
      output at place `i` of those reviewed is the one at place `i` of the prefix that is
      signed, carried with the key its recipient starts from, and the recipient reviewed finds
      it there; or the two lists of 98-byte records collide. */
  lemma ReviewedRecipientFinds<P(!new)>(e: Env, g: Curve<P>, b: P, enc: P -> key, evs: seq<Event>, n: nat, i: nat)
    returns (m: nat)
    requires OnCurve(e, g, b, enc) && n < |Play(e, evs).notes| && Play(e, evs).notes[n].Signed?
    requires ReviewedOnce(Play(e, evs).notes, n, i)
    ensures
      var ns := Play(e, evs).notes;
      var t := TrailOf(ns[..n]);
      && Complete(ns, n, t)
      && var l, s := LedgerOf(ns[..t.terminal]), Record(StreamOf(ns[..t.prefix]), ns[t.prefix]);
      var reviewed := l.reviewed + [ns[t.terminal].rec];
      || Collision(e.sha, Recs(reviewed), Recs(l.derived))
      || (&& t.open < m < t.prefix && ns[m].Derived? && ns[m].rec == reviewed[i]
          && |s.entries| == |reviewed| && s.entries[i] == ns[m].entry
          && s.mains != [] && ns[m].mainKey == s.mains[|s.mains| - 1] && CarriesFor(e, s, ns[m], i)
          && forall a: key, spend: P :: OwnedBy(e, g, b, enc, reviewed[i], a, spend)
               ==> FoundAt(e, ns[m], i, ScannedNote(ns[m]), a))
  {
    hide Play, OnCurve, OwnedBy, StreamOf, LedgerOf, TrailOf, CarriesFor, FoundAt, Record, Recs, Opens, Allowed;
    SignatureComplete(e, evs, n);
    var ns := Play(e, evs).notes;
    var t := TrailOf(ns[..n]);
    ReviewedIsSigned(e, evs, t.terminal);
    DerivedBefore(ns, n, t.terminal);
    var l := LedgerOf(ns[..t.terminal]);
    m := 0;
    if l.reviewed + [ns[t.terminal].rec] == l.derived {
      SameLength(ns[..t.prefix]);
      m := RecoverableFromPrefix(e, g, b, enc, evs, t.prefix, i);
    }
  }
}
