/** What the prehash is a digest of, in every run, and what a real response therefore signs. */
module Prehash {
  import opened Bytes
  import opened Status
  import opened Transcript
  import Varint
  import opened DeviceState
  import opened DeviceSpec
  import opened DeviceRuns
  import opened Ordering
  import opened ReviewBinding
  import ClsagRounds

  /** Everything since the fee that enters the prehash: the fee command's bytes, the pseudo
      outputs, the encrypted amounts of the outputs reviewed, and the commitments of the
      last phase, in this order. */
  function Material(l: Ledger): bytes
  {
    l.fee + l.pseudo + l.amounts + Flatten(l.hashed)
  }

  /** The phases of INS_VALIDATE follow each other, P2 counts the outputs, and keccakH has taken
      the material. */
  predicate Fed(d: Dev, l: Ledger)
  {
    d.Signs() && d.session.gate.ins == INS_VALIDATE ==>
      && (d.session.gate.p1 == 1 ==> l.amounts == [] && l.committed == [] && d.session.more == l.announced)
      && (d.session.gate.p1 == 2 ==> |l.committed| == d.session.gate.p2)
      && (d.session.gate.p1 < 3 ==> l.hashed == [])
      && (l.finals == 0 && !l.disturbed ==> d.signing.keccakH == Ctx([], Material(l)))
  }

  predicate KeepsFed(r: Result, l: Ledger)
  {
    !r.Refuse? ==> Fed(After(r), Tally(l, r.note))
  }

  /** A step that adds nothing to the prehash. */
  predicate Apart(d: Dev, s: Dev, n: Note)
  {
    s.Signs() && s.session.gate.ins == INS_VALIDATE ==>
      && d.Signs() && s.session.gate == d.session.gate && s.session.more == d.session.more
      && (n.Disturbed? || s.signing.keccakH == d.signing.keccakH)
      && !Boundary(n) && !n.Fee? && !n.PseudoOut? && !n.Output? && !n.Absorbed? && !n.Finalized?
  }

  predicate ApartResult(d: Dev, r: Result)
  {
    !r.Refuse? ==> Apart(d, After(r), r.note)
  }

  lemma ApartKeeps(d: Dev, r: Result, l: Ledger)
    requires Fed(d, l) && ApartResult(d, r)
    ensures KeepsFed(r, l)
  {
    hide Flatten;
  }

  // --- the steps ------------------------------------------------------------------------------

  lemma ApartEdges(e: Env, d: Dev, c: Cmd, options: byte, data: bytes)
    requires d.session.screen == Idle
    ensures c.ins == INS_OPEN_TX ==> ApartResult(d, OpenTx(e, d, c, data))
    ensures ApartResult(d, CloseTx(d)) && ApartResult(d, SetMode(d, data)) && ApartResult(d, Restart(d, c))
    ensures ApartResult(d, Outside(d, c))
  {
  }

  lemma ApartEarlier(e: Env, d: Dev, c: Cmd, options: byte, data: bytes)
    ensures c.ins == INS_STEALTH ==> ApartResult(d, Stealth(e, d, c, data))
    ensures c.ins == INS_GEN_TXOUT_KEYS ==> ApartResult(d, GenOutput(e, d, c, data))
    ensures c.ins == INS_GEN_COMMITMENT_MASK ==> ApartResult(d, CommitmentMask(e, d, c, data))
    ensures c.ins == INS_BLIND ==> ApartResult(d, Blind(e, d, c, options, data))
  {
    hide FetchKey, FetchHandle, ParseOut, Derive, Vouched;
  }

  lemma ApartPrefix(e: Env, d: Dev, c: Cmd, options: byte, data: bytes)
    ensures c.ins == INS_PREFIX_HASH ==> ApartResult(d, PrefixHash(e, d, c, options, data))
  {
    hide Timelock;
  }

  lemma ApartSign(e: Env, d: Dev, c: Cmd, options: byte, data: bytes)
    requires c.ins == INS_MLSAG || c.ins == INS_CLSAG
    ensures ApartResult(d, Sign(e, d, c, options, data))
  {
    hide Sign;
    SignKeepsStages(e, d, c, options, data);
  }

  lemma FedFee(e: Env, d: Dev, c: Cmd, options: byte, data: bytes, l: Ledger)
    requires Fed(d, l) && Sequenced(d, c) && c.ins == INS_VALIDATE && c.p1 == 1
    requires d.session.inProgress && ValidateGate(d.session.gate, c) == SW_OK
    ensures KeepsFed(PrehashInit(e, d, c, options, data), l)
  {
    hide FeeOf, FeeLine;
    MaterialGrows(l, data);
    assert Material(EMPTY.(derived := l.derived, fee := data)) == data;
  }

  lemma MaterialGrows(l: Ledger, x: bytes)
    ensures l.amounts == [] && l.hashed == [] ==> Material(l.(pseudo := l.pseudo + x)) == Material(l) + x
    ensures l.hashed == [] ==> Material(l.(amounts := l.amounts + x)) == Material(l) + x
  {
  }

  lemma MaterialHashes(l: Ledger, c: key)
    ensures Material(l.(hashed := l.hashed + [c])) == Material(l) + c
  {
    hide Flatten;
    FlattenSnoc(l.hashed, c);
  }

  lemma FedOutput(e: Env, d: Dev, c: Cmd, options: byte, data: bytes, l: Ledger)
    requires Fed(d, l) && Sequenced(d, c) && c.ins == INS_VALIDATE && c.p1 == 2
    requires d.session.inProgress && ValidateGate(d.session.gate, c) == SW_OK
    ensures KeepsFed(PrehashUpdate(e, d, c, options, data), l)
  {
    hide ParseStep, Opening, PidRefused, Shown, DisplayOf, RecBytes, StepRec, AmountBytes, Material, AllZero;
    var p := ParseStep(e, d, c, data);
    if p.Stepped? { FedLedger(l, AmountBytes(p.o, options)); }
  }

  lemma FedLedger(l: Ledger, x: bytes)
    ensures forall n: Note :: n.Output? && n.amount == x && l.hashed == [] ==> Material(Tally(l, n)) == Material(l) + x
  {
    MaterialGrows(l, x);
  }

  lemma FedAbsorb(e: Env, d: Dev, c: Cmd, data: bytes, l: Ledger)
    requires Fed(d, l) && Sequenced(d, c) && c.ins == INS_VALIDATE && c.p1 == 3
    requires d.session.inProgress && ValidateGate(d.session.gate, c) == SW_OK
    ensures KeepsFed(AbsorbCommitment(d, c, data), l)
    ensures KeepsFed(FinalizePrehash(e, d, c, data), l)
  {
    hide Material;
    if |data| >= KEY_SIZE { MaterialHashes(l, data[..KEY_SIZE]); }
  }

  lemma FedValidate(e: Env, d: Dev, c: Cmd, options: byte, data: bytes, l: Ledger)
    requires Fed(d, l) && Sequenced(d, c) && c.ins == INS_VALIDATE && d.session.inProgress
    ensures KeepsFed(Validate(e, d, c, options, data), l)
  {
    hide PrehashInit, PrehashUpdate, AbsorbCommitment, FinalizePrehash, Fed, Tally;
    if ValidateGate(d.session.gate, c) == SW_OK {
      if c.p1 == 1 { FedFee(e, d, c, options, data, l); }
      if c.p1 == 2 { FedOutput(e, d, c, options, data, l); }
      if c.p1 == 3 { FedAbsorb(e, d, c, data, l); }
    }
  }

  lemma FedServe(e: Env, d: Dev, c: Cmd, options: byte, data: bytes, l: Ledger)
    requires Fed(d, l) && Sequenced(d, c) && d.session.screen == Idle
    requires Access(d.session.inProgress, c.ins) == SW_OK
    ensures KeepsFed(Serve(e, d, c, options, data), l)
  {
    hide KeepsFed, ApartResult, Fed, Restart, OpenTx, CloseTx, SetMode, Stealth, GenOutput, PrefixHash,
      CommitmentMask, Blind, Sign, Outside, Validate, Sequenced;
    if c.ins == INS_VALIDATE {
      FedValidate(e, d, c, options, data, l);
    } else {
      ApartEdges(e, d, c, options, data);
      ApartEarlier(e, d, c, options, data);
      ApartPrefix(e, d, c, options, data);
      if c.ins == INS_MLSAG || c.ins == INS_CLSAG { ApartSign(e, d, c, options, data); }
      ApartKeeps(d, Serve(e, d, c, options, data), l);
    }
  }

  lemma FedUser(d: Dev, l: Ledger)
    requires Fed(d, l)
    ensures Fed(Approve(d).d, Tally(l, Approve(d).note)) && Fed(Deny(d).d, Tally(l, Deny(d).note))
  {
    hide Material;
  }

  lemma FedEnter(d: Dev, c: Cmd, l: Ledger)
    requires Fed(d, l) && Protocol(d, c.version).Some?
    ensures Fed(Entered(d, c), l)
  {
    hide Material;
  }

  lemma FedNext(e: Env, d: Dev, ev: Event, t: Trail, l: Ledger)
    requires Fed(d, l) && OrderInv(d.session, t) && Next(e, d, ev).Running?
    ensures Fed(Next(e, d, ev).d, Tally(l, Next(e, d, ev).note))
  {
    match ev
    case Command(c) =>
      hide Serve, Access, Dispatch, Protocol, OrderInv, Fed, Tally, Sequenced;
      CommandRuns(e, d, c);
      OrderSequences(d, c, t);
      FedEnter(d, c, l);
      FedServe(e, Entered(d, c), c, c.body[0], c.body[1..], l);
    case Accept => FedUser(d, l);
    case Reject => FedUser(d, l);
    case UserReset =>
  }

  /** In every reachable state keccakH has taken exactly the material noted since the fee. */
  lemma {:induction false} FedRun(e: Env, evs: seq<Event>)
    ensures var t := Play(e, evs); t.Alive? ==> Fed(t.d, LedgerOf(t.notes))
  {
    hide Next, Fed, Tally, LedgerOf;
    if evs == [] {
      FedStart(e);
    } else {
      FedRun(e, evs[..|evs| - 1]);
      var t := Play(e, evs[..|evs| - 1]);
      if t.Alive? && Next(e, t.d, evs[|evs| - 1]).Running? {
        OrderRun(e, evs[..|evs| - 1]);
        FedNext(e, t.d, evs[|evs| - 1], TrailOf(t.notes), LedgerOf(t.notes));
        LedgerSnoc(t.notes, Next(e, t.d, evs[|evs| - 1]).note);
      }
    }
  }

  lemma FedStart(e: Env)
    ensures Fed(InitFrom(0, {}), LedgerOf([Init]))
  {
  }

  // --- the results ----------------------------------------------------------------------------

  /** The prehash is the digest of the message, the digest of the material, and the proof. */
  predicate Digests(e: Env, l: Ledger, n: Note)
    requires n.Finalized?
  {
    n.prehash == Digest(e.keccak, n.message + Digest(e.keccak, Material(l)) + n.proof)
  }

  /** A type byte, and a varint that is the fee. */
  predicate FeeReads(data: bytes, fee: nat)
  {
    |data| >= 2 && Varint.Wire(data[1..]) && fee == Varint.Value(data[1..])
  }

  lemma FeeOfReads(data: bytes)
    ensures FeeOf(data).Num? ==> FeeReads(data, FeeOf(data).value)
  {
    hide Varint.Wire, Varint.Value, Varint.Decode;
    if FeeOf(data).Num? { assert data[1..][..|data| - 1] == data[1..]; }
  }

  /** What one step knows when it takes the fee or closes the prehash. */
  predicate MaterialFacts(e: Env, l: Ledger, n: Note)
  {
    && (n.Fee? ==> FeeReads(n.data, n.fee) && n.text == FeeLine(n.fee))
    && (n.PseudoOut? ==> l.announced)
    && (n.Finalized? && l.finals == 0 && !l.disturbed ==> Digests(e, l, n))
  }

  lemma ValidateMaterial(e: Env, d: Dev, c: Cmd, options: byte, data: bytes, l: Ledger)
    requires Fed(d, l) && Sequenced(d, c) && c.ins == INS_VALIDATE && d.session.inProgress
    requires !Validate(e, d, c, options, data).Refuse?
    ensures MaterialFacts(e, l, Validate(e, d, c, options, data).note)
  {
    hide FeeOf, FeeLine, FeeReads, ParseStep, Opening, PidRefused, Shown, DisplayOf, Material;
    FeeOfReads(data);
  }

  lemma OnlyValidateCloses(e: Env, d: Dev, c: Cmd, options: byte, data: bytes)
    requires Access(d.session.inProgress, c.ins) == SW_OK
    requires
      var r := Serve(e, d, c, options, data);
      !r.Refuse? && (r.note.Fee? || r.note.PseudoOut? || r.note.Finalized?)
    ensures c.ins == INS_VALIDATE && d.session.inProgress && Serve(e, d, c, options, data)
      == Validate(e, d, c, options, data)
  {
    hide FetchHandle, Sign, FetchKey, ParseOut, Derive, Vouched, Timelock, Opening, FeeOf, FeeLine, ParseStep,
      PidRefused, Shown, DisplayOf, Validate;
    if c.ins == INS_MLSAG || c.ins == INS_CLSAG { SignKeepsStages(e, d, c, options, data); }
  }

  lemma NextMaterial(e: Env, d: Dev, ev: Event, t: Trail, l: Ledger)
    requires Fed(d, l) && OrderInv(d.session, t) && Next(e, d, ev).Running?
    requires Next(e, d, ev).note.Fee? || Next(e, d, ev).note.PseudoOut? || Next(e, d, ev).note.Finalized?
    ensures MaterialFacts(e, l, Next(e, d, ev).note)
  {
    var c := ev.cmd;
    hide Serve, Access, Dispatch, Protocol, OrderInv, Fed, MaterialFacts, Sequenced, Validate;
    CommandRuns(e, d, c);
    OrderSequences(d, c, t);
    FedEnter(d, c, l);
    OnlyValidateCloses(e, Entered(d, c), c, c.body[0], c.body[1..]);
    ValidateMaterial(e, Entered(d, c), c, c.body[0], c.body[1..], l);
  }

  /** Main result, for every step of every run: the fee put on screen is the number in the
      bytes hashed; and when the prehash is first closed, with no proof since the fee, it is
      the digest of the message, the digest of the material since the fee, and the proof. */
  lemma PrehashIsDigest(e: Env, evs: seq<Event>, n: nat)
    requires n < |Play(e, evs).notes|
    ensures MaterialFacts(e, LedgerOf(Play(e, evs).notes[..n]), Play(e, evs).notes[n])
  {
    hide Play, Next, OrderInv, Fed, LedgerOf, TrailOf;
    FirstNote(e, evs);
    var ns := Play(e, evs).notes;
    if ns[n].Fee? || ns[n].PseudoOut? || ns[n].Finalized? {
      hide MaterialFacts;
      var m := NoteOrigin(e, evs, n);
      OrderRun(e, evs[..m]);
      FedRun(e, evs[..m]);
      NextMaterial(e, Play(e, evs[..m]).d, evs[m], TrailOf(ns[..n]), LedgerOf(ns[..n]));
    }
  }

  lemma {:induction false} LastPrehash(ns: seq<Note>)
    ensures TrailOf(ns).finalized < |ns|
    ensures var i := TrailOf(ns).finalized;
      i >= 0 ==> ns[i].Finalized? && ClsagRounds.RoundOf(ns).prehash == ns[i].prehash
  {
    if ns != [] { LastPrehash(ns[..|ns| - 1]); }
  }

  lemma {:induction false} LastFee(ns: seq<Note>)
    ensures TrailOf(ns).fee < |ns|
    ensures var i := TrailOf(ns).fee; i >= 0 ==> ns[i].Fee? && LedgerOf(ns).fee == ns[i].data
  {
    if ns != [] { LastFee(ns[..|ns| - 1]); }
  }

  /** Steps that are neither a boundary nor a fee leave the fee's place in the trail. */
  lemma {:induction false} SameFee(ns: seq<Note>, f: nat)
    requires f <= |ns| && forall i :: f <= i < |ns| ==> !Boundary(ns[i]) && !ns[i].Fee?
    ensures TrailOf(ns).fee == TrailOf(ns[..f]).fee
    decreases |ns|
  {
    if f == |ns| {
      assert ns[..f] == ns;
    } else {
      assert ns[..|ns| - 1][..f] == ns[..f];
      SameFee(ns[..|ns| - 1], f);
    }
  }

  /** End to end: in every run, every real response ends a complete transaction and uses a
      finished round bound to the last prehash closed. If that was the first since the fee,
      with no proof in between, the prehash is the digest of the message, the material and
      the proof; the material starts with the one fee that was put on screen; and the
      commitments in it are, after those of late steps, the ones the review closed over, or
      two explicit byte strings have one digest. */
  lemma SignatureCommits(e: Env, evs: seq<Event>, n: nat)
    requires n < |Play(e, evs).notes| && Play(e, evs).notes[n].Signed?
    ensures
      var ns := Play(e, evs).notes;
      var t, r := TrailOf(ns[..n]), ClsagRounds.RoundOf(ns[..n]);
      && Complete(ns, n, t) && ClsagRounds.UsesFinished(e, r, ns[n]) && r.prehash == ns[t.finalized].prehash
      && var l := LedgerOf(ns[..t.finalized]);
      && l.fee == ns[t.fee].data && FeeReads(l.fee, ns[t.fee].fee)
      && (l.finals == 0 ==> l.terminals > 0 && SameCommitments(e, l.late + l.hashed, l.closed))
      && (l.finals == 0 && !l.disturbed ==> Digests(e, l, ns[t.finalized]))
  {
    hide Play, TrailOf, LedgerOf, ClsagRounds.RoundOf, ClsagRounds.UsesFinished, Digests, FeeReads;
    SignatureComplete(e, evs, n);
    ClsagRounds.ResponseUsesFinishedRound(e, evs, n);
    var ns := Play(e, evs).notes;
    var t := TrailOf(ns[..n]);
    LastPrehash(ns[..n]);
    var f := t.finalized;
    PrehashIsDigest(e, evs, f);
    PrehashIsDigest(e, evs, t.fee);
    ReviewedIsSigned(e, evs, f);
    assert ns[..n][..f] == ns[..f];
    SameFee(ns[..n], f);
    LastFee(ns[..f]);
  }
}
