/** What the user reviews is what the device derived, and which of the commitments reviewed
    are those of the signature. */
module ReviewBinding {
  import opened Bytes
  import opened Status
  import opened Transcript
  import opened Scalars
  import opened ChangeAddress
  import opened DeviceState
  import opened DeviceSpec
  import opened DeviceRuns
  import opened Ordering

  // --- the two transcripts are uniquely decodable -------------------------------------------

  /** The out_keys transcript of a list of outputs. */
  function Recs(rs: seq<Rec>): bytes
  {
    if rs == [] then [] else Recs(rs[..|rs| - 1]) + RecBytes(rs[|rs| - 1])
  }

  lemma RecsSnoc(rs: seq<Rec>, r: Rec)
    ensures Recs(rs + [r]) == Recs(rs) + RecBytes(r)
  {
    hide RecBytes;
    assert (rs + [r])[..|rs|] == rs;
  }

  lemma RecBytesInjective(x: Rec, y: Rec)
    requires RecBytes(x) == RecBytes(y)
    ensures x == y
  {
    var b := RecBytes(x);
    assert b[..32] == x.view && b[32..64] == x.spend && b[64] == x.change && b[65] == x.sub && b[66..] == x.amountKey;
    assert b[..32] == y.view && b[32..64] == y.spend && b[64] == y.change && b[65] == y.sub && b[66..] == y.amountKey;
  }

  lemma {:induction false} RecsInjective(a: seq<Rec>, c: seq<Rec>)
    requires Recs(a) == Recs(c)
    ensures a == c
    decreases |a|
  {
    hide RecBytes;
    if a != [] && c != [] {
      var x, y := a[..|a| - 1], c[..|c| - 1];
      SameTail(Recs(x), RecBytes(a[|a| - 1]), Recs(y), RecBytes(c[|c| - 1]));
      RecBytesInjective(a[|a| - 1], c[|c| - 1]);
      RecsInjective(x, y);
      assert a == x + [a[|a| - 1]] && c == y + [c[|c| - 1]];
    } else {
      RecsEmpty(a);
      RecsEmpty(c);
    }
  }

  lemma SameTail(x: bytes, u: bytes, y: bytes, v: bytes)
    requires x + u == y + v && |u| == |v|
    ensures x == y && u == v
  {
    assert |x| == |y|;
    assert (x + u)[..|x|] == x && (y + v)[..|y|] == y;
    assert (x + u)[|x|..] == u && (y + v)[|y|..] == v;
  }

  lemma RecsEmpty(rs: seq<Rec>)
    ensures Recs(rs) == [] <==> rs == []
  {
    hide RecBytes;
  }

  lemma {:induction false} KeysInjective(a: seq<key>, c: seq<key>)
    requires Flatten(a) == Flatten(c)
    ensures a == c
    decreases |a|
  {
    if a != [] && c != [] {
      SameHead(a[0], Flatten(a[1..]), c[0], Flatten(c[1..]));
      KeysInjective(a[1..], c[1..]);
      assert a == [a[0]] + a[1..] && c == [c[0]] + c[1..];
    }
  }

  lemma SameHead(u: bytes, x: bytes, v: bytes, y: bytes)
    requires u + x == v + y && |u| == |v|
    ensures u == v && x == y
  {
    assert (u + x)[..|u|] == u && (v + y)[..|v|] == v;
    assert (u + x)[|u|..] == x && (v + y)[|v|..] == y;
  }

  // --- the ledger ---------------------------------------------------------------------------

  /** Since the transaction opened: the outputs derived. Since the fee: the outputs reviewed
      and their commitments; of those, the ones the last terminal output closed over and
      those that came later; the commitments given to the last phase, which alone are hashed;
      how many terminal outputs and final steps there were; and the other bytes that enter the
      prehash, with whether the last step said that a pseudo output follows, and whether a proof
      has run through the same context. */
  datatype Ledger = Ledger(derived: seq<Rec>, reviewed: seq<Rec>, committed: seq<key>, closed: seq<key>, late: seq<key>,
                           hashed: seq<key>, terminals: nat, finals: nat,
                           fee: bytes, pseudo: bytes, amounts: bytes, announced: bool, disturbed: bool)

  const EMPTY := Ledger([], [], [], [], [], [], 0, 0, [], [], [], false, false)

  function Tally(l: Ledger, n: Note): Ledger
  {
    if Boundary(n) then EMPTY
    else if n.Derived? then l.(derived := l.derived + [n.rec])
    else if n.Fee? then EMPTY.(derived := l.derived, fee := n.data, announced := n.more)
    else if n.PseudoOut? then l.(pseudo := l.pseudo + n.data, announced := n.more)
    else if n.Output? then
      var l := l.(reviewed := l.reviewed + [n.rec], committed := l.committed + [n.commitment],
                  late := l.late + [n.commitment], amounts := l.amounts + n.amount);
      if n.terminal then l.(closed := l.late, late := [], terminals := l.terminals + 1) else l
    else if n.Absorbed? then l.(hashed := l.hashed + [n.commitment])
    else if n.Finalized? then l.(finals := l.finals + 1)
    else if n.Disturbed? then l.(disturbed := true)
    else l
  }

  function LedgerOf(ns: seq<Note>): Ledger
  {
    if ns == [] then EMPTY else Tally(LedgerOf(ns[..|ns| - 1]), ns[|ns| - 1])
  }

  lemma LedgerSnoc(ns: seq<Note>, n: Note)
    ensures LedgerOf(ns + [n]) == Tally(LedgerOf(ns), n)
  {
    hide Tally;
    assert (ns + [n])[..|ns|] == ns;
  }

  // --- the invariant ------------------------------------------------------------------------

  predicate BeforeFee(d: Dev, l: Ledger)
  {
    d.review.outKeys == Ctx([], Recs(l.derived)) && l.terminals == 0 && l.finals == 0
  }

  predicate AfterFee(e: Env, d: Dev, l: Ledger)
  {
    && d.review.outK == Digest(e.sha, Recs(l.derived))
    && (l.terminals == 0 ==> d.review.outKeys == Ctx([], Recs(l.reviewed)))
    && (l.finals == 0 ==> d.review.commitments == Ctx([], Flatten(l.late + l.hashed)))
    && (d.session.gate.ins == INS_VALIDATE && d.session.gate.p1 < 3 ==> l.hashed == [])
    && (l.finals == 0 && l.terminals > 0 ==> d.review.digest == Digest(e.sha, Flatten(l.closed)))
  }

  predicate Built(e: Env, d: Dev, l: Ledger)
  {
    d.Signs() ==>
      && (d.session.stages.reviewed <==> l.terminals > 0)
      && if InPhase(d.session.gate.ins, 5) then AfterFee(e, d, l) else BeforeFee(d, l)
  }

  predicate KeepsBuilt(e: Env, r: Result, l: Ledger)
  {
    !r.Refuse? ==> Built(e, After(r), Tally(l, r.note))
  }

  /** A step that leaves the review alone. */
  predicate Aside(d: Dev, s: Dev, n: Note)
  {
    s.Signs() ==>
      && d.Signs() && s.review == d.review && s.session.stages.reviewed == d.session.stages.reviewed
      && (InPhase(s.session.gate.ins, 5) <==> InPhase(d.session.gate.ins, 5))
      && (s.session.gate.ins == INS_VALIDATE ==> s.session.gate == d.session.gate)
      && !Boundary(n) && !n.Derived? && !n.Fee? && !n.Output? && !n.Absorbed? && !n.Finalized?
  }

  predicate AsideResult(d: Dev, r: Result)
  {
    !r.Refuse? ==> Aside(d, After(r), r.note)
  }

  lemma AsideKeeps(e: Env, d: Dev, s: Dev, n: Note, l: Ledger)
    requires Built(e, d, l) && Aside(d, s, n)
    ensures Built(e, s, Tally(l, n))
  {
    hide Recs, Flatten;
  }

  // --- the steps that build it ----------------------------------------------------------------

  lemma ReviewEdges(e: Env, d: Dev, c: Cmd, data: bytes, l: Ledger)
    requires d.session.screen == Idle
    ensures c.ins == INS_OPEN_TX ==> KeepsBuilt(e, OpenTx(e, d, c, data), l)
    ensures KeepsBuilt(e, CloseTx(d), l)
    ensures AsideResult(d, SetMode(d, data))
    ensures KeepsBuilt(e, Restart(d, c), l)
  {
  }

  lemma ReviewOutside(d: Dev, c: Cmd)
    ensures AsideResult(d, Outside(d, c))
  {
  }

  lemma ReviewDerive(e: Env, d: Dev, c: Cmd, data: bytes, l: Ledger)
    requires Built(e, d, l) && (d.Signs() ==> c.version >= 2) && c.ins == INS_GEN_TXOUT_KEYS
    ensures KeepsBuilt(e, GenOutput(e, d, c, data), l)
  {
    hide FetchKey, ParseOut, Derive, Vouched, RecBytes, Recs;
    var p := ParseOut(e, d, data);
    if p.Parsed? && Derive(e, p.args).Some? { RecsSnoc(l.derived, RecFor(p.args, Derive(e, p.args).value)); }
  }

  lemma ReviewStealth(e: Env, d: Dev, c: Cmd, data: bytes)
    ensures c.ins == INS_STEALTH ==> AsideResult(d, Stealth(e, d, c, data))
  {
    hide FetchKey;
  }

  lemma ReviewPrefix(e: Env, d: Dev, c: Cmd, options: byte, data: bytes)
    ensures c.ins == INS_PREFIX_HASH ==> AsideResult(d, PrefixHash(e, d, c, options, data))
  {
    hide Timelock;
  }

  lemma ReviewMasks(e: Env, d: Dev, c: Cmd, options: byte, data: bytes)
    ensures c.ins == INS_GEN_COMMITMENT_MASK ==> AsideResult(d, CommitmentMask(e, d, c, data))
    ensures c.ins == INS_BLIND ==> AsideResult(d, Blind(e, d, c, options, data))
  {
    hide FetchHandle;
  }

  lemma ReviewFee(e: Env, d: Dev, c: Cmd, options: byte, data: bytes, l: Ledger)
    requires Built(e, d, l) && c.ins == INS_VALIDATE && ValidateGate(d.session.gate, c) == SW_OK && c.p1 == 1
    requires d.session.gate.ins == INS_VALIDATE ==> d.session.gate.p1 >= 1 && d.session.gate.p2 >= 1
    ensures KeepsBuilt(e, PrehashInit(e, d, c, options, data), l)
  {
    hide FeeOf, FeeLine, Recs, Flatten;
    FeeStarts();
  }

  lemma FeeStarts()
    ensures Flatten([]) == [] && Flatten([] + []) == [] && Recs([]) == []
  {
  }

  lemma ReviewOne(e: Env, d: Dev, c: Cmd, options: byte, o: OutStep, v: key, k: key, l: Ledger)
    requires Built(e, d, l) && d.Signs() && c.version >= 2 && c.ins == INS_VALIDATE
    requires d.session.gate.ins == INS_VALIDATE
    requires d.session.gate.p1 < 3 && c.p1 == 2
    ensures KeepsBuilt(e, ReviewOutput(e, d, c, options, o, v, k), l)
  {
    hide ReviewOutput, KeepsBuilt, Built;
    if More(options) { ReviewAnother(e, d, c, options, o, v, k, l); } else { ReviewLast(e, d, c, options, o, v, k, l); }
  }

  lemma ReviewAnother(e: Env, d: Dev, c: Cmd, options: byte, o: OutStep, v: key, k: key, l: Ledger)
    requires Built(e, d, l) && d.Signs() && c.version >= 2 && c.ins == INS_VALIDATE
    requires d.session.gate.ins == INS_VALIDATE
    requires d.session.gate.p1 < 3 && c.p1 == 2 && More(options)
    ensures KeepsBuilt(e, ReviewOutput(e, d, c, options, o, v, k), l)
  {
    hide Shown, DisplayOf, RecBytes, Recs, Flatten, StepRec, AmountBytes, AllZero;
    RecsSnoc(l.reviewed, StepRec(o));
    LateSnoc(l, o.commitment);
  }

  lemma ReviewLast(e: Env, d: Dev, c: Cmd, options: byte, o: OutStep, v: key, k: key, l: Ledger)
    requires Built(e, d, l) && d.Signs() && c.version >= 2 && c.ins == INS_VALIDATE
    requires d.session.gate.ins == INS_VALIDATE
    requires d.session.gate.p1 < 3 && c.p1 == 2 && !More(options)
    ensures KeepsBuilt(e, ReviewOutput(e, d, c, options, o, v, k), l)
  {
    hide Shown, DisplayOf, RecBytes, Recs, Flatten, StepRec, AmountBytes, AllZero;
    FeeStarts();
    RecsSnoc(l.reviewed, StepRec(o));
    LateSnoc(l, o.commitment);
  }

  lemma LateSnoc(l: Ledger, c: key)
    ensures l.hashed == [] ==> l.late + l.hashed == l.late && Flatten((l.late + [c]) + l.hashed) == Flatten(l.late) + c
    ensures l.hashed == [] ==> Flatten(l.late + [c]) == Flatten(l.late) + c && [] + l.hashed == []
  {
    FlattenSnoc(l.late, c);
    assert (l.late + [c]) + [] == l.late + [c] && l.late + [] == l.late;
  }

  lemma ReviewOutputs(e: Env, d: Dev, c: Cmd, options: byte, data: bytes, l: Ledger)
    requires Built(e, d, l) && (d.Signs() ==> c.version >= 2) && c.ins == INS_VALIDATE
    requires d.session.gate.ins == INS_VALIDATE
    requires d.session.inProgress && ValidateGate(d.session.gate, c) == SW_OK && c.p1 == 2
    ensures KeepsBuilt(e, PrehashUpdate(e, d, c, options, data), l)
  {
    hide ParseStep, Opening, PidRefused, ReviewOutput, AfterFee, BeforeFee;
    var p := ParseStep(e, d, c, data);
    if d.Signs() && p.Stepped? && Opening(e, p.o, Short(options)).Stands? {
      var x, s := Opening(e, p.o, Short(options)).x, Absorb(d, AmountBytes(p.o, options));
      AbsorbKeeps(e, d, s, l);
      ReviewOne(e, s, c, options, p.o, x.v, x.k, l);
    }
  }

  lemma AbsorbKeeps(e: Env, d: Dev, s: Dev, l: Ledger)
    requires Built(e, d, l) && s == d.(signing := s.signing)
    ensures Built(e, s, l)
  {
  }

  lemma ReviewAbsorb(e: Env, d: Dev, c: Cmd, data: bytes, l: Ledger)
    requires Built(e, d, l) && c.ins == INS_VALIDATE && d.session.gate.ins == INS_VALIDATE && c.p1 == 3
    ensures KeepsBuilt(e, AbsorbCommitment(d, c, data), l)
  {
    hide Recs, Flatten;
    if |data| >= KEY_SIZE {
      FlattenSnoc(l.late + l.hashed, data[..KEY_SIZE]);
      assert l.late + (l.hashed + [data[..KEY_SIZE]]) == l.late + l.hashed + [data[..KEY_SIZE]];
    }
  }

  lemma ReviewFinalize(e: Env, d: Dev, c: Cmd, data: bytes, l: Ledger)
    requires Built(e, d, l) && c.ins == INS_VALIDATE && d.session.gate.ins == INS_VALIDATE && c.p1 == 3
    ensures KeepsBuilt(e, FinalizePrehash(e, d, c, data), l)
  {
    hide Recs, Flatten;
  }

  lemma ReviewValidate(e: Env, d: Dev, c: Cmd, options: byte, data: bytes, l: Ledger)
    requires Built(e, d, l) && (d.Signs() ==> c.version >= 2) && c.ins == INS_VALIDATE
    requires d.session.gate.ins == INS_VALIDATE ==> d.session.gate.p1 >= 1 && d.session.gate.p2 >= 1
    requires d.session.inProgress
    ensures KeepsBuilt(e, Validate(e, d, c, options, data), l)
  {
    hide PrehashInit, PrehashUpdate, AbsorbCommitment, FinalizePrehash, Built, Tally;
    if ValidateGate(d.session.gate, c) == SW_OK {
      if c.p1 == 1 { ReviewFee(e, d, c, options, data, l); }
      if c.p1 == 2 { ReviewOutputs(e, d, c, options, data, l); }
      if c.p1 == 3 { ReviewAbsorb(e, d, c, data, l); ReviewFinalize(e, d, c, data, l); }
    }
  }

  lemma ReviewSign(e: Env, d: Dev, c: Cmd, options: byte, data: bytes)
    requires c.ins == INS_MLSAG || c.ins == INS_CLSAG
    ensures AsideResult(d, Sign(e, d, c, options, data))
  {
    hide MlsagPrepare, MlsagHash, MlsagSign, ClsagPrepare, ClsagHash, ClsagSign;
    SignKeepsStages(e, d, c, options, data);
    SignKeepsReview(e, d, c, options, data);
  }

  lemma SignKeepsReview(e: Env, d: Dev, c: Cmd, options: byte, data: bytes)
    requires c.ins == INS_MLSAG || c.ins == INS_CLSAG
    ensures var r := Sign(e, d, c, options, data); !r.Refuse? ==> After(r).review == d.review
  {
    hide FetchHandle, Challenge, History;
  }

  // --- every step, every run ------------------------------------------------------------------

  lemma AsideAfter(e: Env, d: Dev, r: Result, l: Ledger)
    requires Built(e, d, l) && AsideResult(d, r)
    ensures KeepsBuilt(e, r, l)
  {
    hide Built, Aside, Tally;
    if !r.Refuse? { AsideKeeps(e, d, After(r), r.note, l); }
  }

  lemma ReviewServe(e: Env, d: Dev, c: Cmd, options: byte, data: bytes, l: Ledger)
    requires Built(e, d, l) && Sequenced(d, c) && d.session.screen == Idle
    requires Access(d.session.inProgress, c.ins) == SW_OK
    ensures KeepsBuilt(e, Serve(e, d, c, options, data), l)
  {
    hide KeepsBuilt, AsideResult, Built, Restart, OpenTx, CloseTx, SetMode, Stealth, GenOutput, PrefixHash,
      CommitmentMask, Blind, Sign, Outside, Validate;
    ReviewEdges(e, d, c, data, l);
    ReviewOutside(d, c);
    ReviewStealth(e, d, c, data);
    ReviewPrefix(e, d, c, options, data);
    ReviewMasks(e, d, c, options, data);
    if c.ins == INS_MLSAG || c.ins == INS_CLSAG { ReviewSign(e, d, c, options, data); }
    if c.ins == INS_GEN_TXOUT_KEYS {
      ReviewDerive(e, d, c, data, l);
    } else if c.ins == INS_VALIDATE {
      ReviewValidateAny(e, d, c, options, data, l);
    } else if c.ins != INS_OPEN_TX && c.ins != INS_CLOSE_TX && c.ins != INS_RESET {
      AsideAfter(e, d, Serve(e, d, c, options, data), l);
    }
  }

  lemma ReviewValidateAny(e: Env, d: Dev, c: Cmd, options: byte, data: bytes, l: Ledger)
    requires Built(e, d, l) && Sequenced(d, c) && c.ins == INS_VALIDATE
    ensures KeepsBuilt(e, Validate(e, d, c, options, data), l)
  {
    hide BeforeFee, AfterFee;
    if d.Signs() {
      ReviewValidate(e, d, c, options, data, l);
    } else {
      ValidateStaysFake(e, d, c, options, data);
    }
  }

  lemma ValidateStaysFake(e: Env, d: Dev, c: Cmd, options: byte, data: bytes)
    ensures var r := Validate(e, d, c, options, data); !r.Refuse? ==> After(r).Signs() == d.Signs()
  {
    hide ParseStep, Opening, PidRefused, Shown, DisplayOf, FeeOf, FeeLine;
  }

  lemma ReviewUser(e: Env, d: Dev, l: Ledger)
    requires Built(e, d, l)
    ensures Built(e, Approve(d).d, Tally(l, Approve(d).note))
    ensures Built(e, Deny(d).d, Tally(l, Deny(d).note))
  {
    hide Recs, Flatten;
  }

  lemma ReviewEnter(e: Env, d: Dev, c: Cmd, l: Ledger)
    requires Built(e, d, l) && Protocol(d, c.version).Some?
    ensures Built(e, Entered(d, c), l)
  {
    hide Recs, Flatten;
  }

  lemma ReviewNext(e: Env, d: Dev, ev: Event, t: Trail, l: Ledger)
    requires Built(e, d, l) && OrderInv(d.session, t) && Next(e, d, ev).Running?
    ensures Built(e, Next(e, d, ev).d, Tally(l, Next(e, d, ev).note))
  {
    match ev
    case Command(c) =>
      hide Serve, Access, Dispatch, Protocol, OrderInv, Built, Tally, Sequenced;
      CommandRuns(e, d, c);
      OrderSequences(d, c, t);
      ReviewEnter(e, d, c, l);
      EnterKeeps(d, c);
      ReviewServe(e, Entered(d, c), c, c.body[0], c.body[1..], l);
    case Accept => ReviewUser(e, d, l);
    case Reject => ReviewUser(e, d, l);
    case UserReset =>
  }

  lemma {:induction false} ReviewRun(e: Env, evs: seq<Event>)
    ensures var t := Play(e, evs); t.Alive? ==> Built(e, t.d, LedgerOf(t.notes))
  {
    hide Next, Built, Tally, LedgerOf;
    if evs == [] {
      ReviewStart(e);
    } else {
      ReviewRun(e, evs[..|evs| - 1]);
      var t := Play(e, evs[..|evs| - 1]);
      if t.Alive? && Next(e, t.d, evs[|evs| - 1]).Running? {
        OrderRun(e, evs[..|evs| - 1]);
        ReviewNext(e, t.d, evs[|evs| - 1], TrailOf(t.notes), LedgerOf(t.notes));
        LedgerSnoc(t.notes, Next(e, t.d, evs[|evs| - 1]).note);
      }
    }
  }

  lemma ReviewStart(e: Env)
    ensures Built(e, InitFrom(0, {}), LedgerOf([Init]))
  {
  }

  // --- the results ----------------------------------------------------------------------------

  /** Two lists are the same, or their transcripts are two byte strings with one digest. */
  predicate SameRecs(e: Env, a: seq<Rec>, c: seq<Rec>)
  {
    a == c || Collision(e.sha, Recs(a), Recs(c))
  }

  predicate SameCommitments(e: Env, a: seq<key>, c: seq<key>)
  {
    a == c || Collision(e.sha, Flatten(a), Flatten(c))
  }

  /** The calls that make the commitment k.G + v.H succeed; a zero v leaves k.G. */
  predicate Sums(e: Env, k: key, v: key)
  {
    && e.mulG(k).Some?
    && (AllZero(v) || (e.mulH(v).Some? && e.addPoints(e.mulH(v).value, e.mulG(k).value).Some?))
  }

  function SumOf(e: Env, k: key, v: key): key
    requires Sums(e, k, v)
  {
    if AllZero(v) then e.mulG(k).value else e.addPoints(e.mulH(v).value, e.mulG(k).value).value
  }

  lemma CommitmentSums(e: Env, k: key, v: key)
    ensures Commitment(e, k, v) == if Sums(e, k, v) then Some(SumOf(e, k, v)) else None
  {
    hide AllZero;
  }

  /** The commitment opens to the value unblinded, C = kG + vH; the amount shown is its low 64
      bits, and so all of it exactly when its high bytes are zero, which only the short form
      makes sure of. */
  predicate Opens(e: Env, n: Note)
    requires n.Output?
  {
    && Sums(e, n.k, n.v) && n.commitment == SumOf(e, n.k, n.v)
    && n.shown == LE(n.v[..8]) && (n.shown == LE(n.v) <==> AllZero(n.v[8..]))
    && (n.short ==> n.shown == LE(n.v))
  }

  /** The first account whose root is (view, spend). */
  ghost predicate FirstRoot(e: Env, view: key, spend: key, m: nat)
  {
    && m < CHANGE_ACCOUNT_LOOKAHEAD && IsRoot(e.wallet, e.mul, view, spend, m)
    && forall k :: 0 <= k < m ==> !IsRoot(e.wallet, e.mul, view, spend, k)
  }

  /** A payment is shown with an amount, as a payment; change that carries anything goes to the
      root of one of the wallet's accounts, and the account shown is the first such, or 0 for change
      that carries nothing. */
  ghost predicate Allowed(e: Env, n: Note)
    requires n.Output?
  {
    if n.rec.change == 0 then n.shown != 0 && n.display.Payment?
    else
      && n.display.Return?
      && if AllZero(n.v) then n.display.major == 0 else FirstRoot(e, n.rec.view, n.rec.spend, n.display.major)
  }

  lemma ReviewAllowed(e: Env, d: Dev, c: Cmd, options: byte, o: OutStep, v: key, k: key)
    ensures var r := ReviewOutput(e, d, c, options, o, v, k); !r.Refuse? ==> r.note.Output? && Allowed(e, r.note)
  {
    hide RootOf, IsRoot, AllZero, Shown, AmountLine, AddressLine, RecBytes, AmountBytes;
    RootOfTells(e.wallet, e.mul, o.view, o.spend);
  }

  /** What one step knows when it closes the review, closes the prehash, or shows an output. */
  ghost predicate StepFacts(e: Env, l: Ledger, n: Note)
  {
    && (n.Output? ==> Opens(e, n) && Allowed(e, n))
    && (n.Output? && n.terminal && l.terminals == 0 ==> SameRecs(e, l.reviewed + [n.rec], l.derived))
    && (n.Finalized? && l.finals == 0 ==> l.terminals > 0 && SameCommitments(e, l.late + l.hashed, l.closed))
  }

  lemma {:induction false} ZeroValue(s: bytes)
    requires AllZero(s)
    ensures FromBE(Rev(s)) == 0
  {
    if s != [] {
      ZeroValue(s[1..]);
      assert Rev(s)[..|s| - 1] == Rev(s[1..]);
    }
  }

  /** A number whose high bytes are zero is the number of its low bytes. */
  lemma {:induction false} LowBytes(s: bytes, n: nat)
    requires n <= |s| && AllZero(s[n..])
    ensures LE(s) == LE(s[..n])
    decreases n
  {
    if n == 0 {
      assert s[0..] == s && s[..0] == [];
      ZeroValue(s);
    } else {
      assert s[1..][n - 1..] == s[n..] && s[1..][..n - 1] == s[1..n] && s[..n][1..] == s[1..n];
      LowBytes(s[1..], n - 1);
      LEHead(s);
      LEHead(s[..n]);
    }
  }

  lemma {:induction false} PositiveValue(s: bytes)
    requires !AllZero(s)
    ensures LE(s) > 0
  {
    LEHead(s);
    if s[0] == 0 {
      var i :| 0 <= i < |s| && s[i] != 0;
      assert s[1..][i - 1] == s[i];
      PositiveValue(s[1..]);
    }
  }

  lemma {:induction false} HighBytes(s: bytes, n: nat)
    requires n <= |s| && !AllZero(s[n..])
    ensures LE(s) > LE(s[..n])
    decreases n
  {
    if n == 0 {
      assert s[0..] == s && s[..0] == [];
      PositiveValue(s);
    } else {
      assert s[1..][n - 1..] == s[n..] && s[1..][..n - 1] == s[1..n] && s[..n][1..] == s[1..n];
      HighBytes(s[1..], n - 1);
      LEHead(s);
      LEHead(s[..n]);
    }
  }

  /** The review shows the value that the commitment binds exactly when that value has no
      high bytes. */
  lemma ShownExactIff(v: key)
    ensures Shown(v) == LE(v) <==> AllZero(v[8..])
  {
    hide LE, AllZero;
    if AllZero(v[8..]) { LowBytes(v, 8); } else { HighBytes(v, 8); }
  }

  lemma LEHead(s: bytes)
    requires s != []
    ensures LE(s) == s[0] + 256 * LE(s[1..])
  {
    assert Rev(s)[..|s| - 1] == Rev(s[1..]);
  }

  lemma OutputFacts(e: Env, d: Dev, c: Cmd, options: byte, data: bytes, l: Ledger)
    requires Built(e, d, l) && Sequenced(d, c) && c.ins == INS_VALIDATE && d.session.gate.ins == INS_VALIDATE
    requires var r := PrehashUpdate(e, d, c, options, data); !r.Refuse? && r.note.Output? && d.Signs()
    ensures StepFacts(e, l, PrehashUpdate(e, d, c, options, data).note)
  {
    hide ParseStep, PidRefused, RecBytes, Recs, Flatten, LE, Commitment, Sums, SumOf, AllZero, Allowed, ChangeWord;
    var o := ParseStep(e, d, c, data).o;
    var x := Opening(e, o, Short(options)).x;
    CommitmentSums(e, x.k, x.v);
    ReviewAllowed(e, Absorb(d, AmountBytes(o, options)), c, options, o, x.v, x.k);
    RecsSnoc(l.reviewed, StepRec(o));
    ShownExactIff(Opening(e, o, Short(options)).x.v);
    if Recs(l.reviewed + [StepRec(o)]) == Recs(l.derived) { RecsInjective(l.reviewed + [StepRec(o)], l.derived); }
  }

  lemma FinalizeFacts(e: Env, d: Dev, c: Cmd, data: bytes, l: Ledger)
    requires Built(e, d, l) && d.Signs() && d.session.gate.ins == INS_VALIDATE
    requires !FinalizePrehash(e, d, c, data).Refuse?
    ensures StepFacts(e, l, FinalizePrehash(e, d, c, data).note)
  {
    hide Recs, Flatten;
    if Flatten(l.late + l.hashed) == Flatten(l.closed) { KeysInjective(l.late + l.hashed, l.closed); }
  }

  lemma OnlyValidateReviews(e: Env, d: Dev, c: Cmd, options: byte, data: bytes)
    requires Access(d.session.inProgress, c.ins) == SW_OK
    requires var r := Serve(e, d, c, options, data); !r.Refuse? && (r.note.Output? || r.note.Finalized?)
    ensures c.ins == INS_VALIDATE && d.session.inProgress && Serve(e, d, c, options, data)
      == Validate(e, d, c, options, data)
  {
    hide FetchHandle, Sign, FetchKey, ParseOut, Derive, Vouched, Timelock, Opening, FeeOf, FeeLine, ParseStep,
      PidRefused, Shown, DisplayOf, Validate;
    if c.ins == INS_MLSAG || c.ins == INS_CLSAG { SignKeepsStages(e, d, c, options, data); }
  }

  lemma ValidateFacts(e: Env, d: Dev, c: Cmd, options: byte, data: bytes, l: Ledger)
    requires Built(e, d, l) && Sequenced(d, c) && c.ins == INS_VALIDATE && d.session.inProgress
    requires var r := Validate(e, d, c, options, data); !r.Refuse? && (r.note.Output? || r.note.Finalized?)
    ensures StepFacts(e, l, Validate(e, d, c, options, data).note)
  {
    hide Built, StepFacts, Opening, ParseStep, PidRefused, Shown, DisplayOf, FeeOf, FeeLine;
    if c.p1 == 2 {
      OutputFacts(e, d, c, options, data, l);
    } else {
      FinalizeFacts(e, d, c, data, l);
    }
  }

  lemma NextFacts(e: Env, d: Dev, ev: Event, t: Trail, l: Ledger)
    requires Built(e, d, l) && OrderInv(d.session, t) && Next(e, d, ev).Running?
    requires Next(e, d, ev).note.Output? || Next(e, d, ev).note.Finalized?
    ensures StepFacts(e, l, Next(e, d, ev).note)
  {
    var c := ev.cmd;
    hide Serve, Access, Dispatch, Protocol, OrderInv, Built, StepFacts, Sequenced, Validate;
    CommandRuns(e, d, c);
    OrderSequences(d, c, t);
    ReviewEnter(e, d, c, l);
    OnlyValidateReviews(e, Entered(d, c), c, c.body[0], c.body[1..]);
    ValidateFacts(e, Entered(d, c), c, c.body[0], c.body[1..], l);
  }

  /** Main result, for every step of every run. Each reviewed output's commitment opens to
      the unblinded value, of which the amount shown is the low 64 bits; a payment is shown
      with an amount, and change that carries anything goes back to the wallet. When the
      outputs are first all reviewed, the list streamed for review is the list the outputs
      were derived from, in order. When the prehash is first closed, the commitments reviewed
      after the last terminal output and those given to the last phase are together the ones
      it closed over. (Two lists may differ only if two explicit byte strings have one SHA-256
      digest.) */
  lemma ReviewedIsSigned(e: Env, evs: seq<Event>, n: nat)
    requires n < |Play(e, evs).notes|
    ensures StepFacts(e, LedgerOf(Play(e, evs).notes[..n]), Play(e, evs).notes[n])
  {
    hide Play, Next, OrderInv, Built, LedgerOf, TrailOf;
    FirstNote(e, evs);
    var ns := Play(e, evs).notes;
    if ns[n].Output? || ns[n].Finalized? {
      hide StepFacts;
      var m := NoteOrigin(e, evs, n);
      OrderRun(e, evs[..m]);
      ReviewRun(e, evs[..m]);
      NextFacts(e, Play(e, evs[..m]).d, evs[m], TrailOf(ns[..n]), LedgerOf(ns[..n]));
    }
  }

  // --- what is closed over was reviewed, and when it is what is signed ----------------------------

  /** An output step since the fee showed `r` and opened `c`. */
  ghost predicate FromOutput(ns: seq<Note>, r: Rec, c: key)
  {
    exists j :: 0 <= j < |ns| && OutputAt(ns, r, c, j)
  }

  predicate OutputAt(ns: seq<Note>, r: Rec, c: key, j: nat)
    requires j < |ns|
  {
    && ns[j].Output? && ns[j].rec == r && ns[j].commitment == c
    && forall k :: j < k < |ns| ==> !Boundary(ns[k]) && !ns[k].Fee?
  }

  /** The commitments since the fee are those of the outputs reviewed, one for one. */
  ghost predicate Paired(ns: seq<Note>, l: Ledger)
  {
    && |l.reviewed| == |l.committed|
    && forall i :: 0 <= i < |l.committed| ==> FromOutput(ns, l.reviewed[i], l.committed[i])
  }

  /** What was closed over, and what came late, are among them; and are all of them, in
      order, after a single terminal output. */
  predicate Grouped(l: Ledger)
  {
    && (forall c <- l.closed :: c in l.committed) && (forall c <- l.late :: c in l.committed)
    && (l.terminals == 0 ==> l.closed == [] && l.late == l.committed)
    && (l.terminals == 1 ==> l.closed + l.late == l.committed)
  }

  lemma GroupedStep(l: Ledger, n: Note)
    requires Grouped(l)
    ensures Grouped(Tally(l, n))
  {
    if n.Output? && !n.terminal { assert l.closed + (l.late + [n.commitment]) == l.closed + l.late + [n.commitment]; }
  }

  lemma FromLonger(ns: seq<Note>, n: Note, r: Rec, c: key)
    requires FromOutput(ns, r, c) && !Boundary(n) && !n.Fee?
    ensures FromOutput(ns + [n], r, c)
  {
    var j :| 0 <= j < |ns| && OutputAt(ns, r, c, j);
    assert OutputAt(ns + [n], r, c, j);
  }

  lemma PairedLonger(ns: seq<Note>, n: Note, l: Ledger)
    requires Paired(ns, l) && !Boundary(n) && !n.Fee?
    ensures Paired(ns + [n], l)
  {
    forall i | 0 <= i < |l.committed|
      ensures FromOutput(ns + [n], l.reviewed[i], l.committed[i])
    {
      FromLonger(ns, n, l.reviewed[i], l.committed[i]);
    }
  }

  lemma PairedStep(ns: seq<Note>, n: Note, l: Ledger)
    requires Paired(ns, l)
    ensures Paired(ns + [n], Tally(l, n))
  {
    hide FromOutput;
    if !Boundary(n) && !n.Fee? { PairedLonger(ns, n, l); }
    if n.Output? { FromLast(ns, n); }
  }

  lemma FromLast(ns: seq<Note>, n: Note)
    requires n.Output?
    ensures FromOutput(ns + [n], n.rec, n.commitment)
  {
    assert OutputAt(ns + [n], n.rec, n.commitment, |ns|);
  }

  lemma {:induction false} Pairing(ns: seq<Note>)
    ensures Paired(ns, LedgerOf(ns)) && Grouped(LedgerOf(ns))
  {
    hide Tally, Paired, Grouped;
    if ns == [] {
      PairedNone();
    } else {
      var ms, n := ns[..|ns| - 1], ns[|ns| - 1];
      Pairing(ms);
      assert ns == ms + [n];
      LedgerSnoc(ms, n);
      PairedStep(ms, n, LedgerOf(ms));
      GroupedStep(LedgerOf(ms), n);
    }
  }

  lemma PairedNone()
    ensures Paired([], EMPTY) && Grouped(EMPTY)
  {
  }

  /** In every run, every output reviewed since the fee, and with it every commitment that
      was closed over, is that of a step that opened it. */
  lemma ClosedWereOpened(e: Env, evs: seq<Event>, n: nat, i: nat) returns (j: nat)
    requires n <= |Play(e, evs).notes| && i < |LedgerOf(Play(e, evs).notes[..n]).committed|
    ensures Grouped(LedgerOf(Play(e, evs).notes[..n]))
    ensures j < n && Play(e, evs).notes[j].Output? && Opens(e, Play(e, evs).notes[j])
    ensures
      var l, x := LedgerOf(Play(e, evs).notes[..n]), Play(e, evs).notes[j];
      |l.reviewed| == |l.committed| && x.commitment == l.committed[i] && x.rec == l.reviewed[i]
  {
    hide Play, LedgerOf, Opens;
    var ns := Play(e, evs).notes[..n];
    var l := LedgerOf(ns);
    Pairing(ns);
    assert FromOutput(ns, l.reviewed[i], l.committed[i]);
    j :| 0 <= j < |ns| && OutputAt(ns, l.reviewed[i], l.committed[i], j);
    ReviewedIsSigned(e, evs, j);
  }

  /** Main result: when the prehash is first closed, the commitments hashed into it are those
      the terminal output closed over exactly when no output step came after that one, and
      then, with a single terminal output, they are the commitments of the outputs reviewed.
      (Or two explicit byte strings have one SHA-256 digest.) */
  lemma HashedIsClosedIff(e: Env, evs: seq<Event>, n: nat)
    requires n < |Play(e, evs).notes| && Play(e, evs).notes[n].Finalized?
    requires LedgerOf(Play(e, evs).notes[..n]).finals == 0
    ensures
      var l := LedgerOf(Play(e, evs).notes[..n]);
      || Collision(e.sha, Flatten(l.late + l.hashed), Flatten(l.closed))
      || (&& (l.hashed == l.closed <==> l.late == [])
          && (l.late == [] && l.terminals == 1 ==> l.hashed == l.committed))
  {
    hide Play, LedgerOf, Flatten, Opens;
    var l := LedgerOf(Play(e, evs).notes[..n]);
    ReviewedIsSigned(e, evs, n);
    Pairing(Play(e, evs).notes[..n]);
    if l.late + l.hashed == l.closed {
      assert |l.late| + |l.hashed| == |l.closed|;
      assert l.late == [] ==> l.late + l.hashed == l.hashed && l.closed + l.late == l.closed;
    }
  }
}
