/** Every real signature response comes after the whole transaction, in order. */
module Ordering {
  import opened Bytes
  import opened Status
  import opened DeviceState
  import opened DeviceSpec
  import opened DeviceRuns
  import opened Varint
  import AmountText

  /** Where, since the transaction opened, each kind of step was last noted; -1 for never. */
  datatype Trail = Trail(open: int, gen: int, prefix: int, mask: int, blind: int, fee: int, fees: nat,
                         terminal: int, accept: int, finalized: int)

  const BLANK := Trail(-1, -1, -1, -1, -1, -1, 0, -1, -1, -1)

  function Mark(t: Trail, i: nat, n: Note): Trail
  {
    if Boundary(n) then BLANK.(open := if n.Opened? then i else -1)
    else if n.Derived? then t.(gen := i)
    else if n.PrefixChunk? && n.last then t.(prefix := i)
    else if n.Masked? then t.(mask := i)
    else if n.Blinded? then t.(blind := i)
    else if n.Fee? then t.(fee := i, fees := t.fees + 1)
    else if n.Output? && n.terminal then t.(terminal := i)
    else if n.Accepted? then t.(accept := i)
    else if n.Finalized? then t.(finalized := i)
    else t
  }

  function TrailOf(ns: seq<Note>): Trail
  {
    if ns == [] then BLANK else Mark(TrailOf(ns[..|ns| - 1]), |ns| - 1, ns[|ns| - 1])
  }

  // --- the invariant -------------------------------------------------------------------

  predicate InPhase(ins: byte, phase: nat)
  {
    || (phase <= 6 && (ins == INS_MLSAG || ins == INS_CLSAG))
    || (phase <= 5 && ins == INS_VALIDATE)
    || (phase <= 4 && ins == INS_BLIND)
    || (phase <= 3 && ins == INS_GEN_COMMITMENT_MASK)
    || (phase <= 2 && ins == INS_PREFIX_HASH)
    || (phase <= 1 && ins == INS_GEN_TXOUT_KEYS)
    || (phase <= 0 && (ins == INS_OPEN_TX || ins == INS_STEALTH))
  }

  predicate Protocols(s: Session)
  {
    && (s.mode == Real ==> s.protocol == 3 || s.protocol == 4)
    && (!(s.inProgress && s.mode == Real) ==> s.stages == NO_STAGE)
  }

  /** What the phase says has been noted. */
  predicate Phases(s: Session, t: Trail)
  {
    && t.open >= 0 && InPhase(s.gate.ins, 0)
    && (InPhase(s.gate.ins, 1) ==> t.open < t.gen)
    && (InPhase(s.gate.ins, 3) ==> s.stages.prefix && t.prefix < t.mask)
    && (InPhase(s.gate.ins, 4) ==> t.mask < t.blind)
    && (InPhase(s.gate.ins, 5) ==> t.blind < t.fee && t.fees == 1)
    && (!InPhase(s.gate.ins, 5) ==> t.fees == 0)
    && (s.gate.ins == INS_VALIDATE ==> s.gate.p1 >= 1 && s.gate.p2 >= 1)
    && (s.gate.ins == INS_PREFIX_HASH ==> s.gate.p1 >= 1)
  }

  /** What a raised stage bit says has been noted. */
  predicate Raised(s: Session, t: Trail)
  {
    && (s.stages.prefix ==> InPhase(s.gate.ins, 2) && t.gen < t.prefix)
    && (s.stages.reviewed ==> InPhase(s.gate.ins, 5) && t.fee < t.terminal)
    && (s.stages.reviewed && s.screen != Review ==> s.stages.approved && t.terminal < t.accept)
    && (s.stages.approved ==> s.stages.reviewed)
    && (s.stages.prehash ==> s.stages.approved && s.screen != Review && t.accept < t.finalized)
    && (s.stages.prehash ==> InPhase(s.gate.ins, 6) || (s.gate.ins == INS_VALIDATE && s.gate.p1 >= 3))
  }

  predicate OrderInv(s: Session, t: Trail)
  {
    Protocols(s) && (s.inProgress && s.mode == Real ==> Phases(s, t) && Raised(s, t))
  }

  /** What a command must leave, with its note at `i`. */
  predicate Keeps(r: Result, t: Trail, i: nat)
  {
    !r.Refuse? ==> OrderInv(After(r).session, Mark(t, i, r.note))
  }

  predicate Bounded(t: Trail, i: nat)
  {
    && t.open < i && t.gen < i && t.prefix < i && t.mask < i && t.blind < i && t.fee < i
    && t.terminal < i && t.accept < i && t.finalized < i
  }

  predicate Ready(d: Dev, t: Trail, i: nat)
  {
    OrderInv(d.session, t) && Bounded(t, i) && d.session.screen == Idle
  }

  lemma OrderEdges(e: Env, d: Dev, c: Cmd, data: bytes, t: Trail, i: nat)
    requires Ready(d, t, i)
    ensures Keeps(OpenTx(e, d, c, data), t, i) || c.ins != INS_OPEN_TX
    ensures Keeps(CloseTx(d), t, i)
    ensures Keeps(SetMode(d, data), t, i)
    ensures Keeps(Restart(d, c), t, i)
  {
  }

  lemma OrderOutside(d: Dev, c: Cmd, t: Trail, i: nat)
    requires Ready(d, t, i)
    ensures Keeps(Outside(d, c), t, i)
  {
  }

  lemma OrderStealth(e: Env, d: Dev, c: Cmd, data: bytes, t: Trail, i: nat)
    requires Ready(d, t, i) && c.ins == INS_STEALTH
    ensures Keeps(Stealth(e, d, c, data), t, i)
  {
    hide FetchKey, Mask8, StealthMask;
  }

  lemma OrderDerive(e: Env, d: Dev, c: Cmd, data: bytes, t: Trail, i: nat)
    requires Ready(d, t, i) && c.ins == INS_GEN_TXOUT_KEYS
    ensures Keeps(GenOutput(e, d, c, data), t, i)
  {
    hide FetchKey, ParseOut, Derive, Vouched, RecFor, EntryFor;
  }

  lemma OrderPrefix(e: Env, d: Dev, c: Cmd, options: byte, data: bytes, t: Trail, i: nat)
    requires Ready(d, t, i) && c.ins == INS_PREFIX_HASH && d.session.inProgress
    ensures Keeps(PrefixHash(e, d, c, options, data), t, i)
  {
    hide Timelock;
  }

  lemma OrderMask(e: Env, d: Dev, c: Cmd, options: byte, data: bytes, t: Trail, i: nat)
    requires Ready(d, t, i)
    ensures c.ins == INS_GEN_COMMITMENT_MASK ==> Keeps(CommitmentMask(e, d, c, data), t, i)
    ensures c.ins == INS_BLIND ==> Keeps(Blind(e, d, c, options, data), t, i)
  {
    hide FetchHandle;
  }

  lemma OrderFee(e: Env, d: Dev, c: Cmd, options: byte, data: bytes, t: Trail, i: nat)
    requires Ready(d, t, i) && c.ins == INS_VALIDATE && d.session.inProgress
    requires ValidateGate(d.session.gate, c) == SW_OK && c.p1 == 1
    ensures Keeps(PrehashInit(e, d, c, options, data), t, i)
  {
    hide FeeOf, FeeLine;
  }

  lemma OrderOutput(e: Env, d: Dev, c: Cmd, options: byte, data: bytes, t: Trail, i: nat)
    requires Ready(d, t, i) && c.ins == INS_VALIDATE && d.session.inProgress
    requires ValidateGate(d.session.gate, c) == SW_OK && c.p1 == 2
    ensures Keeps(PrehashUpdate(e, d, c, options, data), t, i)
  {
    hide ParseStep, Opening, PidRefused, Shown, DisplayOf;
  }

  lemma OrderFinalize(e: Env, d: Dev, c: Cmd, data: bytes, t: Trail, i: nat)
    requires Ready(d, t, i) && c.ins == INS_VALIDATE && d.session.inProgress
    requires ValidateGate(d.session.gate, c) == SW_OK && c.p1 == 3
    ensures Keeps(FinalizePrehash(e, d, c, data), t, i)
  {
  }

  lemma OrderAbsorb(e: Env, d: Dev, c: Cmd, data: bytes, t: Trail, i: nat)
    requires Ready(d, t, i) && c.ins == INS_VALIDATE && d.session.inProgress
    requires ValidateGate(d.session.gate, c) == SW_OK && c.p1 == 3
    ensures Keeps(AbsorbCommitment(d, c, data), t, i)
  {
  }

  lemma OrderSign(e: Env, d: Dev, c: Cmd, options: byte, data: bytes, t: Trail, i: nat)
    requires Ready(d, t, i) && (c.ins == INS_MLSAG || c.ins == INS_CLSAG)
    ensures Keeps(Sign(e, d, c, options, data), t, i)
  {
    hide FetchHandle, MlsagPrepare, MlsagHash, MlsagSign, ClsagPrepare, ClsagHash, ClsagSign;
    SignKeepsStages(e, d, c, options, data);
  }

  /** A signing command moves the gate inside its own phase and nothing else of the session. */
  predicate OnlyGate(r: Result, d: Dev, c: Cmd)
  {
    !r.Refuse? ==>
      && r.Reply? && r.d.session == d.session.(gate := r.d.session.gate) && r.d.session.gate.ins == c.ins
      && (r.note.Quiet? || r.note.Prepared? || r.note.Hashed? || r.note.Signed?)
  }

  lemma SignKeepsStages(e: Env, d: Dev, c: Cmd, options: byte, data: bytes)
    requires c.ins == INS_MLSAG || c.ins == INS_CLSAG
    ensures OnlyGate(Sign(e, d, c, options, data), d, c)
  {
    hide MlsagPrepare, MlsagHash, MlsagSign, ClsagPrepare, ClsagHash, ClsagSign, SignGate, OnlyGate;
    MlsagKeepsStages(e, d, c, options, data);
    ClsagKeepsStages(e, d, c, options, data);
    RefusalKeeps(SignGate(d, c), d, c);
  }

  lemma RefusalKeeps(sw: nat, d: Dev, c: Cmd)
    ensures OnlyGate(Refuse(sw), d, c)
  {
  }

  lemma MlsagKeepsStages(e: Env, d: Dev, c: Cmd, options: byte, data: bytes)
    ensures OnlyGate(MlsagPrepare(e, d, c, options, data), d, c)
    ensures OnlyGate(MlsagHash(e, d, c, options, data), d, c)
    ensures OnlyGate(MlsagSign(e, d, c, data), d, c)
  {
    hide FetchHandle, Challenge;
  }

  lemma ClsagKeepsStages(e: Env, d: Dev, c: Cmd, options: byte, data: bytes)
    ensures OnlyGate(ClsagPrepare(e, d, c, data), d, c)
    ensures OnlyGate(ClsagHash(e, d, c, options, data), d, c)
    ensures OnlyGate(ClsagSign(e, d, c, data), d, c)
  {
    hide FetchHandle, Challenge, History;
  }

  // --- every step, every run -----------------------------------------------------------

  lemma OrderServe(e: Env, d: Dev, c: Cmd, options: byte, data: bytes, t: Trail, i: nat)
    requires Ready(d, t, i) && Access(d.session.inProgress, c.ins) == SW_OK
    ensures Keeps(Serve(e, d, c, options, data), t, i)
  {
    hide Keeps, Ready, Restart, OpenTx, CloseTx, SetMode, Stealth, GenOutput, PrefixHash, CommitmentMask, Blind,
      Sign, Outside, PrehashInit, PrehashUpdate, AbsorbCommitment, FinalizePrehash, ValidateGate;
    OrderEdges(e, d, c, data, t, i);
    OrderOutside(d, c, t, i);
    if c.ins == INS_STEALTH { OrderStealth(e, d, c, data, t, i); }
    if c.ins == INS_GEN_TXOUT_KEYS { OrderDerive(e, d, c, data, t, i); }
    OrderMask(e, d, c, options, data, t, i);
    if c.ins == INS_PREFIX_HASH { OrderPrefix(e, d, c, options, data, t, i); }
    if c.ins == INS_MLSAG || c.ins == INS_CLSAG { OrderSign(e, d, c, options, data, t, i); }
    if c.ins == INS_VALIDATE { OrderValidate(e, d, c, options, data, t, i); }
  }

  lemma OrderValidate(e: Env, d: Dev, c: Cmd, options: byte, data: bytes, t: Trail, i: nat)
    requires Ready(d, t, i) && c.ins == INS_VALIDATE && d.session.inProgress
    ensures Keeps(Validate(e, d, c, options, data), t, i)
  {
    hide Ready, PrehashInit, PrehashUpdate, AbsorbCommitment, FinalizePrehash, ValidateGate, OrderInv, Mark;
    if ValidateGate(d.session.gate, c) == SW_OK {
      if c.p1 == 1 { OrderFee(e, d, c, options, data, t, i); }
      if c.p1 == 2 { OrderOutput(e, d, c, options, data, t, i); }
      if c.p1 == 3 { OrderAbsorb(e, d, c, data, t, i); OrderFinalize(e, d, c, data, t, i); }
    }
  }

  lemma OrderEnter(d: Dev, c: Cmd, t: Trail, i: nat)
    requires Ready(d, t, i) && Protocol(d, c.version).Some?
    ensures Ready(Entered(d, c), t, i)
  {
  }

  lemma OrderUser(d: Dev, t: Trail, i: nat)
    requires OrderInv(d.session, t) && Bounded(t, i)
    ensures OrderInv(Approve(d).d.session, Mark(t, i, Approve(d).note))
    ensures OrderInv(Deny(d).d.session, Mark(t, i, Deny(d).note))
  {
  }

  lemma OrderNext(e: Env, d: Dev, ev: Event, t: Trail, i: nat)
    requires OrderInv(d.session, t) && Bounded(t, i) && Next(e, d, ev).Running?
    ensures OrderInv(Next(e, d, ev).d.session, Mark(t, i, Next(e, d, ev).note))
  {
    match ev
    case Command(c) =>
      hide Serve, Access, Dispatch, Protocol, OrderInv, Bounded, Mark;
      CommandRuns(e, d, c);
      OrderEnter(d, c, t, i);
      OrderServe(e, Entered(d, c), c, c.body[0], c.body[1..], t, i);
    case Accept => OrderUser(d, t, i);
    case Reject => OrderUser(d, t, i);
    case UserReset =>
  }

  lemma TrailSnoc(ns: seq<Note>, n: Note)
    ensures TrailOf(ns + [n]) == Mark(TrailOf(ns), |ns|, n)
  {
    hide Mark;
    assert (ns + [n])[..|ns|] == ns;
  }

  /** `i` is -1, or the position of a note like `kind`. */
  predicate Points(ns: seq<Note>, i: int, kind: Note -> bool)
  {
    i < |ns| && (i >= 0 ==> kind(ns[i]))
  }

  /** The trail tells the truth about the notes. */
  predicate Truthful(ns: seq<Note>, t: Trail)
  {
    && Points(ns, t.open, IsOpened) && Points(ns, t.gen, IsDerived) && Points(ns, t.prefix, IsPrefixEnd)
    && Points(ns, t.mask, IsMasked) && Points(ns, t.blind, IsBlinded) && Points(ns, t.fee, IsFee)
    && Points(ns, t.terminal, IsTerminal) && Points(ns, t.accept, IsAccepted) && Points(ns, t.finalized, IsFinalized)
  }

  predicate IsOpened(n: Note) { n.Opened? }
  predicate IsDerived(n: Note) { n.Derived? }
  predicate IsPrefixEnd(n: Note) { n.PrefixChunk? && n.last }
  predicate IsMasked(n: Note) { n.Masked? }
  predicate IsBlinded(n: Note) { n.Blinded? }
  predicate IsFee(n: Note) { n.Fee? }
  predicate IsTerminal(n: Note) { n.Output? && n.terminal }
  predicate IsAccepted(n: Note) { n.Accepted? }
  predicate IsFinalized(n: Note) { n.Finalized? }

  lemma PointsSnoc(ns: seq<Note>, n: Note, i: int, j: int, kind: Note -> bool)
    requires Points(ns, i, kind)
    requires j == i || j == -1 || (j == |ns| && kind(n))
    ensures Points(ns + [n], j, kind)
  {
  }

  /** Since `t.open`, no boundary; no fee when `t.fees` is 0, and only the one at `t.fee` when it is 1. */
  predicate Alone(ns: seq<Note>, t: Trail)
  {
    && (forall i :: 0 <= t.open < i < |ns| ==> !Boundary(ns[i]))
    && (t.open >= 0 && t.fees == 0 ==> forall i :: t.open < i < |ns| ==> !ns[i].Fee?)
    && (t.open >= 0 && t.fees == 1 ==> forall i :: t.open < i < |ns| && ns[i].Fee? ==> i == t.fee)
  }

  /** Since `t.open`, nothing was derived after `t.gen`, and no prefix ended after `t.prefix`. */
  predicate Latest(ns: seq<Note>, t: Trail)
  {
    t.open >= 0 ==> forall i :: t.open < i < |ns| ==>
      (ns[i].Derived? ==> i <= t.gen) && (ns[i].PrefixChunk? && ns[i].last ==> i <= t.prefix)
  }

  lemma {:induction false} TrailLatest(ns: seq<Note>)
    ensures Latest(ns, TrailOf(ns))
  {
    if ns != [] {
      var ms, n := ns[..|ns| - 1], ns[|ns| - 1];
      TrailLatest(ms);
      TrailTruthful(ms);
      LatestMark(ms, n, TrailOf(ms));
      assert ns == ms + [n];
    }
  }

  lemma LatestMark(ms: seq<Note>, n: Note, t: Trail)
    requires Truthful(ms, t) && Latest(ms, t)
    ensures Latest(ms + [n], Mark(t, |ms|, n))
  {
    var ns := ms + [n];
    assert forall i :: 0 <= i < |ms| ==> ns[i] == ms[i];
  }

  lemma {:induction false} TrailTruthful(ns: seq<Note>)
    ensures Truthful(ns, TrailOf(ns)) && Alone(ns, TrailOf(ns))
  {
    if ns != [] {
      var ms, n := ns[..|ns| - 1], ns[|ns| - 1];
      TrailTruthful(ms);
      TruthfulMark(ms, n, TrailOf(ms));
      AloneMark(ms, n, TrailOf(ms));
      assert ns == ms + [n];
    }
  }

  lemma TruthfulMark(ms: seq<Note>, n: Note, t: Trail)
    requires Truthful(ms, t)
    ensures Truthful(ms + [n], Mark(t, |ms|, n))
  {
    hide Points;
    var u := Mark(t, |ms|, n);
    PointsSnoc(ms, n, t.open, u.open, IsOpened);
    PointsSnoc(ms, n, t.gen, u.gen, IsDerived);
    PointsSnoc(ms, n, t.prefix, u.prefix, IsPrefixEnd);
    PointsSnoc(ms, n, t.mask, u.mask, IsMasked);
    PointsSnoc(ms, n, t.blind, u.blind, IsBlinded);
    PointsSnoc(ms, n, t.fee, u.fee, IsFee);
    PointsSnoc(ms, n, t.terminal, u.terminal, IsTerminal);
    PointsSnoc(ms, n, t.accept, u.accept, IsAccepted);
    PointsSnoc(ms, n, t.finalized, u.finalized, IsFinalized);
  }

  lemma AloneMark(ms: seq<Note>, n: Note, t: Trail)
    requires Truthful(ms, t) && Alone(ms, t)
    ensures Alone(ms + [n], Mark(t, |ms|, n))
  {
    var ns := ms + [n];
    assert forall i :: 0 <= i < |ms| ==> ns[i] == ms[i];
  }

  lemma {:induction false} OrderRun(e: Env, evs: seq<Event>)
    ensures var t := Play(e, evs); t.Alive? ==> OrderInv(t.d.session, TrailOf(t.notes))
  {
    hide Next, OrderInv, Mark;
    if evs == [] {
      OrderStart();
    } else {
      OrderRun(e, evs[..|evs| - 1]);
      var t := Play(e, evs[..|evs| - 1]);
      if t.Alive? && Next(e, t.d, evs[|evs| - 1]).Running? {
        TrailTruthful(t.notes);
        OrderNext(e, t.d, evs[|evs| - 1], TrailOf(t.notes), |t.notes|);
        TrailSnoc(t.notes, Next(e, t.d, evs[|evs| - 1]).note);
      }
    }
  }

  lemma OrderStart()
    ensures OrderInv(InitFrom(0, {}).session, TrailOf([Init]))
  {
    TrailSnoc([], Init);
  }

  /** The whole transaction before the signature at `n`, in order and without interruption. */
  predicate Complete(ns: seq<Note>, n: nat, t: Trail)
    requires n < |ns|
  {
    && 0 <= t.open < t.gen < t.prefix < t.mask < t.blind < t.fee < t.terminal < t.accept < t.finalized < n
    && ns[t.open].Opened? && ns[t.gen].Derived? && ns[t.prefix].PrefixChunk? && ns[t.prefix].last && ns[t.mask].Masked?
    && ns[t.blind].Blinded? && ns[t.fee].Fee? && ns[t.terminal].Output? && ns[t.terminal].terminal
    && ns[t.accept].Accepted? && ns[t.finalized].Finalized?
    && (forall i :: t.open < i < n ==> !Boundary(ns[i]) && (ns[i].Fee? ==> i == t.fee))
  }

  /** What the order of the commands contributes: the protocol binds, and the fee is paid once. */
  predicate Sequenced(d: Dev, c: Cmd)
  {
    && (d.Signs() ==> c.version >= 3)
    && (d.Signs() && d.session.gate.ins == INS_VALIDATE ==> d.session.gate.p1 >= 1 && d.session.gate.p2 >= 1)
    && (d.Signs() && d.session.gate.ins == INS_PREFIX_HASH ==> d.session.gate.p1 >= 1)
  }

  lemma OrderSequences(d: Dev, c: Cmd, t: Trail)
    requires OrderInv(d.session, t) && Protocol(d, c.version).Some?
    ensures Sequenced(Entered(d, c), c)
  {
  }

  /** A real response needs a transaction in progress, for real, approved and prehashed. */
  lemma SignedNeeds(e: Env, d: Dev, ev: Event)
    requires var s := Next(e, d, ev); s.Running? && s.note.Signed?
    ensures d.session.screen == Idle && d.session.inProgress && d.session.mode == Real && d.session.stages.prehash
    ensures ev.Command? && Protocol(d, ev.cmd.version).Some? && ev.cmd.body != [] && ev.cmd.p1 == 3
    ensures ev.cmd.ins == INS_MLSAG || ev.cmd.ins == INS_CLSAG
    ensures SignGate(Entered(d, ev.cmd), ev.cmd) == SW_OK
    ensures
      var c, t := ev.cmd, Entered(d, ev.cmd);
      var r := if c.ins == INS_MLSAG then MlsagSign(e, t, c, c.body[1..]) else ClsagSign(e, t, c, c.body[1..]);
      r.Reply? && Next(e, d, ev) == Running(r.d, r.note)
  {
    hide Serve, Access, Dispatch, FetchHandle, Protocol, MlsagSign, ClsagSign, SignGate;
    CommandRuns(e, d, ev.cmd);
    var c, t := ev.cmd, Entered(d, ev.cmd);
    EnterKeeps(d, c);
    SignedServed(e, t, c, c.body[0], c.body[1..]);
  }

  lemma EnterKeeps(d: Dev, c: Cmd)
    requires Protocol(d, c.version).Some?
    ensures Entered(d, c) == d.(session := d.session.(protocol := c.version))
    ensures d.session.protocol == NO_PROTOCOL || d.session.protocol == c.version
  {
  }

  lemma SignedServed(e: Env, d: Dev, c: Cmd, options: byte, data: bytes)
    requires var r := Serve(e, d, c, options, data); !r.Refuse? && r.note.Signed?
    requires Access(d.session.inProgress, c.ins) == SW_OK
    ensures (c.ins == INS_MLSAG || c.ins == INS_CLSAG) && c.p1 == 3 && SignGate(d, c) == SW_OK
    ensures d.session.inProgress && d.session.mode == Real && d.session.stages.prehash
    ensures Serve(e, d, c, options, data)
         == if c.ins == INS_MLSAG then MlsagSign(e, d, c, data) else ClsagSign(e, d, c, data)
    ensures Serve(e, d, c, options, data).Reply?
  {
    hide FetchHandle, Restart, OpenTx, CloseTx, SetMode, Stealth, GenOutput, PrefixHash, CommitmentMask, Blind,
      Validate, Outside, Sign;
    OnlySignSigns(e, d, c, options, data);
    SignSigned(e, d, c, options, data);
  }

  lemma OnlySignSigns(e: Env, d: Dev, c: Cmd, options: byte, data: bytes)
    ensures var r := Serve(e, d, c, options, data);
      !r.Refuse? && r.note.Signed? ==> (c.ins == INS_MLSAG || c.ins == INS_CLSAG) && r == Sign(e, d, c, options, data)
  {
    hide FetchHandle, Sign, FetchKey, ParseOut, Derive, Vouched, Timelock, Opening, FeeOf, FeeLine, ParseStep,
      PidRefused, Shown, DisplayOf;
  }

  lemma SignSigned(e: Env, d: Dev, c: Cmd, options: byte, data: bytes)
    requires c.ins == INS_MLSAG || c.ins == INS_CLSAG
    requires var r := Sign(e, d, c, options, data); !r.Refuse? && r.note.Signed?
    ensures c.p1 == 3 && SignGate(d, c) == SW_OK && d.session.mode == Real && d.session.stages.prehash
    ensures Sign(e, d, c, options, data).Reply?
    ensures Sign(e, d, c, options, data) ==
      if c.ins == INS_MLSAG then MlsagSign(e, d, c, data) else ClsagSign(e, d, c, data)
  {
    hide FetchHandle, Challenge, History;
  }

  /** Main result: in every run, every real signature response is preceded by its whole
      transaction, in order, with exactly one fee and nothing closing or reopening it. */
  lemma SignatureComplete(e: Env, evs: seq<Event>, n: nat)
    requires n < |Play(e, evs).notes| && Play(e, evs).notes[n].Signed?
    ensures Complete(Play(e, evs).notes, n, TrailOf(Play(e, evs).notes[..n]))
  {
    hide Play, Next, OrderInv, Mark, TrailOf, Complete;
    FirstNote(e, evs);
    var ns := Play(e, evs).notes;
    var m := NoteOrigin(e, evs, n);
    OrderRun(e, evs[..m]);
    var d := Play(e, evs[..m]).d;
    SignedNeeds(e, d, evs[m]);
    TrailTruthful(ns[..n]);
    LastIsComplete(d.session, ns[..n], ns[n]);
    CompleteLonger(ns[..n] + [ns[n]], ns, n, TrailOf(ns[..n]));
  }

  lemma CompleteLonger(ms: seq<Note>, ns: seq<Note>, n: nat, t: Trail)
    requires n < |ms| && ms <= ns && Complete(ms, n, t)
    ensures Complete(ns, n, t)
  {
    assert forall i :: 0 <= i < |ms| ==> ms[i] == ns[i];
  }

  lemma LastIsComplete(s: Session, ms: seq<Note>, x: Note)
    requires OrderInv(s, TrailOf(ms)) && Truthful(ms, TrailOf(ms)) && Alone(ms, TrailOf(ms))
    requires s.inProgress && s.mode == Real && s.stages.prehash
    ensures Complete(ms + [x], |ms|, TrailOf(ms))
  {
    hide TrailOf;
    assert forall i :: 0 <= i < |ms| ==> (ms + [x])[i] == ms[i];
  }

  /** In every run: during a real transaction, a finalized prehash means that all four
      stages are raised and the protocol is one that binds the outputs; and no stage is
      ever raised outside a real transaction. */
  lemma StagesMeanWork(e: Env, evs: seq<Event>)
    requires Play(e, evs).Alive?
    ensures
      var s := Play(e, evs).d.session;
      && (s.stages != NO_STAGE ==> s.inProgress && s.mode == Real && (s.protocol == 3 || s.protocol == 4))
      && (s.stages.prehash ==> s.stages == Stages(true, true, true, true) && s.screen != Review)
  {
    hide Play;
    OrderRun(e, evs);
  }

  /** In every run, a command that is served comes with nothing on screen and in a version the app
      knows; the commands of a transaction come inside one, and an address is shown outside. */
  lemma ServedWhen(e: Env, evs: seq<Event>, c: Cmd)
    requires Play(e, evs + [Command(c)]).Alive?
    ensures
      var t := Play(e, evs);
      && t.Alive? && t.d.session.screen == Idle && c.version in {0, 3, 4} && c.body != []
      && (t.d.session.protocol in {NO_PROTOCOL, c.version})
      && (c.ins in {0x7B, 0x7C, 0x7D, 0x7E, 0x7F, 0x77, 0x78} ==> t.d.session.inProgress)
      && (c.ins == 0x21 ==> !t.d.session.inProgress)
  {
    hide Serve, Protocol;
    assert (evs + [Command(c)])[..|evs|] == evs;
    CommandRuns(e, Play(e, evs).d, c);
    ProtocolKnown(Play(e, evs).d, c.version);
  }

  lemma ProtocolKnown(d: Dev, version: byte)
    requires Protocol(d, version).Some?
    ensures version in {0, 3, 4} && d.session.protocol in {NO_PROTOCOL, version}
  {
  }

  // --- every review is answered -----------------------------------------------------------

  /** A header is two varints, a version and an unlock time, and nothing more: cut at `k`. */
  predicate CutAt(header: bytes, k: nat)
  {
    k <= |header| && Wire(header[..k]) && Wire(header[k..])
  }

  /** The unlock time is not 0. */
  predicate Locked(header: bytes)
  {
    exists k: nat :: k <= |header| && CutAt(header, k) && Value(header[k..]) != 0
  }

  /** What the device makes of a header is what its bytes say, and it takes no other. */
  lemma TimelockReads(header: bytes)
    ensures forall k: nat :: k <= |header| && CutAt(header, k) ==> Timelock(header) == Num(Value(header[k..]))
    ensures Timelock(header).Num? ==>
      exists k: nat :: k <= |header| && CutAt(header, k) && Timelock(header) == Num(Value(header[k..]))
  {
    hide Wire, Value, VarintAt, Timelock;
    forall k: nat | k <= |header| && CutAt(header, k)
      ensures Timelock(header) == Num(Value(header[k..]))
    {
      CutReads(header, k);
    }
    if Timelock(header).Num? {
      var k := ReadCuts(header);
      assert CutAt(header, k);
    }
  }

  lemma CutReads(header: bytes, k: nat)
    requires k <= |header| && CutAt(header, k)
    ensures Timelock(header) == Num(Value(header[k..]))
  {
    hide Wire, Value, VarintAt;
    var t := header[k..];
    VarintStarts(header, k);
    assert t[..|t|] == t;
    VarintStarts(t, |t|);
    assert header[k..k + |t|] == t;
  }

  lemma ReadCuts(header: bytes) returns (k: nat)
    requires Timelock(header).Num?
    ensures k <= |header| && CutAt(header, k) && Timelock(header) == Num(Value(header[k..]))
  {
    hide Wire, Value, VarintAt;
    k := VarintAt(header).value;
    var t := header[k..];
    VarintFound(header);
    VarintFound(t);
    var m := VarintAt(t).value;
    assert t[..m] == t;
    assert header[k..k + m] == t;
  }

  lemma VarintFound(data: bytes)
    ensures VarintAt(data).Some? ==> VarintAt(data).value <= |data| && Wire(data[..VarintAt(data).value])
  {
    hide Value;
  }

  /** Where a varint starts a byte string, the reader finds it. */
  lemma VarintStarts(data: bytes, n: nat)
    requires n <= |data| && Wire(data[..n])
    ensures VarintAt(data) == Some(n)
  {
    hide Value;
    DecodeFinds(data, Min(10, |data|), 1, n);
  }

  /** A step of a real transaction that puts a review on screen: a fee, an output, or an
      unlock time. */
  predicate Screens(n: Note)
  {
    n.Fee? || n.Output? || (n.PrefixHeader? && Locked(n.header))
  }

  /** The 15 characters on screen are the digits of `v`, up to the first NUL if there is one. */
  predicate ReadsAs(line: string, v: nat)
  {
    var t := AmountText.CString(line);
    |line| == 15 && t != "" && AmountText.AllDigits(t) && AmountText.Num(t) == v
  }

  /** A header is served with its unlock time on screen, or with nothing when that is 0. */
  predicate HeaderShown(n: Note, screen: Screen)
    requires n.PrefixHeader?
  {
    && (screen == Review <==> Locked(n.header))
    && exists k: nat :: k <= |n.header| && CutAt(n.header, k)
         && if Value(n.header[k..]) == 0 then n.unlock == "" else ReadsAs(n.unlock, Value(n.header[k..]))
  }

  /** What such a step leaves on screen. */
  predicate Shows(r: Result)
  {
    !r.Refuse? ==>
      && (Screens(r.note) ==> After(r).session.screen == Review && After(r).Signs())
      && (r.note.PrefixHeader? ==> HeaderShown(r.note, After(r).session.screen))
  }

  lemma LockLineReads(v: nat)
    requires v > 0 && |AmountText.Digits(v)| <= TIMELOCK_WIDTH
    ensures ReadsAs(LockLine(v), v)
  {
    hide AmountText.Digits, AmountText.Num;
    var t := AmountText.Digits(v);
    AmountText.DigitsRead(v);
    AmountText.DigitsAreText(t);
    if |t| < TIMELOCK_WIDTH {
      AmountText.CStringOf(t, TIMELOCK_WIDTH - |t|);
    } else {
      assert LockLine(v) == t;
      assert forall i :: 0 <= i < |t| ==> t[i] in t;
    }
  }

  lemma HeaderShows(e: Env, d: Dev, c: Cmd, data: bytes)
    requires d.session.screen == Idle && d.session.inProgress
    ensures Shows(PrefixInit(e, d, c, data))
  {
    hide Timelock, Value, LockLine, ReadsAs, CutAt;
    TimelockReads(data);
    match Timelock(data)
    case BadNumber(_) =>
    case Num(v) => if v > 0 && |AmountText.Digits(v)| <= TIMELOCK_WIDTH { LockLineReads(v); }
  }

  lemma PrefixShows(e: Env, d: Dev, c: Cmd, options: byte, data: bytes)
    requires d.session.screen == Idle && d.session.inProgress
    ensures Shows(PrefixHash(e, d, c, options, data))
  {
    hide Timelock, PrefixInit, HeaderShown;
    HeaderShows(e, d, c, data);
  }

  /** A header of a real transaction is taken exactly when it is two varints, the second of at
      most 15 digits. */
  lemma HeaderTakenIff(e: Env, d: Dev, c: Cmd, data: bytes)
    requires d.session.mode == Real
    ensures !PrefixInit(e, d, c, data).Refuse? <==>
      exists k: nat :: k <= |data| && CutAt(data, k) && Value(data[k..]) < AmountText.Pow10(15)
  {
    hide Timelock, Value, LockLine, CutAt, AmountText.Digits, AmountText.Pow10;
    TimelockReads(data);
    if Timelock(data).Num? { AmountText.DigitsLength(Timelock(data).value, 15); }
  }

  lemma ValidateShows(e: Env, d: Dev, c: Cmd, options: byte, data: bytes)
    requires d.session.screen == Idle && d.session.inProgress
    ensures Shows(Validate(e, d, c, options, data))
  {
    hide Timelock, Opening, FeeOf, FeeLine, ParseStep, PidRefused, Shown, DisplayOf, HeaderShown, Locked;
  }

  lemma ServeScreens(e: Env, d: Dev, c: Cmd, options: byte, data: bytes)
    requires d.session.screen == Idle && Access(d.session.inProgress, c.ins) == SW_OK
    ensures Shows(Serve(e, d, c, options, data))
  {
    hide FetchHandle, Sign, FetchKey, ParseOut, Derive, Vouched, Timelock, PrefixHash, Validate,
      HeaderShown, Locked;
    if c.ins == INS_PREFIX_HASH {
      PrefixShows(e, d, c, options, data);
    } else if c.ins == INS_VALIDATE {
      ValidateShows(e, d, c, options, data);
    } else if c.ins == INS_MLSAG || c.ins == INS_CLSAG {
      SignKeepsStages(e, d, c, options, data);
    }
  }

  lemma NextScreens(e: Env, d: Dev, ev: Event)
    requires Next(e, d, ev).Running? && (Screens(Next(e, d, ev).note) || Next(e, d, ev).note.PrefixHeader?)
    ensures var s := Next(e, d, ev).d; Screens(Next(e, d, ev).note) ==> s.session.screen == Review && s.Signs()
    ensures var s := Next(e, d, ev); s.note.PrefixHeader? ==> HeaderShown(s.note, s.d.session.screen)
  {
    hide Serve, Access, Dispatch, Protocol, Locked, HeaderShown;
    var c := ev.cmd;
    CommandRuns(e, d, c);
    EnterKeeps(d, c);
    ServeScreens(e, Entered(d, c), c, c.body[0], c.body[1..]);
  }

  /** Main result: in every run, a header puts a review on screen exactly when its bytes say that
      the unlock time is not 0, and then its digits. */
  lemma HeaderOnScreen(e: Env, evs: seq<Event>, n: nat) returns (m: nat)
    requires n < |Play(e, evs).notes| && Play(e, evs).notes[n].PrefixHeader?
    ensures m < |evs| && Play(e, evs[..m + 1]).Alive? && Play(e, evs[..m + 1]).notes == Play(e, evs).notes[..n + 1]
    ensures HeaderShown(Play(e, evs).notes[n], Play(e, evs[..m + 1]).d.session.screen)
  {
    hide Next, HeaderShown, Locked;
    FirstNote(e, evs);
    m := NoteOrigin(e, evs, n);
    assert evs[..m + 1][..m] == evs[..m];
    NextScreens(e, Play(e, evs[..m]).d, evs[m]);
    assert Play(e, evs).notes[..n + 1] == Play(e, evs).notes[..n] + [Play(e, evs).notes[n]];
  }

  /** Whatever comes while a review is on screen either answers it or ends the run. */
  lemma ReviewAnswers(e: Env, d: Dev, ev: Event)
    requires d.session.screen == Review && d.Signs() && Next(e, d, ev).Running?
    ensures var n := Next(e, d, ev).note; n.Accepted? || n.Ended? || n.Init?
  {
  }

  /** In every run, a review of a real transaction is answered by the very next step: an
      accept, a reject, or a restart. */
  lemma ReviewAnswered(e: Env, evs: seq<Event>, i: nat)
    requires i + 1 < |Play(e, evs).notes| && Screens(Play(e, evs).notes[i])
    ensures var n := Play(e, evs).notes[i + 1]; n.Accepted? || n.Ended? || n.Init?
  {
    hide Next, Locked;
    FirstNote(e, evs);
    var ns := Play(e, evs).notes;
    var m := NoteOrigin(e, evs, i + 1);
    var p, ev := Play(e, evs[..m][..m - 1]), evs[..m][m - 1];
    assert ns[..i + 1] == p.notes + [Next(e, p.d, ev).note];
    assert ns[i] == ns[..i + 1][i];
    NextScreens(e, p.d, ev);
    ReviewAnswers(e, Play(e, evs[..m]).d, evs[m]);
  }

  /** In every run, every review between the opening of a transaction and a real response is
      followed at once by an accept. */
  lemma SignatureAccepted(e: Env, evs: seq<Event>, n: nat, i: nat)
    requires n < |Play(e, evs).notes| && Play(e, evs).notes[n].Signed?
    requires TrailOf(Play(e, evs).notes[..n]).open < i < n && Screens(Play(e, evs).notes[i])
    ensures i + 1 < n && Play(e, evs).notes[i + 1].Accepted?
  {
    hide Play, TrailOf, Screens;
    SignatureComplete(e, evs, n);
    ReviewAnswered(e, evs, i);
  }
}
