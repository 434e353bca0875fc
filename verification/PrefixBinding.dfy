/** In every run, the prefix that is finalized carries exactly the outputs that were derived. */
module PrefixBinding {
  import opened Bytes
  import opened Status
  import opened Transcript
  import PrefixSpec
  import PrefixSafety
  import PrefixGrammar
  import PrefixAcceptance
  import opened OutputBinding
  import opened DeviceState
  import opened DeviceSpec
  import opened DeviceRuns
  import opened Ordering

  // --- the ledger ---------------------------------------------------------------------------

  /** A payment ID as it was retained. */
  datatype Pid = Pid(nonce: nonce9, pub: key, plain: pid8)

  /** Since the transaction opened: what was derived, the payment ID retained, the prefix
      streamed; how often it was finalized, the bytes first finalized (header and prefix),
      and whether a proof had run before that. */
  datatype Stream = Stream(entries: seq<Entry>, addKeys: seq<key>, mains: seq<key>, pid: Option<Pid>,
                           header: bytes, streamed: bytes, disturbed: bool, finals: nat, closed: bytes, clean: bool)

  const NO_STREAM := Stream([], [], [], None, [], [], false, 0, [], false)

  function Record(l: Stream, n: Note): Stream
  {
    if Boundary(n) then NO_STREAM
    else if n.Derived? then
      l.(entries := l.entries + [n.entry], mains := l.mains + [n.mainKey],
         addKeys := if n.addKey.Some? then l.addKeys + [n.addKey.value] else l.addKeys)
    else if n.PaymentId? then l.(pid := Some(Pid(n.nonce, n.pub, n.plain)))
    else if n.PrefixHeader? then l.(header := n.header)
    else if n.PrefixChunk? then
      var l := l.(streamed := l.streamed + n.chunk);
      if !n.last then l
      else if l.finals == 0 then l.(finals := 1, closed := l.header + l.streamed, clean := !l.disturbed)
      else l.(finals := l.finals + 1)
    else if n.Disturbed? then l.(disturbed := true)
    else l
  }

  function StreamOf(ns: seq<Note>): Stream
  {
    if ns == [] then NO_STREAM else Record(StreamOf(ns[..|ns| - 1]), ns[|ns| - 1])
  }

  lemma StreamSnoc(ns: seq<Note>, n: Note)
    ensures StreamOf(ns + [n]) == Record(StreamOf(ns), n)
  {
    hide Record;
    assert (ns + [n])[..|ns|] == ns;
  }

  /** What the prefix is checked against, from what was derived alone. */
  function BindingFor(e: Env, l: Stream): PrefixSpec.Binding
    requires l.mains != []
  {
    PrefixSpec.Binding(true, |l.entries| % TWO32, l.addKeys != [], Digest(e.sha, Entries(l.entries, 0)),
      Digest(e.sha, Flatten(l.addKeys)), l.mains[|l.mains| - 1], l.pid.Some?,
      if l.pid.Some? then l.pid.value.nonce else ZERO_NONCE, e.sha)
  }

  // --- the invariant --------------------------------------------------------------------------

  /** One main key for all outputs, as long as the 32-bit output count has not wrapped. */
  predicate OneMain(mains: seq<key>)
  {
    |mains| <= TWO32 ==> forall i :: 0 <= i < |mains| ==> mains[i] == mains[0]
  }

  predicate Counted(o: Outputs, l: Stream)
  {
    && AllValid(l.entries) && |l.mains| == |l.entries| && o.count == |l.entries| % TWO32
    && |l.addKeys| <= |l.entries| && (o.addkExpected <==> l.addKeys != [])
    && (l.mains != [] ==> o.extraR == l.mains[|l.mains| - 1])
    && OneMain(l.mains) && (0 < |l.mains| <= TWO32 ==> o.mainKey == l.mains[0])
    && (o.pidSet <==> l.pid.Some?) && o.pidNonce == (if l.pid.Some? then l.pid.value.nonce else ZERO_NONCE)
    && (l.pid.Some? ==> o.pidPub == l.pid.value.pub && o.pid == l.pid.value.plain)
  }

  /** While outputs are derived. */
  predicate Building(d: Dev, l: Stream)
  {
    && d.outputs.parser.eph == Ctx([], Entries(l.entries, 0)) && d.outputs.parser.addk == Ctx([], Flatten(l.addKeys))
    && l.streamed == [] && l.finals == 0 && (!l.disturbed ==> d.signing.keccakH == FRESH)
  }

  /** Once the prefix streams. */
  predicate Streaming(e: Env, d: Dev, l: Stream)
  {
    && l.entries != []
    && d.outputs.outEph == Digest(e.sha, Entries(l.entries, 0)) && d.outputs.addk == Digest(e.sha, Flatten(l.addKeys))
    && PrefixSpec.Run(BindingOf(e, d), PrefixSpec.RESET, l.streamed) == PrefixSpec.Ok(d.outputs.parser)
    && (d.session.gate.ins == INS_PREFIX_HASH && !l.disturbed && l.finals == 0 ==>
          d.signing.keccakH == Ctx([], l.header + l.streamed))
    && (l.finals == 1 && l.clean ==> d.signing.prefixH == Digest(e.keccak, l.closed))
  }

  predicate Bound(e: Env, d: Dev, l: Stream)
  {
    d.Signs() ==>
      && Counted(d.outputs, l) && (l.finals > 0 ==> InPhase(d.session.gate.ins, 2))
      && (InPhase(d.session.gate.ins, 1) ==> l.entries != [])
      && if InPhase(d.session.gate.ins, 2) then Streaming(e, d, l) else Building(d, l)
  }

  predicate KeepsBound(e: Env, r: Result, l: Stream)
  {
    !r.Refuse? ==> Bound(e, After(r), Record(l, r.note))
  }

  /** A step after the prefix that leaves it alone. */
  predicate Past(d: Dev, s: Dev, n: Note)
  {
    s.Signs() ==>
      && d.Signs() && s.outputs == d.outputs && s.signing.prefixH == d.signing.prefixH
      && InPhase(d.session.gate.ins, 2) && InPhase(s.session.gate.ins, 3)
      && !Boundary(n) && !n.Derived? && !n.PaymentId? && !n.PrefixHeader? && !n.PrefixChunk? && !n.Disturbed?
  }

  predicate PastResult(d: Dev, r: Result)
  {
    !r.Refuse? ==> Past(d, After(r), r.note)
  }

  lemma PastKeeps(e: Env, d: Dev, s: Dev, n: Note, l: Stream)
    requires Bound(e, d, l) && Past(d, s, n)
    ensures Bound(e, s, Record(l, n))
  {
    hide Entries, Flatten, PrefixSpec.Run, AllValid, OneMain;
  }

  // --- the steps that build it ----------------------------------------------------------------

  lemma BoundEdges(e: Env, d: Dev, c: Cmd, data: bytes, l: Stream)
    requires Bound(e, d, l)
    ensures c.ins == INS_OPEN_TX ==> KeepsBound(e, OpenTx(e, d, c, data), l)
    ensures KeepsBound(e, CloseTx(d), l)
    ensures KeepsBound(e, SetMode(d, data), l)
    ensures KeepsBound(e, Restart(d, c), l)
  {
    hide PrefixSpec.Run;
    NothingYet();
  }

  lemma NothingYet()
    ensures Entries([], 0) == [] && Flatten([]) == []
  {
  }

  lemma BoundOutside(e: Env, d: Dev, c: Cmd, l: Stream)
    requires Bound(e, d, l)
    ensures KeepsBound(e, Outside(d, c), l)
  {
    hide PrefixSpec.Run, Entries, Flatten, AllValid, OneMain;
  }

  lemma BoundStealth(e: Env, d: Dev, c: Cmd, data: bytes, l: Stream)
    requires Bound(e, d, l) && c.ins == INS_STEALTH
    ensures KeepsBound(e, Stealth(e, d, c, data), l)
  {
    hide FetchKey, PrefixSpec.Run, Entries, Flatten, AllValid, OneMain, Mask8, StealthMask;
  }

  lemma EntryValid(e: Env, a: OutArgs)
    requires Derive(e, a).Some?
    ensures EntryFor(a, Derive(e, a).value).Valid()
  {
  }

  lemma CountedOne(o: Outputs, p: Outputs, l: Stream, n: Note)
    requires Counted(o, l) && n.Derived? && n.entry.Valid()
    requires o.count != 0 ==> n.mainKey == o.mainKey
    requires p == o.(parser := p.parser, extraR := n.mainKey, addkExpected := o.addkExpected || n.addKey.Some?,
                     mainKey := if o.count == 0 then n.mainKey else o.mainKey, count := (o.count + 1) % TWO32)
    ensures Counted(p, Record(l, n))
  {
    NextCount(|l.entries|);
    OneMainSnoc(o, l, n.mainKey);
  }

  lemma NextCount(k: nat)
    ensures (k % TWO32 + 1) % TWO32 == (k + 1) % TWO32
    ensures k < TWO32 ==> k % TWO32 == k
  {
  }

  lemma OneMainSnoc(o: Outputs, l: Stream, m: key)
    requires OneMain(l.mains) && (0 < |l.mains| <= TWO32 ==> o.mainKey == l.mains[0])
    requires o.count == |l.mains| % TWO32 && (o.count != 0 ==> m == o.mainKey)
    ensures OneMain(l.mains + [m])
    ensures |l.mains| + 1 <= TWO32 ==> (if o.count == 0 then m else o.mainKey) == (l.mains + [m])[0]
  {
    NextCount(|l.mains|);
  }

  lemma BoundDerive(e: Env, d: Dev, c: Cmd, data: bytes, l: Stream)
    requires Bound(e, d, l) && (d.Signs() ==> c.version >= 2) && c.ins == INS_GEN_TXOUT_KEYS && d.session.inProgress
    ensures KeepsBound(e, GenOutput(e, d, c, data), l)
  {
    hide FetchKey, ParseOut, Derive, Vouched, Bound, GenOutputWith, Record;
    var p := ParseOut(e, d, data);
    if p.Parsed? && Derive(e, p.args).Some? && d.Signs() && Vouched(e, d, p.args) {
      var g := d.session.gate.ins;
      if g == INS_OPEN_TX || g == INS_STEALTH || g == INS_GEN_TXOUT_KEYS {
        EntryValid(e, p.args);
        VouchedMain(e, d, p.args);
        BoundOne(e, d, Pin(d, p.args), c, p.args, Derive(e, p.args).value, l);
      }
    }
    if !d.Signs() { FakeStaysFake(e, d, c, data, l); }
  }

  lemma FakeStaysFake(e: Env, d: Dev, c: Cmd, data: bytes, l: Stream)
    requires !d.Signs() && d.session.inProgress
    ensures KeepsBound(e, GenOutput(e, d, c, data), l)
  {
    hide FetchKey, ParseOut, Derive, Vouched, Streaming, Building, Counted;
  }

  lemma VouchedMain(e: Env, d: Dev, a: OutArgs)
    requires Vouched(e, d, a)
    ensures d.outputs.count != 0 ==> a.pub == d.outputs.mainKey
  {
  }

  lemma BoundOne(e: Env, d: Dev, s: Dev, c: Cmd, a: OutArgs, x: Derivative, l: Stream)
    requires Bound(e, d, l) && d.Signs() && c.version >= 2 && c.ins == INS_GEN_TXOUT_KEYS && EntryFor(a, x).Valid()
    requires d.session.gate.ins in {INS_OPEN_TX, INS_STEALTH, INS_GEN_TXOUT_KEYS}
    requires d.outputs.count != 0 ==> a.pub == d.outputs.mainKey
    requires s == d.(outputs := d.outputs.(mainKey := if d.outputs.count == 0 then a.pub else d.outputs.mainKey))
    ensures KeepsBound(e, GenOutputWith(e, s, c, a, x), l)
  {
    hide PrefixSpec.Run, Entries, Flatten, AllValid, OneMain, EntryFor, RecFor, RecBytes, Counted, Streaming;
    var r := GenOutputWith(e, s, c, a, x);
    CountedOne(d.outputs, r.d.outputs, l, r.note);
    CountIs(d.outputs, l);
    BuildingOne(e, d, r.d, a, x, r.note, l);
  }

  lemma BuildingOne(e: Env, d: Dev, s: Dev, a: OutArgs, x: Derivative, n: Note, l: Stream)
    requires Building(d, l) && d.outputs.count == |l.entries| % TWO32
    requires n == Derived(EntryFor(a, x), RecFor(a, x), a.pub, if a.need != 0 then Some(x.addKey) else None)
    requires s.outputs.parser == Chain(d, a, x).outputs.parser && s.signing == d.signing
    ensures Building(s, Record(l, n))
  {
    hide Entries, Flatten, RecFor, RecBytes;
    EntriesSnoc(l.entries, EntryFor(a, x), 0);
    FlattenSnoc(l.addKeys, x.addKey);
  }

  lemma CountIs(o: Outputs, l: Stream)
    requires Counted(o, l)
    ensures o.count == |l.entries| % TWO32
  {
  }

  /** Streaming moves none of the counts. */
  lemma CountedSame(o: Outputs, p: Outputs, l: Stream, m: Stream)
    requires Counted(o, l) && p == o.(parser := p.parser, outEph := p.outEph, addk := p.addk)
    requires m == l.(header := m.header, streamed := m.streamed, disturbed := m.disturbed, finals := m.finals,
                     closed := m.closed, clean := m.clean)
    ensures Counted(p, m)
  {
  }

  // --- the prefix itself ------------------------------------------------------------------------

  lemma BoundInit(e: Env, d: Dev, c: Cmd, data: bytes, l: Stream)
    requires Bound(e, d, l) && d.Signs() && c.version >= 2 && c.ins == INS_PREFIX_HASH
    requires d.session.gate.ins == INS_GEN_TXOUT_KEYS
    ensures KeepsBound(e, PrefixInit(e, d, c, data), l)
  {
    hide Timelock, Entries, Flatten, Counted;
    var r := PrefixInit(e, d, c, data);
    if !r.Refuse? { CountedSame(d.outputs, After(r).outputs, l, Record(l, r.note)); }
    assert FRESH.open + data == data == data + l.streamed;
  }

  /** The parser has run over one more chunk. */
  lemma ParserRan(e: Env, d: Dev, l: Stream, data: bytes)
    requires Bound(e, d, l) && d.Signs() && d.session.gate.ins == INS_PREFIX_HASH
    ensures PrefixSpec.Run(BindingOf(e, d), PrefixSpec.RESET, l.streamed + data)
         == PrefixSpec.Run(BindingOf(e, d), d.outputs.parser, data)
  {
    hide PrefixSpec.Run, Entries, Flatten, Counted;
    PrefixSpec.RunConcat(BindingOf(e, d), PrefixSpec.RESET, l.streamed, data);
  }

  /** The device after the chunk `data` drove the parser to `p`. */
  ghost predicate Moved(e: Env, d: Dev, s: Dev, p: PrefixSpec.Parser, n: Note)
  {
    && n.PrefixChunk? && s.Signs() && s.session.gate.ins == INS_PREFIX_HASH
    && s.outputs == d.outputs.(parser := p) && BindingOf(e, s) == BindingOf(e, d)
    && if n.last then s.signing.prefixH == e.keccak(Update(d.signing.keccakH, n.chunk))
       else s.signing == d.signing.(keccakH := Update(d.signing.keccakH, n.chunk))
  }

  lemma MovedKeeps(e: Env, d: Dev, s: Dev, p: PrefixSpec.Parser, n: Note, l: Stream)
    requires Bound(e, d, l) && d.Signs() && d.session.gate.ins == INS_PREFIX_HASH && Moved(e, d, s, p, n)
    requires PrefixSpec.Run(BindingOf(e, d), PrefixSpec.RESET, l.streamed + n.chunk) == PrefixSpec.Ok(p)
    ensures Bound(e, s, Record(l, n))
  {
    hide PrefixSpec.Run, Entries, Flatten, Counted, BindingOf;
    CountedSame(d.outputs, s.outputs, l, Record(l, n));
    assert l.header + l.streamed + n.chunk == l.header + (l.streamed + n.chunk);
  }

  lemma UpdateMoves(e: Env, d: Dev, c: Cmd, options: byte, data: bytes)
    requires d.Signs() && c.version >= 2 && c.ins == INS_PREFIX_HASH && !PrefixUpdate(e, d, c, options, data).Refuse?
    ensures var r, o := PrefixUpdate(e, d, c, options, data), PrefixSpec.Run(BindingOf(e, d), d.outputs.parser, data);
      r.Reply? && o.Ok? && Moved(e, d, r.d, o.p, r.note) && r.note.chunk == data
  {
    hide PrefixSpec.Run;
  }

  lemma BoundUpdate(e: Env, d: Dev, c: Cmd, options: byte, data: bytes, l: Stream)
    requires Bound(e, d, l) && d.Signs() && c.version >= 2 && c.ins == INS_PREFIX_HASH
    requires d.session.gate.ins == INS_PREFIX_HASH
    ensures KeepsBound(e, PrefixUpdate(e, d, c, options, data), l)
  {
    hide PrefixSpec.Run, PrefixUpdate, Moved, Bound, BindingOf, Record;
    var r := PrefixUpdate(e, d, c, options, data);
    if !r.Refuse? {
      UpdateMoves(e, d, c, options, data);
      ParserRan(e, d, l, data);
      MovedKeeps(e, d, r.d, PrefixSpec.Run(BindingOf(e, d), d.outputs.parser, data).p, r.note, l);
    }
  }

  lemma BoundPrefix(e: Env, d: Dev, c: Cmd, options: byte, data: bytes, l: Stream)
    requires Bound(e, d, l) && Sequenced(d, c) && c.ins == INS_PREFIX_HASH && d.session.inProgress
    ensures KeepsBound(e, PrefixHash(e, d, c, options, data), l)
  {
    hide Bound, PrefixInit, PrefixUpdate, Record;
    if d.Signs() {
      if d.session.gate.ins == INS_GEN_TXOUT_KEYS { BoundInit(e, d, c, data, l); }
      if d.session.gate.ins == INS_PREFIX_HASH { BoundUpdate(e, d, c, options, data, l); }
    } else {
      PrefixStaysFake(e, d, c, options, data, l);
    }
  }

  lemma PrefixStaysFake(e: Env, d: Dev, c: Cmd, options: byte, data: bytes, l: Stream)
    requires !d.Signs() && d.session.inProgress
    ensures KeepsBound(e, PrefixHash(e, d, c, options, data), l)
  {
    hide Timelock, Streaming, Building, Counted, PrefixSpec.Run;
  }

  // --- the steps that leave it alone ------------------------------------------------------------

  lemma PastMasks(e: Env, d: Dev, c: Cmd, options: byte, data: bytes)
    requires d.session.inProgress
    ensures c.ins == INS_GEN_COMMITMENT_MASK ==> PastResult(d, CommitmentMask(e, d, c, data))
    ensures c.ins == INS_BLIND ==> PastResult(d, Blind(e, d, c, options, data))
  {
    hide FetchHandle;
  }

  lemma PastValidate(e: Env, d: Dev, c: Cmd, options: byte, data: bytes)
    requires c.ins == INS_VALIDATE && d.session.inProgress
    ensures PastResult(d, Validate(e, d, c, options, data))
  {
    hide FeeOf, FeeLine, ParseStep, Opening, PidRefused, Shown, DisplayOf;
  }

  lemma PastSign(e: Env, d: Dev, c: Cmd, options: byte, data: bytes)
    requires (c.ins == INS_MLSAG || c.ins == INS_CLSAG) && d.session.inProgress
    ensures PastResult(d, Sign(e, d, c, options, data))
  {
    hide MlsagPrepare, MlsagHash, MlsagSign, ClsagPrepare, ClsagHash, ClsagSign;
    SignKeepsStages(e, d, c, options, data);
    SignKeepsOutputs(e, d, c, options, data);
  }

  lemma SignKeepsOutputs(e: Env, d: Dev, c: Cmd, options: byte, data: bytes)
    requires c.ins == INS_MLSAG || c.ins == INS_CLSAG
    ensures var r := Sign(e, d, c, options, data);
      !r.Refuse? ==> After(r).outputs == d.outputs && After(r).signing.prefixH == d.signing.prefixH
  {
    hide FetchHandle, Challenge, History;
  }

  lemma PastAfter(e: Env, d: Dev, r: Result, l: Stream)
    requires Bound(e, d, l) && PastResult(d, r)
    ensures KeepsBound(e, r, l)
  {
    hide Bound, Past, Record;
    if !r.Refuse? { PastKeeps(e, d, After(r), r.note, l); }
  }

  // --- every step, every run --------------------------------------------------------------------

  lemma BoundServe(e: Env, d: Dev, c: Cmd, options: byte, data: bytes, l: Stream)
    requires Bound(e, d, l) && Sequenced(d, c)
    requires Access(d.session.inProgress, c.ins) == SW_OK
    ensures KeepsBound(e, Serve(e, d, c, options, data), l)
  {
    hide KeepsBound, PastResult, Bound, Restart, OpenTx, CloseTx, SetMode, Stealth, GenOutput, PrefixHash,
      CommitmentMask, Blind, Sign, Outside, Validate;
    BoundEdges(e, d, c, data, l);
    BoundOutside(e, d, c, l);
    if c.ins == INS_STEALTH {
      BoundStealth(e, d, c, data, l);
    } else if c.ins == INS_GEN_TXOUT_KEYS {
      BoundDerive(e, d, c, data, l);
    } else if c.ins == INS_PREFIX_HASH {
      BoundPrefix(e, d, c, options, data, l);
    } else if InTransactionOnly(c.ins) {
      PastMasks(e, d, c, options, data);
      if c.ins == INS_VALIDATE { PastValidate(e, d, c, options, data); }
      if c.ins == INS_MLSAG || c.ins == INS_CLSAG { PastSign(e, d, c, options, data); }
      PastAfter(e, d, Serve(e, d, c, options, data), l);
    }
  }

  lemma BoundUser(e: Env, d: Dev, l: Stream)
    requires Bound(e, d, l)
    ensures Bound(e, Approve(d).d, Record(l, Approve(d).note))
    ensures Bound(e, Deny(d).d, Record(l, Deny(d).note))
  {
    hide Entries, Flatten, PrefixSpec.Run, Counted;
  }

  lemma BoundEnter(e: Env, d: Dev, c: Cmd, l: Stream)
    requires Bound(e, d, l) && Protocol(d, c.version).Some?
    ensures Bound(e, Entered(d, c), l)
  {
    hide Entries, Flatten, PrefixSpec.Run, Counted;
  }

  lemma BoundNext(e: Env, d: Dev, ev: Event, t: Trail, l: Stream)
    requires Bound(e, d, l) && OrderInv(d.session, t) && Next(e, d, ev).Running?
    ensures Bound(e, Next(e, d, ev).d, Record(l, Next(e, d, ev).note))
  {
    match ev
    case Command(c) =>
      hide Serve, Access, Dispatch, Protocol, OrderInv, Bound, Record, Sequenced;
      CommandRuns(e, d, c);
      OrderSequences(d, c, t);
      BoundEnter(e, d, c, l);
      BoundServe(e, Entered(d, c), c, c.body[0], c.body[1..], l);
    case Accept => BoundUser(e, d, l);
    case Reject => BoundUser(e, d, l);
    case UserReset =>
  }

  lemma {:induction false} BoundRun(e: Env, evs: seq<Event>)
    ensures var t := Play(e, evs); t.Alive? ==> Bound(e, t.d, StreamOf(t.notes))
  {
    hide Next, Bound, Record, StreamOf;
    if evs == [] {
      BoundStart(e);
    } else {
      BoundRun(e, evs[..|evs| - 1]);
      var t := Play(e, evs[..|evs| - 1]);
      if t.Alive? && Next(e, t.d, evs[|evs| - 1]).Running? {
        OrderRun(e, evs[..|evs| - 1]);
        BoundNext(e, t.d, evs[|evs| - 1], TrailOf(t.notes), StreamOf(t.notes));
        StreamSnoc(t.notes, Next(e, t.d, evs[|evs| - 1]).note);
      }
    }
  }

  lemma BoundStart(e: Env)
    ensures Bound(e, InitFrom(0, {}), StreamOf([Init]))
  {
  }

  // --- the results --------------------------------------------------------------------------------

  /** `fs[i]` is the first block of additional keys. */
  predicate FirstBlock(fs: seq<PrefixGrammar.Field>, i: nat)
  {
    i < |fs| && fs[i].AddKeys? && forall j :: 0 <= j < i ==> !fs[j].AddKeys?
  }

  /** `extra` carries the main key of the outputs once; the retained payment ID once, if there
      is one, and no other nonce; and blocks of additional keys exactly when some were derived,
      the first of which holds just these, in order, or collides with them. */
  ghost predicate ExtraCarries(e: Env, l: Stream, fs: seq<PrefixGrammar.Field>)
    requires l.mains != []
  {
    && PrefixAcceptance.CountMainKeys(fs) == 1
    && PrefixAcceptance.CountNonces(fs) == (if l.pid.Some? then 1 else 0)
    && (forall i :: 0 <= i < |fs| && fs[i].MainKey? ==> fs[i].key == l.mains[|l.mains| - 1])
    && (forall i :: 0 <= i < |fs| && fs[i].Nonce? ==> l.pid.Some? && fs[i].pid == l.pid.value.nonce)
    && (forall i :: 0 <= i < |fs| && fs[i].AddKeys? ==>
          l.addKeys != [] && |fs[i].keys| == KEY_SIZE * (|l.entries| % TWO32))
    && (l.addKeys != [] ==>
          exists i: nat :: FirstBlock(fs, i)
            && (fs[i].keys == Flatten(l.addKeys) || Collision(e.sha, fs[i].keys, Flatten(l.addKeys))))
  }

  lemma {:induction false} SomeFirst(fs: seq<PrefixGrammar.Field>) returns (i: nat)
    requires exists j :: 0 <= j < |fs| && fs[j].AddKeys?
    ensures FirstBlock(fs, i)
    decreases fs
  {
    if fs[0].AddKeys? {
      i := 0;
    } else {
      var j :| 0 <= j < |fs| && fs[j].AddKeys?;
      assert fs[1..][j - 1].AddKeys?;
      var k := SomeFirst(fs[1..]);
      i := k + 1;
      assert forall m :: 1 <= m < i ==> fs[m] == fs[1..][m - 1];
    }
  }

  lemma FieldsCarry(e: Env, l: Stream, fs: seq<PrefixGrammar.Field>)
    requires l.mains != [] && PrefixGrammar.FieldsOk(BindingFor(e, l), fs, PrefixGrammar.NOTHING_FOUND)
    ensures ExtraCarries(e, l, fs)
  {
    hide PrefixGrammar.FieldsOk, Flatten, Entries;
    var b := BindingFor(e, l);
    PrefixAcceptance.FieldsBindings(b, fs, PrefixGrammar.NOTHING_FOUND);
    assert forall i :: 0 <= i < |fs| && fs[i].Nonce? ==> l.pid.Some? by {
      if !l.pid.Some? { NoNonces(fs); }
    }
    if l.addKeys != [] {
      var i := SomeFirst(fs);
      PrefixAcceptance.FirstAddKeys(b, fs, PrefixGrammar.NOTHING_FOUND, Flatten(l.addKeys), i);
    }
  }

  lemma {:induction false} NoNonces(fs: seq<PrefixGrammar.Field>)
    requires PrefixAcceptance.CountNonces(fs) == 0
    ensures forall i :: 0 <= i < |fs| ==> !fs[i].Nonce?
  {
    if fs != [] {
      NoNonces(fs[1..]);
      assert forall i :: 1 <= i < |fs| ==> fs[i] == fs[1..][i - 1];
    }
  }

  /** The bytes streamed are a prefix (and a suffix nobody reads) whose outputs are the derived
      ones and whose `extra` carries the derived keys and the retained payment ID, or two
      explicit byte strings have one SHA-256 digest. (The empty string can only be one of
      them for a prefix of 2^64 additional keys.) */
  ghost predicate CarriesDerived(e: Env, l: Stream)
    requires l.mains != []
  {
    var b := BindingFor(e, l);
    || (exists p, suffix :: PrefixGrammar.InLanguage(b, p, suffix, l.streamed) && SignsOnly(b, p, l.entries)
                         && ExtraCarries(e, l, p.fields))
    || (Collision(e.sha, [], Entries(l.entries, 0)) && |l.streamed| >= KEY_SIZE * TWO64)
  }

  /** What holds when the prefix is finalized, and what is signed when the prehash is closed. */
  ghost predicate PrefixFacts(e: Env, l: Stream, n: Note)
  {
    && (n.PrefixChunk? && n.last ==> var m := Record(l, n); m.mains != [] && OneMain(m.mains) && CarriesDerived(e, m))
    && (n.Finalized? && l.finals == 1 && l.clean ==> n.message == Digest(e.keccak, l.closed))
  }

  lemma BindingsAgree(e: Env, d: Dev, l: Stream)
    requires Bound(e, d, l) && d.Signs() && InPhase(d.session.gate.ins, 2)
    ensures l.mains != [] && OneMain(l.mains) && AllValid(l.entries) && BindingOf(e, d) == BindingFor(e, l)
    ensures l.addKeys != [] ==> l.entries != []
    ensures PrefixSpec.Run(BindingFor(e, l), PrefixSpec.RESET, l.streamed) == PrefixSpec.Ok(d.outputs.parser)
  {
    hide Entries, Flatten, PrefixSpec.Run, AllValid, OneMain;
  }

  /** A binding the parser could not survive is a collision with the empty string. */
  lemma SoundOrCollision(e: Env, l: Stream)
    requires l.mains != [] && (l.addKeys != [] ==> l.entries != [])
    ensures PrefixSafety.Sound(BindingFor(e, l)) || Collision(e.sha, [], Entries(l.entries, 0))
  {
    EntriesEmpty(l.entries, 0);
  }

  /** The finished parser is one that accepts. */
  lemma DoneAccepts(b: PrefixSpec.Binding, bs: bytes)
    requires b.Valid()
    requires var o := PrefixSpec.Run(b, PrefixSpec.RESET, bs); o.Ok? && o.p.done
    ensures PrefixSpec.Accepts(b, PrefixSpec.RESET, bs)
  {
    hide PrefixSpec.Run;
    PrefixSafety.ResetSafe(b);
    PrefixSafety.RunSafe(b, PrefixSpec.RESET, bs);
  }

  lemma FinalCarries(e: Env, d: Dev, l: Stream)
    requires Bound(e, d, l) && d.Signs() && InPhase(d.session.gate.ins, 2) && d.outputs.parser.done
    ensures l.mains != [] && OneMain(l.mains) && CarriesDerived(e, l)
  {
    hide Bound, PrefixSpec.Run, Entries, PrefixSafety.Sound, PrefixSpec.Accepts, PrefixGrammar.InLanguage,
      OneMain, AllValid, ExtraCarries, SignsOnly, Flatten, PrefixGrammar.FieldsOk;
    BindingsAgree(e, d, l);
    SoundOrCollision(e, l);
    var b := BindingFor(e, l);
    DoneAccepts(b, l.streamed);
    if PrefixSafety.Sound(b) {
      SignedIsDerived(b, l.streamed, l.entries);
      var p, suffix :| PrefixGrammar.InLanguage(b, p, suffix, l.streamed) && SignsOnly(b, p, l.entries);
      FieldsOfLanguage(b, p, suffix, l.streamed);
      FieldsCarry(e, l, p.fields);
    } else {
      PrefixSafety.UnsoundAccepts(b, l.streamed);
    }
  }

  lemma FieldsOfLanguage(b: PrefixSpec.Binding, p: PrefixGrammar.Prefix, suffix: bytes, bs: bytes)
    requires b.Valid() && PrefixGrammar.InLanguage(b, p, suffix, bs)
    ensures PrefixGrammar.FieldsOk(b, p.fields, PrefixGrammar.NOTHING_FOUND)
  {
    hide PrefixGrammar.FieldsOk;
  }

  /** A last chunk is noted only when the parser is done, and a final step only when the
      message is the device's own prefix hash. */
  predicate Checked(d: Dev, r: Result)
  {
    !r.Refuse? ==>
      && (r.note.PrefixChunk? && r.note.last ==>
            After(r).Signs() && After(r).session.gate.ins == INS_PREFIX_HASH && After(r).outputs.parser.done)
      && (r.note.Finalized? ==> d.Signs() && InPhase(d.session.gate.ins, 2) && r.note.message == d.signing.prefixH)
  }

  lemma CheckedPrefix(e: Env, d: Dev, c: Cmd, options: byte, data: bytes)
    requires Sequenced(d, c) && c.ins == INS_PREFIX_HASH && d.session.inProgress
    ensures Checked(d, PrefixHash(e, d, c, options, data))
  {
    hide Timelock, PrefixSpec.Run;
  }

  lemma CheckedValidate(e: Env, d: Dev, c: Cmd, options: byte, data: bytes)
    requires Sequenced(d, c) && c.ins == INS_VALIDATE && d.session.inProgress
    ensures Checked(d, Validate(e, d, c, options, data))
  {
    hide ParseStep, Opening, PidRefused, Shown, DisplayOf, FeeOf, FeeLine;
  }

  lemma CheckedServe(e: Env, d: Dev, c: Cmd, options: byte, data: bytes)
    requires Sequenced(d, c) && Access(d.session.inProgress, c.ins) == SW_OK
    ensures Checked(d, Serve(e, d, c, options, data))
  {
    hide FetchHandle, Sign, FetchKey, ParseOut, Derive, Vouched, Validate, PrefixHash, Sequenced;
    if c.ins == INS_PREFIX_HASH {
      CheckedPrefix(e, d, c, options, data);
    } else if c.ins == INS_VALIDATE {
      CheckedValidate(e, d, c, options, data);
    } else if c.ins == INS_MLSAG || c.ins == INS_CLSAG {
      SignKeepsStages(e, d, c, options, data);
    }
  }

  lemma NextPrefixFacts(e: Env, d: Dev, ev: Event, t: Trail, l: Stream)
    requires Bound(e, d, l) && OrderInv(d.session, t) && Next(e, d, ev).Running?
    requires Next(e, d, ev).note.PrefixChunk? || Next(e, d, ev).note.Finalized?
    ensures PrefixFacts(e, l, Next(e, d, ev).note)
  {
    var c, s := ev.cmd, Next(e, d, ev);
    hide Serve, Access, Dispatch, Protocol, OrderInv, Bound, Sequenced, Record, CarriesDerived, OneMain;
    CommandRuns(e, d, c);
    OrderSequences(d, c, t);
    BoundNext(e, d, ev, t, l);
    CheckedServe(e, Entered(d, c), c, c.body[0], c.body[1..]);
    if s.note.PrefixChunk? {
      if s.note.last { FinalCarries(e, s.d, Record(l, s.note)); }
    } else {
      BoundEnter(e, d, c, l);
      MessageIsPrefix(e, Entered(d, c), l);
    }
  }

  lemma MessageIsPrefix(e: Env, d: Dev, l: Stream)
    requires Bound(e, d, l) && d.Signs() && InPhase(d.session.gate.ins, 2)
    ensures l.finals == 1 && l.clean ==> d.signing.prefixH == Digest(e.keccak, l.closed)
  {
    hide Counted, Entries, Flatten, PrefixSpec.Run;
  }

  /** Main result, for every step of every run: whenever the prefix is finalized, the bytes
      streamed carry the derived outputs, entry by entry, under the one main key, with the
      derived additional keys and the retained payment ID; and what the prehash signs as the
      message is the hash of those bytes, when no proof ran in between. */
  lemma FinalizedPrefixIsDerived(e: Env, evs: seq<Event>, n: nat)
    requires n < |Play(e, evs).notes|
    ensures PrefixFacts(e, StreamOf(Play(e, evs).notes[..n]), Play(e, evs).notes[n])
  {
    hide Play, Next, OrderInv, Bound, StreamOf, TrailOf, Record, CarriesDerived;
    FirstNote(e, evs);
    var ns := Play(e, evs).notes;
    if ns[n].PrefixChunk? || ns[n].Finalized? {
      hide PrefixFacts;
      var m := NoteOrigin(e, evs, n);
      OrderRun(e, evs[..m]);
      BoundRun(e, evs[..m]);
      NextPrefixFacts(e, Play(e, evs[..m]).d, evs[m], TrailOf(ns[..n]), StreamOf(ns[..n]));
    }
  }

  /** In every run, while a real prefix streams the parser is in a state that
      `PrefixParser.Verifier.Parse` may run on; and its configuration is one in which no counter
      ever underflows, or the empty string collides with 2^32 derived outputs or more. */
  lemma ParserSafeInEveryRun(e: Env, evs: seq<Event>)
    requires Play(e, evs).Alive?
    ensures
      var d, l := Play(e, evs).d, StreamOf(Play(e, evs).notes);
      d.Signs() && InPhase(d.session.gate.ins, 2) ==>
        && PrefixSafety.Safe(BindingOf(e, d), d.outputs.parser)
        && (|| PrefixSafety.Sound(BindingOf(e, d))
            || (Collision(e.sha, [], Entries(l.entries, 0)) && |l.entries| >= TWO32))
  {
    hide Play, StreamOf, Bound, PrefixSafety.Safe, PrefixSafety.Sound;
    BoundRun(e, evs);
    var d, l := Play(e, evs).d, StreamOf(Play(e, evs).notes);
    if d.Signs() && InPhase(d.session.gate.ins, 2) { ParserSafe(e, d, l); }
  }

  lemma ParserSafe(e: Env, d: Dev, l: Stream)
    requires Bound(e, d, l) && d.Signs() && InPhase(d.session.gate.ins, 2)
    ensures PrefixSafety.Safe(BindingOf(e, d), d.outputs.parser)
    ensures PrefixSafety.Sound(BindingOf(e, d)) || (Collision(e.sha, [], Entries(l.entries, 0)) && |l.entries| >= TWO32)
  {
    hide Bound, PrefixSpec.Run, PrefixSafety.Safe, Entries, AllValid, OneMain;
    BindingsAgree(e, d, l);
    var b := BindingFor(e, l);
    SoundOrCollision(e, l);
    PrefixSafety.ResetSafe(b);
    PrefixSafety.RunSafe(b, PrefixSpec.RESET, l.streamed);
    if !PrefixSafety.Sound(b) { CountZero(l); }
  }

  lemma CountZero(l: Stream)
    ensures |l.entries| % TWO32 == 0 && l.entries != [] ==> |l.entries| >= TWO32
  {
  }

  /** While nothing closes or reopens the transaction, the prefix first finalized stays. */
  lemma {:induction false} SameClose(ns: seq<Note>, p: nat)
    requires p <= |ns| && forall i :: p <= i < |ns| ==> !Boundary(ns[i]) && !(ns[i].PrefixChunk? && ns[i].last)
    ensures
      var l, m := StreamOf(ns[..p]), StreamOf(ns);
      m.finals == l.finals && m.closed == l.closed && m.clean == l.clean
    decreases |ns|
  {
    if p == |ns| {
      assert ns[..p] == ns;
    } else {
      assert ns[..|ns| - 1][..p] == ns[..p];
      SameClose(ns[..|ns| - 1], p);
    }
  }

  lemma ClosedAt(ns: seq<Note>, p: nat, n: nat)
    requires p < n <= |ns| && ns[p].PrefixChunk? && ns[p].last
    requires forall i :: p < i < n ==> !Boundary(ns[i]) && !(ns[i].PrefixChunk? && ns[i].last)
    ensures
      var l, m := Record(StreamOf(ns[..p]), ns[p]), StreamOf(ns[..n]);
      && m.finals == l.finals
      && (l.finals == 1 ==> m.closed == l.header + l.streamed && m.clean == !l.disturbed)
  {
    assert ns[..n][..p + 1] == ns[..p] + [ns[p]];
    SameClose(ns[..n], p + 1);
    StreamSnoc(ns[..p], ns[p]);
  }

  /** End to end: every real response of every run comes after a complete transaction whose
      finalized prefix carries the outputs the device derived; and the message in the prehash
      is the hash of the header and those bytes, when the prefix was finalized once and no
      proof had run. */
  lemma SignatureCarriesDerived(e: Env, evs: seq<Event>, n: nat)
    requires n < |Play(e, evs).notes| && Play(e, evs).notes[n].Signed?
    ensures
      var ns := Play(e, evs).notes;
      var t := TrailOf(ns[..n]);
      && Complete(ns, n, t)
      && var l := Record(StreamOf(ns[..t.prefix]), ns[t.prefix]);
      && l.mains != [] && OneMain(l.mains) && CarriesDerived(e, l)
      && (l.finals == 1 && !l.disturbed ==> ns[t.finalized].message == Digest(e.keccak, l.header + l.streamed))
  {
    hide Play, TrailOf, StreamOf, Record, CarriesDerived, OneMain;
    SignatureComplete(e, evs, n);
    var ns := Play(e, evs).notes;
    var t := TrailOf(ns[..n]);
    FinalizedPrefixIsDerived(e, evs, t.prefix);
    FinalizedPrefixIsDerived(e, evs, t.finalized);
    TrailLatest(ns[..n]);
    ClosedAt(ns, t.prefix, t.finalized);
  }
}
