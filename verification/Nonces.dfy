/** A signing nonce is answered at most once. */
module Nonces {
  import opened Bytes
  import opened Status
  import opened DeviceState
  import opened DeviceSpec
  import opened DeviceRuns
  import opened Ordering

  /** Where the app last started, and the last nonce prepared since. */
  datatype Marks = Marks(start: nat, prepared: int)

  function MarksOf(ns: seq<Note>): Marks
  {
    if ns == [] then Marks(0, -1) else MarkNonce(MarksOf(ns[..|ns| - 1]), |ns| - 1, ns[|ns| - 1])
  }

  function MarkNonce(t: Marks, i: nat, n: Note): Marks
  {
    if n.Init? then Marks(i, -1) else if n.Prepared? then t.(prepared := i) else t
  }

  lemma MarksSnoc(ns: seq<Note>, n: Note)
    ensures MarksOf(ns + [n]) == MarkNonce(MarksOf(ns), |ns|, n)
  {
    assert (ns + [n])[..|ns|] == ns;
  }

  predicate Signing(g: Gate)
  {
    (g.ins == INS_MLSAG || g.ins == INS_CLSAG) && g.p1 != 3
  }

  /** A MAC under a key never drawn does not exist, and the nonces of the key in force were
      minted under counts up to the current one. */
  predicate MintsOk(k: Keys, inProgress: bool)
  {
    && k.keyId <= k.draws && (inProgress ==> k.keyId >= 1)
    && (forall m :: m in k.minted ==> 1 <= m.keyId <= k.draws)
    && (forall m :: m in k.minted && m.kind == TYPE_ALPHA && m.keyId == k.keyId ==> m.count <= k.signCnt)
  }

  /** `ns[p]` prepared `handle` under `count`, in the transaction still going on. */
  predicate PreparedAt(ns: seq<Note>, p: int, count: nat, handle: bytes)
  {
    0 <= p < |ns| && ns[p].Prepared? && ns[p].count == count && ns[p].handle == handle
    && forall i :: p < i < |ns| ==> !Boundary(ns[i])
  }

  /** The only nonce that verifies now is the last one prepared. */
  predicate LiveNonce(k: Keys, ns: seq<Note>, p: int)
  {
    forall m :: m in k.minted && m.kind == TYPE_ALPHA && m.keyId == k.keyId && m.count == k.signCnt
      ==> PreparedAt(ns, p, k.signCnt, m.data)
  }

  /** Counts answered since the start: none above the current one, and while a signature is
      being made, all below it and before its nonce. */
  predicate Answered(g: Gate, k: Keys, ns: seq<Note>, t: Marks)
  {
    forall i :: t.start <= i < |ns| && ns[i].Signed? ==>
      ns[i].count <= k.signCnt && (Signing(g) ==> i < t.prepared && ns[i].count < k.signCnt)
  }

  predicate NonceInv(d: Dev, ns: seq<Note>)
  {
    var t := MarksOf(ns);
    && MintsOk(d.keys, d.session.inProgress) && LiveNonce(d.keys, ns, t.prepared)
    && Answered(d.session.gate, d.keys, ns, t)
  }

  // --- the kinds of step -----------------------------------------------------------------

  /** New handles, none of them a nonce, and no move towards a signature. */
  predicate Calm(d: Dev, s: Dev, n: Note)
  {
    && s.keys == d.keys.(minted := s.keys.minted)
    && d.keys.minted <= s.keys.minted
    && (forall m :: m in s.keys.minted && m !in d.keys.minted ==> m.keyId == d.keys.keyId && m.kind != TYPE_ALPHA)
    && s.session.inProgress == d.session.inProgress && (s.keys != d.keys ==> d.session.inProgress)
    && (Signing(s.session.gate) ==> Signing(d.session.gate))
    && !Boundary(n) && !n.Prepared? && !n.Signed?
  }

  /** R is r.G for the transaction in progress. */
  predicate TxKey(e: Env, d: Dev)
  {
    d.session.inProgress ==> e.mulG(d.keys.r) == Some(d.keys.publicR)
  }

  /** A boundary: new MAC keys, and nothing of theirs is a nonce yet. */
  predicate Redrawn(e: Env, d: Dev, s: Dev, n: Note)
  {
    && d.keys.draws < s.keys.keyId <= s.keys.draws && s.keys.signCnt == d.keys.signCnt
    && d.keys.minted <= s.keys.minted
    && (forall m :: m in s.keys.minted && m !in d.keys.minted ==> m.keyId == s.keys.keyId && m.kind != TYPE_ALPHA)
    && (Signing(s.session.gate) ==> Signing(d.session.gate))
    && (n.Ended? || n.Opened?) && TxKey(e, s)
  }

  predicate Started(d: Dev, s: Dev, n: Note)
  {
    s == InitFrom(d.keys.draws, d.keys.minted) && n.Init?
  }

  predicate NewNonce(d: Dev, s: Dev, n: Note)
  {
    && d.session.inProgress && s.session.inProgress && n.Prepared?
    && s.keys == MintHandle(d.keys.(signCnt := s.keys.signCnt), n.handle, TYPE_ALPHA)
    && s.keys.signCnt == d.keys.signCnt + 1 == n.count
  }

  predicate Response(d: Dev, s: Dev, n: Note)
  {
    && s.keys == d.keys && s.session.inProgress == d.session.inProgress && n.Signed? && n.count == d.keys.signCnt
    && Signing(d.session.gate) && !Signing(s.session.gate)
    && Mint(d.keys.keyId, n.handle, TYPE_ALPHA, d.keys.signCnt) in d.keys.minted
  }

  predicate AnyStep(e: Env, d: Dev, s: Dev, n: Note)
  {
    Calm(d, s, n) || Redrawn(e, d, s, n) || Started(d, s, n) || NewNonce(d, s, n) || Response(d, s, n)
  }

  predicate Good(e: Env, d: Dev, r: Result)
  {
    !r.Refuse? ==> AnyStep(e, d, After(r), r.note)
  }

  // --- each kind keeps the invariant -------------------------------------------------------

  lemma CalmKeeps(d: Dev, s: Dev, n: Note, ns: seq<Note>)
    requires NonceInv(d, ns) && Calm(d, s, n)
    ensures NonceInv(s, ns + [n])
  {
    hide MarksOf;
    MarksSnoc(ns, n);
    LiveLonger(d.keys, s.keys, ns, n, MarksOf(ns).prepared);
  }

  lemma LiveLonger(k: Keys, l: Keys, ns: seq<Note>, n: Note, p: int)
    requires LiveNonce(k, ns, p) && !Boundary(n) && l.keyId == k.keyId && l.signCnt == k.signCnt
    requires forall m :: m in l.minted && m !in k.minted ==> m.kind != TYPE_ALPHA
    ensures LiveNonce(l, ns + [n], p)
  {
    forall m | m in l.minted && m.kind == TYPE_ALPHA && m.keyId == l.keyId && m.count == l.signCnt
      ensures PreparedAt(ns + [n], p, l.signCnt, m.data)
    {
      assert m in k.minted;
    }
  }

  lemma RedrawnKeeps(e: Env, d: Dev, s: Dev, n: Note, ns: seq<Note>)
    requires NonceInv(d, ns) && Redrawn(e, d, s, n)
    ensures NonceInv(s, ns + [n])
  {
    hide MarksOf;
    MarksSnoc(ns, n);
  }

  lemma StartedKeeps(d: Dev, s: Dev, n: Note, ns: seq<Note>)
    requires NonceInv(d, ns) && Started(d, s, n)
    ensures NonceInv(s, ns + [n])
  {
    hide MarksOf;
    MarksSnoc(ns, n);
  }

  lemma NewNonceKeeps(d: Dev, s: Dev, n: Note, ns: seq<Note>)
    requires NonceInv(d, ns) && NewNonce(d, s, n)
    ensures NonceInv(s, ns + [n])
  {
    hide MarksOf;
    MarksSnoc(ns, n);
  }

  lemma ResponseKeeps(d: Dev, s: Dev, n: Note, ns: seq<Note>)
    requires NonceInv(d, ns) && Response(d, s, n)
    ensures NonceInv(s, ns + [n])
  {
    hide MarksOf;
    MarksSnoc(ns, n);
    LiveLonger(d.keys, s.keys, ns, n, MarksOf(ns).prepared);
  }

  lemma StepKeeps(e: Env, d: Dev, s: Dev, n: Note, ns: seq<Note>)
    requires NonceInv(d, ns) && AnyStep(e, d, s, n)
    ensures NonceInv(s, ns + [n])
  {
    hide NonceInv, Calm, Redrawn, Started, NewNonce, Response;
    if Calm(d, s, n) { CalmKeeps(d, s, n, ns); }
    if Redrawn(e, d, s, n) { RedrawnKeeps(e, d, s, n, ns); }
    if Started(d, s, n) { StartedKeeps(d, s, n, ns); }
    if NewNonce(d, s, n) { NewNonceKeeps(d, s, n, ns); }
    if Response(d, s, n) { ResponseKeeps(d, s, n, ns); }
  }

  // --- every command is one of them --------------------------------------------------------

  lemma NonceEdges(e: Env, d: Dev, c: Cmd, data: bytes)
    ensures c.ins == INS_OPEN_TX ==> Good(e, d, OpenTx(e, d, c, data))
    ensures Good(e, d, CloseTx(d))
    ensures Good(e, d, SetMode(d, data))
    ensures Good(e, d, Restart(d, c))
  {
  }

  lemma NonceOutside(e: Env, d: Dev, c: Cmd)
    ensures Good(e, d, Outside(d, c))
  {
  }

  lemma NonceDerive(e: Env, d: Dev, c: Cmd, data: bytes)
    ensures c.ins == INS_STEALTH ==> Good(e, d, Stealth(e, d, c, data))
    ensures c.ins == INS_GEN_TXOUT_KEYS && d.session.inProgress ==> Good(e, d, GenOutput(e, d, c, data))
  {
    hide FetchKey, ParseOut, Derive, Vouched, RecFor, EntryFor, Mask8, StealthMask;
  }

  lemma NoncePrefix(e: Env, d: Dev, c: Cmd, options: byte, data: bytes)
    ensures c.ins == INS_PREFIX_HASH ==> Good(e, d, PrefixHash(e, d, c, options, data))
  {
    hide Timelock;
  }

  lemma NonceMasks(e: Env, d: Dev, c: Cmd, options: byte, data: bytes)
    ensures c.ins == INS_GEN_COMMITMENT_MASK ==> Good(e, d, CommitmentMask(e, d, c, data))
    ensures c.ins == INS_BLIND ==> Good(e, d, Blind(e, d, c, options, data))
  {
    hide FetchHandle;
  }

  lemma NonceValidate(e: Env, d: Dev, c: Cmd, options: byte, data: bytes)
    ensures c.ins == INS_VALIDATE ==> Good(e, d, Validate(e, d, c, options, data))
  {
    hide ParseStep, Opening, PidRefused, Shown, DisplayOf, FeeOf, FeeLine;
  }

  lemma HandleMinted(e: Env, d: Dev, data: bytes, kind: nat)
    requires d.session.inProgress && FetchHandle(e, d, data, kind).Got?
    ensures |data| >= KEY_SIZE
      && Mint(d.keys.keyId, data[..KEY_SIZE], kind, Counter(kind, d.keys.signCnt)) in d.keys.minted
  {
  }

  lemma NonceMlsag(e: Env, d: Dev, c: Cmd, options: byte, data: bytes)
    requires c.ins == INS_MLSAG && d.session.inProgress && SignGate(d, c) == SW_OK
    ensures c.p1 == 1 ==> Good(e, d, MlsagPrepare(e, d, c, options, data))
    ensures c.p1 == 2 ==> Good(e, d, MlsagHash(e, d, c, options, data))
    ensures c.p1 == 3 ==> Good(e, d, MlsagSign(e, d, c, data))
  {
    hide FetchHandle, Challenge;
    var x := FetchHandle(e, d, data, TYPE_SCALAR);
    if x.Got? && FetchHandle(e, d, x.rest, TYPE_ALPHA).Got? { HandleMinted(e, d, x.rest, TYPE_ALPHA); }
  }

  lemma NonceClsag(e: Env, d: Dev, c: Cmd, options: byte, data: bytes)
    requires c.ins == INS_CLSAG && d.session.inProgress && SignGate(d, c) == SW_OK
    ensures c.p1 == 1 ==> Good(e, d, ClsagPrepare(e, d, c, data))
    ensures c.p1 == 2 ==> Good(e, d, ClsagHash(e, d, c, options, data))
    ensures c.p1 == 3 ==> Good(e, d, ClsagSign(e, d, c, data))
  {
    hide FetchHandle, Challenge, History;
    if FetchHandle(e, d, data, TYPE_ALPHA).Got? { HandleMinted(e, d, data, TYPE_ALPHA); }
  }

  lemma NonceSign(e: Env, d: Dev, c: Cmd, options: byte, data: bytes)
    requires (c.ins == INS_MLSAG || c.ins == INS_CLSAG) && d.session.inProgress
    ensures Good(e, d, Sign(e, d, c, options, data))
  {
    hide MlsagPrepare, MlsagHash, MlsagSign, ClsagPrepare, ClsagHash, ClsagSign, AnyStep;
    if SignGate(d, c) == SW_OK {
      if c.ins == INS_MLSAG { NonceMlsag(e, d, c, options, data); } else { NonceClsag(e, d, c, options, data); }
    }
  }

  lemma NonceServe(e: Env, d: Dev, c: Cmd, options: byte, data: bytes)
    requires Access(d.session.inProgress, c.ins) == SW_OK
    ensures Good(e, d, Serve(e, d, c, options, data))
  {
    hide Good, Restart, OpenTx, CloseTx, SetMode, Stealth, GenOutput, PrefixHash, CommitmentMask, Blind,
      Sign, Outside, Validate;
    NonceEdges(e, d, c, data);
    NonceOutside(e, d, c);
    NonceDerive(e, d, c, data);
    NoncePrefix(e, d, c, options, data);
    NonceMasks(e, d, c, options, data);
    NonceValidate(e, d, c, options, data);
    if c.ins == INS_MLSAG || c.ins == INS_CLSAG { NonceSign(e, d, c, options, data); }
  }

  lemma NonceUser(e: Env, d: Dev)
    ensures AnyStep(e, d, Approve(d).d, Approve(d).note)
    ensures AnyStep(e, d, Deny(d).d, Deny(d).note)
  {
  }

  lemma EnteredSame(d: Dev, c: Cmd, ns: seq<Note>)
    requires Protocol(d, c.version).Some? && NonceInv(d, ns)
    ensures NonceInv(Entered(d, c), ns)
  {
    hide MarksOf, MintsOk, LiveNonce, Answered;
  }

  lemma NonceNext(e: Env, d: Dev, ev: Event, ns: seq<Note>)
    requires NonceInv(d, ns) && Next(e, d, ev).Running?
    ensures NonceInv(Next(e, d, ev).d, ns + [Next(e, d, ev).note])
  {
    match ev
    case Command(c) =>
      hide Serve, Access, Dispatch, Protocol, NonceInv, AnyStep;
      CommandRuns(e, d, c);
      EnteredSame(d, c, ns);
      NonceServe(e, Entered(d, c), c, c.body[0], c.body[1..]);
      StepKeeps(e, Entered(d, c), Next(e, d, ev).d, Next(e, d, ev).note, ns);
    case Accept =>
      hide NonceInv, AnyStep, Approve, Deny;
      NonceUser(e, d);
      ApproveRuns(d);
      StepKeeps(e, d, Approve(d).d, Approve(d).note, ns);
    case Reject =>
      hide NonceInv, AnyStep, Approve, Deny;
      NonceUser(e, d);
      ApproveRuns(d);
      StepKeeps(e, d, Deny(d).d, Deny(d).note, ns);
    case UserReset => StartedKeeps(d, Next(e, d, ev).d, Init, ns);
  }

  lemma ApproveRuns(d: Dev)
    ensures Approve(d).Running? && Deny(d).Running?
  {
  }

  lemma {:induction false} NonceRun(e: Env, evs: seq<Event>)
    ensures var t := Play(e, evs); t.Alive? ==> NonceInv(t.d, t.notes)
  {
    hide Next, NonceInv;
    if evs == [] {
      NonceStart();
    } else {
      NonceRun(e, evs[..|evs| - 1]);
      var t := Play(e, evs[..|evs| - 1]);
      if t.Alive? && Next(e, t.d, evs[|evs| - 1]).Running? {
        NonceNext(e, t.d, evs[|evs| - 1], t.notes);
      }
    }
  }

  lemma NonceStart()
    ensures NonceInv(InitFrom(0, {}), [Init])
  {
    assert [Init][..0] == [];
    assert MarksOf([Init]) == Marks(0, -1);
  }

  // --- the result --------------------------------------------------------------------------

  /** The response at `j` answers the nonce prepared at `k`, in the same transaction. */
  predicate Answers(ns: seq<Note>, j: nat, k: int)
    requires j < |ns| && ns[j].Signed?
  {
    0 <= k < j && ns[k].Prepared? && ns[k].count == ns[j].count && ns[k].handle == ns[j].handle
    && forall i :: k < i < j ==> !Boundary(ns[i])
  }

  predicate SameStart(ns: seq<Note>, i: nat, j: nat)
    requires i <= j < |ns|
  {
    forall x :: i <= x <= j ==> !ns[x].Init?
  }

  /** Every response before `j` since the app's last start has a smaller count, and is
      older than position `k`. */
  predicate OlderAreSmaller(ns: seq<Note>, j: nat, k: int)
    requires j < |ns| && ns[j].Signed?
  {
    forall i :: 0 <= i < j && ns[i].Signed? && SameStart(ns, i, j) ==> i < k && ns[i].count < ns[j].count
  }

  lemma {:induction false} StartBefore(ns: seq<Note>, i: nat)
    requires i < |ns| && SameStart(ns, i, |ns| - 1)
    ensures MarksOf(ns).start <= i
  {
    var ms := ns[..|ns| - 1];
    if i < |ms| {
      StartBefore(ms, i);
    } else {
      MarksBound(ms);
    }
  }

  lemma {:induction false} MarksBound(ns: seq<Note>)
    ensures MarksOf(ns).start <= |ns|
  {
    if ns != [] { MarksBound(ns[..|ns| - 1]); }
  }

  /** What one response knows about the past. */
  lemma ResponseFacts(d: Dev, ns: seq<Note>, n: Note, s: Dev)
    requires NonceInv(d, ns) && Response(d, s, n)
    ensures Answers(ns + [n], |ns|, MarksOf(ns).prepared)
    ensures forall i :: MarksOf(ns).start <= i < |ns| && ns[i].Signed? ==>
      i < MarksOf(ns).prepared && ns[i].count < n.count
  {
    hide MarksOf;
    assert PreparedAt(ns, MarksOf(ns).prepared, d.keys.signCnt, n.handle);
  }

  lemma SignedIsResponse(e: Env, d: Dev, ev: Event)
    requires var s := Next(e, d, ev); s.Running? && s.note.Signed?
    ensures ev.Command? && Protocol(d, ev.cmd.version).Some?
    ensures Response(Entered(d, ev.cmd), Next(e, d, ev).d, Next(e, d, ev).note)
  {
    hide Serve, Access, Dispatch, FetchHandle, Protocol, MlsagSign, ClsagSign, SignGate;
    SignedNeeds(e, d, ev);
    var c, t := ev.cmd, Entered(d, ev.cmd);
    EnterKeeps(d, c);
    if c.ins == INS_MLSAG {
      NonceMlsag(e, t, c, c.body[0], c.body[1..]);
    } else {
      NonceClsag(e, t, c, c.body[0], c.body[1..]);
    }
  }

  /** Main result: in every run, every real response at `j` answers a nonce prepared in the
      same transaction under the same count and handle; and since the app's last start no
      earlier response carries that count: an earlier one has a smaller count, and comes
      before the nonce was prepared. So no prepared nonce is ever answered twice. */
  lemma NonceAnsweredOnce(e: Env, evs: seq<Event>, j: nat)
    requires j < |Play(e, evs).notes| && Play(e, evs).notes[j].Signed?
    ensures exists k :: Answers(Play(e, evs).notes, j, k) && OlderAreSmaller(Play(e, evs).notes, j, k)
  {
    hide Play, Next, NonceInv, MarksOf, Answers, OlderAreSmaller, Response;
    FirstNote(e, evs);
    var ns := Play(e, evs).notes;
    var m := NoteOrigin(e, evs, j);
    var d, ms := Play(e, evs[..m]).d, ns[..j];
    NonceRun(e, evs[..m]);
    SignedIsResponse(e, d, evs[m]);
    var c := evs[m].cmd;
    EnteredSame(d, c, ms);
    ResponseFacts(Entered(d, c), ms, ns[j], Next(e, d, evs[m]).d);
    EarlierResponses(ms, ns[j]);
    AnswersLonger(ms + [ns[j]], ns, j, MarksOf(ms).prepared);
  }

  lemma EarlierResponses(ms: seq<Note>, n: Note)
    requires n.Signed?
    requires forall i :: MarksOf(ms).start <= i < |ms| && ms[i].Signed? ==>
      i < MarksOf(ms).prepared && ms[i].count < n.count
    ensures OlderAreSmaller(ms + [n], |ms|, MarksOf(ms).prepared)
  {
    hide MarksOf;
    var ns := ms + [n];
    forall i | 0 <= i < |ms| && ns[i].Signed? && SameStart(ns, i, |ms|)
      ensures i < MarksOf(ms).prepared && ns[i].count < n.count
    {
      assert forall x :: 0 <= x < |ms| ==> ns[x] == ms[x];
      assert SameStart(ms, i, |ms| - 1);
      StartBefore(ms, i);
    }
  }

  lemma AnswersLonger(ms: seq<Note>, ns: seq<Note>, j: nat, k: int)
    requires j < |ms| && ms <= ns && ms[j].Signed? && Answers(ms, j, k) && OlderAreSmaller(ms, j, k)
    ensures Answers(ns, j, k) && OlderAreSmaller(ns, j, k)
  {
    assert forall i :: 0 <= i < |ms| ==> ms[i] == ns[i];
    assert forall i :: 0 <= i < j ==> SameStart(ms, i, j) == SameStart(ns, i, j);
  }

  /** No prepared nonce is answered by two responses, in any run. */
  lemma NoNonceTwice(e: Env, evs: seq<Event>, i: nat, j: nat, k: int)
    requires var ns := Play(e, evs).notes; i < j < |ns| && ns[i].Signed? && ns[j].Signed?
    ensures !(Answers(Play(e, evs).notes, i, k) && Answers(Play(e, evs).notes, j, k))
  {
    hide Play;
    var ns := Play(e, evs).notes;
    NonceAnsweredOnce(e, evs, j);
    var m :| Answers(ns, j, m) && OlderAreSmaller(ns, j, m);
    if Answers(ns, i, k) && Answers(ns, j, k) && !SameStart(ns, i, j) {
      var x :| i <= x <= j && ns[x].Init?;
    }
  }

  // --- the transaction key ----------------------------------------------------------------------

  lemma TxKeyStep(e: Env, d: Dev, s: Dev, n: Note)
    requires TxKey(e, d) && AnyStep(e, d, s, n)
    ensures TxKey(e, s)
  {
  }

  lemma TxKeyNext(e: Env, d: Dev, ev: Event)
    requires TxKey(e, d) && Next(e, d, ev).Running?
    ensures TxKey(e, Next(e, d, ev).d)
  {
    match ev
    case Command(c) =>
      hide Serve, Access, Dispatch, Protocol, AnyStep;
      CommandRuns(e, d, c);
      EnterKeeps(d, c);
      NonceServe(e, Entered(d, c), c, c.body[0], c.body[1..]);
      TxKeyStep(e, Entered(d, c), Next(e, d, ev).d, Next(e, d, ev).note);
    case Accept =>
      hide AnyStep, Approve, Deny;
      NonceUser(e, d);
      ApproveRuns(d);
      TxKeyStep(e, d, Approve(d).d, Approve(d).note);
    case Reject =>
      hide AnyStep, Approve, Deny;
      NonceUser(e, d);
      ApproveRuns(d);
      TxKeyStep(e, d, Deny(d).d, Deny(d).note);
    case UserReset =>
  }

  /** In every reachable state of a transaction, R is r.G. */
  lemma {:induction false} TxKeyRun(e: Env, evs: seq<Event>)
    ensures var t := Play(e, evs); t.Alive? ==> TxKey(e, t.d)
  {
    hide Next, TxKey;
    if evs == [] {
      TxKeyStart(e);
    } else {
      TxKeyRun(e, evs[..|evs| - 1]);
      var t := Play(e, evs[..|evs| - 1]);
      if t.Alive? && Next(e, t.d, evs[|evs| - 1]).Running? { TxKeyNext(e, t.d, evs[|evs| - 1]); }
    }
  }

  lemma TxKeyStart(e: Env)
    ensures TxKey(e, InitFrom(0, {}))
  {
  }
}
