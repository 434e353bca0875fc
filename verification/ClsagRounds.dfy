/** Hash rounds: what a challenge is the digest of, and what a signature step may use. */
module ClsagRounds {
  import opened Bytes
  import opened Status
  import opened Transcript
  import opened Scalars
  import opened DeviceState
  import opened DeviceSpec
  import opened DeviceRuns
  import opened Ordering

  /** The messages since the last P2=1 step; whether the round gave its challenge; whether a
      proof has run since it began, and whether none had when it ended; and the transaction's
      prehash. */
  datatype Round = Round(msgs: seq<bytes>, finished: bool, dirty: bool, clean: bool, prehash: bytes)

  const NO_ROUND := Round([], false, false, false, [])

  function Follow(r: Round, n: Note): Round
  {
    if Boundary(n) then NO_ROUND
    else if n.Finalized? then r.(prehash := n.prehash)
    else if n.Disturbed? then r.(dirty := true)
    else if n.Hashed? then
      var msgs := if n.first then [n.msg] else r.msgs + [n.msg];
      var dirty := !n.first && r.dirty;
      Round(msgs, n.last, dirty, if n.last then !dirty else r.clean, r.prehash)
    else r
  }

  function RoundOf(ns: seq<Note>): Round
  {
    if ns == [] then NO_ROUND else Follow(RoundOf(ns[..|ns| - 1]), ns[|ns| - 1])
  }

  lemma RoundSnoc(ns: seq<Note>, n: Note)
    ensures RoundOf(ns + [n]) == Follow(RoundOf(ns), n)
  {
    hide Follow;
    assert (ns + [n])[..|ns|] == ns;
  }

  /** The message `k` steps back is `h`. */
  predicate Hit(msgs: seq<bytes>, k: nat, h: bytes)
  {
    k < |msgs| && msgs[|msgs| - 1 - k] == h
  }

  function Bit(b: bool): nat { if b then 1 else 0 }

  /** The three-bit history of a round. */
  function Bits(msgs: seq<bytes>, h: bytes): nat
  {
    Bit(Hit(msgs, 0, h)) + 2 * Bit(Hit(msgs, 1, h)) + 4 * Bit(Hit(msgs, 2, h))
  }

  /** At least three messages, and the third from last is `h`. */
  predicate ThirdFromLast(msgs: seq<bytes>, h: bytes)
  {
    |msgs| >= 3 && msgs[|msgs| - 3] == h
  }

  lemma HistoryOne(msgs: seq<bytes>, m: bytes, h: bytes)
    ensures History(Bits(msgs, h), m == h) == Bits(msgs + [m], h)
    ensures History(0, m == h) == Bits([m], h)
    ensures Bits(msgs + [m], h) >= 4 <==> ThirdFromLast(msgs + [m], h)
  {
    assert Hit(msgs + [m], 1, h) == Hit(msgs, 0, h);
    assert Hit(msgs + [m], 2, h) == Hit(msgs, 1, h);
  }

  // --- the invariant --------------------------------------------------------------------------

  predicate InRound(d: Dev)
  {
    d.Signs() && (d.session.gate.ins == INS_MLSAG || d.session.gate.ins == INS_CLSAG) && d.session.gate.p1 == 2
  }

  predicate Rounded(e: Env, d: Dev, r: Round)
  {
    && (d.Signs() && d.session.stages.prehash ==> d.signing.mlsagH == r.prehash)
    && (InRound(d) ==>
      && r.msgs != [] && (r.finished <==> d.session.gate.p2 != 0)
      && (d.session.gate.ins == INS_CLSAG ==> d.signing.history == Bits(r.msgs, d.signing.mlsagH))
      && (d.session.gate.ins == INS_CLSAG && r.finished ==> ThirdFromLast(r.msgs, d.signing.mlsagH))
      && (d.session.gate.ins == INS_MLSAG ==> r.msgs[0] == d.signing.mlsagH)
      && (!r.finished && !r.dirty ==> d.signing.keccakH == Ctx([], Flatten(r.msgs)))
      && (r.finished && r.clean ==> d.signing.c == Challenge(e, Ctx([], Flatten(r.msgs)))))
  }

  predicate KeepsRounded(e: Env, x: Result, r: Round)
  {
    !x.Refuse? ==> Rounded(e, After(x), Follow(r, x.note))
  }

  lemma OutsideRounds(e: Env, d: Dev, c: Cmd, options: byte, data: bytes, r: Round)
    requires !InTransactionOnly(c.ins) && Rounded(e, d, r)
    ensures KeepsRounded(e, Serve(e, d, c, options, data), r)
  {
    hide FetchKey, Bits, ThirdFromLast, Flatten, Challenge;
  }

  predicate Steady(d: Dev, x: Result, c: Cmd)
  {
    !x.Refuse? ==>
      && After(x).session.gate.ins == c.ins && After(x).Signs() == d.Signs() && !Boundary(x.note)
      && (x.note.Finalized? ==> After(x).signing.mlsagH == x.note.prehash)
      && (!x.note.Finalized? && d.session.mode == Real ==>
            After(x).signing.mlsagH == d.signing.mlsagH && After(x).session.stages.prehash == d.session.stages.prehash)
  }

  lemma OtherPhases(e: Env, d: Dev, c: Cmd, options: byte, data: bytes, r: Round)
    requires InTransactionOnly(c.ins) && c.ins != INS_MLSAG && c.ins != INS_CLSAG && Rounded(e, d, r)
    ensures KeepsRounded(e, Serve(e, d, c, options, data), r)
  {
    hide Serve, Bits, ThirdFromLast, Flatten, Challenge;
    GateMoves(e, d, c, options, data);
  }

  /** A step of an earlier phase leaves the gate in that phase, and only the final step
      touches the prehash. */
  lemma GateMoves(e: Env, d: Dev, c: Cmd, options: byte, data: bytes)
    requires InTransactionOnly(c.ins) && c.ins != INS_MLSAG && c.ins != INS_CLSAG
    ensures Steady(d, Serve(e, d, c, options, data), c)
  {
    hide FetchHandle, FetchKey, ParseOut, Derive, Vouched, Timelock, Opening, FeeOf, FeeLine, ParseStep,
      PidRefused, Shown, DisplayOf, Validate, PrefixHash;
    if c.ins == INS_VALIDATE {
      ValidateMoves(e, d, c, options, data);
    } else if c.ins == INS_PREFIX_HASH {
      PrefixMoves(e, d, c, options, data);
    }
  }

  lemma ValidateMoves(e: Env, d: Dev, c: Cmd, options: byte, data: bytes)
    ensures Steady(d, Validate(e, d, c, options, data), c)
  {
    hide FeeOf, FeeLine, ParseStep, Opening, PidRefused, Shown, DisplayOf, ValidateGate;
  }

  lemma PrefixMoves(e: Env, d: Dev, c: Cmd, options: byte, data: bytes)
    ensures Steady(d, PrefixHash(e, d, c, options, data), c)
  {
    hide Timelock, PrefixGate;
  }

  // --- the rounds themselves ----------------------------------------------------------------

  lemma HashRounds(e: Env, d: Dev, c: Cmd, h: Ctx, msg: bytes, more: bool, clsag: bool, r: Round)
    requires d.Signs() && (c.ins == INS_MLSAG || c.ins == INS_CLSAG) && c.p1 == 2 && c.p2 != 0
    requires clsag == (c.ins == INS_CLSAG)
    requires d.session.stages.prehash ==> d.signing.mlsagH == r.prehash
    requires if c.p2 == 1 then h == FRESH else r.dirty || h == Ctx([], Flatten(r.msgs))
    requires clsag ==> d.signing.history == Bits(if c.p2 == 1 then [msg] else r.msgs + [msg], d.signing.mlsagH)
    requires clsag && !more ==> ThirdFromLast(if c.p2 == 1 then [msg] else r.msgs + [msg], d.signing.mlsagH)
    requires !clsag ==> if c.p2 == 1 then msg == d.signing.mlsagH else r.msgs != [] && r.msgs[0] == d.signing.mlsagH
    ensures KeepsRounded(e, HashInto(e, d, c, h, msg, more, clsag), r)
  {
    hide Bits, ThirdFromLast, Flatten, Challenge;
    FlattenSnoc(r.msgs, msg);
    OneMessage(msg);
  }

  lemma OneMessage(msg: bytes)
    ensures Flatten([msg]) == msg && Update(FRESH, msg) == Ctx([], msg)
  {
    assert [msg][1..] == [];
    assert Flatten([]) == [];
    assert msg + [] == msg && [] + msg == msg;
  }

  /** A hash step is let in only as the first of a round, or inside one that is still open. */
  lemma HashGate(e: Env, d: Dev, c: Cmd, r: Round)
    requires Rounded(e, d, r) && d.Signs() && SignGate(d, c) == SW_OK && c.p1 == 2
    requires c.ins == INS_MLSAG || c.ins == INS_CLSAG
    ensures c.p2 != 0 && (c.p2 != 1 ==> InRound(d) && !r.finished && d.session.gate.ins == c.ins)
  {
    hide Bits, ThirdFromLast, Flatten, Challenge;
  }

  lemma MlsagRounds(e: Env, d: Dev, c: Cmd, options: byte, data: bytes, r: Round)
    requires Rounded(e, d, r) && d.Signs() && SignGate(d, c) == SW_OK && c.p1 == 2 && c.ins == INS_MLSAG
    ensures KeepsRounded(e, MlsagHash(e, d, c, options, data), r)
  {
    hide Bits, ThirdFromLast, Flatten, Challenge, HashInto, SignGate, KeepsRounded;
    HashGate(e, d, c, r);
    if c.p2 == 1 || |data| >= KEY_SIZE {
      HashRounds(e, d, c, if c.p2 == 1 then FRESH else d.signing.keccakH,
        if c.p2 == 1 then d.signing.mlsagH else data[..KEY_SIZE], More(options), false, r);
    } else {
      NothingKept(e, ERROR_IO_FULL, r);
    }
  }

  lemma NothingKept(e: Env, sw: nat, r: Round)
    ensures KeepsRounded(e, Refuse(sw), r)
  {
  }

  /** The messages of the round once `msg` is in. */
  function Extended(r: Round, first: bool, msg: bytes): seq<bytes>
  {
    if first then [msg] else r.msgs + [msg]
  }

  /** The condition a challenge needs, read off the three history bits. */
  lemma ChallengeCondition(e: Env, d: Dev, c: Cmd, msg: bytes, r: Round)
    requires Rounded(e, d, r) && d.Signs() && SignGate(d, c) == SW_OK && c.p1 == 2 && c.ins == INS_CLSAG
    ensures var h := History(if c.p2 == 1 then 0 else d.signing.history, msg == d.signing.mlsagH);
      h == Bits(Extended(r, c.p2 == 1, msg), d.signing.mlsagH)
      && (h >= 4 <==> ThirdFromLast(Extended(r, c.p2 == 1, msg), d.signing.mlsagH))
  {
    hide Bits, ThirdFromLast, Flatten, Challenge, SignGate, History;
    HashGate(e, d, c, r);
    HistoryOne(r.msgs, msg, d.signing.mlsagH);
    HistoryOne([], msg, d.signing.mlsagH);
    assert [] + [msg] == [msg];
  }

  lemma ClsagHashRounds(e: Env, d: Dev, c: Cmd, options: byte, data: bytes, r: Round)
    requires Rounded(e, d, r) && d.Signs() && SignGate(d, c) == SW_OK && c.p1 == 2 && c.ins == INS_CLSAG
    ensures KeepsRounded(e, ClsagHash(e, d, c, options, data), r)
    ensures |data| >= KEY_SIZE && !More(options) ==>
      (ClsagHash(e, d, c, options, data).Reply? <==>
        ThirdFromLast(Extended(r, c.p2 == 1, data[..KEY_SIZE]), d.signing.mlsagH))
  {
    hide Bits, ThirdFromLast, Flatten, Challenge, SignGate, KeepsRounded, History;
    HashGate(e, d, c, r);
    if |data| >= KEY_SIZE {
      var msg := data[..KEY_SIZE];
      ChallengeCondition(e, d, c, msg, r);
      var history := History(if c.p2 == 1 then 0 else d.signing.history, msg == d.signing.mlsagH);
      HashReplies(e, d.(signing := d.signing.(history := history)), c,
        if c.p2 == 1 then FRESH else d.signing.keccakH, msg,
        More(options));
      if More(options) || history >= 4 {
        HashRounds(e, d.(signing := d.signing.(history := history)), c, if c.p2 == 1 then FRESH else d.signing.keccakH,
          msg, More(options), true, r);
      } else {
        NothingKept(e, SW_SECURITY_INTERNAL, r);
      }
    } else {
      NothingKept(e, ERROR_IO_FULL, r);
    }
  }

  lemma HashReplies(e: Env, d: Dev, c: Cmd, h: Ctx, msg: bytes, more: bool)
    ensures HashInto(e, d, c, h, msg, more, true).Reply?
  {
  }

  lemma SignRounds(e: Env, d: Dev, c: Cmd, options: byte, data: bytes, r: Round)
    requires (c.ins == INS_MLSAG || c.ins == INS_CLSAG) && d.session.inProgress && Rounded(e, d, r)
    ensures KeepsRounded(e, Sign(e, d, c, options, data), r)
  {
    hide Rounded, Follow, MlsagPrepare, MlsagHash, MlsagSign, ClsagPrepare, ClsagHash, ClsagSign, SignGate;
    SignKeepsStages(e, d, c, options, data);
    if SignGate(d, c) == SW_OK {
      if c.p1 == 2 && d.Signs() {
        if c.ins == INS_MLSAG {
          MlsagRounds(e, d, c, options, data, r);
        } else {
          ClsagHashRounds(e, d, c, options, data, r);
        }
      } else {
        NotHashing(e, d, c, options, data, r);
      }
    }
  }

  lemma NotHashing(e: Env, d: Dev, c: Cmd, options: byte, data: bytes, r: Round)
    requires (c.ins == INS_MLSAG || c.ins == INS_CLSAG) && (c.p1 != 2 || !d.Signs()) && Rounded(e, d, r)
    ensures KeepsRounded(e, Sign(e, d, c, options, data), r)
  {
    hide FetchHandle, Challenge, History, Bits, ThirdFromLast, Flatten;
    SignKeepsStages(e, d, c, options, data);
  }

  // --- every step, every run --------------------------------------------------------------------

  lemma RoundServe(e: Env, d: Dev, c: Cmd, options: byte, data: bytes, r: Round)
    requires Rounded(e, d, r) && Access(d.session.inProgress, c.ins) == SW_OK
    ensures KeepsRounded(e, Serve(e, d, c, options, data), r)
  {
    hide Rounded, KeepsRounded, Restart, OpenTx, CloseTx, SetMode, Stealth, GenOutput, PrefixHash, CommitmentMask,
      Blind, Sign, Outside, Validate;
    if !InTransactionOnly(c.ins) {
      OutsideRounds(e, d, c, options, data, r);
    } else if c.ins == INS_MLSAG || c.ins == INS_CLSAG {
      SignRounds(e, d, c, options, data, r);
    } else {
      OtherPhases(e, d, c, options, data, r);
    }
  }

  lemma RoundUser(e: Env, d: Dev, r: Round)
    requires Rounded(e, d, r)
    ensures Rounded(e, Approve(d).d, Follow(r, Approve(d).note))
    ensures Rounded(e, Deny(d).d, Follow(r, Deny(d).note))
  {
    hide Bits, ThirdFromLast, Flatten, Challenge;
  }

  lemma RoundEnter(e: Env, d: Dev, c: Cmd, r: Round)
    requires Rounded(e, d, r) && Protocol(d, c.version).Some?
    ensures Rounded(e, Entered(d, c), r)
  {
    hide Bits, ThirdFromLast, Flatten, Challenge;
  }

  lemma RoundNext(e: Env, d: Dev, ev: Event, r: Round)
    requires Rounded(e, d, r) && Next(e, d, ev).Running?
    ensures Rounded(e, Next(e, d, ev).d, Follow(r, Next(e, d, ev).note))
  {
    match ev
    case Command(c) =>
      hide Serve, Access, Dispatch, Protocol, Rounded, Follow;
      CommandRuns(e, d, c);
      RoundEnter(e, d, c, r);
      RoundServe(e, Entered(d, c), c, c.body[0], c.body[1..], r);
    case Accept => RoundUser(e, d, r);
    case Reject => RoundUser(e, d, r);
    case UserReset =>
  }

  lemma {:induction false} RoundRun(e: Env, evs: seq<Event>)
    ensures var t := Play(e, evs); t.Alive? ==> Rounded(e, t.d, RoundOf(t.notes))
  {
    hide Next, Rounded, Follow, RoundOf;
    if evs == [] {
      RoundStart(e);
    } else {
      RoundRun(e, evs[..|evs| - 1]);
      var t := Play(e, evs[..|evs| - 1]);
      if t.Alive? && Next(e, t.d, evs[|evs| - 1]).Running? {
        RoundNext(e, t.d, evs[|evs| - 1], RoundOf(t.notes));
        RoundSnoc(t.notes, Next(e, t.d, evs[|evs| - 1]).note);
      }
    }
  }

  lemma RoundStart(e: Env)
    ensures Rounded(e, InitFrom(0, {}), RoundOf([Init]))
  {
  }

  // --- the results --------------------------------------------------------------------------------

  lemma PrehashKnown(e: Env, d: Dev, c: Cmd, r: Round)
    requires Rounded(e, d, r) && d.Signs() && SignGate(d, c) == SW_OK
    ensures d.signing.mlsagH == r.prehash
  {
    hide Bits, ThirdFromLast, Flatten, Challenge;
  }

  /** In every reachable state of a real transaction, the step that ends a CLSAG round gives
      a challenge exactly when the round then has at least three messages and the third from
      last is the prehash. */
  lemma ChallengeIff(e: Env, evs: seq<Event>, c: Cmd, options: byte, data: bytes)
    requires Play(e, evs).Alive? && Play(e, evs).d.Signs() && SignGate(Play(e, evs).d, c) == SW_OK
    requires c.ins == INS_CLSAG && c.p1 == 2 && !More(options) && |data| >= KEY_SIZE
    ensures var t := Play(e, evs); ClsagHash(e, t.d, c, options, data).Reply? <==>
      ThirdFromLast(Extended(RoundOf(t.notes), c.p2 == 1, data[..KEY_SIZE]), RoundOf(t.notes).prehash)
  {
    hide Play, Rounded, RoundOf, ClsagHash, SignGate, ThirdFromLast;
    RoundRun(e, evs);
    PrehashKnown(e, Play(e, evs).d, c, RoundOf(Play(e, evs).notes));
    ClsagHashRounds(e, Play(e, evs).d, c, options, data, RoundOf(Play(e, evs).notes));
  }

  /** A response is computed with the challenge of a finished round, never one still open;
      when no proof ran during that round, it is the reduced digest of its messages; and the
      round is bound to the prehash. */
  predicate UsesFinished(e: Env, r: Round, n: Note)
    requires n.Signed?
  {
    && r.finished && r.msgs != []
    && (r.clean ==> LE(n.c) == LE(Digest(e.keccak, Flatten(r.msgs))) % L)
    && (if n.clsag then ThirdFromLast(r.msgs, r.prehash) else r.msgs[0] == r.prehash)
  }

  lemma ReducedTwice(e: Env, h: Ctx)
    ensures ToLE(LE(Challenge(e, h)) % L) == Challenge(e, h) && LE(Challenge(e, h)) == LE(e.keccak(h)) % L
  {
    hide LE, ToLE;
    LEToLE(LE(e.keccak(h)) % L);
  }

  lemma SignUses(e: Env, d: Dev, c: Cmd, data: bytes, r: Round)
    requires Rounded(e, d, r) && d.Signs() && SignGate(d, c) == SW_OK && c.p1 == 3
    requires c.ins == INS_MLSAG || c.ins == INS_CLSAG
    requires var x := if c.ins == INS_MLSAG then MlsagSign(e, d, c, data) else ClsagSign(e, d, c, data);
      x.Reply? && x.note.Signed?
    ensures var x := if c.ins == INS_MLSAG then MlsagSign(e, d, c, data) else ClsagSign(e, d, c, data);
      UsesFinished(e, r, x.note)
  {
    hide FetchHandle, Challenge, Bits, ThirdFromLast, Flatten, LE, ToLE;
    ReducedTwice(e, Ctx([], Flatten(r.msgs)));
  }

  /** Main result: every real response of every run uses a finished round. */
  lemma ResponseUsesFinishedRound(e: Env, evs: seq<Event>, n: nat)
    requires n < |Play(e, evs).notes| && Play(e, evs).notes[n].Signed?
    ensures UsesFinished(e, RoundOf(Play(e, evs).notes[..n]), Play(e, evs).notes[n])
  {
    hide Play, Next, Rounded, RoundOf, SignGate, UsesFinished, MlsagSign, ClsagSign, Protocol;
    FirstNote(e, evs);
    var ns := Play(e, evs).notes;
    var m := NoteOrigin(e, evs, n);
    RoundRun(e, evs[..m]);
    var d := Play(e, evs[..m]).d;
    SignedNeeds(e, d, evs[m]);
    var c := evs[m].cmd;
    RoundEnter(e, d, c, RoundOf(ns[..n]));
    EnterKeeps(d, c);
    SignUses(e, Entered(d, c), c, c.body[1..], RoundOf(ns[..n]));
  }
}
