/** Where what is reviewed and what is signed part, on concrete inputs of a run. */
module ReviewLimits {
  import opened Bytes
  import opened Status
  import opened Transcript
  import opened Scalars
  import Blinding
  import opened DeviceState
  import opened DeviceSpec
  import opened DeviceRuns
  import opened Ordering
  import opened ReviewBinding
  import Prehash
  import HonestHost
  import HonestSigner
  import HonestRun
  import Responses

  // --- amounts of the long form --------------------------------------------------------------

  const HIGH_ONE: bytes := [1] + Repeat(0, 7)

  /** 2^64 + 1. */
  function TooLong(): key
  {
    HIGH_ONE + HIGH_ONE + Repeat(0, 16)
  }

  lemma TooLongValue()
    ensures LE(TooLong()) == TWO64 + 1 && Shown(TooLong()) == 1
  {
    hide LE;
    LEOne(HIGH_ONE);
    LEOne(HIGH_ONE + Repeat(0, 16));
    LEConcat(HIGH_ONE, HIGH_ONE + Repeat(0, 16));
    assert Scaled(8, 1) == TWO64;
    assert TooLong() == HIGH_ONE + (HIGH_ONE + Repeat(0, 16));
    assert TooLong()[..8] == HIGH_ONE;
  }

  lemma LEOne(s: bytes)
    requires |s| > 0 && s[0] == 1 && AllZero(s[1..])
    ensures LE(s) == 1
  {
    LowBytes(s, 1);
    LEHead(s[..1]);
  }

  /** `x` after `n` bytes. */
  function Scaled(n: nat, x: nat): nat
  {
    if n == 0 then x else 256 * Scaled(n - 1, x)
  }

  lemma {:induction false} LEConcat(a: bytes, b: bytes)
    ensures LE(a + b) == LE(a) + Scaled(|a|, LE(b))
  {
    if a == [] {
      assert a + b == b && Rev(a) == [];
    } else {
      LEHead(a);
      LEHead(a + b);
      assert (a + b)[1..] == a[1..] + b;
      LEConcat(a[1..], b);
    }
  }

  /** A long-form output step for a recipient, whose amount unblinds to 2^64 + 1. */
  predicate LongFormRequest(e: Env, d: Dev, c: Cmd, k: key)
  {
    && c.ins == INS_VALIDATE && c.p1 == 2 && c.version == d.session.protocol && ValidateGate(d.session.gate, c) == SW_OK
    && |c.body| > 0 && More(c.body[0]) && !Short(c.body[0])
    && var p := ParseStep(e, d, c, c.body[1..]);
    && p.Stepped? && p.o.change == 0 && !PidRefused(d, p.o)
    && Blinding.Unblinded(e.streams, Blinding.Amount(p.o.amount, p.o.mask), p.o.amountKey, false)
       == Some(Blinding.Amount(TooLong(), k))
    && Sums(e, k, TooLong()) && p.o.commitment == SumOf(e, k, TooLong())
  }

  lemma LongFormOpens(e: Env, o: OutStep, k: key)
    requires Blinding.Unblinded(e.streams, Blinding.Amount(o.amount, o.mask), o.amountKey, false)
          == Some(Blinding.Amount(TooLong(), k))
    requires Sums(e, k, TooLong()) && o.commitment == SumOf(e, k, TooLong())
    ensures Opening(e, o, false) == Stands(Blinding.Amount(TooLong(), k))
  {
    hide Commitment, Sums, SumOf, TooLong, AllZero, Blinding.Unblinded;
    CommitmentSums(e, k, TooLong());
  }

  lemma LongFormServed(e: Env, d: Dev, c: Cmd, k: key)
    requires d.Signs() && d.session.screen == Idle && (d.session.protocol == 3 || d.session.protocol == 4)
    requires LongFormRequest(e, d, c, k)
    ensures
      var s := Next(e, d, Command(c));
      s.Running? && s.note.Output? && s.note.v == TooLong() && s.note.shown == 1
  {
    hide LE, Sums, SumOf, TooLong, RecBytes, StepRec, AmountBytes, AllZero, Blinding.Unblinded, Shown, DisplayOf,
      ParseStep, Opening;
    TooLongValue();
    LongFormOpens(e, ParseStep(e, d, c, c.body[1..]).o, k);
  }

  /** What fails in the long form: in every run that takes it, a step with a commitment to
      2^64 + 1 is reviewed as an amount of 1. */
  lemma LongFormShowsLess(e: Env, evs: seq<Event>, c: Cmd, k: key)
    requires Play(e, evs).Alive? && Play(e, evs).d.Signs() && Play(e, evs).d.session.screen == Idle
    requires LongFormRequest(e, Play(e, evs).d, c, k)
    ensures
      var t := Play(e, evs + [Command(c)]);
      && t.Alive? && t.notes != []
      && var n := t.notes[|t.notes| - 1];
      && n.Output? && Sums(e, n.k, n.v) && n.commitment == SumOf(e, n.k, n.v)
      && LE(n.v) == TWO64 + 1 && n.shown == 1
  {
    hide Play, Next, LongFormRequest, TrailOf, LE, TooLong, Sums, SumOf;
    OrderRun(e, evs);
    var d := Play(e, evs).d;
    LongFormServed(e, d, c, k);
    Extend(e, evs, Command(c));
    TooLongValue();
    var ns := Play(e, evs + [Command(c)]).notes;
    assert ns == Play(e, evs).notes + [Next(e, d, Command(c)).note];
    ReviewedIsSigned(e, evs + [Command(c)], |ns| - 1);
  }

  // --- late outputs ----------------------------------------------------------------------------

  /** A run that stands after the accepted terminal review of two outputs, with commitments
      `c` and `h`. */
  predicate ReviewedTwo(t: Trace, c: key, h: key)
  {
    && t.Alive? && t.d.Signs() && t.d.session.screen == Idle
    && t.d.session.gate.ins == INS_VALIDATE && t.d.session.gate.p1 == 2
    && var l := LedgerOf(t.notes);
    && l.terminals == 1 && l.finals == 0 && l.closed == [c, h] && l.late == []
  }

  /** Two steps have run by then, and every stage but the last is raised. */
  predicate StandsAfterTwo(e: Env, d: Dev, c: key, h: key)
  {
    && (d.session.protocol == 3 || d.session.protocol == 4)
    && d.session == Session(d.session.protocol, Idle, Real, true, Gate(INS_VALIDATE, 2, 2),
                            Stages(true, true, true, false), d.session.more)
    && d.review.commitments == FRESH && d.review.digest == Digest(e.sha, c + h)
  }

  lemma TwoReviewed(e: Env, evs: seq<Event>, c: key, h: key)
    requires ReviewedTwo(Play(e, evs), c, h)
    ensures StandsAfterTwo(e, Play(e, evs).d, c, h) && LedgerOf(Play(e, evs).notes).hashed == []
  {
    hide Play, TrailOf, LedgerOf;
    OrderRun(e, evs);
    ReviewRun(e, evs);
    Prehash.FedRun(e, evs);
    var t := Play(e, evs);
    Pairing(t.notes);
    TwoStands(e, t.d, TrailOf(t.notes), LedgerOf(t.notes), c, h);
  }

  lemma TwoStands(e: Env, d: Dev, t: Trail, l: Ledger, c: key, h: key)
    requires OrderInv(d.session, t) && Built(e, d, l) && Prehash.Fed(d, l) && Grouped(l)
    requires d.Signs() && d.session.screen == Idle && d.session.gate.ins == INS_VALIDATE && d.session.gate.p1 == 2
    requires l.terminals == 1 && l.finals == 0 && l.closed == [c, h] && l.late == []
    ensures StandsAfterTwo(e, d, c, h) && l.hashed == []
  {
    hide Recs;
    assert l.closed + l.late == [c, h] && l.late + l.hashed == [];
    assert Flatten([c, h]) == c + h by { TwoFlat(c, h); }
  }

  lemma TwoFlat(c: key, h: key)
    ensures Flatten([c, h]) == c + h && Flatten([]) == []
  {
    FlattenSnoc([], c);
    FlattenSnoc([c], h);
    assert [] + [c] == [c] && [c] + [h] == [c, h] && [] + c == c;
  }

  /** One more output step that says more will follow, one commitment, and the end. */
  predicate LateRequest(d: Dev, late: Cmd, absorb: Cmd, last: Cmd, h: key)
  {
    && late.ins == INS_VALIDATE && absorb.ins == INS_VALIDATE && last.ins == INS_VALIDATE
    && late.version == absorb.version == last.version == d.session.protocol
    && late.p1 == 2 && late.p2 == 3 && absorb.p1 == 3 && absorb.p2 == 1 && last.p1 == 3 && last.p2 == 2
    && |late.body| > 0 && More(late.body[0])
    && absorb.body == [0x80] + h
    && |last.body| == 65 && last.body[0] == 0 && last.body[1..33] == d.signing.prefixH
  }

  /** The step repeats the output with commitment `c`, and the review takes it. */
  predicate RepeatsOutput(e: Env, d: Dev, late: Cmd, c: key)
    requires late.body != []
  {
    var p := ParseStep(e, d, late, late.body[1..]);
    && p.Stepped? && p.o.commitment == c && !PidRefused(d, p.o)
    && var y := Opening(e, p.o, Short(late.body[0]));
    && y.Stands? && ChangeWord(e, p.o, y.x.v) == 0 && (p.o.change == 0 ==> Shown(y.x.v) != 0)
  }

  /** Where the late steps stand: past the late output, waiting at `p1`, `p2`. */
  predicate Lately(d: Dev, s: Dev, screen: Screen, p1: byte, p2: byte, streamed: Ctx)
  {
    && s.session == d.session.(screen := screen, gate := Gate(INS_VALIDATE, p1, p2))
    && s.review == d.review.(outKeys := s.review.outKeys, commitments := streamed)
    && s.signing == d.signing.(keccakH := s.signing.keccakH)
  }

  lemma LateOutput(e: Env, d: Dev, late: Cmd, c: key, h: key)
    requires StandsAfterTwo(e, d, c, h) && late.body != [] && RepeatsOutput(e, d, late, c)
    requires late.ins == INS_VALIDATE && late.version == d.session.protocol && late.p1 == 2 && late.p2 == 3
    requires More(late.body[0])
    ensures
      var s := Next(e, d, Command(late));
      && s.Running? && s.note.Output? && !s.note.terminal && s.note.commitment == c
      && Lately(d, s.d, Review, 2, 3, Update(FRESH, c))
  {
    hide ParseStep, Opening, ChangeWord, Shown, DisplayOf, AllZero, RecBytes, StepRec, AmountBytes;
  }

  lemma LateAbsorb(e: Env, d: Dev, s: Dev, absorb: Cmd, streamed: Ctx, h: key)
    requires d.Signs() && (d.session.protocol == 3 || d.session.protocol == 4)
    requires Lately(d, s, Idle, 2, 3, streamed)
    requires absorb.ins == INS_VALIDATE && absorb.version == d.session.protocol && absorb.p1 == 3 && absorb.p2 == 1
    requires absorb.body == [0x80] + h
    ensures
      var t := Next(e, s, Command(absorb));
      t.Running? && t.note == Absorbed(h) && Lately(d, t.d, Idle, 3, 1, Update(streamed, h))
  {
    assert absorb.body[1..] == h && h[..KEY_SIZE] == h;
  }

  lemma LateFinal(e: Env, d: Dev, s: Dev, last: Cmd, c: key, h: key)
    requires StandsAfterTwo(e, d, c, h) && Lately(d, s, Idle, 3, 1, Ctx([], c + h))
    requires last.ins == INS_VALIDATE && last.version == d.session.protocol && last.p1 == 3 && last.p2 == 2
    requires |last.body| == 65 && last.body[0] == 0 && last.body[1..33] == d.signing.prefixH
    ensures Next(e, s, Command(last)).Running? && Next(e, s, Command(last)).note.Finalized?
  {
    var data := last.body[1..];
    assert data[..32] == last.body[1..33] && data[32..64] == last.body[33..];
  }

  /** Four steps, each from where the one before left the device. */
  lemma LateSteps(e: Env, d: Dev, late: Cmd, absorb: Cmd, last: Cmd, c: key, h: key)
    requires StandsAfterTwo(e, d, c, h) && LateRequest(d, late, absorb, last, h) && RepeatsOutput(e, d, late, c)
    ensures
      var s1 := Next(e, d, Command(late));
      && s1.Running? && s1.note.Output? && !s1.note.terminal && s1.note.commitment == c
      && var s2 := Next(e, s1.d, Accept);
      && s2.Running? && s2.note.Accepted?
      && var s3 := Next(e, s2.d, Command(absorb));
      && s3.Running? && s3.note == Absorbed(h)
      && var s4 := Next(e, s3.d, Command(last));
      && s4.Running? && s4.note.Finalized?
  {
    hide Dispatch, RepeatsOutput;
    LateOutput(e, d, late, c, h);
    var s2 := Next(e, Next(e, d, Command(late)).d, Accept);
    LateAbsorb(e, d, s2.d, absorb, Update(FRESH, c), h);
    assert Update(Update(FRESH, c), h) == Ctx([], c + h);
    LateFinal(e, d, Next(e, s2.d, Command(absorb)).d, last, c, h);
  }

  /** What fails when an output step comes late, in every run that takes one: the run goes on
      to close the prehash, whose commitments are then not those the review closed over. */
  lemma LateStepEscapesPrehash(e: Env, evs: seq<Event>, late: Cmd, absorb: Cmd, last: Cmd, c: key, h: key)
    requires ReviewedTwo(Play(e, evs), c, h)
    requires LateRequest(Play(e, evs).d, late, absorb, last, h) && RepeatsOutput(e, Play(e, evs).d, late, c)
    ensures
      var t, k := Play(e, evs + [Command(late)] + [Accept] + [Command(absorb)] + [Command(last)]), |Play(e, evs).notes|;
      && t.Alive? && |t.notes| == k + 4 && t.notes[k + 3].Finalized?
      && var l := LedgerOf(t.notes[..k + 3]);
      && l.finals == 0 && l.closed == [c, h] && l.late == [c] && l.hashed == [h] && l.hashed != l.closed
      && (!l.disturbed ==> Prehash.Digests(e, l, t.notes[k + 3]))
  {
    hide Play, Next, LedgerOf, RepeatsOutput, LateRequest, Prehash.Digests;
    TwoReviewed(e, evs, c, h);
    var t := Play(e, evs);
    LateSteps(e, t.d, late, absorb, last, c, h);
    Extend(e, evs, Command(late));
    var evs1 := evs + [Command(late)];
    Extend(e, evs1, Accept);
    var evs2 := evs1 + [Accept];
    Extend(e, evs2, Command(absorb));
    var evs3 := evs2 + [Command(absorb)];
    Extend(e, evs3, Command(last));
    var u := Play(e, evs3 + [Command(last)]);
    var s1 := Next(e, t.d, Command(late));
    var s2 := Next(e, s1.d, Accept);
    LateTally(t.notes, s1.note, s2.note, Next(e, s2.d, Command(absorb)).note);
    assert u.notes[..|t.notes| + 3] == Play(e, evs3).notes;
    Prehash.PrehashIsDigest(e, evs3 + [Command(last)], |t.notes| + 3);
  }

  lemma LateTally(ns: seq<Note>, n1: Note, n2: Note, n3: Note)
    requires n1.Output? && !n1.terminal && n2.Accepted? && n3.Absorbed?
    ensures
      var l, m := LedgerOf(ns), LedgerOf(ns + [n1] + [n2] + [n3]);
      && m.finals == l.finals && m.closed == l.closed
      && m.late == l.late + [n1.commitment] && m.hashed == l.hashed + [n3.commitment]
  {
    hide Tally, LedgerOf;
    LedgerSnoc(ns, n1);
    LedgerSnoc(ns + [n1], n2);
    LedgerSnoc(ns + [n1] + [n2], n3);
    LateTallied(LedgerOf(ns), n1, n2, n3);
  }

  lemma LateTallied(l: Ledger, n1: Note, n2: Note, n3: Note)
    requires n1.Output? && !n1.terminal && n2.Accepted? && n3.Absorbed?
    ensures
      var m := Tally(Tally(Tally(l, n1), n2), n3);
      && m.finals == l.finals && m.closed == l.closed
      && m.late == l.late + [n1.commitment] && m.hashed == l.hashed + [n3.commitment]
  {
  }

  /** Such a run exists for any transaction of two payments, and the late steps with it. */
  lemma LateStepHappens(e: Env, j: HonestHost.Job)
    returns (evs: seq<Event>, late: Cmd, absorb: Cmd, last: Cmd, c: key, h: key)
    requires HonestRun.Works(e, j) && HonestRun.Sized(j) && |j.xs| == 2
    ensures ReviewedTwo(Play(e, evs), c, h)
    ensures LateRequest(Play(e, evs).d, late, absorb, last, h) && RepeatsOutput(e, Play(e, evs).d, late, c)
  {
    hide Play, HonestRun.Works, HonestRun.Sized, HonestHost.Usable, HonestHost.Payable, RepeatsOutput, LedgerOf,
      HonestHost.Has, HonestSigner.StepData, HonestSigner.Commits, HonestHost.HiddenOf, HonestHost.Home,
      HonestHost.Fits, HonestHost.GoesWith, Derive, AllZero;
    HonestRun.WorksAt(e, j, 0);
    HonestRun.SizeIs(j);
    evs := HonestRun.HonestReview(e, j);
    var t, x, ak := Play(e, evs), j.xs[0], HonestRun.KeyAt(e, j, 0);
    c, h := HonestRun.CommitmentAt(e, j, 0), HonestRun.CommitmentAt(e, j, 1);
    TwoCommitments(e, j);
    HonestRun.NoteIs(e, j, 0);
    var k := t.d.keys;
    var data := HonestSigner.StepData(e, k, x, ak);
    late := HonestHost.Send(j.version, INS_VALIDATE, 2, 3, HonestSigner.StepOptions(x, false), data);
    absorb := HonestHost.Send(j.version, INS_VALIDATE, 3, 1, 0x80, h);
    last := HonestHost.Send(j.version, INS_VALIDATE, 3, 2, 0, t.d.signing.prefixH + j.proof);
    assert last.body[1..33] == t.d.signing.prefixH;
    HonestRun.SaneToo(e, j);
    HonestRepeats(e, t.d, j.id, x, ak, late);
  }

  lemma TwoCommitments(e: Env, j: HonestHost.Job)
    requires HonestRun.Works(e, j) && |j.xs| == 2
    ensures HonestRun.CommitmentsTo(e, j, 2) == [HonestRun.CommitmentAt(e, j, 0), HonestRun.CommitmentAt(e, j, 1)]
  {
    hide HonestRun.Works, HonestRun.CommitmentAt;
    assert HonestRun.CommitmentsTo(e, j, 1) == [] + [HonestRun.CommitmentAt(e, j, 0)];
  }

  lemma HonestRepeats(e: Env, d: Dev, id: Option<HonestHost.Id>, x: HonestHost.Dest, ak: key, late: Cmd)
    requires d.session.inProgress && Responses.Seals(e) && HonestHost.Payable(x) && !AllZero(ak)
    requires HonestHost.Retains(d, id) && HonestHost.GoesWith(id, x) && HonestHost.Home(e, x)
    requires HonestHost.Has(e, d.keys, ak, TYPE_AMOUNT_KEY) && HonestSigner.Commits(e, x, ak)
    requires HonestHost.HiddenOf(e, x, ak).Some? && late.version >= 2
    requires late.body == [HonestSigner.StepOptions(x, false)] + HonestSigner.StepData(e, d.keys, x, ak)
    ensures RepeatsOutput(e, d, late, HonestSigner.CommitmentTo(e, x, ak))
  {
    hide ParseStep, Opening, HonestSigner.Commits, HonestSigner.CommitmentTo, HonestHost.HiddenOf,
      HonestSigner.StepData, Responses.Seals, HonestHost.Has, HonestHost.Home, ChangeWord, AllZero, LE;
    assert late.body[1..] == HonestSigner.StepData(e, d.keys, x, ak);
    assert late.body[0] == HonestSigner.StepOptions(x, false);
    HonestSigner.ParsesStep(e, d, x, ak, late);
    HonestSigner.OpensStep(e, x, ak);
    HonestSigner.HomeStands(e, x, ak);
  }
}
