/** The payment ID goes with the recipient it was encrypted to, in every run. */
module PaymentIds {
  import opened Bytes
  import opened Status
  import opened Transcript
  import opened Group
  import opened Scalars
  import opened DeviceState
  import opened DeviceSpec
  import opened DeviceRuns
  import opened Ordering
  import opened PrefixBinding
  import opened ReviewBinding
  import opened OutputKeys
  import opened Recipients
  import Handles
  import Nonces

  // --- the recipient on screen ------------------------------------------------------------------

  /** A recipient shown while a payment ID is retained is the one it was encrypted to, and is
      no subaddress unless the payment ID is the all-zero filler. */
  predicate GoesWith(pid: Option<Pid>, r: Rec)
  {
    pid.Some? && r.change == 0 ==>
      r.view == pid.value.pub && (!AllZero(pid.value.plain) ==> r.sub == 0)
  }

  lemma OutputGoesWith(e: Env, d: Dev, c: Cmd, options: byte, data: bytes, s: Stream)
    requires Bound(e, d, s) && d.Signs()
    requires var r := Validate(e, d, c, options, data); !r.Refuse? && r.note.Output?
    ensures GoesWith(s.pid, Validate(e, d, c, options, data).note.rec)
  {
    hide Building, Streaming, ParseStep, Opening, ChangeWord, FeeOf, FeeLine, AllZero, RecBytes, AmountBytes;
  }

  lemma NextGoesWith(e: Env, d: Dev, ev: Event, s: Stream)
    requires Bound(e, d, s) && Next(e, d, ev).Running? && Next(e, d, ev).note.Output?
    ensures GoesWith(s.pid, Next(e, d, ev).note.rec)
  {
    hide Serve, Access, Dispatch, Protocol, Bound, GoesWith, Validate;
    var c := ev.cmd;
    NextScreens(e, d, ev);
    CommandRuns(e, d, c);
    EnterKeeps(d, c);
    BoundEnter(e, d, c, s);
    OnlyValidateReviews(e, Entered(d, c), c, c.body[0], c.body[1..]);
    OutputIsReal(e, Entered(d, c), c, c.body[0], c.body[1..]);
    OutputGoesWith(e, Entered(d, c), c, c.body[0], c.body[1..], s);
  }

  lemma OutputIsReal(e: Env, d: Dev, c: Cmd, options: byte, data: bytes)
    requires d.session.inProgress
    requires var r := Validate(e, d, c, options, data); !r.Refuse? && r.note.Output?
    ensures d.Signs()
  {
    hide ParseStep, Opening, PidRefused, Shown, DisplayOf, FeeOf, FeeLine, ChangeWord;
  }

  /** Main result, for every output reviewed in every run. */
  lemma ReviewedGoesWith(e: Env, evs: seq<Event>, n: nat)
    requires n < |Play(e, evs).notes| && Play(e, evs).notes[n].Output?
    ensures GoesWith(StreamOf(Play(e, evs).notes[..n]).pid, Play(e, evs).notes[n].rec)
  {
    hide Play, Next, Bound, StreamOf, GoesWith;
    FirstNote(e, evs);
    var m := NoteOrigin(e, evs, n);
    BoundRun(e, evs[..m]);
    NextGoesWith(e, Play(e, evs[..m]).d, evs[m], StreamOf(Play(e, evs).notes[..n]));
  }

  // --- what the recipient reads ------------------------------------------------------------------

  /** What is retained is the plaintext under the key stream of derive(pub, r). */
  predicate Masked(e: Env, d: Dev, pid: Option<Pid>)
  {
    pid.Some? ==>
      && e.derive(pid.value.pub, d.keys.r).Some?
      && Unmasks(e, pid.value.nonce, e.derive(pid.value.pub, d.keys.r).value, pid.value.plain)
  }

  lemma OnlyStealthRetains(e: Env, d: Dev, c: Cmd, options: byte, data: bytes)
    requires Access(d.session.inProgress, c.ins) == SW_OK
    requires var r := Serve(e, d, c, options, data); !r.Refuse? && r.note.PaymentId?
    ensures Serve(e, d, c, options, data) == Stealth(e, d, c, data)
  {
    hide FetchHandle, Sign, FetchKey, ParseOut, Derive, Vouched, Timelock, Opening, FeeOf, FeeLine, ParseStep,
      PidRefused, Shown, DisplayOf, Stealth, Unmasks;
    if c.ins == INS_MLSAG || c.ins == INS_CLSAG { SignKeepsStages(e, d, c, options, data); }
  }

  /** The step that retains a payment ID comes before any output is derived. */
  lemma StealthRetains(e: Env, d: Dev, c: Cmd, data: bytes)
    requires var r := Stealth(e, d, c, data); !r.Refuse? && r.note.PaymentId?
    ensures d.Signs() && !InPhase(d.session.gate.ins, 1)
    ensures
      var r := Stealth(e, d, c, data);
      r.Reply? && r.d.keys == d.keys && Masked(e, d, Some(Pid(r.note.nonce, r.note.pub, r.note.plain)))
  {
    hide FetchKey, Mask8, StealthMask, Unmasks;
    StealthIs(e, d, c, data);
  }

  lemma NextRetains(e: Env, d: Dev, ev: Event)
    requires Next(e, d, ev).Running? && Next(e, d, ev).note.PaymentId?
    ensures d.Signs() && !InPhase(d.session.gate.ins, 1)
    ensures
      var s := Next(e, d, ev);
      s.d.keys == d.keys && Masked(e, d, Some(Pid(s.note.nonce, s.note.pub, s.note.plain)))
  {
    hide Serve, Access, Dispatch, Protocol, Stealth, Masked;
    var c := ev.cmd;
    CommandRuns(e, d, c);
    EnterKeeps(d, c);
    OnlyStealthRetains(e, Entered(d, c), c, c.body[0], c.body[1..]);
    StealthRetains(e, Entered(d, c), c, c.body[1..]);
    SameMasked(e, Entered(d, c), d,
      Some(Pid(Next(e, d, ev).note.nonce, Next(e, d, ev).note.pub, Next(e, d, ev).note.plain)));
  }

  lemma SameMasked(e: Env, d: Dev, s: Dev, pid: Option<Pid>)
    requires s.keys.r == d.keys.r && Masked(e, d, pid)
    ensures Masked(e, s, pid)
  {
    hide Unmasks;
  }

  lemma PidRecorded(s: Stream, n: Note)
    ensures
      Record(s, n).pid == if Boundary(n) then None
                          else if n.PaymentId? then Some(Pid(n.nonce, n.pub, n.plain)) else s.pid
  {
  }

  lemma {:induction false} MaskedRun(e: Env, evs: seq<Event>)
    ensures var t := Play(e, evs); t.Alive? ==> Masked(e, t.d, StreamOf(t.notes).pid)
  {
    hide Next, Masked, Record;
    if evs == [] {
      NothingMasked(e, InitFrom(0, {}));
    } else {
      MaskedRun(e, evs[..|evs| - 1]);
      var t, ev := Play(e, evs[..|evs| - 1]), evs[|evs| - 1];
      if t.Alive? && Next(e, t.d, ev).Running? {
        var s := Next(e, t.d, ev);
        StreamSnoc(t.notes, s.note);
        PidRecorded(StreamOf(t.notes), s.note);
        if Boundary(s.note) {
          NothingMasked(e, s.d);
        } else if s.note.PaymentId? {
          NextRetains(e, t.d, ev);
          SameMasked(e, t.d, s.d, StreamOf(t.notes + [s.note]).pid);
        } else {
          Handles.NextSame(e, t.d, ev);
          SameMasked(e, t.d, s.d, StreamOf(t.notes).pid);
        }
      }
    }
  }

  lemma NothingMasked(e: Env, d: Dev)
    ensures Masked(e, d, None) && StreamOf([Init]).pid == None
  {
  }

  /** Between the end of the prefix and the signature nothing is retained. */
  lemma {:induction false} SamePid(e: Env, evs: seq<Event>, p: nat, q: nat)
    requires p < q <= |Play(e, evs).notes| && Play(e, evs).notes[p].PrefixChunk? && Play(e, evs).notes[p].last
    requires forall i :: p < i < q ==> !Boundary(Play(e, evs).notes[i])
    ensures
      var ns := Play(e, evs).notes;
      StreamOf(ns[..q]).pid == Record(StreamOf(ns[..p]), ns[p]).pid && StreamOf(ns[..q]).finals > 0
    decreases q
  {
    hide Play, StreamOf, Record;
    var ns := Play(e, evs).notes;
    var n := q - 1;
    assert ns[..q] == ns[..n] + [ns[n]];
    StreamSnoc(ns[..n], ns[n]);
    PidRecorded(StreamOf(ns[..n]), ns[n]);
    FinalsGrow(StreamOf(ns[..n]), ns[n]);
    if n > p {
      SamePid(e, evs, p, n);
      if ns[n].PaymentId? { NotRetained(e, evs, n); }
    }
  }

  lemma FinalsGrow(s: Stream, n: Note)
    ensures !Boundary(n) ==> Record(s, n).finals >= s.finals
    ensures n.PrefixChunk? && n.last ==> Record(s, n).finals > 0
  {
  }

  lemma NotRetained(e: Env, evs: seq<Event>, n: nat)
    requires n < |Play(e, evs).notes| && StreamOf(Play(e, evs).notes[..n]).finals > 0
    ensures !Play(e, evs).notes[n].PaymentId?
  {
    hide Play, Next, StreamOf, Bound;
    FirstNote(e, evs);
    var ns := Play(e, evs).notes;
    if ns[n].PaymentId? {
      var m := NoteOrigin(e, evs, n);
      BoundRun(e, evs[..m]);
      NextRetains(e, Play(e, evs[..m]).d, evs[m]);
      FinalizedPhase(e, Play(e, evs[..m]).d, StreamOf(ns[..n]));
    }
  }

  lemma FinalizedPhase(e: Env, d: Dev, s: Stream)
    requires Bound(e, d, s) && d.Signs() && s.finals > 0
    ensures InPhase(d.session.gate.ins, 1)
  {
    hide Building, Streaming, Counted;
  }

  // --- the key the recipient reads it with ---------------------------------------------------------

  /** The main key of a standard recipient's output is the R the device computed, for as long as
      the transaction goes on. */
  lemma MainIsR(e: Env, evs: seq<Event>, j: nat)
    requires j < |Play(e, evs).notes| && Play(e, evs).Alive? && Play(e, evs).notes[j].Derived?
    requires forall i :: j < i < |Play(e, evs).notes| ==> !Boundary(Play(e, evs).notes[i])
    requires var r := Play(e, evs).notes[j].rec; r.change == 0 && r.sub == 0
    ensures Play(e, evs).notes[j].mainKey == Play(e, evs).d.keys.publicR
  {
    hide Play, Next, Vouched, Derive, NoteFor;
    FirstNote(e, evs);
    var m := NoteOrigin(e, evs, j);
    var d := Play(e, evs[..m]).d;
    Handles.OneNoteEach(e, evs[..m]);
    Handles.HandlesSurvive(e, evs, m);
    var s, o := NextDerived(e, d, evs[m]);
    StandardIsR(e, s, o);
  }

  lemma StandardIsR(e: Env, d: Dev, o: OutArgs)
    requires Vouched(e, d, o) && Derive(e, o).Some?
    ensures
      var n := NoteFor(o, Derive(e, o).value);
      n.Derived? && (n.rec.change == 0 && n.rec.sub == 0 ==> n.mainKey == d.keys.publicR)
  {
    hide Derive;
  }

  /** Whoever the payment ID was encrypted to reads it with R. */
  lemma ReadsWithR<P(!new)>(e: Env, g: Curve<P>, b: P, enc: P -> key, d: Dev, pid: Pid, a: key)
    requires OnCurve(e, g, b, enc) && Masked(e, d, Some(pid)) && e.mulG(d.keys.r) == Some(d.keys.publicR)
    requires pid.pub == enc(Times(g, LE(a), b))
    ensures Reads(e, pid, d.keys.publicR, a)
  {
    hide OnCurve, Unmasks, LE, Times;
    MulGIs(e, g, b, enc, d.keys.r);
    Shared(e, g, b, enc, b, a, d.keys.r);
  }

  /** With the transaction's key `k` and the view secret `a`, the nonce reads as the plaintext. */
  predicate Reads(e: Env, pid: Pid, k: key, a: key)
  {
    && e.derive(k, a).Some?
    && Unmasks(e, pid.nonce, e.derive(k, a).value, pid.plain)
  }

  // --- end to end -----------------------------------------------------------------------------------

  /** The output step that showed place `i` of the reviewed list. */
  lemma ShownAt(e: Env, evs: seq<Event>, n: nat, i: nat) returns (q: nat)
    requires n < |Play(e, evs).notes| && Play(e, evs).notes[n].Signed? && ReviewedOnce(Play(e, evs).notes, n, i)
    ensures
      var ns := Play(e, evs).notes;
      var t := TrailOf(ns[..n]);
      && Complete(ns, n, t) && t.prefix < q <= t.terminal && ns[q].Output?
      && ns[q].rec == (LedgerOf(ns[..t.terminal]).reviewed + [ns[t.terminal].rec])[i]
  {
    hide Play, TrailOf, LedgerOf, StreamOf;
    SignatureComplete(e, evs, n);
    var ns := Play(e, evs).notes;
    var t := TrailOf(ns[..n]);
    var ms := ns[..t.terminal];
    q := t.terminal;
    var l := LedgerOf(ms);
    if i < |l.reviewed| {
      Pairing(ms);
      assert FromOutput(ms, l.reviewed[i], l.committed[i]);
      q :| 0 <= q < |ms| && OutputAt(ms, l.reviewed[i], l.committed[i], q);
      assert ms[t.fee].Fee?;
    }
  }

  lemma GoesWithSays(pid: Option<Pid>, r: Rec)
    requires GoesWith(pid, r) && pid.Some? && r.change == 0 && !AllZero(pid.value.plain)
    ensures r.view == pid.value.pub && r.sub == 0
  {
  }

  lemma SignatureReads<P(!new)>(e: Env, g: Curve<P>, b: P, enc: P -> key, evs: seq<Event>, n: nat, j: nat,
                                pid: Pid, a: key)
    requires OnCurve(e, g, b, enc) && n < |Play(e, evs).notes| && Play(e, evs).notes[n].Signed?
    requires
      var ns := Play(e, evs).notes;
      var t := TrailOf(ns[..n]);
      && Complete(ns, n, t) && t.open < j < t.prefix && ns[j].Derived? && ns[j].rec.change == 0 && ns[j].rec.sub == 0
      && Record(StreamOf(ns[..t.prefix]), ns[t.prefix]).pid == Some(pid)
    requires pid.pub == enc(Times(g, LE(a), b))
    ensures Reads(e, pid, Play(e, evs).notes[j].mainKey, a)
  {
    hide Play, Next, OnCurve, StreamOf, TrailOf, Record, Reads, Masked, LE, Times, SignGate, MlsagSign, ClsagSign,
      Protocol;
    FirstNote(e, evs);
    var ns := Play(e, evs).notes;
    var m := NoteOrigin(e, evs, n);
    var d := Play(e, evs[..m]).d;
    SignedNeeds(e, d, evs[m]);
    SamePid(e, evs, TrailOf(ns[..n]).prefix, n);
    MaskedRun(e, evs[..m]);
    Nonces.TxKeyRun(e, evs[..m]);
    MainIsR(e, evs[..m], j);
    ReadsWithR(e, g, b, enc, d, pid, a);
  }

  /** End to end, for every real response of every run whose review had one terminal step: a
      recipient reviewed while a payment ID is retained is the one it was encrypted to; and
      unless it is the all-zero filler, that recipient reads it from the nonce and the main key
      that the signed prefix carries. (Or the two lists of records collide.) */
  lemma ReviewedRecipientReads<P(!new)>(e: Env, g: Curve<P>, b: P, enc: P -> key, evs: seq<Event>, n: nat, i: nat,
                                        a: key)
    requires OnCurve(e, g, b, enc) && n < |Play(e, evs).notes| && Play(e, evs).notes[n].Signed?
    requires ReviewedOnce(Play(e, evs).notes, n, i)
    ensures
      var ns := Play(e, evs).notes;
      var t := TrailOf(ns[..n]);
      && Complete(ns, n, t)
      && var l, s := LedgerOf(ns[..t.terminal]), Record(StreamOf(ns[..t.prefix]), ns[t.prefix]);
      var reviewed := l.reviewed + [ns[t.terminal].rec];
      || Collision(e.sha, Recs(reviewed), Recs(l.derived))
      || (&& s.mains != [] && CarriesDerived(e, s) && GoesWith(s.pid, reviewed[i])
          && (s.pid.Some? && reviewed[i].change == 0 && !AllZero(s.pid.value.plain)
                && reviewed[i].view == enc(Times(g, LE(a), b)) ==>
                Reads(e, s.pid.value, s.mains[|s.mains| - 1], a)))
  {
    hide Play, OnCurve, StreamOf, LedgerOf, TrailOf, CarriesDerived, Record, Recs, GoesWith, Reads, CarriesFor,
      Masked, AllZero, LE, Times, OneMain, OwnedBy, FoundAt;
    var ns := Play(e, evs).notes;
    var q := ShownAt(e, evs, n, i);
    var t := TrailOf(ns[..n]);
    SignatureCarriesDerived(e, evs, n);
    SamePid(e, evs, t.prefix, q);
    ReviewedGoesWith(e, evs, q);
    var l, s := LedgerOf(ns[..t.terminal]), Record(StreamOf(ns[..t.prefix]), ns[t.prefix]);
    var reviewed := l.reviewed + [ns[t.terminal].rec];
    var k := ReviewedRecipientFinds(e, g, b, enc, evs, n, i);
    if !Collision(e.sha, Recs(reviewed), Recs(l.derived)) && s.pid.Some? && reviewed[i].change == 0
       && !AllZero(s.pid.value.plain) && reviewed[i].view == enc(Times(g, LE(a), b)) {
      GoesWithSays(s.pid, reviewed[i]);
      SignatureReads(e, g, b, enc, evs, n, k, s.pid.value, a);
    }
  }
}
