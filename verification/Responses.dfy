/** A verifier accepts every response with the points answered when its nonce was prepared. */
module Responses {
  import opened Bytes
  import opened Status
  import opened Group
  import opened Scalars
  import Signatures
  import opened DeviceState
  import opened DeviceSpec
  import opened DeviceRuns
  import opened Ordering
  import opened Nonces
  import opened OutputKeys

  /** A sealed secret comes back (`Handles.HandleRoundTrip`). */
  ghost predicate Seals(e: Env)
  {
    forall x: key :: e.unseal(e.seal(x)) == x
  }

  // --- what is noted of a nonce and of a response -------------------------------------------------

  /** The points are alpha*G for the secret behind the handle; and with a base, alpha times the
      base, and each of the secrets noted times the base. */
  predicate PointsAre(e: Env, n: Note)
    requires n.Prepared?
  {
    var alpha := e.unseal(n.handle);
    && |n.points| == (if n.base == [] then 1 else 2 + |n.secrets|) && e.mulG(alpha) == Some(n.points[0])
    && (n.base != [] ==>
          && e.mul(n.base, alpha) == Some(n.points[1])
          && forall j :: 0 <= j < |n.secrets| ==> e.mul(n.base, n.secrets[j]) == Some(n.points[2 + j]))
  }

  /** The response on the operands noted. */
  function ValueOf(n: Note): nat
    requires n.Signed?
  {
    match n.on
    case OnMlsag(xin) => Signatures.MlsagValue(n.alpha, xin, LE(n.c))
    case OnClsag(p, z, muP, muC) => Signatures.ClsagValue(n.alpha, p, z, muP, muC, LE(n.c))
  }

  predicate ResponseIs(e: Env, n: Note)
    requires n.Signed?
  {
    n.alpha == LE(e.unseal(n.handle)) && n.s == ToLE(ValueOf(n))
  }

  predicate NoteFacts(e: Env, n: Note)
  {
    (n.Prepared? ==> PointsAre(e, n)) && (n.Signed? ==> ResponseIs(e, n))
  }

  /** The challenge may be reduced first. */
  lemma ChallengeReduced(a: nat, p: nat, z: nat, muP: nat, muC: nat, c: nat)
    ensures Signatures.ClsagValue(a, p, z, muP, muC, c % L) == Signatures.ClsagValue(a, p, z, muP, muC, c)
  {
    hide Signatures.ClsagValue, Compute;
    Signatures.ClsagChain(a, p, z, muP, muC, c);
    Signatures.ClsagChain(a, p, z, muP, muC, c % L);
  }

  lemma PreparesPoints(e: Env, d: Dev, c: Cmd, options: byte, data: bytes)
    requires Seals(e)
    ensures var r := MlsagPrepare(e, d, c, options, data); !r.Refuse? ==> NoteFacts(e, r.note)
    ensures var r := ClsagPrepare(e, d, c, data); !r.Refuse? ==> NoteFacts(e, r.note)
  {
    hide FetchHandle;
    assert e.unseal(e.seal(c.random)) == c.random;
  }

  lemma SignsValue(e: Env, d: Dev, c: Cmd, data: bytes)
    requires d.session.inProgress
    ensures var r := MlsagSign(e, d, c, data); !r.Refuse? ==> NoteFacts(e, r.note)
    ensures var r := ClsagSign(e, d, c, data); !r.Refuse? ==> NoteFacts(e, r.note)
  {
    hide LE, ToLE, Signatures.ClsagValue, Signatures.MlsagValue, InRange, MacOk;
    var ch := LE(d.signing.c);
    LEToLE(ch % L);
    forall a, p, z, muP, muC
      ensures Signatures.ClsagValue(a, p, z, muP, muC, ch % L) == Signatures.ClsagValue(a, p, z, muP, muC, ch)
    {
      ChallengeReduced(a, p, z, muP, muC, ch);
    }
  }

  lemma SignNotes(e: Env, d: Dev, c: Cmd, options: byte, data: bytes)
    requires Seals(e) && d.session.inProgress && (c.ins == INS_MLSAG || c.ins == INS_CLSAG)
    ensures var r := Sign(e, d, c, options, data); !r.Refuse? ==> NoteFacts(e, r.note)
  {
    hide MlsagPrepare, MlsagSign, ClsagPrepare, ClsagSign, SignGate, PointsAre, ResponseIs, Challenge, History, Seals;
    PreparesPoints(e, d, c, options, data);
    SignsValue(e, d, c, data);
  }

  lemma OnlySignNotes(e: Env, d: Dev, c: Cmd, options: byte, data: bytes)
    requires Access(d.session.inProgress, c.ins) == SW_OK
    requires var r := Serve(e, d, c, options, data); !r.Refuse? && (r.note.Prepared? || r.note.Signed?)
    ensures (c.ins == INS_MLSAG || c.ins == INS_CLSAG) && d.session.inProgress
    ensures Serve(e, d, c, options, data) == Sign(e, d, c, options, data)
  {
    hide FetchHandle, Sign, FetchKey, ParseOut, Derive, Vouched, Timelock, Opening, FeeOf, FeeLine, ParseStep,
      PidRefused, Shown, DisplayOf;
  }

  lemma NextNotes(e: Env, d: Dev, ev: Event)
    requires Seals(e) && Next(e, d, ev).Running?
    requires Next(e, d, ev).note.Prepared? || Next(e, d, ev).note.Signed?
    ensures NoteFacts(e, Next(e, d, ev).note)
  {
    hide Serve, Access, Dispatch, Protocol, NoteFacts, Sign, Seals;
    var c := ev.cmd;
    CommandRuns(e, d, c);
    EnterKeeps(d, c);
    OnlySignNotes(e, Entered(d, c), c, c.body[0], c.body[1..]);
    SignNotes(e, Entered(d, c), c, c.body[0], c.body[1..]);
  }

  lemma NotesRun(e: Env, evs: seq<Event>, n: nat)
    requires Seals(e) && n < |Play(e, evs).notes|
    ensures NoteFacts(e, Play(e, evs).notes[n])
  {
    hide Play, Next, Seals;
    FirstNote(e, evs);
    if Play(e, evs).notes[n].Prepared? || Play(e, evs).notes[n].Signed? {
      hide NoteFacts;
      var m := NoteOrigin(e, evs, n);
      NextNotes(e, Play(e, evs[..m]).d, evs[m]);
    }
  }

  // --- what a verifier computes -------------------------------------------------------------------

  /** From a response on the point `x`: sX + c*mu_P*(pX) + c*mu_C*(zX), or ssX + c*(xinX). */
  ghost function Recomputed<P(!new)>(g: Curve<P>, n: Note, x: P): P
    requires n.Signed?
  {
    match n.on
    case OnMlsag(xin) => g.add(Times(g, LE(n.s), x), Times(g, LE(n.c), Times(g, xin, x)))
    case OnClsag(p, z, muP, muC) =>
      Signatures.ClsagCommitment(g, LE(n.s), LE(n.c), muP, muC, Times(g, p, x), Times(g, z, x), x)
  }

  lemma Closes<P(!new)>(e: Env, g: Curve<P>, n: Note, x: P)
    requires IsGroup(g) && Times(g, L, x) == g.zero && n.Signed? && ResponseIs(e, n)
    ensures Recomputed(g, n, x) == Times(g, n.alpha, x)
  {
    hide LE, ToLE, Times, Signatures.ClsagValue, Signatures.MlsagValue, Signatures.ClsagCommitment, IsGroup;
    LEToLE(ValueOf(n));
    match n.on
    case OnMlsag(xin) => Signatures.MlsagCloses(g, n.alpha, xin, LE(n.c), x);
    case OnClsag(p, z, muP, muC) => Signatures.ClsagCloses(g, n.alpha, p, z, muP, muC, LE(n.c), x);
  }

  /** The points answered, as multiples of G and of the base `x`. */
  ghost predicate Multiples<P(!new)>(e: Env, g: Curve<P>, b: P, enc: P -> key, n: Note)
    requires n.Prepared?
  {
    && |n.points| >= 1 && n.points[0] == enc(Times(g, LE(e.unseal(n.handle)), b))
    && forall x: P :: n.base == enc(x) ==>
         && |n.points| == 2 + |n.secrets| && n.points[1] == enc(Times(g, LE(e.unseal(n.handle)), x))
         && forall j :: 0 <= j < |n.secrets| ==> n.points[2 + j] == enc(Times(g, LE(n.secrets[j]), x))
  }

  lemma PointsAreMultiples<P(!new)>(e: Env, g: Curve<P>, b: P, enc: P -> key, n: Note)
    requires OnCurve(e, g, b, enc) && n.Prepared? && PointsAre(e, n)
    ensures Multiples(e, g, b, enc, n)
  {
    hide OnCurve, LE, Times, IsGroup;
    var alpha := e.unseal(n.handle);
    MulGIs(e, g, b, enc, alpha);
    forall x: P | n.base == enc(x)
      ensures |n.points| == 2 + |n.secrets| && n.points[1] == enc(Times(g, LE(alpha), x))
      ensures forall j :: 0 <= j < |n.secrets| ==> n.points[2 + j] == enc(Times(g, LE(n.secrets[j]), x))
    {
      MulIs(e, g, b, enc, x, alpha);
      forall j | 0 <= j < |n.secrets|
        ensures n.points[2 + j] == enc(Times(g, LE(n.secrets[j]), x))
      {
        MulIs(e, g, b, enc, x, n.secrets[j]);
      }
    }
  }

  /** Main result: in every run, what is answered with a nonce is alpha*G, alpha*H, and for each
      secret x of the command x*H: for CLSAG the key image p*H and then z*H. */
  lemma PreparedPoints<P(!new)>(e: Env, g: Curve<P>, b: P, enc: P -> key, evs: seq<Event>, n: nat)
    requires OnCurve(e, g, b, enc) && Seals(e) && n < |Play(e, evs).notes| && Play(e, evs).notes[n].Prepared?
    ensures Multiples(e, g, b, enc, Play(e, evs).notes[n])
  {
    hide Play, OnCurve, Seals, PointsAre, Multiples;
    NotesRun(e, evs, n);
    PointsAreMultiples(e, g, b, enc, Play(e, evs).notes[n]);
  }

  /** The response is on the very secrets the nonce was prepared for. */
  predicate SameSecrets(prepared: Note, response: Note)
    requires prepared.Prepared? && response.Signed?
  {
    match response.on
    case OnMlsag(xin) => |prepared.secrets| == 1 && LE(prepared.secrets[0]) == xin
    case OnClsag(p, z, _, _) => |prepared.secrets| == 2 && LE(prepared.secrets[0]) == p && LE(prepared.secrets[1]) == z
  }

  /** From a response and the images of its secrets on the point `x`: sX + c*mu_P*I + c*mu_C*D,
      or ssX + c*I. */
  ghost function FromImages<P(!new)>(g: Curve<P>, n: Note, x: P, image: P, other: P): P
    requires n.Signed?
  {
    match n.on
    case OnMlsag(_) => g.add(Times(g, LE(n.s), x), Times(g, LE(n.c), image))
    case OnClsag(_, _, muP, muC) => Signatures.ClsagCommitment(g, LE(n.s), LE(n.c), muP, muC, image, other, x)
  }

  /** What the verifier recomputes on G, and on the input's base, is what was answered; on the
      base, from the images answered, when the response is on the secrets prepared for. */
  ghost predicate Verifies<P(!new)>(g: Curve<P>, b: P, enc: P -> key, prepared: Note, response: Note)
    requires prepared.Prepared? && response.Signed?
  {
    && |prepared.points| >= 1 && prepared.points[0] == enc(Recomputed(g, response, b))
    && forall x: P :: prepared.base == enc(x) && Times(g, L, x) == g.zero ==>
         && |prepared.points| >= 2 && prepared.points[1] == enc(Recomputed(g, response, x))
         && (SameSecrets(prepared, response) ==> ClosesFromImages(g, enc, prepared, response, x))
  }

  /** The images answered close the ring. */
  ghost predicate ClosesFromImages<P(!new)>(g: Curve<P>, enc: P -> key, prepared: Note, response: Note, x: P)
    requires prepared.Prepared? && response.Signed? && |prepared.points| >= 2
  {
    exists image: P, other: P ::
      && |prepared.points| >= 3 && prepared.points[2] == enc(image)
      && (response.on.OnClsag? ==> |prepared.points| >= 4 && prepared.points[3] == enc(other))
      && prepared.points[1] == enc(FromImages(g, response, x, image, other))
  }

  lemma ImagesClose<P(!new)>(e: Env, g: Curve<P>, b: P, enc: P -> key, prepared: Note, response: Note, x: P)
    requires prepared.Prepared? && response.Signed? && Multiples(e, g, b, enc, prepared) && prepared.base == enc(x)
    requires SameSecrets(prepared, response) && |prepared.points| >= 2
    requires prepared.points[1] == enc(Recomputed(g, response, x))
    ensures ClosesFromImages(g, enc, prepared, response, x)
  {
    hide LE, Times;
    var image := Times(g, LE(prepared.secrets[0]), x);
    var other := if response.on.OnClsag? then Times(g, LE(prepared.secrets[1]), x) else image;
    assert Recomputed(g, response, x) == FromImages(g, response, x, image, other);
  }

  lemma ResponseVerifiesWith<P(!new)>(e: Env, g: Curve<P>, b: P, enc: P -> key, prepared: Note, response: Note)
    requires OnCurve(e, g, b, enc) && prepared.Prepared? && response.Signed?
    requires prepared.handle == response.handle && PointsAre(e, prepared) && ResponseIs(e, response)
    ensures Verifies(g, b, enc, prepared, response)
  {
    hide OnCurve, LE, Times, Recomputed, IsGroup, PointsAre, SameSecrets, ClosesFromImages;
    PointsAreMultiples(e, g, b, enc, prepared);
    BaseOrder(e, g, b, enc);
    Closes(e, g, response, b);
    forall x: P | prepared.base == enc(x) && Times(g, L, x) == g.zero
      ensures |prepared.points| >= 2 && prepared.points[1] == enc(Recomputed(g, response, x))
      ensures SameSecrets(prepared, response) ==> ClosesFromImages(g, enc, prepared, response, x)
    {
      Closes(e, g, response, x);
      if SameSecrets(prepared, response) { ImagesClose(e, g, b, enc, prepared, response, x); }
    }
  }

  lemma BaseOrder<P(!new)>(e: Env, g: Curve<P>, b: P, enc: P -> key)
    requires OnCurve(e, g, b, enc)
    ensures IsGroup(g) && Times(g, L, b) == g.zero
  {
  }

  /** Main result: in every run, every real response answers a nonce prepared in the same
      transaction, and with it a verifier recomputes exactly the points answered then: alpha*G,
      and alpha*H for the input's base H when that is a point of order l, there from the images
      answered then. */
  lemma ResponseVerifies<P(!new)>(e: Env, g: Curve<P>, b: P, enc: P -> key, evs: seq<Event>, n: nat) returns (k: nat)
    requires OnCurve(e, g, b, enc) && Seals(e)
    requires n < |Play(e, evs).notes| && Play(e, evs).notes[n].Signed?
    ensures k < n && Answers(Play(e, evs).notes, n, k)
    ensures Verifies(g, b, enc, Play(e, evs).notes[k], Play(e, evs).notes[n])
  {
    hide Play, OnCurve, Seals, OlderAreSmaller, Verifies;
    NonceAnsweredOnce(e, evs, n);
    var i :| Answers(Play(e, evs).notes, n, i) && OlderAreSmaller(Play(e, evs).notes, n, i);
    k := i;
    NotesRun(e, evs, k);
    NotesRun(e, evs, n);
    ResponseVerifiesWith(e, g, b, enc, Play(e, evs).notes[k], Play(e, evs).notes[n]);
  }
}
