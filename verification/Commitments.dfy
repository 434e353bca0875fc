/** Every commitment reviewed is a commitment to the value unblinded, as a point. */
module Commitments {
  import opened Bytes
  import opened Group
  import opened Scalars
  import opened DeviceState
  import opened DeviceSpec
  import opened DeviceRuns
  import opened ReviewBinding
  import opened OutputKeys

  /** With the second base `hh`: multiples of it, and sums of points, are what the SDK answers
      when it answers. */
  ghost predicate OnTwoBases<P(!new)>(e: Env, g: Curve<P>, b: P, hh: P, enc: P -> key)
  {
    && OnCurve(e, g, b, enc)
    && (forall k: key :: e.mulH(k).Some? ==> e.mulH(k).value == enc(Times(g, LE(k), hh)))
    && (forall x: P, y: P {:trigger e.addPoints(enc(x), enc(y))} ::
          e.addPoints(enc(x), enc(y)).Some? ==> e.addPoints(enc(x), enc(y)).value == enc(g.add(x, y)))
  }

  /** kG + vH */
  ghost function Committed<P(!new)>(g: Curve<P>, b: P, hh: P, k: key, v: key): P
  {
    g.add(Times(g, LE(k), b), Times(g, LE(v), hh))
  }

  lemma MulHIs<P(!new)>(e: Env, g: Curve<P>, b: P, hh: P, enc: P -> key, k: key)
    requires OnTwoBases(e, g, b, hh, enc)
    ensures OnCurve(e, g, b, enc) && IsGroup(g)
    ensures e.mulH(k).Some? ==> e.mulH(k).value == enc(Times(g, LE(k), hh))
  {
    hide LE, Times;
  }

  lemma AddIs<P(!new)>(e: Env, g: Curve<P>, b: P, hh: P, enc: P -> key, x: P, y: P)
    requires OnTwoBases(e, g, b, hh, enc)
    ensures e.addPoints(enc(x), enc(y)).Some? ==> e.addPoints(enc(x), enc(y)).value == enc(g.add(x, y))
  {
    hide LE, Times, OnCurve;
  }

  /** What the calls add up to is that point. */
  lemma SumIs<P(!new)>(e: Env, g: Curve<P>, b: P, hh: P, enc: P -> key, k: key, v: key)
    requires OnTwoBases(e, g, b, hh, enc) && Sums(e, k, v)
    ensures SumOf(e, k, v) == enc(Committed(g, b, hh, k, v))
  {
    hide OnTwoBases, OnCurve, LE, Times, IsGroup;
    MulHIs(e, g, b, hh, enc, v);
    MulGIs(e, g, b, enc, k);
    var x, y := Times(g, LE(k), b), Times(g, LE(v), hh);
    if AllZero(v) {
      assert LE(v) == 0 by { ZeroValue(v); ZeroLE(v); }
      NoMultiples(g, hh);
      Group.Zero(g, x);
    } else {
      AddIs(e, g, b, hh, enc, y, x);
      Comm(g, x, y);
    }
  }

  lemma ZeroLE(v: key)
    ensures LE(v) == FromBE(Rev(v))
  {
  }

  lemma NoMultiples<P(!new)>(g: Curve<P>, x: P)
    ensures Times(g, 0, x) == g.zero
  {
  }

  /** Main result: in every run, the commitment of every output reviewed is kG + vH, for the mask
      and the value unblinded. */
  lemma ReviewedCommitment<P(!new)>(e: Env, g: Curve<P>, b: P, hh: P, enc: P -> key, evs: seq<Event>, n: nat)
    requires OnTwoBases(e, g, b, hh, enc) && n < |Play(e, evs).notes| && Play(e, evs).notes[n].Output?
    ensures
      var x := Play(e, evs).notes[n];
      x.commitment == enc(g.add(Times(g, LE(x.k), b), Times(g, LE(x.v), hh)))
  {
    hide Play, OnTwoBases, LE, Times, Sums, SumOf, LedgerOf;
    ReviewedIsSigned(e, evs, n);
    SumIs(e, g, b, hh, enc, Play(e, evs).notes[n].k, Play(e, evs).notes[n].v);
  }
}
