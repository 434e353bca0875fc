/** The group the points live in: any commutative group, and multiples in it. */
module Group {
  import opened Modular

  datatype Curve<!P> = Curve(zero: P, add: (P, P) -> P, negate: P -> P)

  ghost predicate IsGroup<P(!new)>(g: Curve<P>)
  {
    && (forall x, y, z :: g.add(g.add(x, y), z) == g.add(x, g.add(y, z)))
    && (forall x, y :: g.add(x, y) == g.add(y, x))
    && (forall x :: g.add(x, g.zero) == x)
    && (forall x :: g.add(x, g.negate(x)) == g.zero)
  }

  lemma Assoc<P(!new)>(g: Curve<P>, x: P, y: P, z: P)
    requires IsGroup(g)
    ensures g.add(g.add(x, y), z) == g.add(x, g.add(y, z))
  {
  }

  lemma Comm<P(!new)>(g: Curve<P>, x: P, y: P)
    requires IsGroup(g)
    ensures g.add(x, y) == g.add(y, x)
  {
  }

  lemma Zero<P(!new)>(g: Curve<P>, x: P)
    requires IsGroup(g)
    ensures g.add(x, g.zero) == x == g.add(g.zero, x)
  {
    Comm(g, x, g.zero);
  }

  /** `k` times `x`. */
  function Times<P>(g: Curve<P>, k: nat, x: P): P
  {
    if k == 0 then g.zero else g.add(Times(g, k - 1, x), x)
  }

  lemma {:induction false} TimesZero<P(!new)>(g: Curve<P>, k: nat)
    requires IsGroup(g)
    ensures Times(g, k, g.zero) == g.zero
  {
    hide IsGroup;
    if k > 0 {
      TimesZero(g, k - 1);
      Zero(g, g.zero);
    }
  }

  lemma {:induction false} TimesSum<P(!new)>(g: Curve<P>, j: nat, k: nat, x: P)
    requires IsGroup(g)
    ensures Times(g, j + k, x) == g.add(Times(g, j, x), Times(g, k, x))
  {
    hide IsGroup;
    if k > 0 {
      TimesSum(g, j, k - 1, x);
      Assoc(g, Times(g, j, x), Times(g, k - 1, x), x);
    } else {
      Zero(g, Times(g, j, x));
    }
  }

  lemma Shuffle<P(!new)>(g: Curve<P>, a: P, b: P, c: P, d: P)
    requires IsGroup(g)
    ensures g.add(g.add(a, b), g.add(c, d)) == g.add(g.add(a, c), g.add(b, d))
  {
    hide IsGroup;
    Assoc(g, a, b, g.add(c, d));
    Assoc(g, b, c, d);
    Comm(g, b, c);
    Assoc(g, c, b, d);
    Assoc(g, a, c, g.add(b, d));
  }

  lemma {:induction false} TimesAdd<P(!new)>(g: Curve<P>, k: nat, x: P, y: P)
    requires IsGroup(g)
    ensures Times(g, k, g.add(x, y)) == g.add(Times(g, k, x), Times(g, k, y))
  {
    hide IsGroup;
    if k > 0 {
      TimesAdd(g, k - 1, x, y);
      Shuffle(g, Times(g, k - 1, x), Times(g, k - 1, y), x, y);
    } else {
      Zero(g, g.zero);
    }
  }

  lemma {:induction false} TimesTimes<P(!new)>(g: Curve<P>, j: nat, k: nat, x: P)
    requires IsGroup(g)
    ensures Times(g, j, Times(g, k, x)) == Times(g, j * k, x)
  {
    hide IsGroup;
    if j > 0 {
      TimesTimes(g, j - 1, k, x);
      Split(j, k);
      TimesSum(g, (j - 1) * k, k, x);
    }
  }

  lemma Split(j: nat, k: nat)
    requires j > 0
    ensures j * k == (j - 1) * k + k
  {
  }

  lemma TimesCommute<P(!new)>(g: Curve<P>, j: nat, k: nat, x: P)
    requires IsGroup(g)
    ensures Times(g, j, Times(g, k, x)) == Times(g, k, Times(g, j, x))
  {
    TimesTimes(g, j, k, x);
    TimesTimes(g, k, j, x);
    assert j * k == k * j;
  }

  /** Multiples of a point of order `m` depend on the residue only. */
  lemma TimesResidue<P(!new)>(g: Curve<P>, k: nat, m: nat, x: P)
    requires IsGroup(g) && m > 0 && Times(g, m, x) == g.zero
    ensures Times(g, k, x) == Times(g, k % m, x)
  {
    hide Times, IsGroup;
    var q := k / m;
    assert k == q * m + k % m;
    TimesSum(g, q * m, k % m, x);
    TimesTimes(g, q, m, x);
    TimesZero(g, q);
    Zero(g, Times(g, k % m, x));
  }

  lemma SameMultiples<P(!new)>(g: Curve<P>, j: nat, k: nat, m: nat, x: P)
    requires IsGroup(g) && m > 0 && Times(g, m, x) == g.zero && Same(j, k, m)
    ensures Times(g, j, x) == Times(g, k, x)
  {
    TimesResidue(g, j, m, x);
    TimesResidue(g, k, m, x);
  }
}
