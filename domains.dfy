/**
 * Interval domains shared by both engine generations (src/vars.rs): a decision variable's
 * domain is the set of integers in `[min, max]`, and a variable is named by its position.
 */
module Domains {

  /** Decision variable handle: the variable's index in the store. */
  type VarId = nat

  /** Domain of a decision variable, tracked as an interval of integers. */
  datatype Var = Var(min: int, max: int)

  predicate Contains(d: Var, x: int) {
    d.min <= x <= d.max
  }

  predicate IsEmpty(d: Var) {
    d.min > d.max
  }

  /** The part of `d` inside `[lo, hi]`, as an interval. */
  function Intersect(d: Var, lo: int, hi: int): (r: Var)
    ensures forall x :: Contains(r, x) <==> Contains(d, x) && lo <= x <= hi
  {
    Var(if d.min >= lo then d.min else lo, if d.max <= hi then d.max else hi)
  }

  /** `Var::is_set`: the domain is reduced to a single value. */
  predicate IsSet(d: Var) {
    d.min == d.max
  }

  lemma IsSetMeansSingleton(d: Var)
    ensures IsSet(d) ==> Contains(d, d.min) && forall x :: Contains(d, x) ==> x == d.min
    ensures !IsSet(d) ==> d.min > d.max || (Contains(d, d.min) && Contains(d, d.min + 1))
  {
  }

  /** `Var::mid`: a value that splits a domain with at least two values into two nonempty halves. */
  function Mid(d: Var): (m: int)
    requires d.min < d.max
    ensures d.min <= m < d.max
  {
    d.min + (d.max - d.min) / 2
  }

  /** Number of values removable from a domain before it becomes a singleton. */
  function Width(d: Var): nat {
    if d.min <= d.max then d.max - d.min else 0
  }

  function TotalWidth(doms: seq<Var>): nat {
    if doms == [] then 0 else TotalWidth(doms[..|doms| - 1]) + Width(doms[|doms| - 1])
  }

  /** `a` is `b` or a nonempty interval inside `b`: the only ways a narrowing may change a domain. */
  predicate Sub(a: Var, b: Var) {
    a == b || b.min <= a.min <= a.max <= b.max
  }

  /** Every domain of `d1` is `Sub` of the corresponding domain of `d0`. */
  predicate Narrower(d1: seq<Var>, d0: seq<Var>) {
    |d1| == |d0| && forall v :: 0 <= v < |d0| ==> Sub(d1[v], d0[v])
  }

  /** An assignment lies in the domains: one value per variable, each inside its interval. */
  predicate InDoms(a: seq<int>, doms: seq<Var>) {
    |a| == |doms| && forall v :: 0 <= v < |a| ==> Contains(doms[v], a[v])
  }

  /**
   * The step from `(d0, e0)` to `(d1, e1)` only narrows and logs honestly: domains only
   * shrink, the event log only grows, every new event names a variable whose domain really
   * changed, and every changed variable has a new event.
   */
  predicate Narrows(d0: seq<Var>, e0: seq<VarId>, d1: seq<Var>, e1: seq<VarId>) {
    Narrower(d1, d0)
    && |e0| <= |e1| && e1[..|e0|] == e0
    && (forall k :: |e0| <= k < |e1| ==> e1[k] < |d0| && d1[e1[k]] != d0[e1[k]])
    && (forall v :: 0 <= v < |d0| && d1[v] != d0[v] ==> v in e1[|e0|..])
  }

  lemma SubTrans(a: Var, b: Var, c: Var)
    requires Sub(a, b) && Sub(b, c)
    ensures Sub(a, c)
  {
  }

  /** Two domains each `Sub` of the other are equal. */
  lemma SubAntisym(a: Var, b: Var)
    requires Sub(a, b)
    ensures Sub(b, a) ==> a == b
  {
  }

  lemma SubContains(a: Var, b: Var, x: int)
    requires Sub(a, b) && Contains(a, x)
    ensures Contains(b, x)
  {
  }

  lemma NarrowerTrans(d2: seq<Var>, d1: seq<Var>, d0: seq<Var>)
    requires Narrower(d2, d1) && Narrower(d1, d0)
    ensures Narrower(d2, d0)
  {
    forall v | 0 <= v < |d0|
      ensures Sub(d2[v], d0[v])
    {
      SubTrans(d2[v], d1[v], d0[v]);
    }
  }

  /** An assignment that lies in narrowed domains also lies in the original ones. */
  lemma InDomsWiden(a: seq<int>, d1: seq<Var>, d0: seq<Var>)
    requires Narrower(d1, d0) && InDoms(a, d1)
    ensures InDoms(a, d0)
  {
    forall v | 0 <= v < |a|
      ensures Contains(d0[v], a[v])
    {
      SubContains(d1[v], d0[v], a[v]);
    }
  }

  lemma NarrowsRefl(d: seq<Var>, e: seq<VarId>)
    ensures Narrows(d, e, d, e)
  {
    assert e[..|e|] == e;
  }

  /** Two honest narrowing steps in a row make one honest narrowing step. */
  lemma {:induction false} NarrowsTrans(d0: seq<Var>, e0: seq<VarId>, d1: seq<Var>, e1: seq<VarId>,
                                        d2: seq<Var>, e2: seq<VarId>)
    requires Narrows(d0, e0, d1, e1) && Narrows(d1, e1, d2, e2)
    ensures Narrows(d0, e0, d2, e2)
  {
    NarrowerTrans(d2, d1, d0);
    assert e2[..|e0|] == e1[..|e1|][..|e0|];
    forall k | |e0| <= k < |e2|
      ensures e2[k] < |d0| && d2[e2[k]] != d0[e2[k]]
    {
      var v := e2[k];
      SubAntisym(d1[v], d0[v]);
      SubTrans(d2[v], d1[v], d0[v]);
      SubAntisym(d2[v], d1[v]);
      if k < |e1| {
        assert e2[k] == e1[k];
      }
    }
    forall v | 0 <= v < |d0| && d2[v] != d0[v]
      ensures v in e2[|e0|..]
    {
      if d1[v] != d0[v] {
        var k :| |e0| <= k < |e1| && e1[k] == v by {
          var j :| 0 <= j < |e1[|e0|..]| && e1[|e0|..][j] == v;
          assert e1[|e0| + j] == v;
        }
        assert e2[k] == e1[k];
        assert e2[|e0|..][k - |e0|] == v;
      } else {
        var j :| 0 <= j < |e2[|e1|..]| && e2[|e1|..][j] == v;
        assert e2[|e0|..][|e1| - |e0| + j] == v;
      }
    }
  }

  lemma SubWidth(a: Var, b: Var)
    requires Sub(a, b)
    ensures Width(a) <= Width(b)
    ensures a != b && b.min <= b.max ==> Width(a) < Width(b)
  {
  }

  /** Narrowing never increases the total width. */
  lemma {:induction false} NarrowerWidth(d1: seq<Var>, d0: seq<Var>)
    requires Narrower(d1, d0)
    ensures TotalWidth(d1) <= TotalWidth(d0)
    decreases |d0|
  {
    if d0 != [] {
      var n := |d0| - 1;
      assert Narrower(d1[..n], d0[..n]);
      NarrowerWidth(d1[..n], d0[..n]);
      SubWidth(d1[n], d0[n]);
    }
  }

  /** Changing one domain strictly lowers the total width (`Sub` only changes nonempty domains). */
  lemma {:induction false} NarrowerWidthStrict(d1: seq<Var>, d0: seq<Var>, v: VarId)
    requires Narrower(d1, d0) && v < |d0| && d1[v] != d0[v]
    ensures TotalWidth(d1) < TotalWidth(d0)
    decreases |d0|
  {
    var n := |d0| - 1;
    assert Narrower(d1[..n], d0[..n]);
    if v == n {
      NarrowerWidth(d1[..n], d0[..n]);
      SubWidth(d1[n], d0[n]);
    } else {
      NarrowerWidthStrict(d1[..n], d0[..n], v);
      SubWidth(d1[n], d0[n]);
    }
  }

  /** A domain that narrowing turned from nonempty to empty is impossible: `Sub` keeps it nonempty. */
  lemma SubNonEmpty(a: Var, b: Var)
    requires Sub(a, b) && b.min <= b.max
    ensures a.min <= a.max
  {
  }

  /**
   * An honest narrowing step that logged an event strictly lowered the total width (an empty
   * domain cannot change, so the logged domain was nonempty): this is what makes the
   * propagation loops terminate.
   */
  lemma NarrowsWidth(d0: seq<Var>, e0: seq<VarId>, d1: seq<Var>, e1: seq<VarId>)
    requires Narrows(d0, e0, d1, e1)
    ensures TotalWidth(d1) <= TotalWidth(d0)
    ensures |e1| > |e0| ==> TotalWidth(d1) < TotalWidth(d0)
    ensures |e1| == |e0| ==> d1 == d0
  {
    NarrowerWidth(d1, d0);
    if |e1| > |e0| {
      NarrowerWidthStrict(d1, d0, e1[|e0|]);
    } else {
      assert e1[|e0|..] == [];
    }
  }

  /** The total width of a concatenation. */
  lemma {:induction false} TotalWidthAppend(d: seq<Var>, e: seq<Var>)
    ensures TotalWidth(d + e) == TotalWidth(d) + TotalWidth(e)
    decreases |e|
  {
    if e != [] {
      var n := |e| - 1;
      assert (d + e)[..|d + e| - 1] == d + e[..n];
      assert (d + e)[|d + e| - 1] == e[n];
      TotalWidthAppend(d, e[..n]);
    } else {
      assert d + e == d;
    }
  }

  /** The total width counts the width of each single domain. */
  lemma TotalWidthSplit(d: seq<Var>, v: VarId)
    requires v < |d|
    ensures TotalWidth(d) == TotalWidth(d[..v]) + Width(d[v]) + TotalWidth(d[v + 1..])
  {
    assert d == d[..v] + [d[v]] + d[v + 1..];
    TotalWidthAppend(d[..v] + [d[v]], d[v + 1..]);
    TotalWidthAppend(d[..v], [d[v]]);
    assert [d[v]][..0] == [];
  }
}
