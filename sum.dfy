/** The view-generic `Sum` propagator of the newer engine (src/props/sum.rs): `sum(xs) == s`. */
module SumProp {
  import opened Wrappers
  import opened Domains
  import opened Views

  /** `Sum`: a list of views and the variable holding their sum. */
  datatype Sum = Sum(xs: seq<View>, s: VarId)

  predicate ViewsOk(xs: seq<View>, n: nat) {
    forall i :: 0 <= i < |xs| ==> ViewOk(xs[i], n)
  }

  predicate SumOk(p: Sum, n: nat) {
    ViewsOk(p.xs, n) && p.s < n
  }

  /** The sum of the views' values under `a`. */
  function Total(xs: seq<View>, a: seq<int>): int
    requires ViewsOk(xs, |a|)
  {
    if xs == [] then 0 else Total(xs[..|xs| - 1], a) + Value(xs[|xs| - 1], a)
  }

  /** `min_of_terms`: the sum of the views' minima. */
  function SumMin(xs: seq<View>, d: seq<Var>): int
    requires ViewsOk(xs, |d|)
  {
    if xs == [] then 0 else SumMin(xs[..|xs| - 1], d) + MinRaw(xs[|xs| - 1], d)
  }

  /** `max_of_terms`: the sum of the views' maxima. */
  function SumMax(xs: seq<View>, d: seq<Var>): int
    requires ViewsOk(xs, |d|)
  {
    if xs == [] then 0 else SumMax(xs[..|xs| - 1], d) + MaxRaw(xs[|xs| - 1], d)
  }

  /** The assignment satisfies `sum(xs) == s`. */
  predicate SumHolds(p: Sum, a: seq<int>)
    requires SumOk(p, |a|)
  {
    Total(p.xs, a) == a[p.s]
  }

  /** The underlying variables of the views, in order, constants dropped. */
  function Underlyings(xs: seq<View>): (r: seq<VarId>)
    ensures forall v :: v in r <==> exists i :: 0 <= i < |xs| && Underlying(xs[i]) == Some(v)
  {
    if xs == [] then []
    else
      var r := Underlyings(xs[..|xs| - 1]) + UnderlyingList(xs[|xs| - 1]);
      assert forall v :: (exists i :: 0 <= i < |xs| && Underlying(xs[i]) == Some(v)) ==> v in r by {
        forall v, i | 0 <= i < |xs| && Underlying(xs[i]) == Some(v) ensures v in r {
          if i < |xs| - 1 {
            assert xs[..|xs| - 1][i] == xs[i];
          }
        }
      }
      r
  }

  /** `list_trigger_vars`: the terms' underlying variables, then `s`. */
  function SumTriggers(p: Sum): (r: seq<VarId>)
    ensures |r| >= 1 && r[|r| - 1] == p.s
    ensures forall v :: v in r <==> v == p.s || exists i :: 0 <= i < |p.xs| && Underlying(p.xs[i]) == Some(v)
  {
    Underlyings(p.xs) + [p.s]
  }

  /** No two of the terms and `s` read the same variable. */
  predicate SumApart(p: Sum) {
    (forall i :: 0 <= i < |p.xs| ==> Underlying(p.xs[i]) != Some(p.s))
    && (forall i, j :: 0 <= i < j < |p.xs| ==> Apart(p.xs[i], p.xs[j]))
  }

  /**
   * The bounds `prune` leaves when no two of its operands share a variable: `s` is cut to
   * `[min_of_terms, max_of_terms]`, then each term to at least
   * `s.min - (max_of_terms - x.max)` and at most `s.max - (min_of_terms - x.min)`, where
   * `x.max` is the term's maximum before its own narrowing and `x.min` its minimum after it.
   */
  predicate SumBounded(p: Sum, d0: seq<Var>, d: seq<Var>)
    requires SumOk(p, |d0|) && |d| == |d0|
  {
    d[p.s] == Intersect(d0[p.s], SumMin(p.xs, d0), SumMax(p.xs, d0))
    && forall j :: 0 <= j < |p.xs| ==>
         d[p.s].min - (SumMax(p.xs, d0) - MaxRaw(p.xs[j], d0)) <= MinRaw(p.xs[j], d)
         && MaxRaw(p.xs[j], d) <= d[p.s].max - (SumMin(p.xs, d0) - MinRaw(p.xs[j], d))
  }

  /** Lines 25-26's cut of `s`: its domain within `[min_of_terms, max_of_terms]`, read from `d`. */
  function SumCut(p: Sum, d: seq<Var>): Var
    requires SumOk(p, |d|)
  {
    Intersect(d[p.s], SumMin(p.xs, d), SumMax(p.xs, d))
  }

  /**
   * Lines 33-34's cut of term `j` on operands that share no variable: its value within
   * `[s.min - (max_of_terms - x.max), s.max - (min_of_terms - x.min)]` for the cut `s`, with
   * `x.max` read from `d0` and `x.min` from the domains `d` it ends with.
   */
  predicate TermCut(p: Sum, d0: seq<Var>, d: seq<Var>, j: nat, a: seq<int>)
    requires SumOk(p, |d0|) && |d| == |d0| && |a| == |d0| && j < |p.xs|
  {
    var c := SumCut(p, d0);
    c.min - (SumMax(p.xs, d0) - MaxRaw(p.xs[j], d0)) <= Value(p.xs[j], a)
    && Value(p.xs[j], a) <= c.max - (SumMin(p.xs, d0) - MinRaw(p.xs[j], d))
  }

  /** The assignment meets the cut of `s` and the cuts of the first `i` terms. */
  predicate InSumCut(p: Sum, d0: seq<Var>, d: seq<Var>, i: nat, a: seq<int>)
    requires SumOk(p, |d0|) && |d| == |d0| && |a| == |d0| && i <= |p.xs|
  {
    Contains(SumCut(p, d0), a[p.s]) && forall k :: 0 <= k < i ==> TermCut(p, d0, d, k, a)
  }

  /** Of the assignments inside `d0`, those inside `d` are exactly those meeting the first `i` cuts. */
  ghost predicate CutSoFar(p: Sum, d0: seq<Var>, d: seq<Var>, i: nat)
    requires SumOk(p, |d0|) && |d| == |d0| && i <= |p.xs|
  {
    forall a :: InDoms(a, d0) ==> (InDoms(a, d) <==> InSumCut(p, d0, d, i, a))
  }

  /**
   * What `prune` leaves when no two of its operands share a variable: on success `s` is
   * exactly its cut, and of the assignments inside `d0` it keeps exactly those meeting every
   * cut, failing exactly when there is none.
   */
  ghost predicate SumPruned(p: Sum, d0: seq<Var>, d: seq<Var>, ok: bool)
    requires SumOk(p, |d0|) && |d| == |d0|
  {
    (ok ==> d[p.s] == SumCut(p, d0))
    && forall a :: InDoms(a, d0) ==> (ok && InDoms(a, d) <==> InSumCut(p, d0, d, |p.xs|, a))
  }

  /** Once every cut is kept and `s` is its cut, `prune` has succeeded as `SumPruned` states. */
  lemma AllCutsPruned(p: Sum, d0: seq<Var>, d: seq<Var>)
    requires SumOk(p, |d0|) && |d| == |d0| && CutSoFar(p, d0, d, |p.xs|) && d[p.s] == SumCut(p, d0)
    ensures SumPruned(p, d0, d, true)
  {
  }

  /** A failure with no assignment inside `d0` meeting every cut is a failure as `SumPruned` states. */
  lemma NoCutPruned(p: Sum, d0: seq<Var>, d: seq<Var>)
    requires SumOk(p, |d0|) && |d| == |d0|
    requires forall a :: InDoms(a, d0) ==> !InSumCut(p, d0, d, |p.xs|, a)
    ensures SumPruned(p, d0, d, false)
  {
  }

  /** The sum of the values lies between the sums of the reads. */
  lemma {:induction false} TotalBounds(xs: seq<View>, d: seq<Var>, a: seq<int>)
    requires ViewsOk(xs, |d|) && InDoms(a, d)
    ensures SumMin(xs, d) <= Total(xs, a) <= SumMax(xs, d)
    decreases |xs|
  {
    if xs != [] {
      var n := |xs| - 1;
      TotalBounds(xs[..n], d, a);
      ViewBounds(xs[n], d, a);
    }
  }

  /** The sum ignores variables created after its terms. */
  lemma {:induction false} TotalExtend(xs: seq<View>, a: seq<int>, t: int)
    requires ViewsOk(xs, |a|)
    ensures ViewsOk(xs, |a + [t]|) && Total(xs, a + [t]) == Total(xs, a)
    decreases |xs|
  {
    forall i | 0 <= i < |xs| ensures ViewOk(xs[i], |a + [t]|) { ViewOkGrow(xs[i], |a|, |a| + 1); }
    if xs != [] {
      TotalExtend(xs[..|xs| - 1], a, t);
      ValueExtend(xs[|xs| - 1], a, t);
    }
  }

  /** Leaving term `i` out, the other values sum to between the other reads' sums. */
  lemma {:induction false} TotalExcept(xs: seq<View>, d: seq<Var>, a: seq<int>, i: nat)
    requires ViewsOk(xs, |d|) && InDoms(a, d) && i < |xs|
    ensures SumMin(xs, d) - MinRaw(xs[i], d) <= Total(xs, a) - Value(xs[i], a) <= SumMax(xs, d) - MaxRaw(xs[i], d)
    decreases |xs|
  {
    var n := |xs| - 1;
    if i == n {
      TotalBounds(xs[..n], d, a);
    } else {
      assert xs[..n][i] == xs[i];
      TotalExcept(xs[..n], d, a, i);
      ViewBounds(xs[n], d, a);
    }
  }

  /** Every solution of `p` inside the domains `d0` is still inside `d`. */
  ghost predicate SumKept(p: Sum, d0: seq<Var>, d: seq<Var>)
    requires SumOk(p, |d0|)
  {
    forall a :: InDoms(a, d0) && SumHolds(p, a) ==> InDoms(a, d)
  }

  /** Lines 25-26 as a value: `s` raised to `minOfTerms`, then lowered to `maxOfTerms`. */
  function TotalStep(p: Sum, d: seq<Var>, minOfTerms: int, maxOfTerms: int): (r: Option<seq<Var>>)
    requires SumOk(p, |d|)
    ensures r.Some? ==> |r.value| == |d|
  {
    match TrySetMinDoms(Id(p.s), d, minOfTerms)
    case None => None
    case Some(d1) => TrySetMaxDoms(Id(p.s), d1, maxOfTerms)
  }

  /** Lines 33-34 as a value for one term `x`, its bounds read as they stand at each call. */
  function TermStep(x: View, d: seq<Var>, min: int, max: int, minOfTerms: int, maxOfTerms: int): (r: Option<seq<Var>>)
    requires ViewOk(x, |d|)
    ensures r.Some? ==> |r.value| == |d|
  {
    match TrySetMinDoms(x, d, min - (maxOfTerms - MaxRaw(x, d)))
    case None => None
    case Some(d1) => TrySetMaxDoms(x, d1, max - (minOfTerms - MinRaw(x, d1)))
  }

  /** `TermStep` fails when the raised minimum exceeds the term's maximum. */
  lemma TermStepLow(x: View, d: seq<Var>, min: int, max: int, minOfTerms: int, maxOfTerms: int)
    requires ViewOk(x, |d|) && min - (maxOfTerms - MaxRaw(x, d)) > MaxRaw(x, d)
    ensures TermStep(x, d, min, max, minOfTerms, maxOfTerms) == None
  {
  }

  /** `TermStep` fails when the lowered maximum falls below the raised domains' minimum. */
  lemma TermStepHighFails(x: View, d: seq<Var>, d1: seq<Var>, min: int, max: int, minOfTerms: int, maxOfTerms: int)
    requires ViewOk(x, |d|) && min - (maxOfTerms - MaxRaw(x, d)) <= MaxRaw(x, d)
    requires d1 == SetMinDoms(x, d, min - (maxOfTerms - MaxRaw(x, d)))
    requires max - (minOfTerms - MinRaw(x, d1)) < MinRaw(x, d1)
    ensures TermStep(x, d, min, max, minOfTerms, maxOfTerms) == None
  {
  }

  /** Otherwise `TermStep` gives the raised domains `d1` with the maximum lowered. */
  lemma TermStepSucceeds(x: View, d: seq<Var>, d1: seq<Var>, d2: seq<Var>,
                         min: int, max: int, minOfTerms: int, maxOfTerms: int)
    requires ViewOk(x, |d|) && min - (maxOfTerms - MaxRaw(x, d)) <= MaxRaw(x, d)
    requires d1 == SetMinDoms(x, d, min - (maxOfTerms - MaxRaw(x, d)))
    requires max - (minOfTerms - MinRaw(x, d1)) >= MinRaw(x, d1)
    requires d2 == SetMaxDoms(x, d1, max - (minOfTerms - MinRaw(x, d1)))
    ensures TermStep(x, d, min, max, minOfTerms, maxOfTerms) == Some(d2)
  {
  }

  /** The loop of lines 32-35 as a value, from term `k` on, the first `None` stopping it. */
  function TermsSteps(xs: seq<View>, k: nat, d: seq<Var>, min: int, max: int, minOfTerms: int, maxOfTerms: int)
    : (r: Option<seq<Var>>)
    requires ViewsOk(xs, |d|) && k <= |xs|
    ensures r.Some? ==> |r.value| == |d|
    decreases |xs| - k
  {
    if k == |xs| then Some(d)
    else
      match TermStep(xs[k], d, min, max, minOfTerms, maxOfTerms)
      case None => None
      case Some(d1) => TermsSteps(xs, k + 1, d1, min, max, minOfTerms, maxOfTerms)
  }

  /** `prune` as a value: both sums read once, `s` cut, then every term in turn. */
  function PruneSumSpec(p: Sum, d: seq<Var>): Option<seq<Var>>
    requires SumOk(p, |d|)
  {
    var minOfTerms := SumMin(p.xs, d);
    var maxOfTerms := SumMax(p.xs, d);
    match TotalStep(p, d, minOfTerms, maxOfTerms)
    case None => None
    case Some(d1) => TermsSteps(p.xs, 0, d1, d1[p.s].min, d1[p.s].max, minOfTerms, maxOfTerms)
  }


  /** One more term of the loop: a failure stops it, a success goes on from the new domains. */
  lemma TermsStepsNext(xs: seq<View>, k: nat, d: seq<Var>, min: int, max: int, minOfTerms: int, maxOfTerms: int)
    requires ViewsOk(xs, |d|) && k < |xs|
    ensures TermStep(xs[k], d, min, max, minOfTerms, maxOfTerms).None? ==>
              TermsSteps(xs, k, d, min, max, minOfTerms, maxOfTerms) == None
    ensures TermStep(xs[k], d, min, max, minOfTerms, maxOfTerms).Some? ==>
              TermsSteps(xs, k, d, min, max, minOfTerms, maxOfTerms)
              == TermsSteps(xs, k + 1, TermStep(xs[k], d, min, max, minOfTerms, maxOfTerms).value,
                            min, max, minOfTerms, maxOfTerms)
  {
  }

  /** `prune` as a value, by the outcome of its cut of `s`. */
  lemma PruneSumSpecCases(p: Sum, d: seq<Var>)
    requires SumOk(p, |d|)
    ensures TotalStep(p, d, SumMin(p.xs, d), SumMax(p.xs, d)).None? ==> PruneSumSpec(p, d) == None
    ensures var t := TotalStep(p, d, SumMin(p.xs, d), SumMax(p.xs, d));
            t.Some? ==> PruneSumSpec(p, d)
                        == TermsSteps(p.xs, 0, t.value, t.value[p.s].min, t.value[p.s].max, SumMin(p.xs, d), SumMax(p.xs, d))
  {
  }

  /** Lines 25-26 of `prune`: `s` is cut to the precomputed `[min_of_terms, max_of_terms]`. */
  method TightenTotal(p: Sum, ctx: Context, minOfTerms: int, maxOfTerms: int) returns (ok: bool)
    requires SumOk(p, |ctx.vars.doms|)
    requires minOfTerms == SumMin(p.xs, ctx.vars.doms) && maxOfTerms == SumMax(p.xs, ctx.vars.doms)
    modifies ctx, ctx.vars
    ensures Narrows(old(ctx.vars.doms), old(ctx.events), ctx.vars.doms, ctx.events)
    ensures forall u :: 0 <= u < |ctx.vars.doms| && u != p.s ==> ctx.vars.doms[u] == old(ctx.vars.doms)[u]
    ensures forall a :: InDoms(a, old(ctx.vars.doms)) && SumHolds(p, a) ==> ok && InDoms(a, ctx.vars.doms)
    ensures ok ==> ctx.vars.doms[p.s] == Intersect(old(ctx.vars.doms)[p.s], minOfTerms, maxOfTerms)
    ensures (if ok then Some(ctx.vars.doms) else None) == TotalStep(p, old(ctx.vars.doms), minOfTerms, maxOfTerms)
    ensures forall a :: InDoms(a, old(ctx.vars.doms)) ==>
              (ok && InDoms(a, ctx.vars.doms) <==> Contains(SumCut(p, old(ctx.vars.doms)), a[p.s]))
  {
    ghost var d0, e0 := ctx.vars.doms, ctx.events;
    var r := ctx.ViewTrySetMin(Id(p.s), minOfTerms);
    if r.None? {
      forall a | InDoms(a, d0) && SumHolds(p, a) ensures false { TotalBounds(p.xs, d0, a); }
      assert IsEmpty(SumCut(p, d0));
      return false;
    }
    forall a | InDoms(a, d0) && SumHolds(p, a) ensures InDoms(a, ctx.vars.doms) { TotalBounds(p.xs, d0, a); }
    ghost var d1, e1 := ctx.vars.doms, ctx.events;
    r := ctx.ViewTrySetMax(Id(p.s), maxOfTerms);
    NarrowsTrans(d0, e0, d1, e1, ctx.vars.doms, ctx.events);
    if r.None? {
      forall a | InDoms(a, d0) && SumHolds(p, a) ensures false { TotalBounds(p.xs, d0, a); }
      assert IsEmpty(SumCut(p, d0));
      return false;
    }
    forall a | InDoms(a, d0) && SumHolds(p, a) ensures InDoms(a, ctx.vars.doms) { TotalBounds(p.xs, d0, a); }
    forall a | InDoms(a, d0)
      ensures InDoms(a, ctx.vars.doms) <==> Contains(SumCut(p, d0), a[p.s])
    {
      InDomsOne(a, d0, ctx.vars.doms, p.s);
    }
    ok := true;
  }

  /**
   * Lines 33-34 of `prune`, for one term `x`: raised to `min - (maxOfTerms - x.max)`, then
   * lowered to `max - (minOfTerms - x.min)`, each read as it stands at that moment. Of the
   * assignments inside the old domains, exactly those meeting both bounds are kept, and
   * the call succeeds when any is.
   */
  method TightenTerm(x: View, ctx: Context, min: int, max: int, minOfTerms: int, maxOfTerms: int) returns (ok: bool)
    requires ViewOk(x, |ctx.vars.doms|)
    modifies ctx, ctx.vars
    ensures Narrows(old(ctx.vars.doms), old(ctx.events), ctx.vars.doms, ctx.events)
    ensures forall u :: 0 <= u < |ctx.vars.doms| && Underlying(x) != Some(u) ==> ctx.vars.doms[u] == old(ctx.vars.doms)[u]
    ensures forall a :: InDoms(a, old(ctx.vars.doms)) ==>
              (ok && InDoms(a, ctx.vars.doms) <==>
                 min - (maxOfTerms - MaxRaw(x, old(ctx.vars.doms))) <= Value(x, a)
                 && Value(x, a) <= max - (minOfTerms - MinRaw(x, ctx.vars.doms)))
    ensures (if ok then Some(ctx.vars.doms) else None) == TermStep(x, old(ctx.vars.doms), min, max, minOfTerms, maxOfTerms)
    ensures ok ==> min - (maxOfTerms - MaxRaw(x, old(ctx.vars.doms))) <= MinRaw(x, ctx.vars.doms)
                   && MaxRaw(x, ctx.vars.doms) <= max - (minOfTerms - MinRaw(x, ctx.vars.doms))
  {
    ghost var d0, e0 := ctx.vars.doms, ctx.events;
    var lo := min - (maxOfTerms - MaxRaw(x, ctx.vars.doms));
    var r := ctx.ViewTrySetMin(x, lo);
    if r.None? {
      forall a | InDoms(a, d0) ensures Value(x, a) < lo { ViewBounds(x, d0, a); }
      TermStepLow(x, d0, min, max, minOfTerms, maxOfTerms);
      return false;
    }
    ghost var d1, e1 := ctx.vars.doms, ctx.events;
    var hi := max - (minOfTerms - MinRaw(x, ctx.vars.doms));
    r := ctx.ViewTrySetMax(x, hi);
    NarrowsTrans(d0, e0, d1, e1, ctx.vars.doms, ctx.events);
    if r.None? {
      forall a | InDoms(a, d0) && lo <= Value(x, a) ensures hi < Value(x, a) { ViewBounds(x, d1, a); }
      TermStepHighFails(x, d0, d1, min, max, minOfTerms, maxOfTerms);
      return false;
    }
    TermStepSucceeds(x, d0, d1, ctx.vars.doms, min, max, minOfTerms, maxOfTerms);
    assert lo <= MinRaw(x, d1) == MinRaw(x, ctx.vars.doms) && MaxRaw(x, ctx.vars.doms) <= hi;
    ok := true;
  }

  /** After the first `i` terms were narrowed from `d1` to `d`, only their variables changed. */
  predicate TermsFramed(p: Sum, d1: seq<Var>, d: seq<Var>, i: nat)
    requires |d| == |d1| && i <= |p.xs|
  {
    forall u :: 0 <= u < |d1| && (forall j :: 0 <= j < i ==> Underlying(p.xs[j]) != Some(u)) ==> d[u] == d1[u]
  }

  /**
   * When no two operands share a variable, each of the first `i` terms respects the bounds
   * of lines 33-34 in `d`.
   */
  predicate TermsBounded(p: Sum, d0: seq<Var>, d: seq<Var>, i: nat,
                         min: int, max: int, minOfTerms: int, maxOfTerms: int)
    requires SumOk(p, |d0|) && |d| == |d0| && i <= |p.xs|
  {
    SumApart(p) ==> forall j :: 0 <= j < i ==>
      min - (maxOfTerms - MaxRaw(p.xs[j], d0)) <= MinRaw(p.xs[j], d)
      && MaxRaw(p.xs[j], d) <= max - (minOfTerms - MinRaw(p.xs[j], d))
  }

  /** Outside the trigger variables, nothing changed since `d0`. */
  lemma FramedOutside(p: Sum, d0: seq<Var>, d1: seq<Var>, d: seq<Var>, i: nat)
    requires |d1| == |d0| && |d| == |d0| && i <= |p.xs| && TermsFramed(p, d1, d, i)
    requires forall u :: 0 <= u < |d0| && u != p.s ==> d1[u] == d0[u]
    ensures forall u :: 0 <= u < |d| && u !in SumTriggers(p) ==> d[u] == d0[u]
  {
  }

  /**
   * A solution inside `d0` and `d` meets the bounds line 33-34 set on term `i`, whatever
   * narrowing `d` and `dn` made of `d0`.
   */
  lemma TermKeeps(p: Sum, i: nat, d0: seq<Var>, d: seq<Var>, dn: seq<Var>, a: seq<int>,
                  min: int, max: int, minOfTerms: int, maxOfTerms: int)
    requires SumOk(p, |d0|) && i < |p.xs| && Narrower(d, d0) && Narrower(dn, d0)
    requires minOfTerms == SumMin(p.xs, d0) && maxOfTerms == SumMax(p.xs, d0)
    requires InDoms(a, d0) && SumHolds(p, a) && min <= a[p.s] <= max
    ensures min - (maxOfTerms - MaxRaw(p.xs[i], d)) <= Value(p.xs[i], a)
    ensures Value(p.xs[i], a) <= max - (minOfTerms - MinRaw(p.xs[i], dn))
  {
    TotalExcept(p.xs, d0, a, i);
    ViewNarrower(p.xs[i], d, d0);
    ViewNarrower(p.xs[i], dn, d0);
  }

  /**
   * Narrowing term `i` from `d` to `dn`, changing only its own variable, extends the frame
   * and, on operands that share no variable, the bounds already met by the terms before it.
   */
  lemma TermBoundedStep(p: Sum, i: nat, d0: seq<Var>, d1: seq<Var>, d: seq<Var>, dn: seq<Var>,
                        min: int, max: int, minOfTerms: int, maxOfTerms: int)
    requires SumOk(p, |d0|) && |d1| == |d0| && |d| == |d0| && |dn| == |d0| && i < |p.xs|
    requires forall u :: 0 <= u < |d0| && u != p.s ==> d1[u] == d0[u]
    requires TermsFramed(p, d1, d, i)
    requires TermsBounded(p, d0, d, i, min, max, minOfTerms, maxOfTerms)
    requires forall u :: 0 <= u < |dn| && Underlying(p.xs[i]) != Some(u) ==> dn[u] == d[u]
    requires min - (maxOfTerms - MaxRaw(p.xs[i], d)) <= MinRaw(p.xs[i], dn)
    requires MaxRaw(p.xs[i], dn) <= max - (minOfTerms - MinRaw(p.xs[i], dn))
    ensures TermsBounded(p, d0, dn, i + 1, min, max, minOfTerms, maxOfTerms)
  {
    if SumApart(p) {
      ViewReads(p.xs[i], d0, d);
      forall j | 0 <= j < i
        ensures MinRaw(p.xs[j], dn) == MinRaw(p.xs[j], d)
        ensures MaxRaw(p.xs[j], dn) == MaxRaw(p.xs[j], d)
      {
        ViewReads(p.xs[j], d, dn);
      }
    }
  }

  /**
   * On operands that share no variable, narrowing term `i` from `d` to `dn` as lines 33-34
   * do either adds that term's cut to the cuts already kept, or fails with no assignment
   * inside `d0` meeting them all.
   */
  lemma CutStep(p: Sum, i: nat, d0: seq<Var>, d: seq<Var>, dn: seq<Var>, ok: bool)
    requires SumOk(p, |d0|) && |d| == |d0| && i < |p.xs| && SumApart(p)
    requires CutSoFar(p, d0, d, i) && Narrower(dn, d)
    requires forall u :: 0 <= u < |dn| && Underlying(p.xs[i]) != Some(u) ==> dn[u] == d[u]
    requires MaxRaw(p.xs[i], d) == MaxRaw(p.xs[i], d0)
    requires forall a :: InDoms(a, d) ==>
               (ok && InDoms(a, dn) <==>
                  SumCut(p, d0).min - (SumMax(p.xs, d0) - MaxRaw(p.xs[i], d)) <= Value(p.xs[i], a)
                  && Value(p.xs[i], a) <= SumCut(p, d0).max - (SumMin(p.xs, d0) - MinRaw(p.xs[i], dn)))
    ensures ok ==> CutSoFar(p, d0, dn, i + 1)
    ensures !ok ==> forall a :: InDoms(a, d0) ==> !InSumCut(p, d0, dn, |p.xs|, a)
  {
    forall k | 0 <= k < |p.xs| && k != i
      ensures MinRaw(p.xs[k], dn) == MinRaw(p.xs[k], d)
    {
      ViewReads(p.xs[k], d, dn);
    }
    forall a | InDoms(a, d0) && InSumCut(p, d0, dn, i + 1, a)
      ensures InDoms(a, d) && TermCut(p, d0, dn, i, a)
    {
      forall k | 0 <= k < i ensures TermCut(p, d0, d, k, a) {
        assert TermCut(p, d0, dn, k, a);
      }
      assert InSumCut(p, d0, d, i, a);
    }
    if ok {
      forall a | InDoms(a, d0)
        ensures InDoms(a, dn) <==> InSumCut(p, d0, dn, i + 1, a)
      {
        if InDoms(a, dn) {
          InDomsWiden(a, dn, d);
          assert InSumCut(p, d0, d, i, a);
          forall k | 0 <= k < i + 1 ensures TermCut(p, d0, dn, k, a) {
            if k < i {
              assert TermCut(p, d0, d, k, a);
            }
          }
        }
      }
    } else {
      forall a | InDoms(a, d0) ensures !InSumCut(p, d0, dn, |p.xs|, a) {
        if InSumCut(p, d0, dn, |p.xs|, a) {
          assert InSumCut(p, d0, dn, i + 1, a);
          assert false;
        }
      }
    }
  }

  /** One pass of the loop of `prune`: term `i` is narrowed, and no solution is lost. */
  method NarrowTerm(p: Sum, i: nat, ctx: Context, min: int, max: int, minOfTerms: int, maxOfTerms: int,
                    ghost d0: seq<Var>, ghost e0: seq<VarId>, ghost d1: seq<Var>) returns (ok: bool)
    requires SumOk(p, |d0|) && |d1| == |d0| && i < |p.xs|
    requires minOfTerms == SumMin(p.xs, d0) && maxOfTerms == SumMax(p.xs, d0)
    requires forall u :: 0 <= u < |d0| && u != p.s ==> d1[u] == d0[u]
    requires forall a :: InDoms(a, d0) && SumHolds(p, a) ==> min <= a[p.s] <= max
    requires Narrows(d0, e0, ctx.vars.doms, ctx.events) && SumKept(p, d0, ctx.vars.doms)
    requires TermsFramed(p, d1, ctx.vars.doms, i)
    requires TermsBounded(p, d0, ctx.vars.doms, i, min, max, minOfTerms, maxOfTerms)
    requires min == SumCut(p, d0).min && max == SumCut(p, d0).max
    requires SumApart(p) ==> CutSoFar(p, d0, ctx.vars.doms, i)
    modifies ctx, ctx.vars
    ensures Narrows(d0, e0, ctx.vars.doms, ctx.events)
    ensures ok ==> TermsSteps(p.xs, i, old(ctx.vars.doms), min, max, minOfTerms, maxOfTerms)
                   == TermsSteps(p.xs, i + 1, ctx.vars.doms, min, max, minOfTerms, maxOfTerms)
    ensures !ok ==> TermsSteps(p.xs, i, old(ctx.vars.doms), min, max, minOfTerms, maxOfTerms) == None
    ensures forall a :: InDoms(a, d0) && SumHolds(p, a) ==> ok && InDoms(a, ctx.vars.doms)
    ensures TermsFramed(p, d1, ctx.vars.doms, i + 1)
    ensures ok ==> TermsBounded(p, d0, ctx.vars.doms, i + 1, min, max, minOfTerms, maxOfTerms)
    ensures SumApart(p) && ok ==> CutSoFar(p, d0, ctx.vars.doms, i + 1)
    ensures SumApart(p) && !ok ==> forall a :: InDoms(a, d0) ==> !InSumCut(p, d0, ctx.vars.doms, |p.xs|, a)
  {
    ghost var d, e := ctx.vars.doms, ctx.events;
    TermsStepsNext(p.xs, i, d, min, max, minOfTerms, maxOfTerms);
    var x := p.xs[i];
    ok := TightenTerm(x, ctx, min, max, minOfTerms, maxOfTerms);
    NarrowsTrans(d0, e0, d, e, ctx.vars.doms, ctx.events);
    forall a | InDoms(a, d0) && SumHolds(p, a) ensures ok && InDoms(a, ctx.vars.doms) {
      TermKeeps(p, i, d0, d, ctx.vars.doms, a, min, max, minOfTerms, maxOfTerms);
    }
    if ok {
      TermBoundedStep(p, i, d0, d1, d, ctx.vars.doms, min, max, minOfTerms, maxOfTerms);
    }
    if SumApart(p) {
      ViewReads(x, d0, d);
      CutStep(p, i, d0, d, ctx.vars.doms, ok);
    }
  }

  /**
   * The loop of lines 32-35: every term in turn narrowed from the domains `s` was cut to,
   * the first failure stopping it. The solutions inside `d0` survive; on operands that
   * share no variable, the domains kept are exactly those meeting every cut, and a failure
   * leaves none.
   */
  method NarrowTerms(p: Sum, ctx: Context, min: int, max: int, minOfTerms: int, maxOfTerms: int,
                     ghost d0: seq<Var>, ghost e0: seq<VarId>) returns (ok: bool)
    requires SumOk(p, |d0|) && |ctx.vars.doms| == |d0|
    requires minOfTerms == SumMin(p.xs, d0) && maxOfTerms == SumMax(p.xs, d0)
    requires forall u :: 0 <= u < |d0| && u != p.s ==> ctx.vars.doms[u] == d0[u]
    requires min == SumCut(p, d0).min && max == SumCut(p, d0).max
    requires forall a :: InDoms(a, d0) && SumHolds(p, a) ==> min <= a[p.s] <= max
    requires Narrows(d0, e0, ctx.vars.doms, ctx.events) && SumKept(p, d0, ctx.vars.doms)
    requires SumApart(p) ==> CutSoFar(p, d0, ctx.vars.doms, 0)
    modifies ctx, ctx.vars
    ensures (if ok then Some(ctx.vars.doms) else None)
            == TermsSteps(p.xs, 0, old(ctx.vars.doms), min, max, minOfTerms, maxOfTerms)
    ensures Narrows(d0, e0, ctx.vars.doms, ctx.events)
    ensures forall u :: 0 <= u < |ctx.vars.doms| && u !in SumTriggers(p) ==> ctx.vars.doms[u] == d0[u]
    ensures forall a :: InDoms(a, d0) && SumHolds(p, a) ==> ok && InDoms(a, ctx.vars.doms)
    ensures ok ==> TermsBounded(p, d0, ctx.vars.doms, |p.xs|, min, max, minOfTerms, maxOfTerms)
    ensures ok && SumApart(p) ==> ctx.vars.doms[p.s] == old(ctx.vars.doms)[p.s] && CutSoFar(p, d0, ctx.vars.doms, |p.xs|)
    ensures !ok && SumApart(p) ==> forall a :: InDoms(a, d0) ==> !InSumCut(p, d0, ctx.vars.doms, |p.xs|, a)
  {
    ghost var d1 := ctx.vars.doms;
    ghost var spec := TermsSteps(p.xs, 0, d1, min, max, minOfTerms, maxOfTerms);
    var i := 0;
    while i < |p.xs|
      invariant i <= |p.xs| && |ctx.vars.doms| == |d0|
      invariant Narrows(d0, e0, ctx.vars.doms, ctx.events) && SumKept(p, d0, ctx.vars.doms)
      invariant TermsFramed(p, d1, ctx.vars.doms, i)
      invariant TermsBounded(p, d0, ctx.vars.doms, i, min, max, minOfTerms, maxOfTerms)
      invariant TermsSteps(p.xs, i, ctx.vars.doms, min, max, minOfTerms, maxOfTerms) == spec
      invariant SumApart(p) ==> CutSoFar(p, d0, ctx.vars.doms, i)
    {
      ok := NarrowTerm(p, i, ctx, min, max, minOfTerms, maxOfTerms, d0, e0, d1);
      if !ok {
        FramedOutside(p, d0, d1, ctx.vars.doms, i + 1);
        return;
      }
      i := i + 1;
    }
    FramedOutside(p, d0, d1, ctx.vars.doms, i);
    ok := true;
  }

  /**
   * `Sum::prune`: with both sums computed once up front, `s` is cut to them, then every term
   * is narrowed in turn, and the first failure stops it. It only narrows and logs honestly,
   * touches only its trigger variables, never loses a solution of `sum(xs) == s` (so it fails
   * only when there is none), and, on operands that share no variable, keeps exactly the
   * assignments meeting every cut (`SumPruned`) with the bounds `SumBounded` states.
   */
  method PruneSum(p: Sum, ctx: Context) returns (ok: bool)
    requires SumOk(p, |ctx.vars.doms|)
    modifies ctx, ctx.vars
    ensures Narrows(old(ctx.vars.doms), old(ctx.events), ctx.vars.doms, ctx.events)
    ensures forall u :: 0 <= u < |ctx.vars.doms| && u !in SumTriggers(p) ==> ctx.vars.doms[u] == old(ctx.vars.doms)[u]
    ensures forall a :: InDoms(a, old(ctx.vars.doms)) && SumHolds(p, a) ==> ok && InDoms(a, ctx.vars.doms)
    ensures (if ok then Some(ctx.vars.doms) else None) == PruneSumSpec(p, old(ctx.vars.doms))
    ensures ok && SumApart(p) ==> SumBounded(p, old(ctx.vars.doms), ctx.vars.doms)
    ensures SumApart(p) ==> SumPruned(p, old(ctx.vars.doms), ctx.vars.doms, ok)
  {
    ghost var d0, e0 := ctx.vars.doms, ctx.events;
    var minOfTerms := SumMin(p.xs, ctx.vars.doms);
    var maxOfTerms := SumMax(p.xs, ctx.vars.doms);
    ok := TightenTotal(p, ctx, minOfTerms, maxOfTerms);
    PruneSumSpecCases(p, d0);
    if !ok {
      NoCutPruned(p, d0, ctx.vars.doms);
      return;
    }
    var min := ctx.vars.doms[p.s].min;
    var max := ctx.vars.doms[p.s].max;
    ghost var d1 := ctx.vars.doms;
    assert CutSoFar(p, d0, d1, 0);
    ok := NarrowTerms(p, ctx, min, max, minOfTerms, maxOfTerms, d0, e0);
    if SumApart(p) {
      if ok {
        AllCutsPruned(p, d0, ctx.vars.doms);
      } else {
        NoCutPruned(p, d0, ctx.vars.doms);
      }
    }
  }
}
