/**
 * The older engine's built-in propagators (src/props.rs). Each takes the domains by value
 * and returns them narrowed, or `Failed` at the first narrowing that empties a domain.
 */
module LegacyProps {
  import opened Wrappers
  import opened Ints
  import opened Domains
  import opened LegacyVars

  /** Propagator handle: its kind and its index among the propagators of that kind. */
  datatype PropId =
    | ScalePos(i: nat)
    | ScaleNeg(i: nat)
    | Plus(i: nat)
    | Sum(i: nat)
    | Eq(i: nat)
    | Leq(i: nat)
    | Custom(i: nat)

  /**
   * A user-declared propagator (a boxed `Propagate`): `run` is its `propagate`, and `holds`
   * is the constraint it enforces on full assignments.
   */
  datatype CustomProp = CustomProp(run: Vars -> Result<Vars>, holds: seq<int> -> bool)

  /**
   * `Props`: the propagators grouped by kind. The built-in kinds carry no state, so only their
   * number matters; their variables live in the search's dependency table.
   */
  datatype Props = Props(scalePos: nat, scaleNeg: nat, plus: nat, sum: nat, eq: nat, leq: nat,
                         custom: seq<CustomProp>)

  /** What the engine relies on from a custom propagator: it only narrows, and never removes a solution. */
  ghost predicate CustomOk(c: CustomProp) {
    (forall vs: Vars {:trigger c.run(vs)} :: c.run(vs).Ok? ==>
       Narrows(vs.doms, vs.events, c.run(vs).value.doms, c.run(vs).value.events))
    && (forall vs: Vars, a: seq<int> {:trigger c.run(vs), c.holds(a)} :: InDoms(a, vs.doms) && c.holds(a) ==>
          c.run(vs).Ok? && InDoms(a, c.run(vs).value.doms))
  }

  /** `y == coef * x`, the constraint of `PropScalePos` and `PropScaleNeg` on `(x, y, coef)`. */
  predicate ScaleHolds(deps: (VarId, VarId, int), a: seq<int>) {
    deps.0 < |a| && deps.1 < |a| && a[deps.1] == deps.2 * a[deps.0]
  }

  /** `p == x + y`, the constraint of `PropPlus` on `(p, (x, y))`. */
  predicate PlusHolds(deps: (VarId, (VarId, VarId)), a: seq<int>) {
    deps.0 < |a| && deps.1.0 < |a| && deps.1.1 < |a| && a[deps.0] == a[deps.1.0] + a[deps.1.1]
  }

  /** `s == Σ xs`, the constraint of `PropSum` on `(s, xs)`. */
  predicate SumHolds(deps: (VarId, seq<VarId>), a: seq<int>) {
    deps.0 < |a| && IdsIn(deps.1, |a|) && a[deps.0] == SumOf(a, deps.1)
  }

  /** `x == y`, the constraint of `PropEq`. */
  predicate EqHolds(deps: (VarId, VarId), a: seq<int>) {
    deps.0 < |a| && deps.1 < |a| && a[deps.0] == a[deps.1]
  }

  /** `x <= y`, the constraint of `PropLeq`. */
  predicate LeqHolds(deps: (VarId, VarId), a: seq<int>) {
    deps.0 < |a| && deps.1 < |a| && a[deps.0] <= a[deps.1]
  }

  predicate IdsIn(xs: seq<VarId>, n: nat) {
    forall i :: 0 <= i < |xs| ==> xs[i] < n
  }

  /** Every domain is nonempty, as every domain of a space being searched is. */
  predicate AllNonEmpty(doms: seq<Var>) {
    forall v :: 0 <= v < |doms| ==> !IsEmpty(doms[v])
  }

  // ----- PropScalePos -----

  /** Where `x` must lie for `y == coef * x` with `coef > 0`: `[ceil(y.min / coef), floor(y.max / coef)]` inside `x`. */
  function ScalePosX(dx: Var, dy: Var, coef: int): (nx: Var)
    requires coef > 0
    ensures forall v :: Contains(nx, v) <==> Contains(dx, v) && dy.min <= v * coef <= dy.max
  {
    forall v ensures dy.min <= v * coef <==> v >= DivCeil(dy.min, coef) {
      CeilThreshold(v, dy.min, coef);
    }
    forall v ensures v * coef <= dy.max <==> v <= DivFloor(dy.max, coef) {
      FloorThreshold(v, dy.max, coef);
    }
    Intersect(dx, DivCeil(dy.min, coef), DivFloor(dy.max, coef))
  }

  /**
   * `PropScalePos::propagate` on `(x, y, coef)` with `coef > 0`, for `y == coef * x`: narrows
   * `x` to the values whose image can lie in `y`, then `y` to the image of the new `x`. It
   * keeps every solution, and for distinct nonempty `x` and `y` it fails exactly when one of
   * the two new domains is empty.
   */
  method PropScalePos(deps: (VarId, VarId, int), vars: Vars) returns (r: Result<Vars>)
    requires deps.0 < |vars.doms| && deps.1 < |vars.doms| && deps.2 > 0
    ensures r.Ok? ==> Narrows(vars.doms, vars.events, r.value.doms, r.value.events)
    ensures r.Ok? ==> forall u :: 0 <= u < |vars.doms| && u != deps.0 && u != deps.1 ==>
                        r.value.doms[u] == vars.doms[u]
    ensures forall a :: InDoms(a, vars.doms) && ScaleHolds(deps, a) ==> r.Ok? && InDoms(a, r.value.doms)
    ensures deps.0 != deps.1 && !IsEmpty(vars.doms[deps.0]) && !IsEmpty(vars.doms[deps.1]) ==>
              var nx := ScalePosX(vars.doms[deps.0], vars.doms[deps.1], deps.2);
              var ny := Intersect(vars.doms[deps.1], nx.min * deps.2, nx.max * deps.2);
              (r.Failed? <==> IsEmpty(nx) || IsEmpty(ny))
              && (r.Ok? ==> r.value.doms[deps.0] == nx && r.value.doms[deps.1] == ny)
    ensures r.Ok? && (IsSet(vars.doms[deps.0]) || IsSet(vars.doms[deps.1])) ==>
              forall a :: InDoms(a, r.value.doms) ==> ScaleHolds(deps, a)
  {
    var x, y, coef := deps.0, deps.1, deps.2;
    var varX, varY := vars.doms[x], vars.doms[y];
    var min := Max(varX.min, TruncDiv(NextMultipleOf(varY.min, coef), coef));
    var max := Min(varX.max, TruncDiv(varY.max - RemEuclid(varY.max, coef), coef));
    CeilViaNextMultiple(varY.min, coef);
    FloorViaRemEuclid(varY.max, coef);
    assert ScalePosX(varX, varY, coef) == Var(min, max);
    r := SetPair(vars, x, min, max, y, min * coef, max * coef);
    ScalePosKept(deps, vars.doms, r);
    if r.Ok? && (IsSet(varX) || IsSet(varY)) {
      ScalePosEntailed(deps, vars.doms, r.value.doms);
    }
  }

  /** Every solution of `y == coef * x` inside the domains survives the bounds `PropScalePos` narrows to. */
  lemma ScalePosKept(deps: (VarId, VarId, int), doms: seq<Var>, r: Result<Vars>)
    requires deps.0 < |doms| && deps.1 < |doms| && deps.2 > 0
    requires var nx := ScalePosX(doms[deps.0], doms[deps.1], deps.2);
             forall a :: InDoms(a, doms) && nx.min <= a[deps.0] <= nx.max
                         && nx.min * deps.2 <= a[deps.1] <= nx.max * deps.2 ==>
                           r.Ok? && InDoms(a, r.value.doms)
    ensures forall a :: InDoms(a, doms) && ScaleHolds(deps, a) ==> r.Ok? && InDoms(a, r.value.doms)
  {
    var x, y, coef := deps.0, deps.1, deps.2;
    var varX, varY := doms[x], doms[y];
    var nx := ScalePosX(varX, varY, coef);
    var min, max := nx.min, nx.max;
    forall a | InDoms(a, doms) && ScaleHolds(deps, a)
      ensures min <= a[x] <= max && min * coef <= a[y] <= max * coef
    {
      assert Contains(varX, a[x]) && Contains(varY, a[y]);
      CeilThreshold(a[x], varY.min, coef);
      FloorThreshold(a[x], varY.max, coef);
      MulMonotone(min, a[x], coef);
      MulMonotone(a[x], max, coef);
    }
  }

  /** Once `x` or `y` is set, every assignment inside the narrowed domains satisfies `y == coef * x`. */
  lemma ScalePosEntailed(deps: (VarId, VarId, int), doms: seq<Var>, doms': seq<Var>)
    requires deps.0 < |doms| && deps.1 < |doms| && deps.2 > 0
    requires (IsSet(doms[deps.0]) || IsSet(doms[deps.1])) && Narrower(doms', doms)
    requires var nx := ScalePosX(doms[deps.0], doms[deps.1], deps.2);
             (forall v :: Contains(doms'[deps.0], v) ==> nx.min <= v <= nx.max)
             && (forall v :: Contains(doms'[deps.1], v) ==> nx.min * deps.2 <= v <= nx.max * deps.2)
    ensures forall a :: InDoms(a, doms') ==> ScaleHolds(deps, a)
  {
    var x, y, coef := deps.0, deps.1, deps.2;
    var varX, varY := doms[x], doms[y];
    forall a | InDoms(a, doms')
      ensures ScaleHolds(deps, a)
    {
      InDomsWiden(a, doms', doms);
      assert Contains(doms'[x], a[x]) && Contains(doms'[y], a[y]);
      assert Contains(varX, a[x]) && Contains(varY, a[y]);
      if !IsSet(varX) {
        CeilThreshold(a[x], varY.min, coef);
        FloorThreshold(a[x], varY.max, coef);
      }
    }
  }

  // ----- PropScaleNeg -----

  /** Where `x` must lie for `y == coef * x` with `coef < 0`: `[ceil(y.max / coef), floor(y.min / coef)]` inside `x`. */
  function ScaleNegX(dx: Var, dy: Var, coef: int): (nx: Var)
    requires coef < 0
    ensures forall v :: Contains(nx, v) <==> Contains(dx, v) && dy.min <= v * coef <= dy.max
  {
    forall v ensures v * coef <= dy.max <==> v >= DivCeil(dy.max, coef) {
      CeilThresholdNeg(v, dy.max, coef);
    }
    forall v ensures dy.min <= v * coef <==> v <= DivFloor(dy.min, coef) {
      FloorThresholdNeg(v, dy.min, coef);
    }
    Intersect(dx, DivCeil(dy.max, coef), DivFloor(dy.min, coef))
  }

  /**
   * `PropScaleNeg::propagate` on `(x, y, coef)` with `coef < 0`, for `y == coef * x`: narrows
   * `x` to the values whose image can lie in `y`, then `y` to `[x.max * coef, x.min * coef]`.
   */
  method PropScaleNeg(deps: (VarId, VarId, int), vars: Vars) returns (r: Result<Vars>)
    requires deps.0 < |vars.doms| && deps.1 < |vars.doms| && deps.2 < 0
    ensures r.Ok? ==> Narrows(vars.doms, vars.events, r.value.doms, r.value.events)
    ensures r.Ok? ==> forall u :: 0 <= u < |vars.doms| && u != deps.0 && u != deps.1 ==>
                        r.value.doms[u] == vars.doms[u]
    ensures forall a :: InDoms(a, vars.doms) && ScaleHolds(deps, a) ==> r.Ok? && InDoms(a, r.value.doms)
    ensures deps.0 != deps.1 && !IsEmpty(vars.doms[deps.0]) && !IsEmpty(vars.doms[deps.1]) ==>
              var nx := ScaleNegX(vars.doms[deps.0], vars.doms[deps.1], deps.2);
              var ny := Intersect(vars.doms[deps.1], nx.max * deps.2, nx.min * deps.2);
              (r.Failed? <==> IsEmpty(nx) || IsEmpty(ny))
              && (r.Ok? ==> r.value.doms[deps.0] == nx && r.value.doms[deps.1] == ny)
    ensures r.Ok? && (IsSet(vars.doms[deps.0]) || IsSet(vars.doms[deps.1])) ==>
              forall a :: InDoms(a, r.value.doms) ==> ScaleHolds(deps, a)
  {
    var x, y, coef := deps.0, deps.1, deps.2;
    var varX, varY := vars.doms[x], vars.doms[y];
    var min := Max(varX.min, TruncDiv(varY.max - RemEuclid(varY.max, -coef), coef));
    var max := Min(varX.max, TruncDiv(NextMultipleOf(varY.min, -coef), coef));
    CeilViaRemEuclidNeg(varY.max, coef);
    FloorViaNextMultipleNeg(varY.min, coef);
    assert ScaleNegX(varX, varY, coef) == Var(min, max);
    r := SetPair(vars, x, min, max, y, max * coef, min * coef);
    ScaleNegKept(deps, vars.doms, r);
    if r.Ok? && (IsSet(varX) || IsSet(varY)) {
      ScaleNegEntailed(deps, vars.doms, r.value.doms);
    }
  }

  /** Every solution of `y == coef * x` inside the domains survives the bounds `PropScaleNeg` narrows to. */
  lemma ScaleNegKept(deps: (VarId, VarId, int), doms: seq<Var>, r: Result<Vars>)
    requires deps.0 < |doms| && deps.1 < |doms| && deps.2 < 0
    requires var nx := ScaleNegX(doms[deps.0], doms[deps.1], deps.2);
             forall a :: InDoms(a, doms) && nx.min <= a[deps.0] <= nx.max
                         && nx.max * deps.2 <= a[deps.1] <= nx.min * deps.2 ==>
                           r.Ok? && InDoms(a, r.value.doms)
    ensures forall a :: InDoms(a, doms) && ScaleHolds(deps, a) ==> r.Ok? && InDoms(a, r.value.doms)
  {
    var x, y, coef := deps.0, deps.1, deps.2;
    var varX, varY := doms[x], doms[y];
    var nx := ScaleNegX(varX, varY, coef);
    var min, max := nx.min, nx.max;
    forall a | InDoms(a, doms) && ScaleHolds(deps, a)
      ensures min <= a[x] <= max && max * coef <= a[y] <= min * coef
    {
      assert Contains(varX, a[x]) && Contains(varY, a[y]);
      CeilThresholdNeg(a[x], varY.max, coef);
      FloorThresholdNeg(a[x], varY.min, coef);
      MulMonotoneNeg(min, a[x], coef);
      MulMonotoneNeg(a[x], max, coef);
    }
  }

  /** Once `x` or `y` is set, every assignment inside the narrowed domains satisfies `y == coef * x`. */
  lemma ScaleNegEntailed(deps: (VarId, VarId, int), doms: seq<Var>, doms': seq<Var>)
    requires deps.0 < |doms| && deps.1 < |doms| && deps.2 < 0
    requires (IsSet(doms[deps.0]) || IsSet(doms[deps.1])) && Narrower(doms', doms)
    requires var nx := ScaleNegX(doms[deps.0], doms[deps.1], deps.2);
             (forall v :: Contains(doms'[deps.0], v) ==> nx.min <= v <= nx.max)
             && (forall v :: Contains(doms'[deps.1], v) ==> nx.max * deps.2 <= v <= nx.min * deps.2)
    ensures forall a :: InDoms(a, doms') ==> ScaleHolds(deps, a)
  {
    var x, y, coef := deps.0, deps.1, deps.2;
    var varX, varY := doms[x], doms[y];
    forall a | InDoms(a, doms')
      ensures ScaleHolds(deps, a)
    {
      InDomsWiden(a, doms', doms);
      assert Contains(doms'[x], a[x]) && Contains(doms'[y], a[y]);
      assert Contains(varX, a[x]) && Contains(varY, a[y]);
      if !IsSet(varX) {
        CeilThresholdNeg(a[x], varY.max, coef);
        FloorThresholdNeg(a[x], varY.min, coef);
      }
    }
  }

  // ----- PropPlus -----

  /**
   * The bounds `PropPlus` computes from the domains of `p`, `x` and `y`: `p` goes to
   * `[max(x.min + y.min, p.min), min(x.max + y.max, p.max)]`, and `x` and `y` to those bounds
   * minus the other's pre-call bounds; as `(x lo, x hi, y lo, y hi, p lo, p hi)`.
   */
  function PlusBounds(dp: Var, dx: Var, dy: Var): (int, int, int, int, int, int) {
    var min, max := Max(dx.min + dy.min, dp.min), Min(dx.max + dy.max, dp.max);
    (min - dy.max, max - dy.min, min - dx.max, max - dx.min, min, max)
  }

  /**
   * `PropPlus::propagate` on `(p, (x, y))`, for `p == x + y`: narrows `x`, `y` and `p`, in
   * that order, to `PlusBounds`. It keeps every solution; for three distinct nonempty domains
   * it fails exactly when one of the three intersections is empty and otherwise leaves them;
   * once `x` and `y` are set, every assignment left satisfies the constraint.
   */
  method PropPlus(deps: (VarId, (VarId, VarId)), vars: Vars) returns (r: Result<Vars>)
    requires deps.0 < |vars.doms| && deps.1.0 < |vars.doms| && deps.1.1 < |vars.doms|
    ensures r.Ok? ==> Narrows(vars.doms, vars.events, r.value.doms, r.value.events)
    ensures r.Ok? ==> forall u :: 0 <= u < |vars.doms| && u != deps.0 && u != deps.1.0 && u != deps.1.1 ==>
                        r.value.doms[u] == vars.doms[u]
    ensures forall a :: InDoms(a, vars.doms) && PlusHolds(deps, a) ==> r.Ok? && InDoms(a, r.value.doms)
    ensures deps.0 != deps.1.0 && deps.0 != deps.1.1 && deps.1.0 != deps.1.1
            && !IsEmpty(vars.doms[deps.0]) && !IsEmpty(vars.doms[deps.1.0]) && !IsEmpty(vars.doms[deps.1.1]) ==>
              var dp, dx, dy := vars.doms[deps.0], vars.doms[deps.1.0], vars.doms[deps.1.1];
              var b := PlusBounds(dp, dx, dy);
              var nx, ny, np := Intersect(dx, b.0, b.1), Intersect(dy, b.2, b.3), Intersect(dp, b.4, b.5);
              (r.Failed? <==> IsEmpty(nx) || IsEmpty(ny) || IsEmpty(np))
              && (r.Ok? ==> r.value.doms[deps.1.0] == nx && r.value.doms[deps.1.1] == ny
                            && r.value.doms[deps.0] == np)
    ensures r.Ok? && IsSet(vars.doms[deps.1.0]) && IsSet(vars.doms[deps.1.1]) ==>
              forall a :: InDoms(a, r.value.doms) ==> PlusHolds(deps, a)
  {
    var p, x, y := deps.0, deps.1.0, deps.1.1;
    var b := PlusBounds(vars.doms[p], vars.doms[x], vars.doms[y]);
    r := SetTriple(vars, x, b.0, b.1, y, b.2, b.3, p, b.4, b.5);
    PlusKept(deps, vars.doms, r);
    if r.Ok? && IsSet(vars.doms[x]) && IsSet(vars.doms[y]) {
      PlusEntailed(deps, vars.doms, r.value.doms);
    }
  }

  /** Every solution of `p == x + y` inside the domains lies within `PlusBounds` and survives. */
  lemma PlusKept(deps: (VarId, (VarId, VarId)), doms: seq<Var>, r: Result<Vars>)
    requires deps.0 < |doms| && deps.1.0 < |doms| && deps.1.1 < |doms|
    requires var p, x, y := deps.0, deps.1.0, deps.1.1;
             var b := PlusBounds(doms[p], doms[x], doms[y]);
             forall a :: InDoms(a, doms) && b.0 <= a[x] <= b.1 && b.2 <= a[y] <= b.3 && b.4 <= a[p] <= b.5 ==>
               r.Ok? && InDoms(a, r.value.doms)
    ensures forall a :: InDoms(a, doms) && PlusHolds(deps, a) ==> r.Ok? && InDoms(a, r.value.doms)
  {
    var p, x, y := deps.0, deps.1.0, deps.1.1;
    forall a | InDoms(a, doms) && PlusHolds(deps, a)
      ensures r.Ok? && InDoms(a, r.value.doms)
    {
      assert Contains(doms[x], a[x]) && Contains(doms[y], a[y]) && Contains(doms[p], a[p]);
    }
  }

  /** Once `x` and `y` are set, every assignment inside the narrowed domains satisfies `p == x + y`. */
  lemma PlusEntailed(deps: (VarId, (VarId, VarId)), doms: seq<Var>, doms': seq<Var>)
    requires deps.0 < |doms| && deps.1.0 < |doms| && deps.1.1 < |doms|
    requires IsSet(doms[deps.1.0]) && IsSet(doms[deps.1.1]) && Narrower(doms', doms)
    requires var b := PlusBounds(doms[deps.0], doms[deps.1.0], doms[deps.1.1]);
             forall v :: Contains(doms'[deps.0], v) ==> b.4 <= v <= b.5
    ensures forall a :: InDoms(a, doms') ==> PlusHolds(deps, a)
  {
    var p, x, y := deps.0, deps.1.0, deps.1.1;
    forall a | InDoms(a, doms')
      ensures PlusHolds(deps, a)
    {
      InDomsWiden(a, doms', doms);
      assert Contains(doms'[p], a[p]);
      assert Contains(doms[x], a[x]) && Contains(doms[y], a[y]);
    }
  }

  // ----- PropSum -----

  /** `Σ a[x]` over the terms. */
  function SumOf(a: seq<int>, xs: seq<VarId>): int
    requires IdsIn(xs, |a|)
  {
    if xs == [] then 0 else SumOf(a, xs[..|xs| - 1]) + a[xs[|xs| - 1]]
  }

  /** The sum of the terms' minimums, folded from the left as in `PropSum::propagate`. */
  function SumMins(doms: seq<Var>, xs: seq<VarId>): int
    requires IdsIn(xs, |doms|)
  {
    if xs == [] then 0 else SumMins(doms, xs[..|xs| - 1]) + doms[xs[|xs| - 1]].min
  }

  /** The sum of the terms' maximums. */
  function SumMaxs(doms: seq<Var>, xs: seq<VarId>): int
    requires IdsIn(xs, |doms|)
  {
    if xs == [] then 0 else SumMaxs(doms, xs[..|xs| - 1]) + doms[xs[|xs| - 1]].max
  }

  /** The sum of an assignment inside the domains lies between the sums of the bounds. */
  lemma {:induction false} SumBounds(a: seq<int>, doms: seq<Var>, xs: seq<VarId>)
    requires InDoms(a, doms) && IdsIn(xs, |doms|)
    ensures SumMins(doms, xs) <= SumOf(a, xs) <= SumMaxs(doms, xs)
    decreases |xs|
  {
    if xs != [] {
      var n := |xs| - 1;
      SumBounds(a, doms, xs[..n]);
      assert Contains(doms[xs[n]], a[xs[n]]);
    }
  }

  /** When every term is set, the sums of the minimums and of the maximums agree. */
  lemma {:induction false} SumAllSet(doms: seq<Var>, xs: seq<VarId>)
    requires IdsIn(xs, |doms|) && forall i :: 0 <= i < |xs| ==> IsSet(doms[xs[i]])
    ensures SumMins(doms, xs) == SumMaxs(doms, xs)
    decreases |xs|
  {
    if xs != [] {
      var n := |xs| - 1;
      SumAllSet(doms, xs[..n]);
      assert IsSet(doms[xs[n]]);
    }
  }

  /** The sum of all terms but the `i`-th lies between the sums of the other terms' bounds. */
  lemma {:induction false} SumOthers(a: seq<int>, doms: seq<Var>, xs: seq<VarId>, i: nat)
    requires InDoms(a, doms) && IdsIn(xs, |doms|) && i < |xs|
    ensures SumMins(doms, xs) - doms[xs[i]].min <= SumOf(a, xs) - a[xs[i]]
    ensures SumOf(a, xs) - a[xs[i]] <= SumMaxs(doms, xs) - doms[xs[i]].max
    decreases |xs|
  {
    var n := |xs| - 1;
    if i == n {
      SumBounds(a, doms, xs[..n]);
    } else {
      SumOthers(a, doms, xs[..n], i);
      assert Contains(doms[xs[n]], a[xs[n]]);
    }
  }

  /** `s` and the terms are pairwise distinct variables. */
  predicate SumDistinct(deps: (VarId, seq<VarId>)) {
    deps.0 !in deps.1 && forall i, j :: 0 <= i < j < |deps.1| ==> deps.1[i] != deps.1[j]
  }

  /** The bounds `PropSum` gives the sum: `[Σ x.min, Σ x.max]` intersected with `s`. */
  function SumBound(deps: (VarId, seq<VarId>), doms: seq<Var>): Var
    requires deps.0 < |doms| && IdsIn(deps.1, |doms|)
  {
    Intersect(doms[deps.0], SumMins(doms, deps.1), SumMaxs(doms, deps.1))
  }

  /** The bounds `PropSum` gives the `i`-th term: the narrowed sum minus the other terms' bounds. */
  function SumTermBound(deps: (VarId, seq<VarId>), doms: seq<Var>, i: nat): Var
    requires deps.0 < |doms| && IdsIn(deps.1, |doms|) && i < |deps.1|
  {
    var sb, d := SumBound(deps, doms), doms[deps.1[i]];
    Intersect(d, sb.min - (SumMaxs(doms, deps.1) - d.max), sb.max - (SumMins(doms, deps.1) - d.min))
  }

  /** Every solution of `s == Σ xs` inside `d0` also lies inside `d1`. */
  ghost predicate SumKept(deps: (VarId, seq<VarId>), d0: seq<Var>, d1: seq<Var>) {
    forall a :: InDoms(a, d0) && SumHolds(deps, a) ==> InDoms(a, d1)
  }

  /** Only the sum and the first `i` terms may have been narrowed from `d0` to `d1`. */
  predicate SumFrame(deps: (VarId, seq<VarId>), d0: seq<Var>, d1: seq<Var>, i: nat)
    requires i <= |deps.1| && |d1| == |d0|
  {
    forall u :: 0 <= u < |d0| && u != deps.0 && u !in deps.1[..i] ==> d1[u] == d0[u]
  }

  /**
   * For pairwise distinct variables with nonempty domains, the sum and the first `i` terms
   * hold exactly their computed bounds, none of them empty.
   */
  predicate SumExact(deps: (VarId, seq<VarId>), d0: seq<Var>, d1: seq<Var>, i: nat, min: int, max: int)
    requires deps.0 < |d0| && IdsIn(deps.1, |d0|) && i <= |deps.1| && |d1| == |d0|
  {
    SumDistinct(deps) && AllNonEmpty(d0) ==>
      SumBound(deps, d0) == Var(min, max) && !IsEmpty(Var(min, max)) && d1[deps.0] == Var(min, max)
      && forall j :: 0 <= j < i ==> d1[deps.1[j]] == SumTermBound(deps, d0, j) && !IsEmpty(SumTermBound(deps, d0, j))
  }

  /**
   * What holds of the domains `vars` after the sum and the first `i` terms were narrowed from
   * `vs`, with `[min, max]` the sum's bounds.
   */
  ghost predicate SumLoopInv(deps: (VarId, seq<VarId>), vs: Vars, vars: Vars, i: nat, min: int, max: int)
    requires deps.0 < |vs.doms| && IdsIn(deps.1, |vs.doms|) && i <= |deps.1|
  {
    Narrows(vs.doms, vs.events, vars.doms, vars.events)
    && SumFrame(deps, vs.doms, vars.doms, i)
    && SumKept(deps, vs.doms, vars.doms)
    && SumExact(deps, vs.doms, vars.doms, i, min, max)
  }

  /** Narrowing only the `i`-th term extends the frame by that term. */
  lemma SumFrameStep(deps: (VarId, seq<VarId>), d0: seq<Var>, d1: seq<Var>, d2: seq<Var>, i: nat)
    requires i < |deps.1| && |d1| == |d0| && |d2| == |d0|
    requires SumFrame(deps, d0, d1, i)
    requires forall u :: 0 <= u < |d0| && u != deps.1[i] ==> d2[u] == d1[u]
    ensures SumFrame(deps, d0, d2, i + 1)
  {
    assert deps.1[..i + 1] == deps.1[..i] + [deps.1[i]];
  }

  /** Narrowing the `i`-th distinct term to its bounds extends the exact part by that term. */
  lemma SumExactStep(deps: (VarId, seq<VarId>), d0: seq<Var>, d1: seq<Var>, d2: seq<Var>, i: nat, min: int, max: int)
    requires deps.0 < |d0| && IdsIn(deps.1, |d0|) && i < |deps.1| && |d1| == |d0| && |d2| == |d0|
    requires SumExact(deps, d0, d1, i, min, max)
    requires forall u :: 0 <= u < |d0| && u != deps.1[i] ==> d2[u] == d1[u]
    requires SumDistinct(deps) && AllNonEmpty(d0) ==>
               d2[deps.1[i]] == SumTermBound(deps, d0, i) && !IsEmpty(SumTermBound(deps, d0, i))
    ensures SumExact(deps, d0, d2, i + 1, min, max)
  {
    if SumDistinct(deps) && AllNonEmpty(d0) {
      DistinctPrefix(deps, i);
      forall j | 0 <= j < i
        ensures deps.1[j] != deps.1[i]
      {
        assert deps.1[j] in deps.1[..i];
      }
    }
  }

  /** The sum's own narrowing keeps every solution and starts the loop invariant, or fails only without solutions. */
  lemma SumFirstStep(deps: (VarId, seq<VarId>), vs: Vars, min: int, max: int)
    requires deps.0 < |vs.doms| && IdsIn(deps.1, |vs.doms|)
    requires min == Max(SumMins(vs.doms, deps.1), vs.doms[deps.0].min)
    requires max == Min(SumMaxs(vs.doms, deps.1), vs.doms[deps.0].max)
    ensures var first := TrySetMinAndMax(vs, deps.0, min, max);
            (forall a :: InDoms(a, vs.doms) && SumHolds(deps, a) ==> first.Ok?)
            && (first.Ok? ==> SumLoopInv(deps, vs, first.value, 0, min, max))
            && (first.Failed? && SumDistinct(deps) && AllNonEmpty(vs.doms) ==> IsEmpty(SumBound(deps, vs.doms)))
  {
    var s := deps.0;
    var first := TrySetMinAndMax(vs, s, min, max);
    forall a | InDoms(a, vs.doms) && SumHolds(deps, a)
      ensures first.Ok? && InDoms(a, first.value.doms)
    {
      SumBounds(a, vs.doms, deps.1);
      TrySetMinAndMaxSound(vs, s, min, max, a);
    }
    if SumDistinct(deps) && AllNonEmpty(vs.doms) {
      assert SumBound(deps, vs.doms) == Var(min, max);
    }
  }

  /** The bounds the loop over the terms gives its `i`-th term, read from the current domains `d`. */
  function SumTermNarrowed(deps: (VarId, seq<VarId>), d0: seq<Var>, d: seq<Var>, i: nat, min: int, max: int): (r: (int, int))
    requires deps.0 < |d0| && IdsIn(deps.1, |d0|) && i < |deps.1| && |d| == |d0|
    ensures r.0 == min - (SumMaxs(d0, deps.1) - d[deps.1[i]].max)
    ensures r.1 == max - (SumMins(d0, deps.1) - d[deps.1[i]].min)
  {
    var x := deps.1[i];
    (min - (SumMaxs(d0, deps.1) - d[x].max), max - (SumMins(d0, deps.1) - d[x].min))
  }

  /** One turn of the loop over the terms keeps every solution. */
  lemma SumStepKept(deps: (VarId, seq<VarId>), vs: Vars, vars: Vars, i: nat, min: int, max: int)
    requires deps.0 < |vs.doms| && IdsIn(deps.1, |vs.doms|) && i < |deps.1|
    requires min == Max(SumMins(vs.doms, deps.1), vs.doms[deps.0].min)
    requires max == Min(SumMaxs(vs.doms, deps.1), vs.doms[deps.0].max)
    requires Narrower(vars.doms, vs.doms) && SumKept(deps, vs.doms, vars.doms)
    ensures var b := SumTermNarrowed(deps, vs.doms, vars.doms, i, min, max);
            var next := TrySetMinAndMax(vars, deps.1[i], b.0, b.1);
            (forall a :: InDoms(a, vs.doms) && SumHolds(deps, a) ==> next.Ok?)
            && (next.Ok? ==> SumKept(deps, vs.doms, next.value.doms))
  {
    var x := deps.1[i];
    var b := SumTermNarrowed(deps, vs.doms, vars.doms, i, min, max);
    var next := TrySetMinAndMax(vars, x, b.0, b.1);
    forall a | InDoms(a, vs.doms) && SumHolds(deps, a)
      ensures next.Ok? && InDoms(a, next.value.doms)
    {
      SumTermSound(deps, vs.doms, vars.doms, i, a);
      TrySetMinAndMaxSound(vars, x, b.0, b.1, a);
    }
  }

  /** For pairwise distinct variables, the `i`-th turn narrows the `i`-th term to exactly its bounds. */
  lemma SumStepDistinct(deps: (VarId, seq<VarId>), vs: Vars, vars: Vars, i: nat, min: int, max: int)
    requires deps.0 < |vs.doms| && IdsIn(deps.1, |vs.doms|) && i < |deps.1|
    requires SumDistinct(deps) && AllNonEmpty(vs.doms)
    requires SumBound(deps, vs.doms) == Var(min, max) && !IsEmpty(Var(min, max))
    requires |vars.doms| == |vs.doms| && vars.doms[deps.1[i]] == vs.doms[deps.1[i]]
    ensures var b := SumTermNarrowed(deps, vs.doms, vars.doms, i, min, max);
            var next := TrySetMinAndMax(vars, deps.1[i], b.0, b.1);
            (next.Failed? <==> IsEmpty(SumTermBound(deps, vs.doms, i)))
            && (next.Ok? ==> next.value.doms[deps.1[i]] == SumTermBound(deps, vs.doms, i))
  {
  }

  /** One turn of the loop over the terms keeps the invariant, or fails only without solutions. */
  lemma SumStep(deps: (VarId, seq<VarId>), vs: Vars, vars: Vars, i: nat, min: int, max: int)
    requires deps.0 < |vs.doms| && IdsIn(deps.1, |vs.doms|) && i < |deps.1|
    requires min == Max(SumMins(vs.doms, deps.1), vs.doms[deps.0].min)
    requires max == Min(SumMaxs(vs.doms, deps.1), vs.doms[deps.0].max)
    requires SumLoopInv(deps, vs, vars, i, min, max)
    ensures var b := SumTermNarrowed(deps, vs.doms, vars.doms, i, min, max);
            var next := TrySetMinAndMax(vars, deps.1[i], b.0, b.1);
            (forall a :: InDoms(a, vs.doms) && SumHolds(deps, a) ==> next.Ok?)
            && (next.Ok? ==> SumLoopInv(deps, vs, next.value, i + 1, min, max))
            && (next.Failed? && SumDistinct(deps) && AllNonEmpty(vs.doms) ==> IsEmpty(SumTermBound(deps, vs.doms, i)))
  {
    var x := deps.1[i];
    var b := SumTermNarrowed(deps, vs.doms, vars.doms, i, min, max);
    var next := TrySetMinAndMax(vars, x, b.0, b.1);
    SumStepKept(deps, vs, vars, i, min, max);
    if SumDistinct(deps) && AllNonEmpty(vs.doms) {
      DistinctPrefix(deps, i);
      SumStepDistinct(deps, vs, vars, i, min, max);
    }
    if next.Ok? {
      NarrowsTrans(vs.doms, vs.events, vars.doms, vars.events, next.value.doms, next.value.events);
      SumFrameStep(deps, vs.doms, vars.doms, next.value.doms, i);
      SumExactStep(deps, vs.doms, vars.doms, next.value.doms, i, min, max);
    }
  }

  /** Once every term is done, the invariant gives everything `PropSum` promises on success. */
  lemma SumLoopDone(deps: (VarId, seq<VarId>), vs: Vars, vars: Vars, min: int, max: int)
    requires deps.0 < |vs.doms| && IdsIn(deps.1, |vs.doms|)
    requires SumLoopInv(deps, vs, vars, |deps.1|, min, max)
    ensures Narrows(vs.doms, vs.events, vars.doms, vars.events)
    ensures forall u :: 0 <= u < |vs.doms| && u != deps.0 && u !in deps.1 ==> vars.doms[u] == vs.doms[u]
    ensures forall a :: InDoms(a, vs.doms) && SumHolds(deps, a) ==> InDoms(a, vars.doms)
    ensures SumDistinct(deps) && AllNonEmpty(vs.doms) ==>
              !IsEmpty(SumBound(deps, vs.doms))
              && (forall i :: 0 <= i < |deps.1| ==> !IsEmpty(SumTermBound(deps, vs.doms, i)))
              && vars.doms[deps.0] == SumBound(deps, vs.doms)
              && forall i :: 0 <= i < |deps.1| ==> vars.doms[deps.1[i]] == SumTermBound(deps, vs.doms, i)
  {
    assert deps.1[..|deps.1|] == deps.1;
  }

  /**
   * `PropSum::propagate` on `(s, xs)`, for `s == Σ xs`: narrows `s` to the sums of the
   * terms' bounds, then each term in turn to what the other terms leave of `s`. It keeps
   * every solution; for pairwise distinct variables with nonempty domains it fails exactly
   * when one of the computed bounds is empty and otherwise leaves exactly those bounds.
   */
  method PropSum(deps: (VarId, seq<VarId>), vs: Vars) returns (r: Result<Vars>)
    requires deps.0 < |vs.doms| && IdsIn(deps.1, |vs.doms|)
    ensures r.Ok? ==> Narrows(vs.doms, vs.events, r.value.doms, r.value.events)
    ensures r.Ok? ==> forall u :: 0 <= u < |vs.doms| && u != deps.0 && u !in deps.1 ==>
                        r.value.doms[u] == vs.doms[u]
    ensures forall a :: InDoms(a, vs.doms) && SumHolds(deps, a) ==> r.Ok? && InDoms(a, r.value.doms)
    ensures SumDistinct(deps) && AllNonEmpty(vs.doms) ==>
              (r.Failed? <==> IsEmpty(SumBound(deps, vs.doms))
                              || exists i :: 0 <= i < |deps.1| && IsEmpty(SumTermBound(deps, vs.doms, i)))
    ensures r.Ok? && SumDistinct(deps) && AllNonEmpty(vs.doms) ==>
              r.value.doms[deps.0] == SumBound(deps, vs.doms)
              && forall i :: 0 <= i < |deps.1| ==> r.value.doms[deps.1[i]] == SumTermBound(deps, vs.doms, i)
    ensures r.Ok? && (forall i :: 0 <= i < |deps.1| ==> IsSet(vs.doms[deps.1[i]])) ==>
              forall a :: InDoms(a, r.value.doms) ==> SumHolds(deps, a)
  {
    var s, xs := deps.0, deps.1;
    var sumOfMins, sumOfMaxs := SumMins(vs.doms, xs), SumMaxs(vs.doms, xs);
    var min := Max(sumOfMins, vs.doms[s].min);
    var max := Min(sumOfMaxs, vs.doms[s].max);

    var first := TrySetMinAndMax(vs, s, min, max);
    SumFirstStep(deps, vs, min, max);
    if first.Failed? {
      return Failed;
    }
    var vars := first.value;
    var i := 0;
    while i < |xs|
      invariant i <= |xs|
      invariant SumLoopInv(deps, vs, vars, i, min, max)
      invariant forall v :: Contains(vars.doms[s], v) ==> min <= v <= max
    {
      var x := xs[i];
      var newBounds := SumTermNarrowed(deps, vs.doms, vars.doms, i, min, max);
      var next := TrySetMinAndMax(vars, x, newBounds.0, newBounds.1);
      SumStep(deps, vs, vars, i, min, max);
      if next.Failed? {
        return Failed;
      }
      vars := next.value;
      i := i + 1;
    }
    SumLoopDone(deps, vs, vars, min, max);
    if forall i :: 0 <= i < |xs| ==> IsSet(vs.doms[xs[i]]) {
      SumAllSet(vs.doms, xs);
      forall a | InDoms(a, vars.doms)
        ensures SumHolds(deps, a)
      {
        InDomsWiden(a, vars.doms, vs.doms);
        SumBounds(a, vs.doms, xs);
        assert Contains(vars.doms[s], a[s]);
      }
    }
    return Ok(vars);
  }

  /** In the distinct case the `i`-th term is not among the earlier ones, nor the sum. */
  lemma DistinctPrefix(deps: (VarId, seq<VarId>), i: nat)
    requires SumDistinct(deps) && i < |deps.1|
    ensures deps.1[i] !in deps.1[..i] && deps.1[i] != deps.0
  {
    assert deps.1[i] in deps.1;
  }

  /**
   * The bounds `PropSum` computes for the `i`-th term hold for every solution, even when
   * earlier steps already narrowed that term (through a repeated term or the sum itself).
   */
  lemma SumTermSound(deps: (VarId, seq<VarId>), d0: seq<Var>, d1: seq<Var>, i: nat, a: seq<int>)
    requires deps.0 < |d0| && IdsIn(deps.1, |d0|) && i < |deps.1| && Narrower(d1, d0)
    requires InDoms(a, d0) && SumHolds(deps, a)
    ensures var x := deps.1[i];
            var min := Max(SumMins(d0, deps.1), d0[deps.0].min);
            var max := Min(SumMaxs(d0, deps.1), d0[deps.0].max);
            min - (SumMaxs(d0, deps.1) - d1[x].max) <= a[x] <= max - (SumMins(d0, deps.1) - d1[x].min)
  {
    var s, xs, x := deps.0, deps.1, deps.1[i];
    SumBounds(a, d0, xs);
    SumOthers(a, d0, xs, i);
    assert Contains(d0[s], a[s]);
    assert Sub(d1[x], d0[x]);
  }

  // ----- PropEq -----

  /**
   * `PropEq::propagate` on `(x, y)`, for `x == y`: narrows both to the intersection of their
   * intervals, `x` first.
   */
  method PropEq(deps: (VarId, VarId), vars: Vars) returns (r: Result<Vars>)
    requires deps.0 < |vars.doms| && deps.1 < |vars.doms|
    ensures r.Ok? ==> Narrows(vars.doms, vars.events, r.value.doms, r.value.events)
    ensures r.Ok? ==> forall u :: 0 <= u < |vars.doms| && u != deps.0 && u != deps.1 ==>
                        r.value.doms[u] == vars.doms[u]
    ensures forall a :: InDoms(a, vars.doms) && EqHolds(deps, a) ==> r.Ok? && InDoms(a, r.value.doms)
    ensures deps.0 != deps.1 && !IsEmpty(vars.doms[deps.0]) && !IsEmpty(vars.doms[deps.1]) ==>
              var dx, dy := vars.doms[deps.0], vars.doms[deps.1];
              (r.Failed? <==> dx.max < dy.min || dy.max < dx.min)
              && (r.Ok? ==> r.value.doms[deps.0] == r.value.doms[deps.1] == Intersect(dx, dy.min, dy.max))
    ensures r.Ok? && (IsSet(vars.doms[deps.0]) || IsSet(vars.doms[deps.1])) ==>
              forall a :: InDoms(a, r.value.doms) ==> EqHolds(deps, a)
  {
    var x, y := deps.0, deps.1;
    var varX, varY := vars.doms[x], vars.doms[y];
    var min := Max(varX.min, varY.min);
    var max := Min(varX.max, varY.max);
    forall a | InDoms(a, vars.doms) && EqHolds(deps, a)
      ensures min <= a[x] <= max && min <= a[y] <= max
    {
      assert Contains(varX, a[x]) && Contains(varY, a[y]);
    }
    r := SetPair(vars, x, min, max, y, min, max);
    if r.Ok? && (IsSet(varX) || IsSet(varY)) {
      forall a | InDoms(a, r.value.doms)
        ensures EqHolds(deps, a)
      {
        InDomsWiden(a, r.value.doms, vars.doms);
        assert Contains(r.value.doms[x], a[x]) && Contains(r.value.doms[y], a[y]);
        assert Contains(varX, a[x]) && Contains(varY, a[y]);
      }
    }
  }

  // ----- PropLeq -----

  /**
   * `PropLeq::propagate` on `(x, y)`, for `x <= y`: only lowers `x.max` to `y.max`; `y` is
   * never narrowed. For a nonempty `x` it fails exactly when `y.max < x.min`.
   */
  method PropLeq(deps: (VarId, VarId), vars: Vars) returns (r: Result<Vars>)
    requires deps.0 < |vars.doms| && deps.1 < |vars.doms|
    ensures r.Ok? ==> Narrows(vars.doms, vars.events, r.value.doms, r.value.events)
    ensures r.Ok? ==> forall u :: 0 <= u < |vars.doms| && u != deps.0 ==> r.value.doms[u] == vars.doms[u]
    ensures forall a :: InDoms(a, vars.doms) && LeqHolds(deps, a) ==> r.Ok? && InDoms(a, r.value.doms)
    ensures !IsEmpty(vars.doms[deps.0]) ==>
              var dx, dy := vars.doms[deps.0], vars.doms[deps.1];
              (r.Failed? <==> dy.max < dx.min)
              && (r.Ok? ==> r.value.doms[deps.0] == Var(dx.min, Min(dx.max, dy.max)))
    ensures r.Ok? && IsSet(vars.doms[deps.1]) ==> forall a :: InDoms(a, r.value.doms) ==> LeqHolds(deps, a)
  {
    var x, y := deps.0, deps.1;
    var max := Min(vars.doms[x].max, vars.doms[y].max);
    r := TrySetMax(vars, x, max);
    forall a | InDoms(a, vars.doms) && LeqHolds(deps, a)
      ensures r.Ok? && InDoms(a, r.value.doms)
    {
      assert Contains(vars.doms[x], a[x]) && Contains(vars.doms[y], a[y]);
      assert Contains(r.value.doms[x], a[x]);
    }
    if r.Ok? && IsSet(vars.doms[y]) {
      forall a | InDoms(a, r.value.doms)
        ensures LeqHolds(deps, a)
      {
        InDomsWiden(a, r.value.doms, vars.doms);
        assert Contains(r.value.doms[x], a[x]) && Contains(vars.doms[y], a[y]);
      }
    }
  }
}
