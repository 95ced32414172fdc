/**
 * The newer engine's entry point (src/model.rs): declares decision variables, derived
 * expressions and constraints, then hands the variables and propagators to the search.
 */
module ModelApi {
  import opened Wrappers
  import opened Domains
  import opened VarStore
  import opened Views
  import opened AddProp
  import opened SumProp
  import opened Registry
  import opened Solutions
  import EqualsProp
  import LeqProp

  /** Every propagator of the list reads only the first `n` variables. */
  predicate PropsOk(ps: seq<Prop>, n: nat) {
    forall i :: 0 <= i < |ps| ==> PropOk(ps[i], n)
  }

  /** `a` lies inside the domains and satisfies every propagator: a feasible assignment. */
  predicate Feasible(d: seq<Var>, ps: seq<Prop>, a: seq<int>)
    requires PropsOk(ps, |d|)
  {
    InDoms(a, d) && AllHold(ps, a)
  }

  /** What the search is asked for: every feasible assignment, or ever lower values of an objective. */
  datatype SearchMode = EnumerateAll | MinimizeObjective(objective: View)

  /** `search::search`: the solutions found for the domains and propagators, in the order yielded. */
  type Search = (seq<Var>, seq<Prop>, SearchMode) -> seq<Solution>

  /** Each solution's objective is strictly below the one before it. */
  predicate Improving(objective: View, sols: seq<Solution>, n: nat)
    requires ViewOk(objective, n)
  {
    forall k, l :: 0 <= k < l < |sols| && |sols[k].values| == n && |sols[l].values| == n ==>
      Value(objective, sols[l].values) < Value(objective, sols[k].values)
  }

  /**
   * The search at its boundary: what it yields are feasible assignments; it yields nothing
   * only when there is none; when minimizing, each objective value is below the previous one
   * and the last is the lowest over all feasible assignments.
   */
  ghost predicate SearchContract(search: Search) {
    forall d: seq<Var>, ps: seq<Prop>, m: SearchMode {:trigger search(d, ps, m)} ::
      PropsOk(ps, |d|) && (m.MinimizeObjective? ==> ViewOk(m.objective, |d|)) ==>
        var sols := search(d, ps, m);
        (forall k :: 0 <= k < |sols| ==> Feasible(d, ps, sols[k].values))
        && (sols == [] ==> forall a :: !Feasible(d, ps, a))
        && (m.MinimizeObjective? ==>
              Improving(m.objective, sols, |d|)
              && (sols != [] ==> forall a :: Feasible(d, ps, a) ==>
                    Value(m.objective, sols[|sols| - 1].values) <= Value(m.objective, a)))
  }

  /** The domain `add` gives its new variable: `[x.min + y.min, x.max + y.max]`. */
  function AddRange(x: View, y: View, d: seq<Var>): Var
    requires ViewOk(x, |d|) && ViewOk(y, |d|)
  {
    Var(MinRaw(x, d) + MinRaw(y, d), MaxRaw(x, d) + MaxRaw(y, d))
  }

  /** Giving the new variable of `add` the value `x + y` keeps an assignment inside the domains and satisfies `x + y == s`. */
  lemma AddExtends(x: View, y: View, d: seq<Var>, a: seq<int>)
    requires ViewOk(x, |d|) && ViewOk(y, |d|) && InDoms(a, d)
    ensures var b := a + [Value(x, a) + Value(y, a)];
            var e := d + [AddRange(x, y, d)];
            InDoms(b, e) && AddOk(AddProp.Add(x, y, |d|), |b|) && AddHolds(AddProp.Add(x, y, |d|), b)
  {
    var t := Value(x, a) + Value(y, a);
    ViewBounds(x, d, a);
    ViewBounds(y, d, a);
    ValueExtend(x, a, t);
    ValueExtend(y, a, t);
  }

  /** Giving the new variable of `sum_iter` the sum keeps an assignment inside the domains and satisfies `sum(xs) == s`. */
  lemma SumExtends(xs: seq<View>, d: seq<Var>, a: seq<int>)
    requires ViewsOk(xs, |d|) && InDoms(a, d)
    ensures var b := a + [Total(xs, a)];
            var e := d + [Var(SumMin(xs, d), SumMax(xs, d))];
            InDoms(b, e) && SumOk(SumProp.Sum(xs, |d|), |b|) && SumHolds(SumProp.Sum(xs, |d|), b)
  {
    TotalBounds(xs, d, a);
    TotalExtend(xs, a, Total(xs, a));
  }

  /**
   * Declaring one more propagator leaves as feasible exactly the assignments that were
   * feasible and satisfy it.
   */
  lemma {:induction false} FeasibleAppend(d: seq<Var>, ps: seq<Prop>, p: Prop, a: seq<int>)
    requires PropsOk(ps, |d|) && PropOk(p, |d|) && |a| == |d|
    ensures PropsOk(ps + [p], |d|)
    ensures Feasible(d, ps + [p], a) <==> Feasible(d, ps, a) && PropHolds(p, a)
  {
    assert forall i :: 0 <= i < |ps| ==> (ps + [p])[i] == ps[i];
    assert (ps + [p])[|ps|] == p;
  }

  /** `FeasibleAppend` for every assignment at once, `ps` being `ps0` and one more propagator. */
  lemma FeasibleGrow(d: seq<Var>, ps0: seq<Prop>, ps: seq<Prop>)
    requires PropsOk(ps0, |d|) && |ps| == |ps0| + 1 && ps[..|ps0|] == ps0 && PropOk(ps[|ps0|], |d|)
    ensures PropsOk(ps, |d|)
    ensures forall a :: |a| == |d| ==> (Feasible(d, ps, a) <==> Feasible(d, ps0, a) && PropHolds(ps[|ps0|], a))
  {
    var p := ps[|ps0|];
    assert ps == ps0 + [p];
    forall a | |a| == |d|
      ensures Feasible(d, ps, a) <==> Feasible(d, ps0, a) && PropHolds(p, a)
    {
      FeasibleAppend(d, ps0, p, a);
    }
    FeasibleAppend(d, ps0, p, seq(|d|, _ => 0));
  }

  /** `Model`: the decision variables and the propagators declared so far. */
  class Model {
    const vars: Vars
    const props: Propagators

    /** One dependency row per variable, and a well-formed propagator store. */
    ghost predicate Valid()
      reads this, vars, props
    {
      |vars.doms| == |props.dependencies| && props.Valid()
    }

    /** `Model::default`: no variable, no propagator. */
    constructor ()
      ensures fresh(vars) && fresh(props) && Valid()
      ensures vars.doms == [] && props.dependencies == [] && props.list == []
    {
      vars := new Vars();
      props := new Propagators();
    }

    /** `new_var_unchecked`: a new variable over `[min, max]` with its own, empty, dependency row. */
    method NewVarUnchecked(min: int, max: int) returns (v: VarId)
      requires Valid()
      modifies vars, props
      ensures v == |old(vars.doms)| && vars.doms == old(vars.doms) + [Var(min, max)]
      ensures props.dependencies == old(props.dependencies) + [[]] && props.list == old(props.list)
      ensures Valid()
    {
      props.OnNewVar();
      v := vars.NewVarWithBounds(min, max);
      assert vars.doms == old(vars.doms) + [Var(min, max)];
    }

    /** `new_var`: a variable over `[min, max]` when `min < max`; otherwise nothing is created. */
    method NewVar(min: int, max: int) returns (r: Option<VarId>)
      requires Valid()
      modifies vars, props
      ensures r.Some? <==> min < max
      ensures r.None? ==> unchanged(vars, props)
      ensures r.Some? ==> r.value == |old(vars.doms)| && vars.doms == old(vars.doms) + [Var(min, max)]
                          && props.dependencies == old(props.dependencies) + [[]] && props.list == old(props.list)
      ensures Valid()
    {
      if min < max {
        var v := NewVarUnchecked(min, max);
        r := Some(v);
      } else {
        r := None;
      }
    }

    /**
     * `new_vars`: when `min < max`, `n` variables over `[min, max]`, with consecutive ids;
     * otherwise nothing is created.
     */
    method NewVars(n: nat, min: int, max: int) returns (r: Option<seq<VarId>>)
      requires Valid()
      modifies vars, props
      ensures r.Some? <==> min < max
      ensures r.None? ==> unchanged(vars, props)
      ensures r.Some? ==>
                |r.value| == n && (forall i :: 0 <= i < n ==> r.value[i] == |old(vars.doms)| + i)
                && |vars.doms| == |old(vars.doms)| + n && vars.doms[..|old(vars.doms)|] == old(vars.doms)
                && (forall i :: |old(vars.doms)| <= i < |vars.doms| ==> vars.doms[i] == Var(min, max))
                && props.list == old(props.list)
                && |props.dependencies| == |old(props.dependencies)| + n
                && props.dependencies[..|old(props.dependencies)|] == old(props.dependencies)
                && (forall i :: |old(props.dependencies)| <= i < |props.dependencies| ==> props.dependencies[i] == [])
      ensures Valid()
    {
      if !(min < max) {
        return None;
      }
      var ids := [];
      var i := 0;
      while i < n
        invariant 0 <= i <= n && Valid() && props.list == old(props.list)
        invariant |ids| == i && forall k :: 0 <= k < i ==> ids[k] == |old(vars.doms)| + k
        invariant |vars.doms| == |old(vars.doms)| + i && vars.doms[..|old(vars.doms)|] == old(vars.doms)
        invariant forall k :: |old(vars.doms)| <= k < |vars.doms| ==> vars.doms[k] == Var(min, max)
        invariant props.dependencies[..|old(props.dependencies)|] == old(props.dependencies)
        invariant forall k :: |old(props.dependencies)| <= k < |props.dependencies| ==> props.dependencies[k] == []
      {
        var v := NewVarUnchecked(min, max);
        ids := ids + [v];
        i := i + 1;
      }
      r := Some(ids);
    }

    /** `new_var_binary`: a new variable over `[0, 1]`, seen as a binary view. */
    method NewVarBinary() returns (x: View)
      requires Valid()
      modifies vars, props
      ensures x == Binary(|old(vars.doms)|) && vars.doms == old(vars.doms) + [Var(0, 1)]
      ensures props.dependencies == old(props.dependencies) + [[]] && props.list == old(props.list)
      ensures Valid()
    {
      var v := NewVarUnchecked(0, 1);
      x := Binary(v);
    }

    /** `new_vars_binary`: `n` new binary variables, with consecutive ids. */
    method NewVarsBinary(n: nat) returns (xs: seq<View>)
      requires Valid()
      modifies vars, props
      ensures |xs| == n && forall i :: 0 <= i < n ==> xs[i] == Binary(|old(vars.doms)| + i)
      ensures |vars.doms| == |old(vars.doms)| + n && vars.doms[..|old(vars.doms)|] == old(vars.doms)
      ensures forall i :: |old(vars.doms)| <= i < |vars.doms| ==> vars.doms[i] == Var(0, 1)
      ensures props.list == old(props.list)
      ensures |props.dependencies| == |old(props.dependencies)| + n
      ensures props.dependencies[..|old(props.dependencies)|] == old(props.dependencies)
      ensures forall i :: |old(props.dependencies)| <= i < |props.dependencies| ==> props.dependencies[i] == []
      ensures Valid()
    {
      xs := [];
      var i := 0;
      while i < n
        invariant 0 <= i <= n && Valid() && props.list == old(props.list)
        invariant |xs| == i && forall k :: 0 <= k < i ==> xs[k] == Binary(|old(vars.doms)| + k)
        invariant |vars.doms| == |old(vars.doms)| + i && vars.doms[..|old(vars.doms)|] == old(vars.doms)
        invariant forall k :: |old(vars.doms)| <= k < |vars.doms| ==> vars.doms[k] == Var(0, 1)
        invariant props.dependencies[..|old(props.dependencies)|] == old(props.dependencies)
        invariant forall k :: |old(props.dependencies)| <= k < |props.dependencies| ==> props.dependencies[k] == []
      {
        var x := NewVarBinary();
        xs := xs + [x];
        i := i + 1;
      }
    }

    /**
     * `add`: a new variable `s` over `[x.min + y.min, x.max + y.max]` and the propagator
     * `x + y == s`. No assignment is lost: each one inside the old domains extends, by giving
     * `s` the value `x + y`, to one inside the new domains that satisfies the new propagator.
     */
    method Add(x: View, y: View) returns (s: VarId)
      requires Valid() && ViewOk(x, |vars.doms|) && ViewOk(y, |vars.doms|)
      modifies vars, props
      ensures s == |old(vars.doms)|
      ensures vars.doms == old(vars.doms) + [AddRange(x, y, old(vars.doms))]
      ensures |props.list| == |old(props.list)| + 1 && props.list[..|old(props.list)|] == old(props.list)
      ensures props.list[|old(props.list)|] == AddP(AddProp.Add(x, y, s))
      ensures props.dependencies
              == Subscribe(old(props.dependencies) + [[]], AddTriggers(AddProp.Add(x, y, s)), |old(props.list)|)
      ensures Valid()
      ensures forall a :: InDoms(a, old(vars.doms)) ==>
                var b := a + [Value(x, a) + Value(y, a)];
                InDoms(b, vars.doms) && PropHolds(props.list[|old(props.list)|], b)
    {
      ghost var d0, ps0 := vars.doms, props.list;
      var range := AddRange(x, y, vars.doms);
      s := NewVarUnchecked(range.min, range.max);
      ViewOkGrow(x, s, s + 1);
      ViewOkGrow(y, s, s + 1);
      var p := props.Add(x, y, s);
      assert props.list[p] == AddP(AddProp.Add(x, y, s));
      forall a | InDoms(a, d0)
        ensures var b := a + [Value(x, a) + Value(y, a)];
                InDoms(b, vars.doms) && PropHolds(props.list[p], b)
      {
        AddExtends(x, y, d0, a);
      }
    }

    /**
     * `sum_iter` (and `sum`, which passes a slice to it): a new variable `s` over
     * `[Σ x.min, Σ x.max]` (`[0, 0]` for no term) and the propagator `sum(xs) == s`. No
     * assignment is lost: each one inside the old domains extends, by giving `s` the value of
     * the sum, to one inside the new domains that satisfies the new propagator.
     */
    method SumIter(xs: seq<View>) returns (s: VarId)
      requires Valid() && ViewsOk(xs, |vars.doms|)
      modifies vars, props
      ensures s == |old(vars.doms)|
      ensures vars.doms == old(vars.doms) + [Var(SumMin(xs, old(vars.doms)), SumMax(xs, old(vars.doms)))]
      ensures |props.list| == |old(props.list)| + 1 && props.list[..|old(props.list)|] == old(props.list)
      ensures props.list[|old(props.list)|] == SumP(SumProp.Sum(xs, s))
      ensures props.dependencies
              == Subscribe(old(props.dependencies) + [[]], SumTriggers(SumProp.Sum(xs, s)), |old(props.list)|)
      ensures Valid()
      ensures forall a :: InDoms(a, old(vars.doms)) ==>
                var b := a + [Total(xs, a)];
                InDoms(b, vars.doms) && PropHolds(props.list[|old(props.list)|], b)
    {
      var min := SumMin(xs, vars.doms);
      var max := SumMax(xs, vars.doms);
      s := NewVarUnchecked(min, max);
      forall i | 0 <= i < |xs| ensures ViewOk(xs[i], s + 1) { ViewOkGrow(xs[i], s, s + 1); }
      var p := props.Sum(xs, s);
      forall a | InDoms(a, old(vars.doms))
        ensures var b := a + [Total(xs, a)];
                InDoms(b, vars.doms) && PropHolds(props.list[|old(props.list)|], b)
      {
        SumExtends(xs, old(vars.doms), a);
      }
    }

    /** `equals`: declares `x == y`; the feasible assignments become those that were feasible and have `x == y`. */
    method Equals(x: View, y: View)
      requires Valid() && ViewOk(x, |vars.doms|) && ViewOk(y, |vars.doms|)
      modifies props
      ensures Valid() && vars.doms == old(vars.doms)
      ensures |props.list| == |old(props.list)| + 1 && props.list[..|old(props.list)|] == old(props.list)
      ensures props.dependencies == Subscribe(old(props.dependencies), EqualsProp.EqualsTriggers(EqualsProp.Equals(x, y)), |old(props.list)|)
      ensures forall a :: |a| == |vars.doms| ==>
                (Feasible(vars.doms, props.list, a) <==> Feasible(vars.doms, old(props.list), a) && Value(x, a) == Value(y, a))
    {
      ghost var (d, ps0) := (vars.doms, props.list);
      var p := props.Equals(x, y);
      FeasibleGrow(d, ps0, props.list);
    }

    /** `less_than_or_equals`: declares `x <= y`, keeping exactly the feasible assignments with `x <= y`. */
    method LessThanOrEquals(x: View, y: View)
      requires Valid() && ViewOk(x, |vars.doms|) && ViewOk(y, |vars.doms|)
      modifies props
      ensures Valid() && vars.doms == old(vars.doms)
      ensures |props.list| == |old(props.list)| + 1 && props.list[..|old(props.list)|] == old(props.list)
      ensures props.dependencies == Subscribe(old(props.dependencies), LeqProp.LeqTriggers(LeqProp.LessThanOrEquals(x, y)), |old(props.list)|)
      ensures forall a :: |a| == |vars.doms| ==>
                (Feasible(vars.doms, props.list, a) <==> Feasible(vars.doms, old(props.list), a) && Value(x, a) <= Value(y, a))
    {
      ghost var (d, ps0) := (vars.doms, props.list);
      var p := props.LessThanOrEquals(x, y);
      FeasibleGrow(d, ps0, props.list);
    }

    /** `less_than`: declares `x < y`, keeping exactly the feasible assignments with `x < y`. */
    method LessThan(x: View, y: View)
      requires Valid() && ViewOk(x, |vars.doms|) && ViewOk(y, |vars.doms|)
      modifies props
      ensures Valid() && vars.doms == old(vars.doms)
      ensures |props.list| == |old(props.list)| + 1 && props.list[..|old(props.list)|] == old(props.list)
      ensures props.dependencies == Subscribe(old(props.dependencies), PropTriggers(LessThanProp(x, y)), |old(props.list)|)
      ensures forall a :: |a| == |vars.doms| ==>
                (Feasible(vars.doms, props.list, a) <==> Feasible(vars.doms, old(props.list), a) && Value(x, a) < Value(y, a))
    {
      ghost var (d, ps0) := (vars.doms, props.list);
      var p := props.LessThan(x, y);
      FeasibleGrow(d, ps0, props.list);
    }

    /** `greater_than_or_equals`: declares `x >= y`, keeping exactly the feasible assignments with `x >= y`. */
    method GreaterThanOrEquals(x: View, y: View)
      requires Valid() && ViewOk(x, |vars.doms|) && ViewOk(y, |vars.doms|)
      modifies props
      ensures Valid() && vars.doms == old(vars.doms)
      ensures |props.list| == |old(props.list)| + 1 && props.list[..|old(props.list)|] == old(props.list)
      ensures props.dependencies == Subscribe(old(props.dependencies), LeqProp.LeqTriggers(LeqProp.LessThanOrEquals(y, x)), |old(props.list)|)
      ensures forall a :: |a| == |vars.doms| ==>
                (Feasible(vars.doms, props.list, a) <==> Feasible(vars.doms, old(props.list), a) && Value(x, a) >= Value(y, a))
    {
      ghost var (d, ps0) := (vars.doms, props.list);
      var p := props.GreaterThanOrEquals(x, y);
      FeasibleGrow(d, ps0, props.list);
    }

    /** `greater_than`: declares `x > y`, keeping exactly the feasible assignments with `x > y`. */
    method GreaterThan(x: View, y: View)
      requires Valid() && ViewOk(x, |vars.doms|) && ViewOk(y, |vars.doms|)
      modifies props
      ensures Valid() && vars.doms == old(vars.doms)
      ensures |props.list| == |old(props.list)| + 1 && props.list[..|old(props.list)|] == old(props.list)
      ensures props.dependencies == Subscribe(old(props.dependencies), PropTriggers(LessThanProp(y, x)), |old(props.list)|)
      ensures forall a :: |a| == |vars.doms| ==>
                (Feasible(vars.doms, props.list, a) <==> Feasible(vars.doms, old(props.list), a) && Value(x, a) > Value(y, a))
    {
      ghost var (d, ps0) := (vars.doms, props.list);
      var p := props.GreaterThan(x, y);
      FeasibleGrow(d, ps0, props.list);
    }

    /** `enumerate`: what the search yields over this model's variables and propagators. */
    method Enumerate(search: Search) returns (sols: seq<Solution>)
      requires Valid() && SearchContract(search)
      ensures forall k :: 0 <= k < |sols| ==> Feasible(vars.doms, props.list, sols[k].values)
      ensures sols == [] ==> forall a :: !Feasible(vars.doms, props.list, a)
    {
      sols := search(vars.doms, props.list, EnumerateAll);
    }

    /** `solve`: the first enumerated assignment, so a feasible one, or none when there is none. */
    method Solve(search: Search) returns (r: Option<Solution>)
      requires Valid() && SearchContract(search)
      ensures r.Some? ==> Feasible(vars.doms, props.list, r.value.values)
      ensures r.None? ==> forall a :: !Feasible(vars.doms, props.list, a)
    {
      var sols := Enumerate(search);
      r := if sols == [] then None else Some(sols[0]);
    }

    /** `minimize_and_iterate`: feasible assignments, each with a lower objective than the last. */
    method MinimizeAndIterate(objective: View, search: Search) returns (sols: seq<Solution>)
      requires Valid() && ViewOk(objective, |vars.doms|) && SearchContract(search)
      ensures forall k :: 0 <= k < |sols| ==> Feasible(vars.doms, props.list, sols[k].values)
      ensures forall k :: 0 <= k < |sols| ==> |sols[k].values| == |vars.doms|
      ensures sols == [] ==> forall a :: !Feasible(vars.doms, props.list, a)
      ensures forall k, l :: 0 <= k < l < |sols| ==>
                Value(objective, sols[l].values) < Value(objective, sols[k].values)
      ensures sols != [] ==> forall a :: Feasible(vars.doms, props.list, a) ==>
                Value(objective, sols[|sols| - 1].values) <= Value(objective, a)
    {
      sols := search(vars.doms, props.list, MinimizeObjective(objective));
    }

    /** `minimize`: the last assignment `minimize_and_iterate` yields, which has the lowest objective. */
    method Minimize(objective: View, search: Search) returns (r: Option<Solution>)
      requires Valid() && ViewOk(objective, |vars.doms|) && SearchContract(search)
      ensures r.Some? ==> Feasible(vars.doms, props.list, r.value.values)
      ensures r.Some? ==> forall a :: Feasible(vars.doms, props.list, a) ==>
                Value(objective, r.value.values) <= Value(objective, a)
      ensures r.None? ==> forall a :: !Feasible(vars.doms, props.list, a)
    {
      var sols := MinimizeAndIterate(objective, search);
      r := if sols == [] then None else Some(sols[|sols| - 1]);
    }

    /** `maximize_and_iterate`: minimizes the opposite, so each objective value is above the last. */
    method MaximizeAndIterate(objective: View, search: Search) returns (sols: seq<Solution>)
      requires Valid() && ViewOk(objective, |vars.doms|) && SearchContract(search)
      ensures forall k :: 0 <= k < |sols| ==> Feasible(vars.doms, props.list, sols[k].values)
      ensures forall k :: 0 <= k < |sols| ==> |sols[k].values| == |vars.doms|
      ensures sols == [] ==> forall a :: !Feasible(vars.doms, props.list, a)
      ensures forall k, l :: 0 <= k < l < |sols| ==>
                Value(objective, sols[k].values) < Value(objective, sols[l].values)
      ensures sols != [] ==> forall a :: Feasible(vars.doms, props.list, a) ==>
                Value(objective, a) <= Value(objective, sols[|sols| - 1].values)
    {
      sols := MinimizeAndIterate(Opposite(objective), search);
    }

    /** `maximize`: minimizes the opposite, so the result has the highest objective. */
    method Maximize(objective: View, search: Search) returns (r: Option<Solution>)
      requires Valid() && ViewOk(objective, |vars.doms|) && SearchContract(search)
      ensures r.Some? ==> Feasible(vars.doms, props.list, r.value.values)
      ensures r.Some? ==> forall a :: Feasible(vars.doms, props.list, a) ==>
                Value(objective, a) <= Value(objective, r.value.values)
      ensures r.None? ==> forall a :: !Feasible(vars.doms, props.list, a)
    {
      r := Minimize(Opposite(objective), search);
    }
  }

  /** The unit test of `new_var`: `(1, 1)` and `(1, 0)` are refused, `(0, 1)` accepted. */
  method NewVarRejectsEmptyAndSingleton() returns (r1: Option<VarId>, r2: Option<VarId>, r3: Option<VarId>)
    ensures r1.None? && r2.None? && r3 == Some(0)
  {
    var m := new Model();
    r1 := m.NewVar(1, 1);
    r2 := m.NewVar(1, 0);
    r3 := m.NewVar(0, 1);
  }
}
