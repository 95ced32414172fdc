/**
 * The older engine's model builder (src/model/mod.rs): a `Model` owns the variables, the
 * propagators and the subscription tables, and every builder appends to them. Every builder
 * keeps the tables consistent (`Valid`), which is what the search needs to be sound and
 * complete.
 */
module LegacyModel {
  import opened Wrappers
  import opened Domains
  import opened Solutions
  import opened LegacyVars
  import opened LegacyProps
  import opened LegacyBranch
  import opened LegacySearch
  import opened LegacyEngine

  /** `deps.vars[x].push(id)`: subscribes propagator `id` to variable `x`. */
  function Subscribe(rows: seq<seq<PropId>>, x: VarId, id: PropId): (r: seq<seq<PropId>>)
    requires x < |rows|
    ensures |r| == |rows|
    ensures forall v, p :: 0 <= v < |rows| ==> (p in r[v] <==> p in rows[v] || (v == x && p == id))
  {
    rows[x := rows[x] + [id]]
  }

  /** Subscribes `id` to every variable of `xs`, in order (the loops of `sum_impl` and `propagator_impl`). */
  function SubscribeAll(rows: seq<seq<PropId>>, xs: seq<VarId>, id: PropId): (r: seq<seq<PropId>>)
    requires IdsIn(xs, |rows|)
    ensures |r| == |rows|
    ensures forall v, p :: 0 <= v < |rows| ==> (p in r[v] <==> p in rows[v] || (v in xs && p == id))
    decreases |xs|
  {
    if xs == [] then rows else Subscribe(SubscribeAll(rows, xs[..|xs| - 1], id), xs[|xs| - 1], id)
  }

  // ----- keeping the tables consistent -----

  /** Every variable subscribing custom propagator `i` in `deps` still subscribes it in `deps'`. */
  ghost predicate KeepsCustomSubscriptions(deps: Deps, deps': Deps, i: nat) {
    forall v: VarId :: Subscribed(deps, Custom(i), v) ==> Subscribed(deps', Custom(i), v)
  }

  lemma CustomChecksTransfer(deps: Deps, deps': Deps, i: nat, c: CustomProp)
    requires CustomChecks(deps, i, c) && KeepsCustomSubscriptions(deps, deps', i)
    ensures CustomChecks(deps', i, c)
  {
    forall vs: Vars | c.run(vs).Ok? && (forall v: VarId :: Subscribed(deps', Custom(i), v) ==> v < |vs.doms| && IsSet(vs.doms[v]))
      ensures forall a :: InDoms(a, c.run(vs).value.doms) ==> c.holds(a)
    {
      forall v: VarId | Subscribed(deps, Custom(i), v)
        ensures v < |vs.doms| && IsSet(vs.doms[v])
      {
      }
    }
  }

  /** `new_var_impl` keeps the tables consistent: the new variable has an empty row. */
  lemma NewVarKeeps(deps: Deps, props: Props, n: nat)
    requires WellFormed(deps, props, n)
    ensures WellFormed(Deps(deps.vars + [[]], deps.props), props, n + 1)
  {
    var deps' := Deps(deps.vars + [[]], deps.props);
    forall i | 0 <= i < |props.custom|
      ensures CustomChecks(deps', i, props.custom[i])
    {
      CustomChecksTransfer(deps, deps', i, props.custom[i]);
    }
  }

  /** Subscriptions only grow from `deps` to `deps'`. */
  ghost predicate SubscriptionsGrow(deps: Deps, deps': Deps) {
    |deps.vars| <= |deps'.vars|
    && forall v, p :: 0 <= v < |deps.vars| && p in deps.vars[v] ==> p in deps'.vars[v]
  }

  /** Growing subscriptions keep every custom propagator's check. */
  lemma CustomsKept(deps: Deps, deps': Deps, props: Props)
    requires SubscriptionsGrow(deps, deps')
    requires forall i :: 0 <= i < |props.custom| ==> CustomChecks(deps, i, props.custom[i])
    ensures forall i :: 0 <= i < |props.custom| ==> CustomChecks(deps', i, props.custom[i])
  {
    forall i | 0 <= i < |props.custom|
      ensures CustomChecks(deps', i, props.custom[i])
    {
      CustomChecksTransfer(deps, deps', i, props.custom[i]);
    }
  }

  /** The tables after `scale_pos` registers `(x, s, coef)`, subscribed by `x` and `s`. */
  function AddScalePos(deps: Deps, x: VarId, s: VarId, coef: int): Deps
    requires x < |deps.vars| && s < |deps.vars|
  {
    var id := ScalePos(|deps.props.scalePos|);
    Deps(Subscribe(Subscribe(deps.vars, x, id), s, id),
         deps.props.(scalePos := deps.props.scalePos + [(x, s, coef)]))
  }

  lemma ScalePosKeeps(deps: Deps, props: Props, n: nat, x: VarId, s: VarId, coef: int)
    requires WellFormed(deps, props, n) && x < n && s < n && coef > 0
    ensures WellFormed(AddScalePos(deps, x, s, coef), props.(scalePos := props.scalePos + 1), n)
  {
    var deps' := AddScalePos(deps, x, s, coef);
    var props' := props.(scalePos := props.scalePos + 1);
    CustomsKept(deps, deps', props);
    assert Subscribed(deps', ScalePos(|deps.props.scalePos|), x);
  }

  /** The tables after `scale_neg` registers `(x, s, coef)`, subscribed by `x` and `s`. */
  function AddScaleNeg(deps: Deps, x: VarId, s: VarId, coef: int): Deps
    requires x < |deps.vars| && s < |deps.vars|
  {
    var id := ScaleNeg(|deps.props.scaleNeg|);
    Deps(Subscribe(Subscribe(deps.vars, x, id), s, id),
         deps.props.(scaleNeg := deps.props.scaleNeg + [(x, s, coef)]))
  }

  lemma ScaleNegKeeps(deps: Deps, props: Props, n: nat, x: VarId, s: VarId, coef: int)
    requires WellFormed(deps, props, n) && x < n && s < n && coef < 0
    ensures WellFormed(AddScaleNeg(deps, x, s, coef), props.(scaleNeg := props.scaleNeg + 1), n)
  {
    CustomsKept(deps, AddScaleNeg(deps, x, s, coef), props);
    assert Subscribed(AddScaleNeg(deps, x, s, coef), ScaleNeg(|deps.props.scaleNeg|), x);
  }

  /** The tables after `plus_impl` registers `(p, (x, y))`, subscribed by `x` and `y` only. */
  function AddPlus(deps: Deps, p: VarId, x: VarId, y: VarId): Deps
    requires x < |deps.vars| && y < |deps.vars|
  {
    var id := Plus(|deps.props.plus|);
    Deps(Subscribe(Subscribe(deps.vars, x, id), y, id), deps.props.(plus := deps.props.plus + [(p, (x, y))]))
  }

  lemma PlusKeeps(deps: Deps, props: Props, n: nat, p: VarId, x: VarId, y: VarId)
    requires WellFormed(deps, props, n) && p < n && x < n && y < n
    ensures WellFormed(AddPlus(deps, p, x, y), props.(plus := props.plus + 1), n)
  {
    CustomsKept(deps, AddPlus(deps, p, x, y), props);
  }

  /** The tables after `sum_impl` registers `(s, xs)`, subscribed by every term but not by `s`. */
  function AddSum(deps: Deps, s: VarId, xs: seq<VarId>): Deps
    requires IdsIn(xs, |deps.vars|)
  {
    Deps(SubscribeAll(deps.vars, xs, Sum(|deps.props.sum|)), deps.props.(sum := deps.props.sum + [(s, xs)]))
  }

  /**
   * Rows that gained only the id `id` name declared propagators, provided `id` and every
   * propagator declared before are declared after.
   */
  lemma RowsValid(deps: Deps, props: Props, deps': Deps, props': Props, n: nat, id: PropId)
    requires |deps.vars| == n && |deps'.vars| == n && ValidProp(deps', props', id)
    requires forall v, k :: 0 <= v < n && 0 <= k < |deps.vars[v]| ==> ValidProp(deps, props, deps.vars[v][k])
    requires forall p :: ValidProp(deps, props, p) ==> ValidProp(deps', props', p)
    requires forall v, p :: 0 <= v < n && p in deps'.vars[v] ==> p in deps.vars[v] || p == id
    ensures forall v, k :: 0 <= v < n && 0 <= k < |deps'.vars[v]| ==> ValidProp(deps', props', deps'.vars[v][k])
  {
    forall v, k | 0 <= v < n && 0 <= k < |deps'.vars[v]|
      ensures ValidProp(deps', props', deps'.vars[v][k])
    {
      var p := deps'.vars[v][k];
      assert p in deps'.vars[v];
      if p != id {
        var k' :| 0 <= k' < |deps.vars[v]| && deps.vars[v][k'] == p;
      }
    }
  }

  lemma SumKeeps(deps: Deps, props: Props, n: nat, s: VarId, xs: seq<VarId>)
    requires WellFormed(deps, props, n) && s < n && IdsIn(xs, n)
    ensures WellFormed(AddSum(deps, s, xs), props.(sum := props.sum + 1), n)
  {
    var deps' := AddSum(deps, s, xs);
    var props' := props.(sum := props.sum + 1);
    CustomsKept(deps, deps', props);
    RowsValid(deps, props, deps', props', n, Sum(|deps.props.sum|));
    forall j | 0 <= j < |xs|
      ensures Subscribed(deps', Sum(|deps.props.sum|), xs[j])
    {
      assert xs[j] in xs;
    }
  }

  /** The tables after `eq_impl` registers `(x, y)`, subscribed by both. */
  function AddEq(deps: Deps, x: VarId, y: VarId): Deps
    requires x < |deps.vars| && y < |deps.vars|
  {
    var id := Eq(|deps.props.eq|);
    Deps(Subscribe(Subscribe(deps.vars, x, id), y, id), deps.props.(eq := deps.props.eq + [(x, y)]))
  }

  lemma EqKeeps(deps: Deps, props: Props, n: nat, x: VarId, y: VarId)
    requires WellFormed(deps, props, n) && x < n && y < n
    ensures WellFormed(AddEq(deps, x, y), props.(eq := props.eq + 1), n)
  {
    CustomsKept(deps, AddEq(deps, x, y), props);
    assert Subscribed(AddEq(deps, x, y), Eq(|deps.props.eq|), x);
  }

  /** The tables after `leq_impl` registers `(x, y)`, subscribed by both. */
  function AddLeq(deps: Deps, x: VarId, y: VarId): Deps
    requires x < |deps.vars| && y < |deps.vars|
  {
    var id := Leq(|deps.props.leq|);
    Deps(Subscribe(Subscribe(deps.vars, x, id), y, id), deps.props.(leq := deps.props.leq + [(x, y)]))
  }

  lemma LeqKeeps(deps: Deps, props: Props, n: nat, x: VarId, y: VarId)
    requires WellFormed(deps, props, n) && x < n && y < n
    ensures WellFormed(AddLeq(deps, x, y), props.(leq := props.leq + 1), n)
  {
    CustomsKept(deps, AddLeq(deps, x, y), props);
  }

  /**
   * What `propagator_impl` relies on from a boxed propagator given with the variables `xs`:
   * once every variable of `xs` is set, a successful run leaves only assignments that
   * satisfy its constraint.
   */
  ghost predicate DecidesOnceSet(c: CustomProp, xs: seq<VarId>) {
    forall vs: Vars {:trigger c.run(vs)} ::
      c.run(vs).Ok? && (forall j :: 0 <= j < |xs| ==> xs[j] < |vs.doms| && IsSet(vs.doms[xs[j]])) ==>
        forall a :: InDoms(a, c.run(vs).value.doms) ==> c.holds(a)
  }

  /** The tables after `propagator_impl` subscribes a new custom propagator to every variable of `xs`. */
  function AddCustom(deps: Deps, props: Props, xs: seq<VarId>): Deps
    requires IdsIn(xs, |deps.vars|)
  {
    Deps(SubscribeAll(deps.vars, xs, Custom(|props.custom|)), deps.props)
  }

  lemma CustomKeeps(deps: Deps, props: Props, n: nat, c: CustomProp, xs: seq<VarId>)
    requires WellFormed(deps, props, n) && IdsIn(xs, n) && CustomOk(c) && DecidesOnceSet(c, xs)
    ensures WellFormed(AddCustom(deps, props, xs), props.(custom := props.custom + [c]), n)
  {
    var deps' := AddCustom(deps, props, xs);
    var props' := props.(custom := props.custom + [c]);
    var k := |props.custom|;
    CustomsKept(deps, deps', props);
    RowsValid(deps, props, deps', props', n, Custom(k));
    forall vs: Vars | c.run(vs).Ok? && (forall v: VarId :: Subscribed(deps', Custom(k), v) ==> v < |vs.doms| && IsSet(vs.doms[v]))
      ensures forall a :: InDoms(a, c.run(vs).value.doms) ==> c.holds(a)
    {
      forall j | 0 <= j < |xs|
        ensures xs[j] < |vs.doms| && IsSet(vs.doms[xs[j]])
      {
        assert xs[j] in xs;
        assert Subscribed(deps', Custom(k), xs[j]);
      }
    }
    assert CustomChecks(deps', k, c);
  }

  /** The tables after a new variable: one more, empty, subscription row. */
  function AddRow(deps: Deps): Deps {
    Deps(deps.vars + [[]], deps.props)
  }

  // ----- the model -----

  /** `Model`: the declared variables, the propagators and their subscription tables. */
  class Model {
    var vars: seq<Var>
    var props: Props
    var deps: Deps

    /** The tables fit the variables and every propagator is subscribed as the search expects. */
    ghost predicate Valid()
      reads this
    {
      WellFormed(deps, props, |vars|)
    }

    /** `Model::new`: no variable and no propagator. */
    constructor ()
      ensures vars == [] && props == Props(0, 0, 0, 0, 0, 0, [])
      ensures deps == Deps([], DepsProps([], [], [], [], [], []))
      ensures Valid()
    {
      vars := [];
      props := Props(0, 0, 0, 0, 0, 0, []);
      deps := Deps([], DepsProps([], [], [], [], [], []));
    }

    /** `new_var_impl`: appends `[min, max]` with an empty subscription row; its id is the old count. */
    method NewVarImpl(min: int, max: int) returns (id: VarId)
      requires Valid()
      modifies this
      ensures id == |old(vars)| && vars == old(vars) + [Var(min, max)]
      ensures deps == AddRow(old(deps)) && props == old(props)
      ensures Valid()
    {
      id := |vars|;
      NewVarKeeps(deps, props, |vars|);
      vars := vars + [Var(min, max)];
      deps := AddRow(deps);
    }

    /** `new_var_binary_impl`: a new variable over `[0, 1]`. */
    method NewVarBinaryImpl() returns (id: VarId)
      requires Valid()
      modifies this
      ensures id == |old(vars)| && vars == old(vars) + [Var(0, 1)]
      ensures deps == AddRow(old(deps)) && props == old(props)
      ensures Valid()
    {
      id := NewVarImpl(0, 1);
    }

    /** `cst_impl`: a new variable set to `value`. */
    method CstImpl(value: int) returns (id: VarId)
      requires Valid()
      modifies this
      ensures id == |old(vars)| && vars == old(vars) + [Var(value, value)] && IsSet(vars[id])
      ensures deps == AddRow(old(deps)) && props == old(props)
      ensures Valid()
    {
      id := NewVarImpl(value, value);
    }

    /** `new_vars_impl`: `n` new variables over `[min, max]`, with consecutive ids. */
    method NewVarsImpl(n: nat, min: int, max: int) returns (ids: seq<VarId>)
      requires Valid()
      modifies this
      ensures |ids| == n && forall k :: 0 <= k < n ==> ids[k] == |old(vars)| + k
      ensures |vars| == |old(vars)| + n && vars[..|old(vars)|] == old(vars)
      ensures forall v :: |old(vars)| <= v < |vars| ==> vars[v] == Var(min, max)
      ensures |deps.vars| == |old(deps.vars)| + n && deps.vars[..|old(deps.vars)|] == old(deps.vars)
      ensures forall v :: |old(deps.vars)| <= v < |deps.vars| ==> deps.vars[v] == []
      ensures deps.props == old(deps.props) && props == old(props)
      ensures Valid()
    {
      ids := [];
      while |ids| < n
        invariant |ids| <= n && forall k :: 0 <= k < |ids| ==> ids[k] == |old(vars)| + k
        invariant |vars| == |old(vars)| + |ids| && vars[..|old(vars)|] == old(vars)
        invariant forall v :: |old(vars)| <= v < |vars| ==> vars[v] == Var(min, max)
        invariant |deps.vars| == |old(deps.vars)| + |ids| && deps.vars[..|old(deps.vars)|] == old(deps.vars)
        invariant forall v :: |old(deps.vars)| <= v < |deps.vars| ==> deps.vars[v] == []
        invariant deps.props == old(deps.props) && props == old(props)
        invariant Valid()
      {
        var id := NewVarImpl(min, max);
        ids := ids + [id];
      }
    }

    /** `new_vars_binary_impl`: `n` new variables over `[0, 1]`. */
    method NewVarsBinaryImpl(n: nat) returns (ids: seq<VarId>)
      requires Valid()
      modifies this
      ensures |ids| == n && forall k :: 0 <= k < n ==> ids[k] == |old(vars)| + k
      ensures |vars| == |old(vars)| + n && vars[..|old(vars)|] == old(vars)
      ensures forall v :: |old(vars)| <= v < |vars| ==> vars[v] == Var(0, 1)
      ensures |deps.vars| == |old(deps.vars)| + n && deps.vars[..|old(deps.vars)|] == old(deps.vars)
      ensures forall v :: |old(deps.vars)| <= v < |deps.vars| ==> deps.vars[v] == []
      ensures deps.props == old(deps.props) && props == old(props)
      ensures Valid()
    {
      ids := NewVarsImpl(n, 0, 1);
    }
 
    /**
     * `scale_pos`: a new variable `s` over `[x.min * coef, x.max * coef]` and a `PropScalePos`
     * on `(x, s, coef)`, subscribed by both. The new domain admits `coef * x` for every value
     * of `x`.
     */
    method ScalePosImpl(x: VarId, coef: int) returns (s: VarId)
      requires Valid() && x < |vars| && coef > 0
      modifies this
      ensures s == |old(vars)| && vars == old(vars) + [Var(old(vars)[x].min * coef, old(vars)[x].max * coef)]
      ensures props == old(props).(scalePos := old(props).scalePos + 1)
      ensures deps == AddScalePos(AddRow(old(deps)), x, s, coef)
      ensures Valid()
      ensures forall a :: InDoms(a, old(vars)) ==> InDoms(a + [coef * a[x]], vars)
    {
      var d := vars[x];
      s := NewVarImpl(d.min * coef, d.max * coef);
      ScalePosKeeps(deps, props, |vars|, x, s, coef);
      props := props.(scalePos := props.scalePos + 1);
      deps := AddScalePos(deps, x, s, coef);
      forall a | InDoms(a, old(vars))
        ensures InDoms(a + [coef * a[x]], vars)
      {
        ScaledInside(d, a[x], coef);
      }
    }

    /**
     * `scale_neg`: a new variable `s` over `[x.max * coef, x.min * coef]` and a `PropScaleNeg`
     * on `(x, s, coef)`, subscribed by both. The new domain admits `coef * x` for every value
     * of `x`.
     */
    method ScaleNegImpl(x: VarId, coef: int) returns (s: VarId)
      requires Valid() && x < |vars| && coef < 0
      modifies this
      ensures s == |old(vars)| && vars == old(vars) + [Var(old(vars)[x].max * coef, old(vars)[x].min * coef)]
      ensures props == old(props).(scaleNeg := old(props).scaleNeg + 1)
      ensures deps == AddScaleNeg(AddRow(old(deps)), x, s, coef)
      ensures Valid()
      ensures forall a :: InDoms(a, old(vars)) ==> InDoms(a + [coef * a[x]], vars)
    {
      var d := vars[x];
      s := NewVarImpl(d.max * coef, d.min * coef);
      ScaleNegKeeps(deps, props, |vars|, x, s, coef);
      props := props.(scaleNeg := props.scaleNeg + 1);
      deps := AddScaleNeg(deps, x, s, coef);
      forall a | InDoms(a, old(vars))
        ensures InDoms(a + [coef * a[x]], vars)
      {
        ScaledInside(d, a[x], coef);
      }
    }

    /** `opposite_impl`: `scale_neg` by `-1`, over `[-x.max, -x.min]`. */
    method OppositeImpl(x: VarId) returns (s: VarId)
      requires Valid() && x < |vars|
      modifies this
      ensures s == |old(vars)| && vars == old(vars) + [Var(-old(vars)[x].max, -old(vars)[x].min)]
      ensures props == old(props).(scaleNeg := old(props).scaleNeg + 1)
      ensures deps == AddScaleNeg(AddRow(old(deps)), x, s, -1)
      ensures Valid()
      ensures forall a :: InDoms(a, old(vars)) ==> InDoms(a + [-a[x]], vars)
    {
      s := ScaleNegImpl(x, -1);
      forall a | InDoms(a, old(vars))
        ensures InDoms(a + [-a[x]], vars)
      {
        assert -1 * a[x] == -a[x];
      }
    }

    /**
     * `scale_impl`: a zero coefficient gives the constant 0 with no propagator; a negative one
     * goes to `scale_neg`, a positive one to `scale_pos`. Either way the new domain admits
     * `coef * x` for every value of `x`.
     */
    method ScaleImpl(x: VarId, coef: int) returns (s: VarId)
      requires Valid() && x < |vars|
      modifies this
      ensures s == |old(vars)| && |vars| == |old(vars)| + 1 && vars[..s] == old(vars)
      ensures coef == 0 ==> vars[s] == Var(0, 0) && props == old(props) && deps == AddRow(old(deps))
      ensures coef < 0 ==> props == old(props).(scaleNeg := old(props).scaleNeg + 1)
                           && deps == AddScaleNeg(AddRow(old(deps)), x, s, coef)
      ensures coef > 0 ==> props == old(props).(scalePos := old(props).scalePos + 1)
                           && deps == AddScalePos(AddRow(old(deps)), x, s, coef)
      ensures Valid() && Defines(deps, vars, s, x, coef) && ScalingsOnly(old(deps), old(props), deps, props)
      ensures forall a :: InDoms(a, old(vars)) ==> InDoms(a + [coef * a[x]], vars)
    {
      if coef < 0 {
        s := ScaleNegImpl(x, coef);
      } else if coef == 0 {
        s := CstImpl(0);
      } else {
        s := ScalePosImpl(x, coef);
      }
      assert vars[..s] == old(vars);
      assert coef > 0 ==> deps.props.scalePos[|deps.props.scalePos| - 1] == (x, s, coef);
      assert coef < 0 ==> deps.props.scaleNeg[|deps.props.scaleNeg| - 1] == (x, s, coef);
    }

    /**
     * `plus_impl`: a new variable `p` over `[x.min + y.min, x.max + y.max]` and a `PropPlus` on
     * `(p, (x, y))`, subscribed by `x` and `y` only. The new domain admits `x + y` for every
     * pair of values.
     */
    method PlusImpl(x: VarId, y: VarId) returns (p: VarId)
      requires Valid() && x < |vars| && y < |vars|
      modifies this
      ensures p == |old(vars)|
      ensures vars == old(vars) + [Var(old(vars)[x].min + old(vars)[y].min, old(vars)[x].max + old(vars)[y].max)]
      ensures props == old(props).(plus := old(props).plus + 1)
      ensures deps == AddPlus(AddRow(old(deps)), p, x, y)
      ensures Valid()
      ensures forall a :: InDoms(a, old(vars)) ==> InDoms(a + [a[x] + a[y]], vars)
    {
      var dx, dy := vars[x], vars[y];
      p := NewVarImpl(dx.min + dy.min, dx.max + dy.max);
      PlusKeeps(deps, props, |vars|, p, x, y);
      props := props.(plus := props.plus + 1);
      deps := AddPlus(deps, p, x, y);
      forall a | InDoms(a, old(vars))
        ensures InDoms(a + [a[x] + a[y]], vars)
      {
        assert Contains(dx, a[x]) && Contains(dy, a[y]);
      }
    }

    /**
     * `minus_impl`: `plus` of `x` and the opposite of `y`: two new variables, over
     * `[-y.max, -y.min]` and `[x.min - y.max, x.max - y.min]`; the second is returned. The new
     * domains admit `-y` and `x - y` for every pair of values.
     */
    method MinusImpl(x: VarId, y: VarId) returns (d: VarId)
      requires Valid() && x < |vars| && y < |vars|
      modifies this
      ensures d == |old(vars)| + 1
      ensures vars == old(vars) + [Var(-old(vars)[y].max, -old(vars)[y].min),
                                   Var(old(vars)[x].min - old(vars)[y].max, old(vars)[x].max - old(vars)[y].min)]
      ensures props == old(props).(scaleNeg := old(props).scaleNeg + 1, plus := old(props).plus + 1)
      ensures deps == AddPlus(AddRow(AddScaleNeg(AddRow(old(deps)), y, d - 1, -1)), d, x, d - 1)
      ensures Valid()
      ensures forall a :: InDoms(a, old(vars)) ==> InDoms(a + [-a[y], a[x] - a[y]], vars)
    {
      ghost var (v0, e0) := (vars, deps);
      var yOpposite := OppositeImpl(y);
      ghost var (v1, e1) := (vars, deps);
      assert v1[x] == v0[x] && v1[yOpposite] == Var(-v0[y].max, -v0[y].min);
      d := PlusImpl(x, yOpposite);
      assert yOpposite == d - 1 && e1 == AddScaleNeg(AddRow(e0), y, d - 1, -1);
      MinusExtends(v0, v1, vars, x, y, yOpposite);
    }

    /** `eq_impl`: a `PropEq` on `(x, y)`, subscribed by both; no variable is added. */
    method EqImpl(x: VarId, y: VarId)
      requires Valid() && x < |vars| && y < |vars|
      modifies this
      ensures vars == old(vars) && props == old(props).(eq := old(props).eq + 1)
      ensures deps == AddEq(old(deps), x, y)
      ensures Valid()
    {
      EqKeeps(deps, props, |vars|, x, y);
      props := props.(eq := props.eq + 1);
      deps := AddEq(deps, x, y);
    }

    /** `leq_impl`: a `PropLeq` on `(x, y)`, subscribed by both; no variable is added. */
    method LeqImpl(x: VarId, y: VarId)
      requires Valid() && x < |vars| && y < |vars|
      modifies this
      ensures vars == old(vars) && props == old(props).(leq := old(props).leq + 1)
      ensures deps == AddLeq(old(deps), x, y)
      ensures Valid()
    {
      LeqKeeps(deps, props, |vars|, x, y);
      props := props.(leq := props.leq + 1);
      deps := AddLeq(deps, x, y);
    }

    /**
     * `sum_impl`: panics on an empty slice; otherwise a new variable `s` over
     * `[Σ x.min, Σ x.max]` and a `PropSum` on `(s, xs)`, subscribed by every term in turn but
     * not by `s`. The new domain admits the sum of every assignment's terms.
     */
    method SumImpl(xs: seq<VarId>) returns (s: VarId)
      requires Valid() && xs != [] && IdsIn(xs, |vars|)
      modifies this
      ensures s == |old(vars)| && vars == old(vars) + [Var(SumMins(old(vars), xs), SumMaxs(old(vars), xs))]
      ensures props == old(props).(sum := old(props).sum + 1)
      ensures deps == AddSum(AddRow(old(deps)), s, xs)
      ensures Valid()
      ensures forall a :: InDoms(a, old(vars)) ==> InDoms(a + [SumOf(a, xs)], vars)
    {
      var min := SumMins(vars, xs);
      var max := SumMaxs(vars, xs);
      s := NewVarImpl(min, max);
      ghost var base := deps;
      ghost var n := |vars|;
      assert IdsIn(xs, n);
      SumKeeps(deps, props, n, s, xs);
      var id := Sum(props.sum);
      props := props.(sum := props.sum + 1);
      deps := deps.(props := deps.props.(sum := deps.props.sum + [(s, xs)]));
      ghost var vars1, props1 := vars, props;
      var k := 0;
      while k < |xs|
        invariant k <= |xs| && |deps.vars| == n && vars == vars1 && props == props1
        invariant deps == Deps(SubscribeAll(base.vars, xs[..k], id), base.props.(sum := base.props.sum + [(s, xs)]))
      {
        assert xs[..k + 1][..k] == xs[..k];
        deps := deps.(vars := deps.vars[xs[k] := deps.vars[xs[k]] + [id]]);
        k := k + 1;
      }
      assert xs[..k] == xs;
      forall a | InDoms(a, old(vars))
        ensures InDoms(a + [SumOf(a, xs)], vars)
      {
        SumBounds(a, old(vars), xs);
        SumOfPrefix(a, [SumOf(a, xs)], xs);
      }
    }

    /**
     * `propagator_impl`: subscribes a boxed propagator to every variable of `xs`, then stores
     * it as the next custom propagator; no variable is added.
     */
    method PropagatorImpl(c: CustomProp, xs: seq<VarId>)
      requires Valid() && IdsIn(xs, |vars|) && CustomOk(c) && DecidesOnceSet(c, xs)
      modifies this
      ensures vars == old(vars) && props == old(props).(custom := old(props).custom + [c])
      ensures deps == AddCustom(old(deps), old(props), xs)
      ensures Valid()
    {
      var id := Custom(|props.custom|);
      CustomKeeps(deps, props, |vars|, c, xs);
      ghost var base := deps;
      var k := 0;
      while k < |xs|
        invariant k <= |xs| && deps == Deps(SubscribeAll(base.vars, xs[..k], id), base.props)
        invariant vars == old(vars) && props == old(props)
      {
        assert xs[..k + 1][..k] == xs[..k];
        deps := deps.(vars := deps.vars[xs[k] := deps.vars[xs[k]] + [id]]);
        k := k + 1;
      }
      assert xs[..k] == xs;
      props := props.(custom := props.custom + [c]);
    }

    /**
     * The `map(scale_impl).collect()` of `linear_impl`: scales each `x` by its coefficient,
     * pairing them up to the shorter of the two slices. Each term is a new variable that is
     * `coef * x` in every solution, and the new domains admit the scaled values for every
     * assignment.
     */
    method ScaleTerms(xs: seq<VarId>, coefs: seq<int>) returns (terms: seq<VarId>)
      requires Valid() && forall i :: 0 <= i < |xs| && i < |coefs| ==> xs[i] < |vars|
      modifies this
      ensures |terms| == PairCount(xs, coefs) && TermsInv(old(vars), deps, vars, terms, xs, coefs)
      ensures Valid() && ScalingsOnly(old(deps), old(props), deps, props)
    {
      var n := PairCount(xs, coefs);
      ghost var v0 := vars;
      ghost var (d0, p0) := (deps, props);
      terms := [];
      var k := 0;
      assert TermsInv(v0, deps, vars, terms, xs, coefs) by {
        assert vars[..|v0|] == v0;
      }
      while k < n
        invariant k <= n && |terms| == k && Valid() && ScalingsOnly(d0, p0, deps, props)
        invariant TermsInv(v0, deps, vars, terms, xs, coefs)
      {
        ghost var (deps0, props0, vars0) := (deps, props, vars);
        var t := ScaleImpl(xs[k], coefs[k]);
        TermsStep(v0, deps0, vars0, deps, vars, terms, xs, coefs, t);
        ScalingsOnlyTrans(d0, p0, deps0, props0, deps, props);
        terms := terms + [t];
        k := k + 1;
      }
    }

    /**
     * `linear_impl`: the scaled terms of `ScaleTerms`, summed by `sum_impl`, which panics when
     * there is no pair. The new domains admit the scaled values and their sum for every
     * assignment, and in every solution of the model the result equals `Σ coef * x`.
     */
    method LinearImpl(xs: seq<VarId>, coefs: seq<int>) returns (r: VarId)
      requires Valid() && xs != [] && coefs != []
      requires forall i :: 0 <= i < |xs| && i < |coefs| ==> xs[i] < |vars|
      modifies this
      ensures var n := PairCount(xs, coefs);
              r == |vars| - 1 && |vars| == |old(vars)| + n + 1 && vars[..|old(vars)|] == old(vars)
      ensures Valid()
      ensures var n := PairCount(xs, coefs);
              forall a :: InDoms(a, old(vars)) ==>
                InDoms(a + Products(a, xs[..n], coefs[..n]) + [Linear(a, xs[..n], coefs[..n])], vars)
      ensures var n := PairCount(xs, coefs);
              forall a :: InDoms(a, vars) && IsSolution(deps, props, a) ==> a[r] == Linear(a, xs[..n], coefs[..n])
      ensures props == old(props).(scalePos := props.scalePos, scaleNeg := props.scaleNeg, sum := old(props).sum + 1)
      ensures deps.props == old(deps.props).(scalePos := deps.props.scalePos, scaleNeg := deps.props.scaleNeg,
                                             sum := old(deps.props.sum) + [(r, Consecutive(|old(vars)|, PairCount(xs, coefs)))])
      ensures ModelGrows(old(deps), old(props), deps, props)
      ensures forall a :: IsSolution(deps, props, a) ==> IsSolution(old(deps), old(props), a)
    {
      var n := PairCount(xs, coefs);
      ghost var (v0, d0, p0) := (vars, deps, props);
      var terms := ScaleTerms(xs, coefs);
      ghost var (deps1, props1, vars1) := (deps, props, vars);
      assert IdsIn(terms, |vars|);
      r := SumImpl(terms);
      LinearDone(v0, deps1, vars1, deps, props, vars, terms, xs, coefs, r);
      TermsConsecutive(v0, deps1, vars1, terms, xs, coefs);
      LinearFrame(d0, p0, deps1, props1, deps, props, r, terms);
    }

    /**
     * `search`: runs the searcher over the model's tables with objective `obj`. A solution lies in
     * the declared domains and satisfies every propagator; none comes back only when the model
     * has no solution; in exhaustive mode the solution found has the least objective value.
     */
    method Search(obj: VarId, isExhaustive: bool, e: Enumerator) returns (r: Option<Solution>)
      requires Valid() && obj < |vars|
      ensures r.Some? ==> InDoms(r.value.values, vars) && IsSolution(deps, props, r.value.values)
      ensures r.None? ==> forall a :: InDoms(a, vars) ==> !IsSolution(deps, props, a)
      ensures isExhaustive && r.Some? ==>
                forall a :: InDoms(a, vars) && IsSolution(deps, props, a) ==> r.value.values[obj] <= a[obj]
    {
      r := SearcherSearch(Searcher(deps, obj, isExhaustive), vars, props, e);
    }

    /**
     * `solve_impl`: adds the constant 0 as a dummy objective, then searches non-exhaustively.
     * The result is a solution of the extended model, or there is none.
     */
    method SolveImpl(e: Enumerator) returns (r: Option<Solution>)
      requires Valid()
      modifies this
      ensures vars == old(vars) + [Var(0, 0)] && deps == AddRow(old(deps)) && props == old(props)
      ensures r.Some? ==> InDoms(r.value.values, vars) && IsSolution(deps, props, r.value.values)
      ensures r.None? ==> forall a :: InDoms(a, vars) ==> !IsSolution(deps, props, a)
    {
      var obj := CstImpl(0);
      r := Search(obj, false, e);
    }

    /** `minimize_impl`: an exhaustive search; a solution found has the least value of `obj` among all solutions. */
    method MinimizeImpl(obj: VarId, e: Enumerator) returns (r: Option<Solution>)
      requires Valid() && obj < |vars|
      ensures r.Some? ==> InDoms(r.value.values, vars) && IsSolution(deps, props, r.value.values)
      ensures r.None? ==> forall a :: InDoms(a, vars) ==> !IsSolution(deps, props, a)
      ensures r.Some? ==>
                forall a :: InDoms(a, vars) && IsSolution(deps, props, a) ==> r.value.values[obj] <= a[obj]
    {
      r := Search(obj, true, e);
    }

    /**
     * `maximize_impl`: minimizes the opposite of `obj`, added by `scale_impl(obj, -1)`. A solution
     * found has the greatest value of `obj` among all solutions of the extended model.
     */
    method MaximizeImpl(obj: VarId, e: Enumerator) returns (r: Option<Solution>)
      requires Valid() && obj < |vars|
      modifies this
      ensures |vars| == |old(vars)| + 1 && vars[..|old(vars)|] == old(vars)
      ensures props == old(props).(scaleNeg := old(props).scaleNeg + 1)
      ensures deps == AddScaleNeg(AddRow(old(deps)), obj, |old(vars)|, -1)
      ensures r.Some? ==> InDoms(r.value.values, vars) && IsSolution(deps, props, r.value.values)
      ensures r.None? ==> forall a :: InDoms(a, vars) ==> !IsSolution(deps, props, a)
      ensures r.Some? ==>
                forall a :: InDoms(a, vars) && IsSolution(deps, props, a) ==> a[obj] <= r.value.values[obj]
    {
      var opposite := ScaleImpl(obj, -1);
      r := Search(opposite, true, e);
      if r.Some? {
        forall a | InDoms(a, vars) && IsSolution(deps, props, a)
          ensures a[obj] <= r.value.values[obj]
        {
          DefinesHolds(deps, props, vars, opposite, obj, -1, a);
          DefinesHolds(deps, props, vars, opposite, obj, -1, r.value.values);
        }
      }
    }
  }

  /** `coef * v` lies between the scaled bounds of a domain holding `v`, in the order the sign of `coef` gives. */
  lemma ScaledInside(d: Var, v: int, coef: int)
    requires Contains(d, v)
    ensures coef > 0 ==> d.min * coef <= coef * v <= d.max * coef
    ensures coef < 0 ==> d.max * coef <= coef * v <= d.min * coef
  {
    if coef > 0 {
      MulMono(d.min, v, coef);
      MulMono(v, d.max, coef);
    } else if coef < 0 {
      MulMono(d.min, v, -coef);
      MulMono(v, d.max, -coef);
    }
  }

  lemma MulMono(a: int, b: int, c: nat)
    requires a <= b
    ensures a * c <= b * c
  {
  }

  /** Extending an assignment does not change the sum over ids it already covers. */
  lemma {:induction false} SumOfPrefix(a: seq<int>, b: seq<int>, xs: seq<VarId>)
    requires IdsIn(xs, |a|)
    ensures IdsIn(xs, |a + b|) && SumOf(a + b, xs) == SumOf(a, xs)
    decreases |xs|
  {
    if xs != [] {
      SumOfPrefix(a, b, xs[..|xs| - 1]);
    }
  }

  // ----- linear expressions -----

  /** The number of `(x, coef)` pairs a zip of the two slices yields. */
  function PairCount(xs: seq<VarId>, coefs: seq<int>): (n: nat)
    ensures n <= |xs| && n <= |coefs| && (n == |xs| || n == |coefs|)
  {
    if |xs| < |coefs| then |xs| else |coefs|
  }

  /** `Σ coefs[i] * a[xs[i]]`. */
  function Linear(a: seq<int>, xs: seq<VarId>, coefs: seq<int>): int
    requires |xs| == |coefs| && IdsIn(xs, |a|)
    decreases |xs|
  {
    if xs == [] then 0
    else Linear(a, xs[..|xs| - 1], coefs[..|coefs| - 1]) + coefs[|coefs| - 1] * a[xs[|xs| - 1]]
  }

  /** The scaled values `coefs[i] * a[xs[i]]`, in order. */
  function Products(a: seq<int>, xs: seq<VarId>, coefs: seq<int>): (ps: seq<int>)
    requires |xs| == |coefs| && IdsIn(xs, |a|)
    ensures |ps| == |xs| && forall i :: 0 <= i < |xs| ==> ps[i] == coefs[i] * a[xs[i]]
  {
    seq(|xs|, i requires 0 <= i < |xs| => coefs[i] * a[xs[i]])
  }

  /** Variable `t` is `coef * x` in every solution: a scaling propagator links them, or `t` is the constant 0. */
  predicate Defines(deps: Deps, vars: seq<Var>, t: VarId, x: VarId, coef: int) {
    t < |vars| && x < |vars|
    && (coef > 0 ==> (x, t, coef) in deps.props.scalePos)
    && (coef < 0 ==> (x, t, coef) in deps.props.scaleNeg)
    && (coef == 0 ==> vars[t] == Var(0, 0))
  }

  /** Growing the tables and the variables keeps a definition. */
  lemma DefinesKept(deps: Deps, vars: seq<Var>, deps': Deps, vars': seq<Var>, t: VarId, x: VarId, coef: int)
    requires Defines(deps, vars, t, x, coef)
    requires |vars| <= |vars'| && vars'[..|vars|] == vars
    requires |deps.props.scalePos| <= |deps'.props.scalePos| && deps'.props.scalePos[..|deps.props.scalePos|] == deps.props.scalePos
    requires |deps.props.scaleNeg| <= |deps'.props.scaleNeg| && deps'.props.scaleNeg[..|deps.props.scaleNeg|] == deps.props.scaleNeg
    ensures Defines(deps', vars', t, x, coef)
  {
    assert vars'[t] == vars[t];
    if coef > 0 {
      var j :| 0 <= j < |deps.props.scalePos| && deps.props.scalePos[j] == (x, t, coef);
      assert deps'.props.scalePos[j] == (x, t, coef);
    } else if coef < 0 {
      var j :| 0 <= j < |deps.props.scaleNeg| && deps.props.scaleNeg[j] == (x, t, coef);
      assert deps'.props.scaleNeg[j] == (x, t, coef);
    }
  }

  /** In a solution inside the domains, a defined variable takes its defining value. */
  lemma DefinesHolds(deps: Deps, props: Props, vars: seq<Var>, t: VarId, x: VarId, coef: int, a: seq<int>)
    requires Defines(deps, vars, t, x, coef) && InDoms(a, vars) && IsSolution(deps, props, a)
    ensures a[t] == coef * a[x]
  {
    if coef > 0 {
      var j :| 0 <= j < |deps.props.scalePos| && deps.props.scalePos[j] == (x, t, coef);
      assert Holds(deps, props, ScalePos(j), a);
    } else if coef < 0 {
      var j :| 0 <= j < |deps.props.scaleNeg| && deps.props.scaleNeg[j] == (x, t, coef);
      assert Holds(deps, props, ScaleNeg(j), a);
    } else {
      assert Contains(vars[t], a[t]);
    }
  }

  /** When each term holds its scaled value, the terms sum to the linear expression. */
  lemma {:induction false} LinearSum(a: seq<int>, b: seq<int>, terms: seq<VarId>, xs: seq<VarId>, coefs: seq<int>)
    requires |terms| == |xs| == |coefs| && IdsIn(xs, |a|) && IdsIn(terms, |b|)
    requires forall i :: 0 <= i < |terms| ==> b[terms[i]] == coefs[i] * a[xs[i]]
    ensures SumOf(b, terms) == Linear(a, xs, coefs)
    decreases |terms|
  {
    if terms != [] {
      var m := |terms| - 1;
      LinearSum(a, b, terms[..m], xs[..m], coefs[..m]);
    }
  }

  /** Appending the next scaled value extends the products by one. */
  lemma ProductsStep(a: seq<int>, xs: seq<VarId>, coefs: seq<int>, k: nat)
    requires k < |xs| && k < |coefs| && forall i :: 0 <= i <= k ==> xs[i] < |a|
    ensures var a' := a + Products(a, xs[..k], coefs[..k]);
            a' + [coefs[k] * a'[xs[k]]] == a + Products(a, xs[..k + 1], coefs[..k + 1])
  {
    var a' := a + Products(a, xs[..k], coefs[..k]);
    assert a'[xs[k]] == a[xs[k]];
  }

  /** The scaling tables only grow. */
  predicate ScalingsGrow(deps: Deps, deps': Deps) {
    |deps.props.scalePos| <= |deps'.props.scalePos| && deps'.props.scalePos[..|deps.props.scalePos|] == deps.props.scalePos
    && |deps.props.scaleNeg| <= |deps'.props.scaleNeg| && deps'.props.scaleNeg[..|deps.props.scaleNeg|] == deps.props.scaleNeg
  }

  /** Growth of the scaling tables is transitive. */
  lemma ScalingsGrowTrans(d0: Deps, d1: Deps, d2: Deps)
    requires ScalingsGrow(d0, d1) && ScalingsGrow(d1, d2)
    ensures ScalingsGrow(d0, d2)
  {
    assert d2.props.scalePos[..|d0.props.scalePos|] == d2.props.scalePos[..|d1.props.scalePos|][..|d0.props.scalePos|];
    assert d2.props.scaleNeg[..|d0.props.scaleNeg|] == d2.props.scaleNeg[..|d1.props.scaleNeg|][..|d0.props.scaleNeg|];
  }

  /**
   * `deps'` and `props'` extend `deps` and `props`: every propagator table keeps its entries as
   * a prefix, and every variable keeps its subscriptions.
   */
  ghost predicate ModelGrows(deps: Deps, props: Props, deps': Deps, props': Props) {
    SubscriptionsGrow(deps, deps') && ScalingsGrow(deps, deps')
    && deps.props.plus <= deps'.props.plus && deps.props.sum <= deps'.props.sum
    && deps.props.eq <= deps'.props.eq && deps.props.leq <= deps'.props.leq
    && props.custom <= props'.custom
  }

  /** The model grows, and only its scaling tables and their counts change. */
  ghost predicate ScalingsOnly(deps: Deps, props: Props, deps': Deps, props': Props) {
    props' == props.(scalePos := props'.scalePos, scaleNeg := props'.scaleNeg)
    && deps'.props == deps.props.(scalePos := deps'.props.scalePos, scaleNeg := deps'.props.scaleNeg)
    && ModelGrows(deps, props, deps', props')
  }

  lemma ScalingsOnlyTrans(d0: Deps, p0: Props, d1: Deps, p1: Props, d2: Deps, p2: Props)
    requires ScalingsOnly(d0, p0, d1, p1) && ScalingsOnly(d1, p1, d2, p2)
    ensures ScalingsOnly(d0, p0, d2, p2)
  {
    ModelGrowsTrans(d0, p0, d1, p1, d2, p2);
  }

  /** Extending the model is transitive. */
  lemma ModelGrowsTrans(d0: Deps, p0: Props, d1: Deps, p1: Props, d2: Deps, p2: Props)
    requires ModelGrows(d0, p0, d1, p1) && ModelGrows(d1, p1, d2, p2)
    ensures ModelGrows(d0, p0, d2, p2)
  {
    ScalingsGrowTrans(d0, d1, d2);
  }

  /**
   * Extending the model only adds constraints: a solution of the extended model satisfies
   * every propagator declared before.
   */
  lemma GrowsKeepsSolutions(deps: Deps, props: Props, deps': Deps, props': Props, a: seq<int>)
    requires ModelGrows(deps, props, deps', props') && IsSolution(deps', props', a)
    ensures IsSolution(deps, props, a)
  {
    forall id | ValidProp(deps, props, id)
      ensures Holds(deps, props, id, a)
    {
      assert ValidProp(deps', props', id) && Holds(deps', props', id, a);
    }
  }

  /** The terms of `TermsInv` are the consecutive ids after the original variables. */
  lemma TermsConsecutive(v0: seq<Var>, deps: Deps, vars: seq<Var>, terms: seq<VarId>, xs: seq<VarId>, coefs: seq<int>)
    requires TermsInv(v0, deps, vars, terms, xs, coefs)
    ensures terms == Consecutive(|v0|, |terms|)
  {
  }

  /** The variable ids `first`, `first + 1`, …, `first + n - 1`. */
  function Consecutive(first: nat, n: nat): (r: seq<VarId>)
    ensures |r| == n && forall i :: 0 <= i < n ==> r[i] == first + i
  {
    seq(n, i requires 0 <= i < n => first + i)
  }

  /** Registering a new variable and a sum over existing ones extends the model. */
  lemma SumGrows(deps: Deps, props: Props, s: VarId, xs: seq<VarId>)
    requires IdsIn(xs, |deps.vars| + 1)
    ensures ModelGrows(deps, props, AddSum(AddRow(deps), s, xs), props.(sum := props.sum + 1))
  {
  }

  /**
   * The tables of `linear_impl`: the scaled terms change only the scaling tables, and the sum
   * then adds a row and one entry, so the result extends the model it started from.
   */
  lemma LinearFrame(d0: Deps, p0: Props, deps1: Deps, props1: Props, deps: Deps, props: Props, r: VarId, terms: seq<VarId>)
    requires ScalingsOnly(d0, p0, deps1, props1) && IdsIn(terms, |deps1.vars| + 1)
    requires deps == AddSum(AddRow(deps1), r, terms) && props == props1.(sum := props1.sum + 1)
    ensures props == p0.(scalePos := props.scalePos, scaleNeg := props.scaleNeg, sum := p0.sum + 1)
    ensures deps.props == d0.props.(scalePos := deps.props.scalePos, scaleNeg := deps.props.scaleNeg,
                                    sum := d0.props.sum + [(r, terms)])
    ensures ModelGrows(d0, p0, deps, props)
    ensures forall a :: IsSolution(deps, props, a) ==> IsSolution(d0, p0, a)
  {
    SumGrows(deps1, props1, r, terms);
    ModelGrowsTrans(d0, p0, deps1, props1, deps, props);
    forall a | IsSolution(deps, props, a)
      ensures IsSolution(d0, p0, a)
    {
      GrowsKeepsSolutions(d0, p0, deps, props, a);
    }
  }

  /**
   * After scaling the first `|terms|` pairs from the variables `v0`: the terms are the new
   * variables, in order, each `coef * x` in every solution, and the new domains admit the
   * scaled values of every assignment.
   */
  ghost predicate TermsInv(v0: seq<Var>, deps: Deps, vars: seq<Var>, terms: seq<VarId>, xs: seq<VarId>, coefs: seq<int>) {
    |terms| <= |xs| && |terms| <= |coefs| && |vars| == |v0| + |terms| && vars[..|v0|] == v0
    && (forall i :: 0 <= i < |xs| && i < |coefs| ==> xs[i] < |v0|)
    && (forall i :: 0 <= i < |terms| ==> terms[i] == |v0| + i && Defines(deps, vars, terms[i], xs[i], coefs[i]))
    && (forall a :: InDoms(a, v0) ==> InDoms(a + Products(a, xs[..|terms|], coefs[..|terms|]), vars))
  }

  lemma TermsStep(v0: seq<Var>, deps0: Deps, vars0: seq<Var>, deps: Deps, vars: seq<Var>,
                  terms: seq<VarId>, xs: seq<VarId>, coefs: seq<int>, t: VarId)
    requires TermsInv(v0, deps0, vars0, terms, xs, coefs) && |terms| < |xs| && |terms| < |coefs|
    requires t == |vars0| && |vars| == |vars0| + 1 && vars[..t] == vars0
    requires Defines(deps, vars, t, xs[|terms|], coefs[|terms|]) && ScalingsGrow(deps0, deps)
    requires forall a :: InDoms(a, vars0) ==> InDoms(a + [coefs[|terms|] * a[xs[|terms|]]], vars)
    ensures TermsInv(v0, deps, vars, terms + [t], xs, coefs)
  {
    var k := |terms|;
    var ts := terms + [t];
    assert vars[..|v0|] == vars0[..|v0|];
    forall i | 0 <= i < |ts|
      ensures ts[i] == |v0| + i && Defines(deps, vars, ts[i], xs[i], coefs[i])
    {
      if i < k {
        DefinesKept(deps0, vars0, deps, vars, terms[i], xs[i], coefs[i]);
      }
    }
    forall a | InDoms(a, v0)
      ensures InDoms(a + Products(a, xs[..k + 1], coefs[..k + 1]), vars)
    {
      ProductsStep(a, xs, coefs, k);
      assert InDoms(a + Products(a, xs[..k], coefs[..k]), vars0);
    }
  }

  /** The two steps of `minus_impl` together admit `-y` and `x - y` for every assignment. */
  lemma MinusExtends(v0: seq<Var>, v1: seq<Var>, v2: seq<Var>, x: VarId, y: VarId, s: VarId)
    requires x < |v0| && y < |v0| && s == |v0| && |v1| == |v0| + 1
    requires forall a :: InDoms(a, v0) ==> InDoms(a + [-a[y]], v1)
    requires forall a :: InDoms(a, v1) ==> InDoms(a + [a[x] + a[s]], v2)
    ensures forall a :: InDoms(a, v0) ==> InDoms(a + [-a[y], a[x] - a[y]], v2)
  {
    forall a | InDoms(a, v0)
      ensures InDoms(a + [-a[y], a[x] - a[y]], v2)
    {
      var a1 := a + [-a[y]];
      assert InDoms(a1, v1);
      assert a1 + [a1[x] + a1[s]] == a + [-a[y], a[x] - a[y]];
    }
  }

  /** The linear expression's bounds and its value in every solution, once the terms are summed. */
  lemma LinearDone(v0: seq<Var>, deps1: Deps, vars1: seq<Var>, deps: Deps, props: Props, vars: seq<Var>,
                   terms: seq<VarId>, xs: seq<VarId>, coefs: seq<int>, r: VarId)
    requires |terms| == PairCount(xs, coefs) && TermsInv(v0, deps1, vars1, terms, xs, coefs)
    requires r == |vars1| && vars == vars1 + [Var(SumMins(vars1, terms), SumMaxs(vars1, terms))]
    requires ScalingsGrow(deps1, deps) && |deps.props.sum| > 0 && deps.props.sum[|deps.props.sum| - 1] == (r, terms)
    ensures var n := PairCount(xs, coefs);
            r == |vars| - 1 && |vars| == |v0| + n + 1 && vars[..|v0|] == v0
    ensures var n := PairCount(xs, coefs);
            forall a :: InDoms(a, v0) ==>
              InDoms(a + Products(a, xs[..n], coefs[..n]) + [Linear(a, xs[..n], coefs[..n])], vars)
    ensures var n := PairCount(xs, coefs);
            forall a :: InDoms(a, vars) && IsSolution(deps, props, a) ==> a[r] == Linear(a, xs[..n], coefs[..n])
  {
    assert vars[..|v0|] == vars1[..|v0|];
    LinearDoneBounds(v0, deps1, vars1, vars, terms, xs, coefs);
    LinearDoneSolves(v0, deps1, vars1, deps, props, vars, terms, xs, coefs, r);
  }

  /** Every assignment of the original variables extends, through the products and their sum, into the new domains. */
  lemma LinearDoneBounds(v0: seq<Var>, deps1: Deps, vars1: seq<Var>, vars: seq<Var>,
                         terms: seq<VarId>, xs: seq<VarId>, coefs: seq<int>)
    requires |terms| == PairCount(xs, coefs) && TermsInv(v0, deps1, vars1, terms, xs, coefs)
    requires vars == vars1 + [Var(SumMins(vars1, terms), SumMaxs(vars1, terms))]
    ensures var n := PairCount(xs, coefs);
            forall a :: InDoms(a, v0) ==>
              InDoms(a + Products(a, xs[..n], coefs[..n]) + [Linear(a, xs[..n], coefs[..n])], vars)
  {
    var n := PairCount(xs, coefs);
    forall a | InDoms(a, v0)
      ensures InDoms(a + Products(a, xs[..n], coefs[..n]) + [Linear(a, xs[..n], coefs[..n])], vars)
    {
      var a' := a + Products(a, xs[..n], coefs[..n]);
      assert InDoms(a', vars1);
      SumBounds(a', vars1, terms);
      LinearSum(a, a', terms, xs[..n], coefs[..n]);
    }
  }

  /** In every solution the sum variable holds the linear expression's value. */
  lemma LinearDoneSolves(v0: seq<Var>, deps1: Deps, vars1: seq<Var>, deps: Deps, props: Props, vars: seq<Var>,
                         terms: seq<VarId>, xs: seq<VarId>, coefs: seq<int>, r: VarId)
    requires |terms| == PairCount(xs, coefs) && TermsInv(v0, deps1, vars1, terms, xs, coefs)
    requires r == |vars1| && vars == vars1 + [Var(SumMins(vars1, terms), SumMaxs(vars1, terms))]
    requires ScalingsGrow(deps1, deps) && |deps.props.sum| > 0 && deps.props.sum[|deps.props.sum| - 1] == (r, terms)
    ensures var n := PairCount(xs, coefs);
            forall a :: InDoms(a, vars) && IsSolution(deps, props, a) ==> a[r] == Linear(a, xs[..n], coefs[..n])
  {
    var n := PairCount(xs, coefs);
    forall i | 0 <= i < n
      ensures Defines(deps, vars, terms[i], xs[i], coefs[i])
    {
      DefinesKept(deps1, vars1, deps, vars, terms[i], xs[i], coefs[i]);
    }
    forall a | InDoms(a, vars) && IsSolution(deps, props, a)
      ensures a[r] == Linear(a, xs[..n], coefs[..n])
    {
      forall i | 0 <= i < n
        ensures a[terms[i]] == coefs[..n][i] * a[xs[..n][i]]
      {
        DefinesHolds(deps, props, vars, terms[i], xs[i], coefs[i], a);
      }
      LinearSum(a, a, terms, xs[..n], coefs[..n]);
      assert Holds(deps, props, Sum(|deps.props.sum| - 1), a);
    }
  }
}
