/**
 * The older engine's propagation (src/search/mod.rs): a `Searcher` runs the propagators on
 * a FIFO agenda until none is left, re-scheduling the propagators subscribed to every
 * variable whose domain changed, and applies branching choices with the strict `obj - 1`
 * bound of branch-and-bound.
 */
module LegacySearch {
  import opened Wrappers
  import opened Domains
  import opened Solutions
  import opened LegacyVars
  import opened LegacyProps
  import opened LegacyBranch

  /** The variables of each built-in propagator, grouped by kind (`DepsProps`). */
  datatype DepsProps = DepsProps(
    scalePos: seq<(VarId, VarId, int)>,
    scaleNeg: seq<(VarId, VarId, int)>,
    plus: seq<(VarId, (VarId, VarId))>,
    sum: seq<(VarId, seq<VarId>)>,
    eq: seq<(VarId, VarId)>,
    leq: seq<(VarId, VarId)>)

  /** Subscriptions: for each variable, the propagators to run when its domain changes. */
  datatype Deps = Deps(vars: seq<seq<PropId>>, props: DepsProps)

  /** What stays fixed during a search: the subscriptions, the objective and the mode. */
  datatype Searcher = Searcher(deps: Deps, obj: VarId, isExhaustive: bool)

  /** State required for exploring a search tree. */
  datatype Space = Space(vars: Vars, props: Props, brancher: Brancher)

  /** A fixed point that still needs branching, or the single assignment left. */
  datatype Propagated = Fixed(space: Space) | Done(solution: Solution)

  // ----- declared constraints -----

  /** The id names a declared propagator. */
  predicate ValidProp(deps: Deps, props: Props, id: PropId) {
    match id
    case ScalePos(i) => i < |deps.props.scalePos|
    case ScaleNeg(i) => i < |deps.props.scaleNeg|
    case Plus(i) => i < |deps.props.plus|
    case Sum(i) => i < |deps.props.sum|
    case Eq(i) => i < |deps.props.eq|
    case Leq(i) => i < |deps.props.leq|
    case Custom(i) => i < |props.custom|
  }

  /** The constraint the propagator `id` enforces holds of the assignment `a`. */
  predicate Holds(deps: Deps, props: Props, id: PropId, a: seq<int>)
    requires ValidProp(deps, props, id)
  {
    match id
    case ScalePos(i) => ScaleHolds(deps.props.scalePos[i], a)
    case ScaleNeg(i) => ScaleHolds(deps.props.scaleNeg[i], a)
    case Plus(i) => PlusHolds(deps.props.plus[i], a)
    case Sum(i) => SumHolds(deps.props.sum[i], a)
    case Eq(i) => EqHolds(deps.props.eq[i], a)
    case Leq(i) => LeqHolds(deps.props.leq[i], a)
    case Custom(i) => props.custom[i].holds(a)
  }

  /** `a` satisfies every declared constraint. */
  ghost predicate IsSolution(deps: Deps, props: Props, a: seq<int>) {
    forall id :: ValidProp(deps, props, id) ==> Holds(deps, props, id, a)
  }

  /** Propagator `id` is run when the domain of `v` changes. */
  predicate Subscribed(deps: Deps, id: PropId, v: VarId) {
    v < |deps.vars| && id in deps.vars[v]
  }

  /**
   * The tables fit `n` variables: one subscription row per variable, naming declared
   * propagators; every propagator's variables exist; the scaling coefficients have the sign
   * their kind expects; and each kind's count matches its table.
   */
  predicate DepsShape(deps: Deps, props: Props, n: nat) {
    var dp := deps.props;
    |deps.vars| == n
    && props.scalePos == |dp.scalePos| && props.scaleNeg == |dp.scaleNeg| && props.plus == |dp.plus|
    && props.sum == |dp.sum| && props.eq == |dp.eq| && props.leq == |dp.leq|
    && (forall v, k :: 0 <= v < n && 0 <= k < |deps.vars[v]| ==> ValidProp(deps, props, deps.vars[v][k]))
    && (forall i :: 0 <= i < |dp.scalePos| ==> dp.scalePos[i].0 < n && dp.scalePos[i].1 < n && dp.scalePos[i].2 > 0)
    && (forall i :: 0 <= i < |dp.scaleNeg| ==> dp.scaleNeg[i].0 < n && dp.scaleNeg[i].1 < n && dp.scaleNeg[i].2 < 0)
    && (forall i :: 0 <= i < |dp.plus| ==> dp.plus[i].0 < n && dp.plus[i].1.0 < n && dp.plus[i].1.1 < n)
    && (forall i :: 0 <= i < |dp.sum| ==> dp.sum[i].0 < n && IdsIn(dp.sum[i].1, n))
    && (forall i :: 0 <= i < |dp.eq| ==> dp.eq[i].0 < n && dp.eq[i].1 < n)
    && (forall i :: 0 <= i < |dp.leq| ==> dp.leq[i].0 < n && dp.leq[i].1 < n)
  }

  /**
   * Every built-in propagator is subscribed by enough of its variables that, once those are
   * set, running it decides its constraint: `x` or `y` for scaling and equality, both
   * operands for addition, every term for a sum, and the bound `y` for `x <= y`.
   */
  predicate Subscriptions(deps: Deps) {
    var dp := deps.props;
    (forall i :: 0 <= i < |dp.scalePos| ==>
       Subscribed(deps, ScalePos(i), dp.scalePos[i].0) || Subscribed(deps, ScalePos(i), dp.scalePos[i].1))
    && (forall i :: 0 <= i < |dp.scaleNeg| ==>
          Subscribed(deps, ScaleNeg(i), dp.scaleNeg[i].0) || Subscribed(deps, ScaleNeg(i), dp.scaleNeg[i].1))
    && (forall i :: 0 <= i < |dp.plus| ==>
          Subscribed(deps, Plus(i), dp.plus[i].1.0) && Subscribed(deps, Plus(i), dp.plus[i].1.1))
    && (forall i, j :: 0 <= i < |dp.sum| && 0 <= j < |dp.sum[i].1| ==> Subscribed(deps, Sum(i), dp.sum[i].1[j]))
    && (forall i :: 0 <= i < |dp.eq| ==> Subscribed(deps, Eq(i), dp.eq[i].0) || Subscribed(deps, Eq(i), dp.eq[i].1))
    && (forall i :: 0 <= i < |dp.leq| ==> Subscribed(deps, Leq(i), dp.leq[i].1))
  }

  /** Custom propagator `i` decides its constraint once every variable subscribing it is set. */
  ghost predicate CustomChecks(deps: Deps, i: nat, c: CustomProp) {
    forall vs: Vars {:trigger c.run(vs)} ::
      c.run(vs).Ok? && (forall v: VarId :: Subscribed(deps, Custom(i), v) ==> v < |vs.doms| && IsSet(vs.doms[v])) ==>
        forall a :: InDoms(a, c.run(vs).value.doms) ==> c.holds(a)
  }

  /** The model the search runs on is consistent, and its custom propagators behave. */
  ghost predicate WellFormed(deps: Deps, props: Props, n: nat) {
    DepsShape(deps, props, n) && Subscriptions(deps)
    && forall i :: 0 <= i < |props.custom| ==> CustomOk(props.custom[i]) && CustomChecks(deps, i, props.custom[i])
  }

  /** Every domain is a singleton. */
  predicate AllSet(doms: seq<Var>) {
    forall v :: 0 <= v < |doms| ==> IsSet(doms[v])
  }

  /**
   * Propagator `id` has been checked on `doms`: once every variable subscribing it is set,
   * every assignment left satisfies its constraint.
   */
  ghost predicate Checked(deps: Deps, props: Props, id: PropId, doms: seq<Var>)
    requires ValidProp(deps, props, id)
  {
    (forall v :: 0 <= v < |doms| && Subscribed(deps, id, v) ==> IsSet(doms[v])) ==>
      forall a :: InDoms(a, doms) ==> Holds(deps, props, id, a)
  }

  /** Every declared propagator not waiting on the agenda has been checked. */
  ghost predicate CheckedOutside(deps: Deps, props: Props, agenda: seq<PropId>, doms: seq<Var>) {
    forall id :: ValidProp(deps, props, id) && id !in agenda ==> Checked(deps, props, id, doms)
  }

  // ----- running one propagator -----

  /**
   * The dispatch in `propagate`: runs the propagator `id` on the domains. It only narrows, it
   * keeps every assignment satisfying its constraint, and once the variables subscribing it
   * are set, success means every assignment left satisfies its constraint.
   */
  method RunProp(deps: Deps, props: Props, id: PropId, vars: Vars) returns (r: Result<Vars>)
    requires WellFormed(deps, props, |vars.doms|) && ValidProp(deps, props, id)
    ensures r.Ok? ==> Narrows(vars.doms, vars.events, r.value.doms, r.value.events)
    ensures forall a :: InDoms(a, vars.doms) && Holds(deps, props, id, a) ==> r.Ok? && InDoms(a, r.value.doms)
    ensures r.Ok? && (forall v :: 0 <= v < |vars.doms| && Subscribed(deps, id, v) ==> IsSet(vars.doms[v])) ==>
              forall a :: InDoms(a, r.value.doms) ==> Holds(deps, props, id, a)
  {
    var dp := deps.props;
    match id
    case ScalePos(i) =>
      r := PropScalePos(dp.scalePos[i], vars);
    case ScaleNeg(i) =>
      r := PropScaleNeg(dp.scaleNeg[i], vars);
    case Plus(i) =>
      r := PropPlus(dp.plus[i], vars);
    case Sum(i) =>
      r := PropSum(dp.sum[i], vars);
      assert (forall v :: 0 <= v < |vars.doms| && Subscribed(deps, id, v) ==> IsSet(vars.doms[v])) ==>
             forall j :: 0 <= j < |dp.sum[i].1| ==> IsSet(vars.doms[dp.sum[i].1[j]]);
    case Eq(i) =>
      r := PropEq(dp.eq[i], vars);
    case Leq(i) =>
      r := PropLeq(dp.leq[i], vars);
    case Custom(i) =>
      r := props.custom[i].run(vars);
      assert CustomOk(props.custom[i]) && CustomChecks(deps, i, props.custom[i]);
  }

  // ----- scheduling -----

  /** The subscription rows of the changed variables, concatenated in event order. */
  function Dependents(deps: Deps, events: seq<VarId>): seq<PropId>
    requires forall k :: 0 <= k < |events| ==> events[k] < |deps.vars|
  {
    if events == [] then []
    else Dependents(deps, events[..|events| - 1]) + deps.vars[events[|events| - 1]]
  }

  /** A propagator is scheduled exactly when it subscribes one of the changed variables. */
  lemma {:induction false} DependentsMembers(deps: Deps, events: seq<VarId>, id: PropId)
    requires forall k :: 0 <= k < |events| ==> events[k] < |deps.vars|
    ensures id in Dependents(deps, events) <==> exists k :: 0 <= k < |events| && Subscribed(deps, id, events[k])
    decreases |events|
  {
    if events != [] {
      var n := |events| - 1;
      DependentsMembers(deps, events[..n], id);
      if exists k :: 0 <= k < n && Subscribed(deps, id, events[..n][k]) {
        var k :| 0 <= k < n && Subscribed(deps, id, events[..n][k]);
        assert events[k] == events[..n][k];
      }
      if exists k :: 0 <= k < |events| && Subscribed(deps, id, events[k]) {
        var k :| 0 <= k < |events| && Subscribed(deps, id, events[k]);
        if k < n {
          assert events[..n][k] == events[k];
        }
      }
    }
  }

  /** Nothing is scheduled twice over by deduplication: the agenda grows by every row in full. */
  lemma {:induction false} DependentsLength(deps: Deps, events: seq<VarId>, e: VarId)
    requires (forall k :: 0 <= k < |events| ==> events[k] < |deps.vars|) && e < |deps.vars|
    ensures |Dependents(deps, events + [e])| == |Dependents(deps, events)| + |deps.vars[e]|
  {
    assert (events + [e])[..|events|] == events;
  }

  /**
   * `schedule_props_from_domain_changes`: drains the event log and appends, for every logged
   * variable in order, every propagator subscribed to it.
   */
  method ScheduleFromDomainChanges(deps: Deps, vars: Vars, agenda: seq<PropId>)
      returns (vars': Vars, agenda': seq<PropId>)
    requires forall k :: 0 <= k < |vars.events| ==> vars.events[k] < |deps.vars|
    ensures vars'.doms == vars.doms && vars'.events == []
    ensures agenda' == agenda + Dependents(deps, vars.events)
  {
    var drained := DrainEvents(vars);
    var events := drained.0;
    vars' := drained.1;
    agenda' := agenda;
    var i := 0;
    while i < |events|
      invariant 0 <= i <= |events|
      invariant agenda' == agenda + Dependents(deps, events[..i])
    {
      var row := deps.vars[events[i]];
      var j := 0;
      while j < |row|
        invariant 0 <= j <= |row|
        invariant agenda' == agenda + Dependents(deps, events[..i]) + row[..j]
      {
        agenda' := agenda' + [row[j]];
        j := j + 1;
        assert row[..j] == row[..j - 1] + [row[j - 1]];
      }
      assert events[..i + 1][..i] == events[..i];
      assert row[..|row|] == row;
      i := i + 1;
    }
    assert events[..|events|] == events;
  }

  // ----- keeping track of checked propagators -----

  /** A propagator whose subscribing variables did not change stays checked under narrowing. */
  lemma CheckedKept(deps: Deps, props: Props, id: PropId, d0: seq<Var>, d1: seq<Var>)
    requires ValidProp(deps, props, id) && Narrower(d1, d0) && Checked(deps, props, id, d0)
    requires forall v :: 0 <= v < |d0| && Subscribed(deps, id, v) ==> d1[v] == d0[v]
    ensures Checked(deps, props, id, d1)
  {
    if forall v :: 0 <= v < |d1| && Subscribed(deps, id, v) ==> IsSet(d1[v]) {
      forall a | InDoms(a, d1)
        ensures Holds(deps, props, id, a)
      {
        InDomsWiden(a, d1, d0);
      }
    }
  }

  /** A step logged honestly from an empty log leaves unscheduled propagators' variables alone. */
  lemma UnscheduledUnchanged(deps: Deps, id: PropId, d0: seq<Var>, d1: seq<Var>, events: seq<VarId>)
    requires Narrows(d0, [], d1, events) && |deps.vars| == |d0|
    requires id !in Dependents(deps, events)
    ensures forall v :: 0 <= v < |d0| && Subscribed(deps, id, v) ==> d1[v] == d0[v]
  {
    assert events[0..] == events;
    DependentsMembers(deps, events, id);
  }

  /** After a narrowing logged from an empty log, scheduling its dependents keeps the unscheduled propagators checked. */
  lemma CheckedAfterChange(deps: Deps, props: Props, agenda: seq<PropId>, d0: seq<Var>, d1: seq<Var>, events: seq<VarId>)
    requires Narrows(d0, [], d1, events) && |deps.vars| == |d0|
    requires CheckedOutside(deps, props, agenda, d0)
    ensures CheckedOutside(deps, props, agenda + Dependents(deps, events), d1)
  {
    forall id | ValidProp(deps, props, id) && id !in agenda + Dependents(deps, events)
      ensures Checked(deps, props, id, d1)
    {
      UnscheduledUnchanged(deps, id, d0, d1, events);
      CheckedKept(deps, props, id, d0, d1);
    }
  }

  /** Running the agenda's first propagator and scheduling the dependents keeps the rest checked. */
  lemma CheckedAfterRun(deps: Deps, props: Props, id: PropId, rest: seq<PropId>,
                        d0: seq<Var>, d1: seq<Var>, events: seq<VarId>)
    requires ValidProp(deps, props, id)
    requires Narrows(d0, [], d1, events) && |deps.vars| == |d0|
    requires CheckedOutside(deps, props, [id] + rest, d0)
    requires (forall v :: 0 <= v < |d0| && Subscribed(deps, id, v) ==> IsSet(d0[v])) ==>
               forall a :: InDoms(a, d1) ==> Holds(deps, props, id, a)
    ensures CheckedOutside(deps, props, rest + Dependents(deps, events), d1)
  {
    forall q | ValidProp(deps, props, q) && q !in rest + Dependents(deps, events)
      ensures Checked(deps, props, q, d1)
    {
      UnscheduledUnchanged(deps, q, d0, d1, events);
      if q != id {
        assert q !in [id] + rest;
        CheckedKept(deps, props, q, d0, d1);
      }
    }
  }

  /** With every propagator checked and every variable set, the assignment left is a solution. */
  lemma AllCheckedSolution(deps: Deps, props: Props, doms: seq<Var>, a: seq<int>)
    requires CheckedOutside(deps, props, [], doms) && AllSet(doms) && InDoms(a, doms)
    ensures IsSolution(deps, props, a)
  {
    forall id | ValidProp(deps, props, id)
      ensures Holds(deps, props, id, a)
    {
      assert Checked(deps, props, id, doms);
    }
  }

  // ----- propagation to a fixed point -----

  /**
   * A fixed point reached from `s0`: same propagators and brancher, narrower domains, an
   * empty event log, and some domain still not a singleton.
   */
  ghost predicate FixedFrom(s0: Space, s1: Space) {
    s1.props == s0.props && s1.brancher == s0.brancher && s1.vars.events == []
    && Narrower(s1.vars.doms, s0.vars.doms) && !AllSet(s1.vars.doms)
  }

  /**
   * One turn of the loop of `propagate`: runs the front propagator and appends the dependents
   * of the variables it changed. The loop's invariants are kept, and either some domain
   * shrank or the domains are unchanged and the agenda shorter.
   */
  method PropagateStep(deps: Deps, props: Props, ghost d0: seq<Var>, ghost checked0: bool,
                       vars: Vars, a: seq<PropId>) returns (r: Result<(Vars, seq<PropId>)>)
    requires WellFormed(deps, props, |d0|) && a != []
    requires vars.events == [] && Narrower(vars.doms, d0)
    requires forall k :: 0 <= k < |a| ==> ValidProp(deps, props, a[k])
    requires forall x :: InDoms(x, d0) && IsSolution(deps, props, x) ==> InDoms(x, vars.doms)
    requires checked0 ==> CheckedOutside(deps, props, a, vars.doms)
    ensures r.Failed? ==> forall x :: InDoms(x, d0) ==> !IsSolution(deps, props, x)
    ensures r.Ok? ==>
              var (next, scheduled) := r.value;
              next.events == [] && Narrower(next.doms, d0)
              && (forall k :: 0 <= k < |scheduled| ==> ValidProp(deps, props, scheduled[k]))
              && (forall x :: InDoms(x, d0) && IsSolution(deps, props, x) ==> InDoms(x, next.doms))
              && (checked0 ==> CheckedOutside(deps, props, scheduled, next.doms))
              && (TotalWidth(next.doms) < TotalWidth(vars.doms)
                  || (next.doms == vars.doms && |scheduled| < |a|))
  {
    var id := a[0];
    var rest := a[1..];
    assert a == [id] + rest;
    var res := RunProp(deps, props, id, vars);
    if res.Failed? {
      return Failed;
    }
    var next, scheduled := ScheduleFromDomainChanges(deps, res.value, rest);
    NarrowsWidth(vars.doms, vars.events, res.value.doms, res.value.events);
    NarrowerTrans(res.value.doms, vars.doms, d0);
    RunKeepsSolutions(deps, props, id, d0, vars.doms, res.value.doms);
    if checked0 {
      CheckedAfterRun(deps, props, id, rest, vars.doms, res.value.doms, res.value.events);
    }
    ScheduledValid(deps, props, rest, res.value.events);
    r := Ok((next, scheduled));
  }

  /**
   * `propagate`: pops the agenda front first, runs the propagator and appends its dependents,
   * failing at the first failure. Every solution inside the domains survives; the round
   * ends `Done` exactly when every domain is a singleton. If every propagator missing from
   * the starting agenda was already checked, a `Done` assignment is a solution and a `Fixed`
   * space has every propagator checked.
   */
  method Propagate(s: Searcher, space: Space, agenda: seq<PropId>) returns (r: Result<Propagated>)
    requires WellFormed(s.deps, space.props, |space.vars.doms|) && space.vars.events == []
    requires forall k :: 0 <= k < |agenda| ==> ValidProp(s.deps, space.props, agenda[k])
    ensures r.Ok? && r.value.Fixed? ==> FixedFrom(space, r.value.space)
    ensures r.Ok? && r.value.Done? ==> InDoms(r.value.solution.values, space.vars.doms)
    ensures forall a :: InDoms(a, space.vars.doms) && IsSolution(s.deps, space.props, a) ==>
              r.Ok? && (r.value.Fixed? ==> InDoms(a, r.value.space.vars.doms))
              && (r.value.Done? ==> r.value.solution.values == a)
    ensures r.Ok? && CheckedOutside(s.deps, space.props, agenda, space.vars.doms) ==>
              (r.value.Done? ==> IsSolution(s.deps, space.props, r.value.solution.values))
              && (r.value.Fixed? ==> CheckedOutside(s.deps, space.props, [], r.value.space.vars.doms))
    ensures agenda == [] ==> r.Ok? && (r.value.Done? <==> AllSet(space.vars.doms))
  {
    var deps, props, d0 := s.deps, space.props, space.vars.doms;
    ghost var checked0 := CheckedOutside(deps, props, agenda, d0);
    var vars := space.vars;
    var a := agenda;
    while a != []
      invariant vars.events == [] && Narrower(vars.doms, d0)
      invariant agenda == [] ==> a == [] && vars == space.vars
      invariant forall k :: 0 <= k < |a| ==> ValidProp(deps, props, a[k])
      invariant forall x :: InDoms(x, d0) && IsSolution(deps, props, x) ==> InDoms(x, vars.doms)
      invariant checked0 ==> CheckedOutside(deps, props, a, vars.doms)
      decreases TotalWidth(vars.doms), |a|
    {
      var step := PropagateStep(deps, props, d0, checked0, vars, a);
      if step.Failed? {
        return Failed;
      }
      vars, a := step.value.0, step.value.1;
    }
    match GetAssignmentIfAllSet(vars.doms)
    case Some(asg) =>
      forall x | InDoms(x, d0) && IsSolution(deps, props, x)
        ensures x == asg
      {
        AssignmentUnique(vars.doms, x);
      }
      InDomsWiden(asg, vars.doms, d0);
      if checked0 {
        AllCheckedSolution(deps, props, vars.doms, asg);
      }
      r := Ok(Done(Solution(asg)));
    case None =>
      r := Ok(Fixed(Space(vars, props, space.brancher)));
  }

  // ----- initial propagation -----

  /** The ids `k(0)`, ..., `k(n - 1)` of one kind. */
  function KindIds(n: nat, k: nat -> PropId): (r: seq<PropId>)
    ensures |r| == n && forall i :: 0 <= i < n ==> r[i] == k(i)
  {
    seq(n, i requires 0 <= i => k(i))
  }

  /** The id names a declared built-in propagator (ids are counted per kind by `Props`). */
  predicate BuiltinDeclared(props: Props, id: PropId) {
    match id
    case ScalePos(i) => i < props.scalePos
    case ScaleNeg(i) => i < props.scaleNeg
    case Plus(i) => i < props.plus
    case Sum(i) => i < props.sum
    case Eq(i) => i < props.eq
    case Leq(i) => i < props.leq
    case Custom(_) => false
  }

  /**
   * The agenda `propagate_with_all_props` collects, as written: the built-in propagators
   * grouped by kind in the order ScalePos, ScaleNeg, Plus, Sum, Eq, Leq, each kind by index.
   */
  function InitialAgendaAsWritten(props: Props): (r: seq<PropId>)
    ensures |r| == props.scalePos + props.scaleNeg + props.plus + props.sum + props.eq + props.leq
  {
    KindIds(props.scalePos, (i: nat) => ScalePos(i)) + KindIds(props.scaleNeg, (i: nat) => ScaleNeg(i))
    + KindIds(props.plus, (i: nat) => Plus(i)) + KindIds(props.sum, (i: nat) => Sum(i))
    + KindIds(props.eq, (i: nat) => Eq(i)) + KindIds(props.leq, (i: nat) => Leq(i))
  }

  /**
   * The agenda as written holds exactly the declared built-in propagators, each once; no
   * custom propagator, declared or not, is on it.
   */
  lemma InitialAgendaAsWrittenMembers(props: Props)
    ensures forall id :: id in InitialAgendaAsWritten(props) <==> BuiltinDeclared(props, id)
    ensures forall j, k :: 0 <= j < k < |InitialAgendaAsWritten(props)| ==>
              InitialAgendaAsWritten(props)[j] != InitialAgendaAsWritten(props)[k]
  {
    var r := InitialAgendaAsWritten(props);
    var o1 := props.scalePos;
    var o2 := o1 + props.scaleNeg;
    var o3 := o2 + props.plus;
    var o4 := o3 + props.sum;
    var o5 := o4 + props.eq;
    InitialAgendaLayout(props);
    forall id | id in r
      ensures BuiltinDeclared(props, id)
    {
      var k :| 0 <= k < |r| && r[k] == id;
      InitialAgendaEntry(props, k);
    }
    forall id | BuiltinDeclared(props, id)
      ensures id in r
    {
      match id
      case ScalePos(i) => assert r[i] == id;
      case ScaleNeg(i) => assert r[o1 + i] == id;
      case Plus(i) => assert r[o2 + i] == id;
      case Sum(i) => assert r[o3 + i] == id;
      case Eq(i) => assert r[o4 + i] == id;
      case Leq(i) => assert r[o5 + i] == id;
      case Custom(i) =>
    }
  }

  /** Every entry of the agenda as written is a declared built-in propagator. */
  lemma InitialAgendaEntry(props: Props, k: nat)
    requires k < |InitialAgendaAsWritten(props)|
    ensures BuiltinDeclared(props, InitialAgendaAsWritten(props)[k])
  {
    InitialAgendaLayout(props);
  }

  /** Where each kind sits in the agenda as written: one block per kind, each by index. */
  lemma InitialAgendaLayout(props: Props)
    ensures var r := InitialAgendaAsWritten(props);
            var o1 := props.scalePos;
            var o2 := o1 + props.scaleNeg;
            var o3 := o2 + props.plus;
            var o4 := o3 + props.sum;
            var o5 := o4 + props.eq;
            (forall k :: 0 <= k < o1 ==> r[k] == ScalePos(k))
            && (forall k :: o1 <= k < o2 ==> r[k] == ScaleNeg(k - o1))
            && (forall k :: o2 <= k < o3 ==> r[k] == Plus(k - o2))
            && (forall k :: o3 <= k < o4 ==> r[k] == Sum(k - o3))
            && (forall k :: o4 <= k < o5 ==> r[k] == Eq(k - o4))
            && (forall k :: o5 <= k < |r| ==> r[k] == Leq(k - o5))
  {
  }

  /**
   * `propagate_with_all_props` as written: propagation from the built-in propagators only.
   * A custom propagator whose variables never change is never run.
   */
  method PropagateWithAllPropsAsWritten(s: Searcher, space: Space) returns (r: Result<Propagated>)
    requires WellFormed(s.deps, space.props, |space.vars.doms|) && space.vars.events == []
    ensures r.Ok? && r.value.Fixed? ==> FixedFrom(space, r.value.space)
    ensures r.Ok? && r.value.Done? ==> InDoms(r.value.solution.values, space.vars.doms)
    ensures forall a :: InDoms(a, space.vars.doms) && IsSolution(s.deps, space.props, a) ==>
              r.Ok? && (r.value.Done? ==> r.value.solution.values == a)
    ensures space.props.scalePos + space.props.scaleNeg + space.props.plus + space.props.sum
            + space.props.eq + space.props.leq == 0 ==>
              r.Ok? && (r.value.Done? <==> AllSet(space.vars.doms))
  {
    var agenda := InitialAgendaAsWritten(space.props);
    InitialAgendaAsWrittenMembers(space.props);
    assert forall k :: 0 <= k < |agenda| ==> agenda[k] in agenda;
    r := Propagate(s, space, agenda);
  }

  /**
   * One variable already set to 1 and one custom constraint `x != 1` subscribed by it: the
   * propagation as written ends `Done` with the assignment `[1]`, which violates the custom
   * constraint, because the custom propagator never runs.
   */
  method CustomIgnoredExample() returns (s: Searcher, space: Space, r: Result<Propagated>)
    ensures WellFormed(s.deps, space.props, |space.vars.doms|)
    ensures r == Ok(Done(Solution([1])))
    ensures !IsSolution(s.deps, space.props, [1])
  {
    var deps := Deps([[Custom(0)]], DepsProps([], [], [], [], [], []));
    var props := Props(0, 0, 0, 0, 0, 0, [NotOne()]);
    s := Searcher(deps, 0, false);
    space := Space(New([Var(1, 1)]), props, FromVars([Var(1, 1)], SetMinToMax));
    NotOneSetup(deps, props);
    r := PropagateWithAllPropsAsWritten(s, space);
    DoneOnOne(r);
  }

  /** A propagation of the single domain `[1, 1]` that must end `Done` ends with the assignment `[1]`. */
  lemma DoneOnOne(r: Result<Propagated>)
    requires r.Ok? && (r.value.Done? <==> AllSet([Var(1, 1)]))
    requires r.Ok? && r.value.Done? ==> InDoms(r.value.solution.values, [Var(1, 1)])
    ensures r == Ok(Done(Solution([1])))
  {
    assert AllSet([Var(1, 1)]);
    var a := r.value.solution.values;
    assert Contains(Var(1, 1), a[0]);
    assert a == [1];
  }

  /** The tables of the example fit one variable, and `[1]` breaks its custom constraint. */
  lemma NotOneSetup(deps: Deps, props: Props)
    requires deps == Deps([[Custom(0)]], DepsProps([], [], [], [], [], []))
    requires props == Props(0, 0, 0, 0, 0, 0, [NotOne()])
    ensures WellFormed(deps, props, 1)
    ensures !IsSolution(deps, props, [1])
  {
    NotOneChecks(deps);
    assert ValidProp(deps, props, Custom(0)) && !Holds(deps, props, Custom(0), [1]);
  }

  /** The custom constraint `x != 1` on variable 0, failing a space exactly when it sets `x` to 1. */
  function NotOne(): (c: CustomProp)
    ensures CustomOk(c)
    ensures !c.holds([1])
  {
    var c := CustomProp(
      (vs: Vars) => if |vs.doms| > 0 && vs.doms[0] == Var(1, 1) then Failed else Ok(vs),
      (a: seq<int>) => |a| > 0 && a[0] != 1);
    forall vs: Vars | c.run(vs).Ok?
      ensures Narrows(vs.doms, vs.events, c.run(vs).value.doms, c.run(vs).value.events)
    {
      NarrowsRefl(vs.doms, vs.events);
    }
    c
  }

  lemma NotOneChecks(deps: Deps)
    requires deps.vars == [[Custom(0)]]
    ensures CustomChecks(deps, 0, NotOne())
  {
    var c := NotOne();
    forall vs: Vars | c.run(vs).Ok? && (forall v: VarId :: Subscribed(deps, Custom(0), v) ==> v < |vs.doms| && IsSet(vs.doms[v]))
      ensures forall a :: InDoms(a, c.run(vs).value.doms) ==> c.holds(a)
    {
      assert Subscribed(deps, Custom(0), 0);
      forall a | InDoms(a, c.run(vs).value.doms)
        ensures c.holds(a)
      {
        assert Contains(vs.doms[0], a[0]);
      }
    }
  }

  /** The corrected initial agenda: every built-in propagator as above, then every custom one. */
  function InitialAgenda(props: Props): (r: seq<PropId>)
    ensures |r| == |InitialAgendaAsWritten(props)| + |props.custom|
  {
    InitialAgendaAsWritten(props) + KindIds(|props.custom|, (i: nat) => Custom(i))
  }

  /**
   * Without custom propagators the corrected agenda is the agenda as written, so both
   * `PropagateWithAllProps` and `PropagateWithAllPropsAsWritten` run `Propagate` on the same agenda.
   */
  lemma InitialAgendaNoCustom(props: Props)
    ensures props.custom == [] <==> InitialAgenda(props) == InitialAgendaAsWritten(props)
  {
    if props.custom == [] {
      assert KindIds(0, (i: nat) => Custom(i)) == [];
    }
  }

  /** The corrected agenda holds exactly the declared propagators, custom ones included. */
  lemma InitialAgendaMembers(props: Props)
    ensures forall id :: id in InitialAgenda(props) <==>
              BuiltinDeclared(props, id) || (id.Custom? && id.i < |props.custom|)
  {
    InitialAgendaAsWrittenMembers(props);
    var w := InitialAgendaAsWritten(props);
    var r := InitialAgenda(props);
    assert forall k :: |w| <= k < |r| ==> r[k] == Custom(k - |w|);
    forall id
      ensures id in r <==> BuiltinDeclared(props, id) || (id.Custom? && id.i < |props.custom|)
    {
      if id.Custom? && id.i < |props.custom| {
        assert r[|w| + id.i] == id;
      }
      if id in w {
        assert id in r;
      }
    }
  }

  /**
   * `propagate_with_all_props`, running every declared propagator first: every solution
   * inside the domains survives, a `Done` assignment is a solution, and a `Fixed` space has
   * every propagator checked.
   */
  method PropagateWithAllProps(s: Searcher, space: Space) returns (r: Result<Propagated>)
    requires WellFormed(s.deps, space.props, |space.vars.doms|) && space.vars.events == []
    ensures r.Ok? && r.value.Fixed? ==>
              FixedFrom(space, r.value.space) && CheckedOutside(s.deps, space.props, [], r.value.space.vars.doms)
    ensures r.Ok? && r.value.Done? ==>
              InDoms(r.value.solution.values, space.vars.doms) && IsSolution(s.deps, space.props, r.value.solution.values)
    ensures forall a :: InDoms(a, space.vars.doms) && IsSolution(s.deps, space.props, a) ==>
              r.Ok? && (r.value.Fixed? ==> InDoms(a, r.value.space.vars.doms))
              && (r.value.Done? ==> r.value.solution.values == a)
  {
    var agenda := InitialAgenda(space.props);
    InitialAgendaMembers(space.props);
    assert forall k :: 0 <= k < |agenda| ==> agenda[k] in agenda;
    assert CheckedOutside(s.deps, space.props, agenda, space.vars.doms);
    r := Propagate(s, space, agenda);
  }

  // ----- applying a choice -----

  /** The value `x` is allowed by the mutation. */
  predicate Allows(m: Mutation, x: int) {
    match m
    case Set(v) => x == v
    case Min(v) => x >= v
    case Max(v) => x <= v
  }

  /**
   * Applies the mutation to the pivot: `try_set`, `try_set_min` or `try_set_max`. The pivot
   * keeps exactly its allowed values; it fails only when none is left, and on a nonempty
   * domain whenever none is left.
   */
  function Mutate(vars: Vars, c: Choice): (r: Result<Vars>)
    requires c.pivot < |vars.doms|
    ensures r.Ok? ==> Narrows(vars.doms, vars.events, r.value.doms, r.value.events)
    ensures r.Ok? ==> forall x :: Contains(r.value.doms[c.pivot], x) <==>
                        Contains(vars.doms[c.pivot], x) && Allows(c.mutation, x)
    ensures r.Failed? ==> forall x :: Contains(vars.doms[c.pivot], x) ==> !Allows(c.mutation, x)
    ensures r.Ok? && c.mutation.Set? ==> Contains(vars.doms[c.pivot], c.mutation.val)
    ensures !IsEmpty(vars.doms[c.pivot]) && (forall x :: Contains(vars.doms[c.pivot], x) ==> !Allows(c.mutation, x)) ==>
              r.Failed?
  {
    var d := vars.doms[c.pivot];
    match c.mutation
    case Set(v) =>
      var r := TrySet(vars, c.pivot, v);
      assert Allows(c.mutation, v);
      assert r.Ok? ==> r.value.doms[c.pivot] == Var(v, v);
      r
    case Min(v) =>
      var r := TrySetMin(vars, c.pivot, v);
      assert Contains(d, d.max) ==> Allows(c.mutation, d.max) ==> r.Ok?;
      r
    case Max(v) =>
      var r := TrySetMax(vars, c.pivot, v);
      assert Contains(d, d.min) ==> Allows(c.mutation, d.min) ==> r.Ok?;
      r
  }

  /** A propagator that keeps every solution of its own constraint keeps every solution of the model. */
  lemma RunKeepsSolutions(deps: Deps, props: Props, id: PropId, d0: seq<Var>, d: seq<Var>, d1: seq<Var>)
    requires ValidProp(deps, props, id)
    requires forall x :: InDoms(x, d0) && IsSolution(deps, props, x) ==> InDoms(x, d)
    requires forall a :: InDoms(a, d) && Holds(deps, props, id, a) ==> InDoms(a, d1)
    ensures forall x :: InDoms(x, d0) && IsSolution(deps, props, x) ==> InDoms(x, d1)
  {
    forall x | InDoms(x, d0) && IsSolution(deps, props, x)
      ensures InDoms(x, d1)
    {
      assert Holds(deps, props, id, x);
    }
  }

  /** Appending the dependents of the changed variables to a valid agenda keeps it valid. */
  lemma ScheduledValid(deps: Deps, props: Props, rest: seq<PropId>, events: seq<VarId>)
    requires DepsShape(deps, props, |deps.vars|)
    requires forall k :: 0 <= k < |events| ==> events[k] < |deps.vars|
    requires forall k :: 0 <= k < |rest| ==> ValidProp(deps, props, rest[k])
    ensures forall k :: 0 <= k < |rest + Dependents(deps, events)| ==>
              ValidProp(deps, props, (rest + Dependents(deps, events))[k])
  {
    DependentsValid(deps, props, events);
    var ds := Dependents(deps, events);
    forall k | 0 <= k < |rest + ds|
      ensures ValidProp(deps, props, (rest + ds)[k])
    {
      if k >= |rest| {
        assert (rest + ds)[k] == ds[k - |rest|];
      }
    }
  }

  /** Every propagator in a row of the subscriptions table, and so every one scheduled, is declared. */
  lemma {:induction false} DependentsValid(deps: Deps, props: Props, events: seq<VarId>)
    requires DepsShape(deps, props, |deps.vars|)
    requires forall k :: 0 <= k < |events| ==> events[k] < |deps.vars|
    ensures forall k :: 0 <= k < |Dependents(deps, events)| ==> ValidProp(deps, props, Dependents(deps, events)[k])
    decreases |events|
  {
    if events != [] {
      var n := |events| - 1;
      DependentsValid(deps, props, events[..n]);
      var row := deps.vars[events[n]];
      assert forall k :: 0 <= k < |row| ==> ValidProp(deps, props, row[k]);
    }
  }

  /**
   * The mutation, then `try_set_max(obj, obj_value - 1)` when an incumbent is given. The
   * result narrows the domains from an empty log, keeps only allowed pivot values and
   * objective values strictly below the incumbent, and keeps every assignment that fits.
   */
  method MutateAndBound(s: Searcher, choice: Choice, objOpt: Option<int>, vars: Vars) returns (r: Result<Vars>)
    requires choice.pivot < |vars.doms| && s.obj < |vars.doms| && vars.events == []
    ensures r.Ok? ==> Narrows(vars.doms, [], r.value.doms, r.value.events)
    ensures r.Ok? ==> forall x :: Contains(r.value.doms[choice.pivot], x) ==> Allows(choice.mutation, x)
    ensures r.Ok? && objOpt.Some? ==> forall x :: Contains(r.value.doms[s.obj], x) ==> x < objOpt.value
    ensures r.Ok? && choice.mutation.Set? ==> Contains(vars.doms[choice.pivot], choice.mutation.val)
    ensures forall a :: InDoms(a, vars.doms) && Allows(choice.mutation, a[choice.pivot])
                        && (objOpt.Some? ==> a[s.obj] < objOpt.value) ==>
              r.Ok? && InDoms(a, r.value.doms)
  {
    var d0 := vars.doms;
    var mutated := Mutate(vars, choice);
    forall a | InDoms(a, d0) && Allows(choice.mutation, a[choice.pivot])
      ensures mutated.Ok? && InDoms(a, mutated.value.doms)
    {
      assert Contains(d0[choice.pivot], a[choice.pivot]);
    }
    if mutated.Failed? {
      return Failed;
    }
    r := mutated;
    if objOpt.Some? {
      var m := mutated.value;
      var bounded := TrySetMax(m, s.obj, objOpt.value - 1);
      forall a | InDoms(a, m.doms) && a[s.obj] < objOpt.value
        ensures bounded.Ok? && InDoms(a, bounded.value.doms)
      {
        assert Contains(m.doms[s.obj], a[s.obj]);
      }
      if bounded.Failed? {
        return Failed;
      }
      NarrowsTrans(d0, [], m.doms, m.events, bounded.value.doms, bounded.value.events);
      forall x | Contains(bounded.value.doms[choice.pivot], x)
        ensures Allows(choice.mutation, x)
      {
        SubContains(bounded.value.doms[choice.pivot], m.doms[choice.pivot], x);
      }
      r := bounded;
    }
  }

  /** Setting a pivot that is not yet set strictly lowers the total width of any narrower result. */
  lemma SetShrinks(d0: seq<Var>, d1: seq<Var>, d2: seq<Var>, p: VarId, v: int)
    requires Narrower(d1, d0) && Narrower(d2, d1) && p < |d0| && !IsSet(d0[p])
    requires Contains(d0[p], v) && forall x :: Contains(d1[p], x) ==> x == v
    ensures TotalWidth(d2) < TotalWidth(d0)
  {
    assert d1[p] != d0[p] by {
      assert Contains(d0[p], d0[p].min) && Contains(d0[p], d0[p].max);
    }
    NarrowerWidthStrict(d1, d0, p);
    NarrowerWidth(d2, d1);
  }

  /**
   * `mutate_then_propagate`: applies the choice to the pivot, lowers the objective's maximum
   * to `obj - 1` when an incumbent value `obj` is given, schedules the propagators subscribed
   * to the changed variables and propagates. Exactly the solutions allowed by the choice and
   * strictly better than the incumbent survive, and setting an unset pivot makes progress.
   */
  method MutateThenPropagate(s: Searcher, choice: Choice, objOpt: Option<int>, space: Space)
      returns (r: Result<Propagated>)
    requires WellFormed(s.deps, space.props, |space.vars.doms|) && space.vars.events == []
    requires choice.pivot < |space.vars.doms| && s.obj < |space.vars.doms|
    ensures r.Ok? && r.value.Fixed? ==>
              FixedFrom(space, r.value.space)
              && (forall x :: Contains(r.value.space.vars.doms[choice.pivot], x) ==> Allows(choice.mutation, x))
    ensures r.Ok? && r.value.Done? ==>
              var sol := r.value.solution.values;
              InDoms(sol, space.vars.doms) && Allows(choice.mutation, sol[choice.pivot])
              && (objOpt.Some? ==> sol[s.obj] < objOpt.value)
    ensures forall a :: InDoms(a, space.vars.doms) && IsSolution(s.deps, space.props, a)
                        && Allows(choice.mutation, a[choice.pivot]) && (objOpt.Some? ==> a[s.obj] < objOpt.value) ==>
              r.Ok? && (r.value.Fixed? ==> InDoms(a, r.value.space.vars.doms))
              && (r.value.Done? ==> r.value.solution.values == a)
    ensures r.Ok? && CheckedOutside(s.deps, space.props, [], space.vars.doms) ==>
              (r.value.Done? ==> IsSolution(s.deps, space.props, r.value.solution.values))
              && (r.value.Fixed? ==> CheckedOutside(s.deps, space.props, [], r.value.space.vars.doms))
    ensures r.Ok? && r.value.Fixed? && choice.mutation.Set? && !IsSet(space.vars.doms[choice.pivot]) ==>
              TotalWidth(r.value.space.vars.doms) < TotalWidth(space.vars.doms)
  {
    var deps, props, d0 := s.deps, space.props, space.vars.doms;
    var bounded := MutateAndBound(s, choice, objOpt, space.vars);
    if bounded.Failed? {
      return Failed;
    }
    var vars := bounded.value;
    ghost var d1 := vars.doms;
    assert vars.events[0..] == vars.events;
    var ready, agenda := ScheduleFromDomainChanges(deps, vars, []);
    DependentsValid(deps, props, vars.events);
    assert agenda == Dependents(deps, vars.events);
    if CheckedOutside(deps, props, [], d0) {
      CheckedAfterChange(deps, props, [], d0, d1, vars.events);
    }
    var sp := Space(ready, props, space.brancher);
    r := Propagate(s, sp, agenda);
    if r.Ok? && r.value.Fixed? {
      var d2 := r.value.space.vars.doms;
      NarrowerTrans(d2, d1, d0);
      forall x | Contains(d2[choice.pivot], x)
        ensures Allows(choice.mutation, x)
      {
        SubContains(d2[choice.pivot], d1[choice.pivot], x);
      }
      if choice.mutation.Set? && !IsSet(d0[choice.pivot]) {
        SetShrinks(d0, d1, d2, choice.pivot, choice.mutation.val);
      }
    }
    if r.Ok? && r.value.Done? {
      var sol := r.value.solution.values;
      InDomsWiden(sol, d1, d0);
      assert Contains(d1[choice.pivot], sol[choice.pivot]);
      assert Contains(d1[s.obj], sol[s.obj]);
    }
  }
}
