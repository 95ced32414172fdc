/**
 * Search modes of the newer engine (src/search/mode.rs): what to add to a branch before it is
 * explored, and what to remember when a solution is found.
 */
module Modes {
  import opened Wrappers
  import opened Domains
  import opened VarStore
  import opened Views
  import opened Registry
  import opened Spaces

  /** `Enumerate`: every feasible assignment; no state, nothing added on a branch. */
  class Enumerate {
    constructor ()
    {
    }

    /** `on_branch`: schedules nothing and leaves the space alone. */
    method OnBranch(space: Space) returns (ps: seq<PropId>)
      ensures ps == []
    {
      ps := [];
    }

    /** `on_solution`: nothing to record. */
    method OnSolution(vars: Vars)
    {
    }
  }

  /** `Minimize`: feasible assignments with an ever lower objective. */
  class Minimize {
    const objective: View
    var minimumOpt: Option<int>

    /** `Minimize::new`: no minimum recorded yet. */
    constructor (objective: View)
      ensures this.objective == objective && minimumOpt == None
    {
      this.objective := objective;
      minimumOpt := None;
    }

    /**
     * `on_branch`: before any solution, nothing; afterwards exactly one new propagator, which
     * admits exactly the assignments whose objective is below the recorded minimum, and its id.
     */
    method OnBranch(space: Space) returns (ps: seq<PropId>)
      requires space.Valid() && ViewOk(objective, |space.vars.doms|)
      modifies space.props
      ensures space.Valid()
      ensures minimumOpt.None? ==> ps == [] && unchanged(space.props)
      ensures minimumOpt.Some? ==>
                ps == [|old(space.props.list)|] && |space.props.list| == ps[0] + 1
                && space.props.list[..ps[0]] == old(space.props.list)
                && space.props.dependencies
                   == Subscribe(old(space.props.dependencies), PropTriggers(LessThanProp(objective, Const(minimumOpt.value))), ps[0])
                && forall a :: |a| == |space.props.dependencies| ==>
                     (PropHolds(space.props.list[ps[0]], a) <==> Value(objective, a) < minimumOpt.value)
    {
      match minimumOpt
      case None => ps := [];
      case Some(minimum) =>
        var p := space.props.LessThan(objective, Const(minimum));
        ps := [p];
    }

    /** `on_solution`: records the objective's lower bound in the solution's domains. */
    method OnSolution(vars: Vars)
      requires ViewOk(objective, |vars.doms|)
      modifies this
      ensures minimumOpt == Some(MinRaw(objective, vars.doms))
    {
      minimumOpt := Some(MinRaw(objective, vars.doms));
    }
  }

  /**
   * The minimum only drops: a solution found under the propagator `on_branch` added after
   * minimum `m` has every variable set to its value, so the objective's lower bound there,
   * which `on_solution` records next, is its value, and that is below `m`.
   */
  lemma MinimumDrops(objective: View, m: int, doms: seq<Var>, a: seq<int>)
    requires ViewOk(objective, |doms|) && |a| == |doms|
    requires forall v :: 0 <= v < |doms| ==> doms[v] == Var(a[v], a[v])
    requires PropHolds(LessThanProp(objective, Const(m)), a)
    ensures MinRaw(objective, doms) < m
  {
    ViewAssigned(objective, doms, a);
  }
}
