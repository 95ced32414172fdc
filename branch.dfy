/** The newer engine's branching (src/search/branch.rs): a binary split of one domain. */
module Branching {
  import opened Wrappers
  import opened Domains
  import opened VarStore
  import opened Views
  import opened Registry
  import opened Spaces

  /** `get_unassigned_var`: the first variable whose domain is not a single value. */
  function FirstUnassigned(doms: seq<Var>): (r: Option<VarId>)
    ensures r.None? <==> forall v :: 0 <= v < |doms| ==> IsSet(doms[v])
    ensures r.Some? ==> r.value < |doms| && !IsSet(doms[r.value])
                        && forall v :: 0 <= v < r.value ==> IsSet(doms[v])
    decreases |doms|
  {
    if doms == [] then None
    else if !IsSet(doms[0]) then Some(0)
    else match FirstUnassigned(doms[1..])
      case None => None
      case Some(v) => Some(v + 1)
  }

  /**
   * `split_on_unassigned`: with every variable set, no branch. Otherwise two, left then right:
   * a copy of the space with `pivot <= mid` added, and the space itself with `pivot > mid`
   * added, `mid` splitting the first unset domain. Each comes with the new propagator's id.
   * The two constraints split every assignment between the branches, and both halves of the
   * pivot's domain are nonempty.
   */
  method SplitOnUnassigned(space: Space) returns (branches: seq<(Space, PropId)>)
    requires space.Valid()
    requires forall v :: 0 <= v < |space.vars.doms| ==> space.vars.doms[v].min <= space.vars.doms[v].max
    modifies space.props
    ensures FirstUnassigned(space.vars.doms).None? ==> branches == [] && unchanged(space.props)
    ensures FirstUnassigned(space.vars.doms).Some? ==> |branches| == 2
    ensures |branches| == 2 ==>
              var n := |old(space.props.list)|;
              var pivot := FirstUnassigned(space.vars.doms).value;
              var left := branches[0].0;
              branches[0].1 == n && branches[1] == (space, n)
              && fresh(left) && fresh(left.vars) && fresh(left.props) && left.Valid() && space.Valid()
              && left.vars.doms == space.vars.doms
              && |left.props.list| == n + 1 && left.props.list[..n] == old(space.props.list)
              && |space.props.list| == n + 1 && space.props.list[..n] == old(space.props.list)
              && left.props.dependencies
                 == Subscribe(old(space.props.dependencies), PairTriggers(Id(pivot), Const(Mid(space.vars.doms[pivot]))), n)
              && space.props.dependencies
                 == Subscribe(old(space.props.dependencies), PropTriggers(LessThanProp(Const(Mid(space.vars.doms[pivot])), Id(pivot))), n)
              && space.vars.doms[pivot].min <= Mid(space.vars.doms[pivot]) < space.vars.doms[pivot].max
              && (forall a :: |a| == |space.vars.doms| ==>
                    (PropHolds(left.props.list[n], a) <==> a[pivot] <= Mid(space.vars.doms[pivot]))
                    && (PropHolds(space.props.list[n], a) <==> a[pivot] > Mid(space.vars.doms[pivot])))
  {
    match FirstUnassigned(space.vars.doms)
    case None =>
      branches := [];
    case Some(pivot) =>
      var mid := Mid(space.vars.doms[pivot]);
      var left := space.Clone();
      var p := left.props.LessThanOrEquals(Id(pivot), Const(mid));
      var q := space.props.GreaterThan(Id(pivot), Const(mid));
      branches := [(left, p), (space, q)];
  }
}
