/** The newer engine's search space: decision variables and propagators, cloned per branch. */
module Spaces {
  import opened VarStore
  import opened Registry

  /** `Space`: the domains and the propagators of one search node. */
  class Space {
    const vars: Vars
    const props: Propagators

    /** One dependency row per variable, and a well-formed propagator store. */
    ghost predicate Valid()
      reads this, vars, props
    {
      |vars.doms| == |props.dependencies| && props.Valid()
    }

    constructor (vars: Vars, props: Propagators)
      ensures this.vars == vars && this.props == props
    {
      this.vars := vars;
      this.props := props;
    }

    /** `#[derive(Clone)]`: a space that shares nothing with this one and has the same contents. */
    method Clone() returns (c: Space)
      ensures fresh(c) && fresh(c.vars) && fresh(c.props)
      ensures c.vars.doms == vars.doms
      ensures c.props.dependencies == props.dependencies && c.props.list == props.list
    {
      var v := vars.Clone();
      var p := props.Clone();
      c := new Space(v, p);
    }
  }
}
