/** The newer engine's variable store (src/vars.rs): a growable vector of interval domains. */
module VarStore {
  import opened Domains

  /** `Vars`: the domains of the decision variables, indexed by `VarId`. */
  class Vars {
    var doms: seq<Var>

    /** `Vars::default`: no variable. */
    constructor ()
      ensures doms == []
    {
      doms := [];
    }

    /**
     * `new_var_with_bounds`: appends `[min, max]` and hands out the old count as the id, so an
     * id is never handed out twice and every earlier domain is kept.
     */
    method NewVarWithBounds(min: int, max: int) returns (v: VarId)
      modifies this
      ensures v == |old(doms)| && |doms| == |old(doms)| + 1
      ensures doms[..v] == old(doms) && doms[v] == Var(min, max)
    {
      v := |doms|;
      doms := doms + [Var(min, max)];
      assert doms[..v] == old(doms);
    }

    /** `#[derive(Clone)]`: a fresh store with the same domains. */
    method Clone() returns (c: Vars)
      ensures fresh(c) && c.doms == doms
    {
      c := new Vars();
      c.doms := doms;
    }
  }
}
