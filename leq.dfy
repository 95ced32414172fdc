/** The view-generic `LessThanOrEquals` propagator of the newer engine (src/props/leq.rs): `x <= y`. */
module LeqProp {
  import opened Wrappers
  import opened Domains
  import opened Views

  /** `LessThanOrEquals`: the first view is at most the second. */
  datatype LessThanOrEquals = LessThanOrEquals(x: View, y: View)

  predicate LeqOk(p: LessThanOrEquals, n: nat) {
    ViewOk(p.x, n) && ViewOk(p.y, n)
  }

  /** The assignment satisfies `x <= y`. */
  predicate LeqHolds(p: LessThanOrEquals, a: seq<int>)
    requires LeqOk(p, |a|)
  {
    Value(p.x, a) <= Value(p.y, a)
  }

  /** `list_trigger_vars`: the pair's triggers, `x` then `y`. */
  function LeqTriggers(p: LessThanOrEquals): seq<VarId> {
    PairTriggers(p.x, p.y)
  }

  /**
   * `LessThanOrEquals::prune`: `x.max` is lowered to `y.max`, then `y.min` raised to `x.min`.
   * It only narrows and logs honestly, touches only the two underlying variables and never
   * loses an assignment with `x <= y`. On views that share no variable it fails exactly when
   * `x.min > y.max`, leaves `x.min` and `y.max` alone, and keeps exactly the assignments with
   * `x <= old y.max` and `y >= old x.min`.
   */
  method PruneLeq(p: LessThanOrEquals, ctx: Context) returns (ok: bool)
    requires LeqOk(p, |ctx.vars.doms|)
    modifies ctx, ctx.vars
    ensures Narrows(old(ctx.vars.doms), old(ctx.events), ctx.vars.doms, ctx.events)
    ensures forall u :: 0 <= u < |ctx.vars.doms| && u !in LeqTriggers(p) ==> ctx.vars.doms[u] == old(ctx.vars.doms)[u]
    ensures forall a :: InDoms(a, old(ctx.vars.doms)) && LeqHolds(p, a) ==> ok && InDoms(a, ctx.vars.doms)
    ensures Apart(p.x, p.y) ==> (ok <==> MinRaw(p.x, old(ctx.vars.doms)) <= MaxRaw(p.y, old(ctx.vars.doms)))
    ensures ok && Apart(p.x, p.y) ==>
              MinRaw(p.x, ctx.vars.doms) == MinRaw(p.x, old(ctx.vars.doms)) && MaxRaw(p.y, ctx.vars.doms) == MaxRaw(p.y, old(ctx.vars.doms))
    ensures ok && Apart(p.x, p.y) ==>
              forall a :: InDoms(a, old(ctx.vars.doms)) ==>
                (InDoms(a, ctx.vars.doms) <==>
                   Value(p.x, a) <= MaxRaw(p.y, old(ctx.vars.doms)) && Value(p.y, a) >= MinRaw(p.x, old(ctx.vars.doms)))
  {
    ghost var d0, e0 := ctx.vars.doms, ctx.events;
    var r := ctx.ViewTrySetMax(p.x, MaxRaw(p.y, ctx.vars.doms));
    if r.None? {
      forall a | InDoms(a, d0) && LeqHolds(p, a) ensures false {
        ViewBounds(p.x, d0, a);
        ViewBounds(p.y, d0, a);
      }
      return false;
    }
    forall a | InDoms(a, d0) && LeqHolds(p, a) ensures InDoms(a, ctx.vars.doms) {
      ViewBounds(p.y, d0, a);
    }
    ghost var d1, e1 := ctx.vars.doms, ctx.events;
    if Apart(p.x, p.y) {
      ViewReads(p.y, d0, d1);
    }
    r := ctx.ViewTrySetMin(p.y, MinRaw(p.x, ctx.vars.doms));
    NarrowsTrans(d0, e0, d1, e1, ctx.vars.doms, ctx.events);
    if r.None? {
      forall a | InDoms(a, d0) && LeqHolds(p, a) ensures false {
        ViewBounds(p.x, d1, a);
        ViewBounds(p.y, d1, a);
      }
      return false;
    }
    forall a | InDoms(a, d0) && LeqHolds(p, a) ensures InDoms(a, ctx.vars.doms) {
      ViewBounds(p.x, d1, a);
    }
    if Apart(p.x, p.y) {
      ViewReads(p.x, d1, ctx.vars.doms);
    }
    ok := true;
  }
}
