/** The view-generic `Equals` propagator of the newer engine (src/props/eq.rs): `x == y`. */
module EqualsProp {
  import opened Wrappers
  import opened Domains
  import opened Views
  import opened Ints

  /** `Equals`: two views that must take the same value. */
  datatype Equals = Equals(x: View, y: View)

  predicate EqualsOk(p: Equals, n: nat) {
    ViewOk(p.x, n) && ViewOk(p.y, n)
  }

  /** The assignment satisfies `x == y`. */
  predicate EqualsHolds(p: Equals, a: seq<int>)
    requires EqualsOk(p, |a|)
  {
    Value(p.x, a) == Value(p.y, a)
  }

  /** `list_trigger_vars`: the pair's triggers, `x` then `y`. */
  function EqualsTriggers(p: Equals): seq<VarId> {
    PairTriggers(p.x, p.y)
  }

  /** `dst.try_set_min(src.min(ctx), ctx)`: nothing where the views agree is lost. */
  method RaiseToMin(src: View, dst: View, ctx: Context) returns (ok: bool)
    requires ViewOk(src, |ctx.vars.doms|) && ViewOk(dst, |ctx.vars.doms|)
    modifies ctx, ctx.vars
    ensures Narrows(old(ctx.vars.doms), old(ctx.events), ctx.vars.doms, ctx.events)
    ensures forall u :: 0 <= u < |ctx.vars.doms| && Underlying(dst) != Some(u) ==> ctx.vars.doms[u] == old(ctx.vars.doms)[u]
    ensures forall a :: InDoms(a, old(ctx.vars.doms)) && Value(src, a) == Value(dst, a) ==> ok && InDoms(a, ctx.vars.doms)
    ensures ok <==> MinRaw(src, old(ctx.vars.doms)) <= MaxRaw(dst, old(ctx.vars.doms))
    ensures ok ==> MinRaw(src, old(ctx.vars.doms)) <= MinRaw(dst, ctx.vars.doms) && MaxRaw(dst, ctx.vars.doms) == MaxRaw(dst, old(ctx.vars.doms))
    ensures ok && dst.Id? ==> ctx.vars.doms[dst.v] == Var(Max(old(ctx.vars.doms)[dst.v].min, MinRaw(src, old(ctx.vars.doms))), old(ctx.vars.doms)[dst.v].max)
  {
    ghost var d0 := ctx.vars.doms;
    var r := ctx.ViewTrySetMin(dst, MinRaw(src, ctx.vars.doms));
    ok := r.Some?;
    forall a | InDoms(a, d0) && Value(src, a) == Value(dst, a) ensures ok && InDoms(a, ctx.vars.doms) {
      ViewBounds(src, d0, a);
      ViewBounds(dst, d0, a);
    }
  }

  /** `dst.try_set_max(src.max(ctx), ctx)`: nothing where the views agree is lost. */
  method LowerToMax(src: View, dst: View, ctx: Context) returns (ok: bool)
    requires ViewOk(src, |ctx.vars.doms|) && ViewOk(dst, |ctx.vars.doms|)
    modifies ctx, ctx.vars
    ensures Narrows(old(ctx.vars.doms), old(ctx.events), ctx.vars.doms, ctx.events)
    ensures forall u :: 0 <= u < |ctx.vars.doms| && Underlying(dst) != Some(u) ==> ctx.vars.doms[u] == old(ctx.vars.doms)[u]
    ensures forall a :: InDoms(a, old(ctx.vars.doms)) && Value(src, a) == Value(dst, a) ==> ok && InDoms(a, ctx.vars.doms)
    ensures ok <==> MaxRaw(src, old(ctx.vars.doms)) >= MinRaw(dst, old(ctx.vars.doms))
    ensures ok ==> MaxRaw(dst, ctx.vars.doms) <= MaxRaw(src, old(ctx.vars.doms)) && MinRaw(dst, ctx.vars.doms) == MinRaw(dst, old(ctx.vars.doms))
    ensures ok && dst.Id? ==> ctx.vars.doms[dst.v] == Var(old(ctx.vars.doms)[dst.v].min, Min(old(ctx.vars.doms)[dst.v].max, MaxRaw(src, old(ctx.vars.doms))))
  {
    ghost var d0 := ctx.vars.doms;
    var r := ctx.ViewTrySetMax(dst, MaxRaw(src, ctx.vars.doms));
    ok := r.Some?;
    forall a | InDoms(a, d0) && Value(src, a) == Value(dst, a) ensures ok && InDoms(a, ctx.vars.doms) {
      ViewBounds(src, d0, a);
      ViewBounds(dst, d0, a);
    }
  }

  /**
   * Two consecutive lines of `prune`: `dst` is raised to the minimum of `src`, then lowered to
   * the maximum of `src` as it stands after the first step. Nothing where the two views agree
   * is lost; on views that share no variable `dst` ends inside `src`'s old bounds, and on two
   * distinct plain variables it becomes exactly their intersection, failing exactly when
   * `src` is empty or the two do not overlap.
   */
  method CopyBounds(src: View, dst: View, ctx: Context) returns (ok: bool)
    requires ViewOk(src, |ctx.vars.doms|) && ViewOk(dst, |ctx.vars.doms|)
    modifies ctx, ctx.vars
    ensures Narrows(old(ctx.vars.doms), old(ctx.events), ctx.vars.doms, ctx.events)
    ensures forall u :: 0 <= u < |ctx.vars.doms| && Underlying(dst) != Some(u) ==> ctx.vars.doms[u] == old(ctx.vars.doms)[u]
    ensures forall a :: InDoms(a, old(ctx.vars.doms)) && Value(src, a) == Value(dst, a) ==> ok && InDoms(a, ctx.vars.doms)
    ensures ok && Apart(dst, src) ==>
              MinRaw(src, old(ctx.vars.doms)) <= MinRaw(dst, ctx.vars.doms) && MaxRaw(dst, ctx.vars.doms) <= MaxRaw(src, old(ctx.vars.doms))
    ensures src.Id? && dst.Id? && src.v != dst.v ==>
              var (s, d) := (old(ctx.vars.doms)[src.v], old(ctx.vars.doms)[dst.v]);
              (ok <==> s.min <= s.max && s.min <= d.max && d.min <= s.max)
              && (ok ==> ctx.vars.doms[dst.v] == Intersect(d, s.min, s.max))
  {
    ghost var d0, e0 := ctx.vars.doms, ctx.events;
    ok := RaiseToMin(src, dst, ctx);
    if !ok {
      return;
    }
    ghost var d1, e1 := ctx.vars.doms, ctx.events;
    ok := LowerToMax(src, dst, ctx);
    NarrowsTrans(d0, e0, d1, e1, ctx.vars.doms, ctx.events);
    if ok && Apart(dst, src) {
      ViewReads(src, d0, d1);
    }
    if src.Id? && dst.Id? && src.v != dst.v {
      CopyExact(d0[src.v], d0[dst.v], d1[dst.v], ok, ctx.vars.doms[dst.v]);
    }
  }

  /**
   * The two steps of `CopyBounds` on plain variables, as arithmetic on intervals: raising `d`
   * to `s.min` and then lowering the result to `s.max` succeeds exactly when the intervals
   * overlap and leaves their intersection.
   */
  lemma CopyExact(s: Var, d: Var, d1: Var, ok: bool, d2: Var)
    requires s.min <= d.max && d1 == Var(Max(d.min, s.min), d.max)
    requires ok <==> s.max >= d1.min
    requires ok ==> d2 == Var(d1.min, Min(d1.max, s.max))
    ensures ok <==> s.min <= s.max && s.min <= d.max && d.min <= s.max
    ensures ok ==> d2 == Intersect(d, s.min, s.max)
  {
  }

  /** The part of `d` shared with `e`. */
  function Meet(d: Var, e: Var): (r: Var)
    ensures forall v :: Contains(r, v) <==> Contains(d, v) && Contains(e, v)
  {
    Intersect(d, e.min, e.max)
  }

  /**
   * `Equals::prune`: `x` takes `y`'s bounds, then `y` takes `x`'s new bounds. It only narrows
   * and logs honestly, touches only the two underlying variables, never loses an assignment
   * where the views agree; on two distinct plain variables it fails exactly when their
   * intervals share no value and otherwise leaves both equal to the intersection.
   */
  method PruneEquals(p: Equals, ctx: Context) returns (ok: bool)
    requires EqualsOk(p, |ctx.vars.doms|)
    modifies ctx, ctx.vars
    ensures Narrows(old(ctx.vars.doms), old(ctx.events), ctx.vars.doms, ctx.events)
    ensures forall u :: 0 <= u < |ctx.vars.doms| && u !in EqualsTriggers(p) ==> ctx.vars.doms[u] == old(ctx.vars.doms)[u]
    ensures forall a :: InDoms(a, old(ctx.vars.doms)) && EqualsHolds(p, a) ==> ok && InDoms(a, ctx.vars.doms)
    ensures ok && Apart(p.x, p.y) ==>
              MinRaw(p.y, old(ctx.vars.doms)) <= MinRaw(p.x, ctx.vars.doms) && MaxRaw(p.x, ctx.vars.doms) <= MaxRaw(p.y, old(ctx.vars.doms))
              && MinRaw(p.x, ctx.vars.doms) <= MinRaw(p.y, ctx.vars.doms) && MaxRaw(p.y, ctx.vars.doms) <= MaxRaw(p.x, ctx.vars.doms)
    ensures p.x.Id? && p.y.Id? && p.x.v != p.y.v ==>
              var m := Meet(old(ctx.vars.doms)[p.x.v], old(ctx.vars.doms)[p.y.v]);
              (ok <==> !IsEmpty(m)) && (ok ==> ctx.vars.doms[p.x.v] == m && ctx.vars.doms[p.y.v] == m)
  {
    ghost var d0, e0 := ctx.vars.doms, ctx.events;
    ok := CopyBounds(p.y, p.x, ctx);
    if !ok {
      return;
    }
    ghost var d1, e1 := ctx.vars.doms, ctx.events;
    ok := CopyBounds(p.x, p.y, ctx);
    NarrowsTrans(d0, e0, d1, e1, ctx.vars.doms, ctx.events);
    if ok && Apart(p.x, p.y) {
      ViewReads(p.y, d0, d1);
      ViewReads(p.x, d1, ctx.vars.doms);
    }
  }
}
