/**
 * The newer engine's propagator store (src/props/mod.rs): the registered propagators, one
 * per `PropId`, and the dependency matrix, one row per decision variable listing the
 * propagators to schedule when that variable's domain changes.
 */
module Registry {
  import opened Domains
  import opened Views
  import opened AddProp
  import opened SumProp
  import opened EqualsProp
  import opened LeqProp

  /** `PropId`: a propagator's position in the store. */
  type PropId = nat

  /** A registered propagator, one of the view-generic kinds. */
  datatype Prop =
    | AddP(add: Add)
    | SumP(sum: Sum)
    | EqualsP(equals: Equals)
    | LeqP(leq: LessThanOrEquals)

  predicate PropOk(p: Prop, n: nat) {
    match p
    case AddP(q) => AddOk(q, n)
    case SumP(q) => SumOk(q, n)
    case EqualsP(q) => EqualsOk(q, n)
    case LeqP(q) => LeqOk(q, n)
  }

  /** The constraint the propagator enforces holds for the assignment `a`. */
  predicate PropHolds(p: Prop, a: seq<int>)
    requires PropOk(p, |a|)
  {
    match p
    case AddP(q) => AddHolds(q, a)
    case SumP(q) => SumHolds(q, a)
    case EqualsP(q) => EqualsHolds(q, a)
    case LeqP(q) => LeqHolds(q, a)
  }

  /** `list_trigger_vars` of whichever kind the propagator is. */
  function PropTriggers(p: Prop): seq<VarId> {
    match p
    case AddP(q) => AddTriggers(q)
    case SumP(q) => SumTriggers(q)
    case EqualsP(q) => EqualsTriggers(q)
    case LeqP(q) => LeqTriggers(q)
  }

  /** Every propagator of the list holds for `a`. */
  predicate AllHold(ps: seq<Prop>, a: seq<int>)
    requires forall i :: 0 <= i < |ps| ==> PropOk(ps[i], |a|)
  {
    forall i :: 0 <= i < |ps| ==> PropHolds(ps[i], a)
  }

  /** A propagator well formed over `n` variables stays so over more. */
  lemma PropOkGrow(p: Prop, n: nat, m: nat)
    requires PropOk(p, n) && n <= m
    ensures PropOk(p, m)
  {
    match p
    case AddP(q) => ViewOkGrow(q.x, n, m); ViewOkGrow(q.y, n, m);
    case SumP(q) =>
      forall i | 0 <= i < |q.xs| ensures ViewOk(q.xs[i], m) { ViewOkGrow(q.xs[i], n, m); }
    case EqualsP(q) => ViewOkGrow(q.x, n, m); ViewOkGrow(q.y, n, m);
    case LeqP(q) => ViewOkGrow(q.x, n, m); ViewOkGrow(q.y, n, m);
  }

  /**
   * `Prune::prune` dispatched on the kind: whichever it is, the propagator only narrows and
   * logs honestly, touches only its trigger variables, and never loses an assignment that
   * satisfies it, so it fails only when no assignment inside the domains does.
   */
  method Prune(p: Prop, ctx: Context) returns (ok: bool)
    requires PropOk(p, |ctx.vars.doms|)
    modifies ctx, ctx.vars
    ensures Narrows(old(ctx.vars.doms), old(ctx.events), ctx.vars.doms, ctx.events)
    ensures forall u :: 0 <= u < |ctx.vars.doms| && u !in PropTriggers(p) ==> ctx.vars.doms[u] == old(ctx.vars.doms)[u]
    ensures forall a :: InDoms(a, old(ctx.vars.doms)) && PropHolds(p, a) ==> ok && InDoms(a, ctx.vars.doms)
  {
    match p
    case AddP(q) => ok := PruneAdd(q, ctx);
    case SumP(q) => ok := PruneSum(q, ctx);
    case EqualsP(q) => ok := PruneEquals(q, ctx);
    case LeqP(q) => ok := PruneLeq(q, ctx);
  }

  /** The dependency matrix after subscribing propagator `id` to every variable of `ts`. */
  function Subscribe(deps: seq<seq<PropId>>, ts: seq<VarId>, id: PropId): (r: seq<seq<PropId>>)
    ensures |r| == |deps|
    ensures forall u :: 0 <= u < |deps| && u in ts ==> r[u] == deps[u] + [id]
    ensures forall u :: 0 <= u < |deps| && u !in ts ==> r[u] == deps[u]
  {
    seq(|deps|, u requires 0 <= u < |deps| => if u in ts then deps[u] + [id] else deps[u])
  }

  /** `x < y` as the engine states it: `x + 1 <= y`. */
  function LessThanProp(x: View, y: View): (p: Prop)
    ensures forall n :: ViewOk(x, n) && ViewOk(y, n) ==> PropOk(p, n)
    ensures forall a :: ViewOk(x, |a|) && ViewOk(y, |a|) ==> (PropHolds(p, a) <==> Value(x, a) < Value(y, a))
  {
    LeqP(LessThanOrEquals(Plus(x, 1), y))
  }

  /**
   * `Propagators`: the registered propagators and the dependency matrix. Every registered
   * propagator reads only variables that have a row, and every row lists registered ids only.
   */
  class Propagators {
    var dependencies: seq<seq<PropId>>
    var list: seq<Prop>

    ghost predicate Valid()
      reads this
    {
      (forall i :: 0 <= i < |list| ==> PropOk(list[i], |dependencies|))
      && (forall u, k :: 0 <= u < |dependencies| && 0 <= k < |dependencies[u]| ==> dependencies[u][k] < |list|)
    }

    /** `Propagators::default`: no dependency row and no propagator. */
    constructor ()
      ensures dependencies == [] && list == [] && Valid()
    {
      dependencies := [];
      list := [];
    }

    /** `on_new_var`: one more, empty, dependency row; the earlier rows are kept. */
    method OnNewVar()
      requires Valid()
      modifies this
      ensures dependencies == old(dependencies) + [[]] && list == old(list)
      ensures Valid()
    {
      dependencies := dependencies + [[]];
      forall i | 0 <= i < |list| ensures PropOk(list[i], |dependencies|) {
        PropOkGrow(list[i], |dependencies| - 1, |dependencies|);
      }
    }

    /** `#[derive(Clone)]`: a fresh store with the same propagators and rows. */
    method Clone() returns (c: Propagators)
      ensures fresh(c) && c.dependencies == dependencies && c.list == list
    {
      c := new Propagators();
      c.dependencies := dependencies;
      c.list := list;
    }

    /**
     * Registers `p` under the next id and subscribes it to each of its trigger variables,
     * which is what every registration helper below does for its own kind.
     */
    method Register(p: Prop) returns (id: PropId)
      requires Valid() && PropOk(p, |dependencies|)
      modifies this
      ensures id == |old(list)| && list == old(list) + [p]
      ensures dependencies == Subscribe(old(dependencies), PropTriggers(p), id)
      ensures Valid()
    {
      id := |list|;
      list := list + [p];
      dependencies := Subscribe(dependencies, PropTriggers(p), id);
      assert forall i :: 0 <= i < |list| - 1 ==> list[i] == old(list)[i];
    }

    /** `add`: registers `x + y == s`. */
    method Add(x: View, y: View, s: VarId) returns (id: PropId)
      requires Valid() && ViewOk(x, |dependencies|) && ViewOk(y, |dependencies|) && s < |dependencies|
      modifies this
      ensures id == |old(list)| && list == old(list) + [AddP(AddProp.Add(x, y, s))]
      ensures dependencies == Subscribe(old(dependencies), AddTriggers(AddProp.Add(x, y, s)), id)
      ensures Valid()
      ensures forall a :: |a| == |dependencies| ==> (PropHolds(list[id], a) <==> Value(x, a) + Value(y, a) == a[s])
    {
      id := Register(AddP(AddProp.Add(x, y, s)));
    }

    /** `sum`: registers `sum(xs) == s`. */
    method Sum(xs: seq<View>, s: VarId) returns (id: PropId)
      requires Valid() && ViewsOk(xs, |dependencies|) && s < |dependencies|
      modifies this
      ensures id == |old(list)| && list == old(list) + [SumP(SumProp.Sum(xs, s))]
      ensures dependencies == Subscribe(old(dependencies), SumTriggers(SumProp.Sum(xs, s)), id)
      ensures Valid()
      ensures forall a :: |a| == |dependencies| ==> (PropHolds(list[id], a) <==> Total(xs, a) == a[s])
    {
      id := Register(SumP(SumProp.Sum(xs, s)));
    }

    /** `equals`: registers `x == y`. */
    method Equals(x: View, y: View) returns (id: PropId)
      requires Valid() && ViewOk(x, |dependencies|) && ViewOk(y, |dependencies|)
      modifies this
      ensures id == |old(list)| && |list| == id + 1 && list[..id] == old(list)
      ensures dependencies == Subscribe(old(dependencies), EqualsTriggers(EqualsProp.Equals(x, y)), id)
      ensures Valid()
      ensures forall a :: |a| == |dependencies| ==> (PropHolds(list[id], a) <==> Value(x, a) == Value(y, a))
    {
      id := Register(EqualsP(EqualsProp.Equals(x, y)));
      assert list[..id] == old(list);
    }

    /** `less_than_or_equals`: registers `x <= y`. */
    method LessThanOrEquals(x: View, y: View) returns (id: PropId)
      requires Valid() && ViewOk(x, |dependencies|) && ViewOk(y, |dependencies|)
      modifies this
      ensures id == |old(list)| && |list| == id + 1 && list[..id] == old(list)
      ensures dependencies == Subscribe(old(dependencies), LeqTriggers(LeqProp.LessThanOrEquals(x, y)), id)
      ensures Valid()
      ensures forall a :: |a| == |dependencies| ==> (PropHolds(list[id], a) <==> Value(x, a) <= Value(y, a))
    {
      id := Register(LeqP(LeqProp.LessThanOrEquals(x, y)));
      assert list[..id] == old(list);
    }

    /** `less_than`: registers `x < y`, as `x + 1 <= y`. */
    method LessThan(x: View, y: View) returns (id: PropId)
      requires Valid() && ViewOk(x, |dependencies|) && ViewOk(y, |dependencies|)
      modifies this
      ensures id == |old(list)| && |list| == id + 1 && list[..id] == old(list)
      ensures dependencies == Subscribe(old(dependencies), PropTriggers(LessThanProp(x, y)), id)
      ensures Valid()
      ensures forall a :: |a| == |dependencies| ==> (PropHolds(list[id], a) <==> Value(x, a) < Value(y, a))
    {
      id := Register(LessThanProp(x, y));
      assert list[..id] == old(list);
    }

    /** `greater_than_or_equals`: registers `x >= y`, as `y <= x`. */
    method GreaterThanOrEquals(x: View, y: View) returns (id: PropId)
      requires Valid() && ViewOk(x, |dependencies|) && ViewOk(y, |dependencies|)
      modifies this
      ensures id == |old(list)| && |list| == id + 1 && list[..id] == old(list)
      ensures dependencies == Subscribe(old(dependencies), LeqTriggers(LeqProp.LessThanOrEquals(y, x)), id)
      ensures Valid()
      ensures forall a :: |a| == |dependencies| ==> (PropHolds(list[id], a) <==> Value(x, a) >= Value(y, a))
    {
      id := LessThanOrEquals(y, x);
    }

    /** `greater_than`: registers `x > y`, as `y < x`. */
    method GreaterThan(x: View, y: View) returns (id: PropId)
      requires Valid() && ViewOk(x, |dependencies|) && ViewOk(y, |dependencies|)
      modifies this
      ensures id == |old(list)| && |list| == id + 1 && list[..id] == old(list)
      ensures dependencies == Subscribe(old(dependencies), PropTriggers(LessThanProp(y, x)), id)
      ensures Valid()
      ensures forall a :: |a| == |dependencies| ==> (PropHolds(list[id], a) <==> Value(x, a) > Value(y, a))
    {
      id := LessThan(y, x);
    }
  }
}
