/**
 * Views of the newer engine (src/views.rs): propagators read and narrow a decision variable
 * or a constant through affine maps (`Opposite`, `Plus`, `TimesPos`, and `Times`, which picks
 * one of them by the sign of the scale), and every narrowing goes through a `Context` that
 * changes a domain in place and logs an event for each real change.
 */
module Views {
  import opened Wrappers
  import opened Ints
  import opened Domains
  import opened VarStore

  /**
   * A view: a constant (`impl View for i32`), a variable (`VarId`, and `VarIdBinary`, a
   * variable over `[0, 1]`), or an affine map of an inner view. `Times::Zero` behaves as the
   * constant 0 in every respect, so `NewTimes` builds that constant.
   */
  datatype View =
    | Const(c: int)
    | Id(v: VarId)
    | Binary(b: VarId)
    | Opposite(inner: View)
    | Plus(x: View, offset: int)
    | TimesPos(x: View, scalePos: int)

  /** Every variable the view names exists, and every positive scale is positive (`TimesPos::new` panics otherwise). */
  predicate ViewOk(x: View, n: nat) {
    match x
    case Const(_) => true
    case Id(v) => v < n
    case Binary(v) => v < n
    case Opposite(y) => ViewOk(y, n)
    case Plus(y, _) => ViewOk(y, n)
    case TimesPos(y, s) => s > 0 && ViewOk(y, n)
  }

  /** `get_underlying_var`: the variable the view depends on, none for a constant. */
  function Underlying(x: View): (r: Option<VarId>)
    ensures forall n :: ViewOk(x, n) && r.Some? ==> r.value < n
  {
    match x
    case Const(_) => None
    case Id(v) => Some(v)
    case Binary(v) => Some(v)
    case Opposite(y) => Underlying(y)
    case Plus(y, _) => Underlying(y)
    case TimesPos(y, _) => Underlying(y)
  }

  /** The value the view takes when the variables take the values of `a`. */
  function Value(x: View, a: seq<int>): int
    requires ViewOk(x, |a|)
  {
    match x
    case Const(c) => c
    case Id(v) => a[v]
    case Binary(v) => a[v]
    case Opposite(y) => -Value(y, a)
    case Plus(y, offset) => Value(y, a) + offset
    case TimesPos(y, s) => Value(y, a) * s
  }

  /** `min_raw`: the view's lower bound under the domains `doms`. */
  function MinRaw(x: View, doms: seq<Var>): int
    requires ViewOk(x, |doms|)
  {
    match x
    case Const(c) => c
    case Id(v) => doms[v].min
    case Binary(v) => doms[v].min
    case Opposite(y) => -MaxRaw(y, doms)
    case Plus(y, offset) => MinRaw(y, doms) + offset
    case TimesPos(y, s) => MinRaw(y, doms) * s
  }

  /** `max_raw`: the view's upper bound under the domains `doms`. */
  function MaxRaw(x: View, doms: seq<Var>): int
    requires ViewOk(x, |doms|)
  {
    match x
    case Const(c) => c
    case Id(v) => doms[v].max
    case Binary(v) => doms[v].max
    case Opposite(y) => -MinRaw(y, doms)
    case Plus(y, offset) => MaxRaw(y, doms) + offset
    case TimesPos(y, s) => MaxRaw(y, doms) * s
  }

  /** The reads are sound: the view's value under any assignment inside the domains lies between them. */
  lemma {:induction false} ViewBounds(x: View, doms: seq<Var>, a: seq<int>)
    requires ViewOk(x, |doms|) && InDoms(a, doms)
    ensures MinRaw(x, doms) <= Value(x, a) <= MaxRaw(x, doms)
  {
    match x
    case Const(_) =>
    case Id(v) =>
    case Binary(v) =>
    case Opposite(y) => ViewBounds(y, doms, a);
    case Plus(y, _) => ViewBounds(y, doms, a);
    case TimesPos(y, s) =>
      ViewBounds(y, doms, a);
      MulMonotone(MinRaw(y, doms), Value(y, a), s);
      MulMonotone(Value(y, a), MaxRaw(y, doms), s);
  }

  /** Reads only tighten as the domains narrow. */
  lemma {:induction false} ViewNarrower(x: View, d1: seq<Var>, d0: seq<Var>)
    requires ViewOk(x, |d0|) && Narrower(d1, d0)
    ensures MinRaw(x, d0) <= MinRaw(x, d1) && MaxRaw(x, d1) <= MaxRaw(x, d0)
  {
    match x
    case Const(_) =>
    case Id(v) =>
    case Binary(v) =>
    case Opposite(y) => ViewNarrower(y, d1, d0);
    case Plus(y, _) => ViewNarrower(y, d1, d0);
    case TimesPos(y, s) =>
      ViewNarrower(y, d1, d0);
      MulMonotone(MinRaw(y, d0), MinRaw(y, d1), s);
      MulMonotone(MaxRaw(y, d1), MaxRaw(y, d0), s);
  }

  /** A view reads only its underlying variable. */
  lemma {:induction false} ViewReads(x: View, d0: seq<Var>, d1: seq<Var>)
    requires ViewOk(x, |d0|) && |d1| == |d0|
    requires Underlying(x).Some? ==> d1[Underlying(x).value] == d0[Underlying(x).value]
    ensures MinRaw(x, d1) == MinRaw(x, d0) && MaxRaw(x, d1) == MaxRaw(x, d0)
  {
    match x
    case Const(_) =>
    case Id(v) =>
    case Binary(v) =>
    case Opposite(y) => ViewReads(y, d0, d1);
    case Plus(y, _) => ViewReads(y, d0, d1);
    case TimesPos(y, _) => ViewReads(y, d0, d1);
  }

  /** A view's value depends only on its underlying variable's value. */
  lemma {:induction false} ValueReads(x: View, a: seq<int>, b: seq<int>)
    requires ViewOk(x, |a|) && |b| == |a|
    requires Underlying(x).Some? ==> b[Underlying(x).value] == a[Underlying(x).value]
    ensures Value(x, b) == Value(x, a)
  {
    match x
    case Const(_) =>
    case Id(v) =>
    case Binary(v) =>
    case Opposite(y) => ValueReads(y, a, b);
    case Plus(y, _) => ValueReads(y, a, b);
    case TimesPos(y, _) => ValueReads(y, a, b);
  }

  /** A view over more variables is still well formed. */
  lemma {:induction false} ViewOkGrow(x: View, n: nat, m: nat)
    requires ViewOk(x, n) && n <= m
    ensures ViewOk(x, m)
  {
    match x
    case Const(_) =>
    case Id(_) =>
    case Binary(_) =>
    case Opposite(y) => ViewOkGrow(y, n, m);
    case Plus(y, _) => ViewOkGrow(y, n, m);
    case TimesPos(y, _) => ViewOkGrow(y, n, m);
  }

  /** Once every variable is set to its value in `a`, both reads of a view are its value. */
  lemma {:induction false} ViewAssigned(x: View, doms: seq<Var>, a: seq<int>)
    requires ViewOk(x, |doms|) && |a| == |doms|
    requires forall v :: 0 <= v < |doms| ==> doms[v] == Var(a[v], a[v])
    ensures MinRaw(x, doms) == Value(x, a) == MaxRaw(x, doms)
  {
    match x
    case Const(_) =>
    case Id(_) =>
    case Binary(_) =>
    case Opposite(y) => ViewAssigned(y, doms, a);
    case Plus(y, _) => ViewAssigned(y, doms, a);
    case TimesPos(y, _) => ViewAssigned(y, doms, a);
  }

  /** A view's value ignores variables created after it. */
  lemma {:induction false} ValueExtend(x: View, a: seq<int>, t: int)
    requires ViewOk(x, |a|)
    ensures ViewOk(x, |a + [t]|) && Value(x, a + [t]) == Value(x, a)
  {
    match x
    case Const(_) =>
    case Id(_) =>
    case Binary(_) =>
    case Opposite(y) => ValueExtend(y, a, t);
    case Plus(y, _) => ValueExtend(y, a, t);
    case TimesPos(y, _) => ValueExtend(y, a, t);
  }

  /** The underlying variable as a list of at most one id, as `get_underlying_var` chains into an iterator. */
  function UnderlyingList(x: View): (r: seq<VarId>)
    ensures |r| <= 1 && forall v :: v in r <==> Underlying(x) == Some(v)
  {
    match Underlying(x)
    case None => []
    case Some(v) => [v]
  }

  /**
   * `list_trigger_vars` of a propagator on two views, as `Equals` and `LessThanOrEquals` both
   * write it: the underlying variables of `x` and then of `y`; a constant contributes none.
   */
  function PairTriggers(x: View, y: View): (r: seq<VarId>)
    ensures |r| <= 2
    ensures forall v :: v in r <==> Underlying(x) == Some(v) || Underlying(y) == Some(v)
  {
    UnderlyingList(x) + UnderlyingList(y)
  }

  /** The two views do not read the same variable. */
  predicate Apart(x: View, y: View) {
    Underlying(x).None? || Underlying(x) != Underlying(y)
  }

  // ----- ViewExt constructors -----

  /** `TimesPos::new`: panics unless the scale is positive; the view is `scale * x`. */
  function NewTimesPos(x: View, scalePos: int): (r: View)
    requires scalePos > 0
    ensures forall n :: ViewOk(r, n) <==> ViewOk(x, n)
    ensures Underlying(r) == Underlying(x)
    ensures forall a :: ViewOk(x, |a|) ==> Value(r, a) == scalePos * Value(x, a)
  {
    TimesPos(x, scalePos)
  }

  /** `times_neg`: `TimesPos` of the opposite by the negated scale, panicking unless the scale is negative. */
  function NewTimesNeg(x: View, scaleNeg: int): (r: View)
    requires scaleNeg < 0
    ensures forall n :: ViewOk(r, n) <==> ViewOk(x, n)
    ensures Underlying(r) == Underlying(x)
    ensures forall a :: ViewOk(x, |a|) ==> Value(r, a) == scaleNeg * Value(x, a)
  {
    NewTimesPos(Opposite(x), -scaleNeg)
  }

  /**
   * `Times::new`: a negative scale becomes `TimesPos` of the opposite, zero the constant 0
   * with no underlying variable, a positive scale `TimesPos` of the view itself.
   */
  function NewTimes(x: View, scale: int): (r: View)
    ensures forall n :: ViewOk(x, n) ==> ViewOk(r, n)
    ensures Underlying(r) == if scale == 0 then None else Underlying(x)
    ensures forall a :: ViewOk(x, |a|) ==> Value(r, a) == scale * Value(x, a)
  {
    if scale < 0 then NewTimesNeg(x, scale)
    else if scale == 0 then Const(0)
    else NewTimesPos(x, scale)
  }

  /** Of the assignments inside `d0`, exactly those whose value for `v` lies in `d1[v]` lie inside `d1`, when only `v` changed. */
  lemma InDomsOne(a: seq<int>, d0: seq<Var>, d1: seq<Var>, v: VarId)
    requires InDoms(a, d0) && |d1| == |d0| && v < |d0|
    requires forall u :: 0 <= u < |d0| && u != v ==> d1[u] == d0[u]
    ensures InDoms(a, d1) <==> Contains(d1[v], a[v])
  {
  }

  /**
   * The domains `View::try_set_min` leaves when it succeeds: the bound travels down to the
   * underlying variable (rounded up through a positive scale, turned into a maximum through
   * `Opposite`), whose minimum becomes the larger of the two.
   */
  function SetMinDoms(x: View, d: seq<Var>, min: int): (r: seq<Var>)
    requires ViewOk(x, |d|)
    ensures |r| == |d|
    decreases x
  {
    match x
    case Const(_) => d
    case Id(v) => d[v := Var(Max(d[v].min, min), d[v].max)]
    case Binary(v) => d[v := Var(Max(d[v].min, min), d[v].max)]
    case Opposite(y) => SetMaxDoms(y, d, -min)
    case Plus(y, offset) => SetMinDoms(y, d, min - offset)
    case TimesPos(y, s) => SetMinDoms(y, d, DivCeil(min, s))
  }

  /** The domains `View::try_set_max` leaves when it succeeds: the mirror image of `SetMinDoms`. */
  function SetMaxDoms(x: View, d: seq<Var>, max: int): (r: seq<Var>)
    requires ViewOk(x, |d|)
    ensures |r| == |d|
    decreases x
  {
    match x
    case Const(_) => d
    case Id(v) => d[v := Var(d[v].min, Min(d[v].max, max))]
    case Binary(v) => d[v := Var(d[v].min, Min(d[v].max, max))]
    case Opposite(y) => SetMinDoms(y, d, -max)
    case Plus(y, offset) => SetMaxDoms(y, d, max - offset)
    case TimesPos(y, s) => SetMaxDoms(y, d, DivFloor(max, s))
  }

  /** `View::try_set_min` as a value: `None` exactly when `min` exceeds the view's maximum. */
  function TrySetMinDoms(x: View, d: seq<Var>, min: int): (r: Option<seq<Var>>)
    requires ViewOk(x, |d|)
    ensures r.Some? ==> |r.value| == |d|
  {
    if min > MaxRaw(x, d) then None else Some(SetMinDoms(x, d, min))
  }

  /** `View::try_set_max` as a value: `None` exactly when `max` is below the view's minimum. */
  function TrySetMaxDoms(x: View, d: seq<Var>, max: int): (r: Option<seq<Var>>)
    requires ViewOk(x, |d|)
    ensures r.Some? ==> |r.value| == |d|
  {
    if max < MinRaw(x, d) then None else Some(SetMaxDoms(x, d, max))
  }

  /**
   * `Context`: the domains being narrowed and the log of modification events. Both belong to
   * the search space; the context narrows them in place.
   */
  class Context {
    const vars: Vars
    var events: seq<VarId>

    /** `Context::new`. */
    constructor (vars: Vars, events: seq<VarId>)
      ensures this.vars == vars && this.events == events
    {
      this.vars := vars;
      this.events := events;
    }

    /**
     * `Context::try_set_min`: fails, changing nothing, exactly when `min` exceeds the maximum;
     * otherwise the minimum becomes the larger of the two, an event is logged only when it
     * strictly rose, and the new minimum is returned.
     */
    method TrySetMin(v: VarId, min: int) returns (r: Option<int>)
      requires v < |vars.doms|
      modifies this, vars
      ensures r.None? <==> min > old(vars.doms[v].max)
      ensures r.None? ==> vars.doms == old(vars.doms) && events == old(events)
      ensures r.Some? ==> vars.doms == old(vars.doms)[v := Var(Max(old(vars.doms[v].min), min), old(vars.doms[v].max))]
      ensures r.Some? ==> r.value == vars.doms[v].min
      ensures r.Some? ==> events == old(events) + if min > old(vars.doms[v].min) then [v] else []
      ensures Narrows(old(vars.doms), old(events), vars.doms, events)
    {
      var d := vars.doms[v];
      if min > d.max {
        NarrowsRefl(vars.doms, events);
        return None;
      }
      ghost var (d0, e0) := (vars.doms, events);
      if min > d.min {
        vars.doms := vars.doms[v := Var(min, d.max)];
        events := events + [v];
        assert events[|e0|..] == [v];
      } else {
        NarrowsRefl(vars.doms, events);
      }
      r := Some(vars.doms[v].min);
    }

    /**
     * `Context::try_set_max`: fails, changing nothing, exactly when `max` is below the minimum;
     * otherwise the maximum becomes the smaller of the two, an event is logged only when it
     * strictly fell, and the new maximum is returned.
     */
    method TrySetMax(v: VarId, max: int) returns (r: Option<int>)
      requires v < |vars.doms|
      modifies this, vars
      ensures r.None? <==> max < old(vars.doms[v].min)
      ensures r.None? ==> vars.doms == old(vars.doms) && events == old(events)
      ensures r.Some? ==> vars.doms == old(vars.doms)[v := Var(old(vars.doms[v].min), Min(old(vars.doms[v].max), max))]
      ensures r.Some? ==> r.value == vars.doms[v].max
      ensures r.Some? ==> events == old(events) + if max < old(vars.doms[v].max) then [v] else []
      ensures Narrows(old(vars.doms), old(events), vars.doms, events)
    {
      var d := vars.doms[v];
      if max < d.min {
        NarrowsRefl(vars.doms, events);
        return None;
      }
      ghost var (d0, e0) := (vars.doms, events);
      if max < d.max {
        vars.doms := vars.doms[v := Var(d.min, max)];
        events := events + [v];
        assert events[|e0|..] == [v];
      } else {
        NarrowsRefl(vars.doms, events);
      }
      r := Some(vars.doms[v].max);
    }

    /**
     * `View::try_set_min`: raises the view's minimum to `min`, rounding up through a positive
     * scale and turning into a maximum through `Opposite`. It fails, changing nothing, exactly
     * when `min` exceeds the view's maximum. Otherwise only the underlying variable changes,
     * and of the assignments inside the old domains exactly those where the view is at least
     * `min` are kept: nothing that satisfies the bound is lost and nothing below it remains.
     */
    method ViewTrySetMin(x: View, min: int) returns (r: Option<int>)
      requires ViewOk(x, |vars.doms|)
      modifies this, vars
      decreases x
      ensures r.None? <==> min > MaxRaw(x, old(vars.doms))
      ensures r.None? ==> vars.doms == old(vars.doms) && events == old(events)
      ensures Narrows(old(vars.doms), old(events), vars.doms, events)
      ensures forall u :: 0 <= u < |vars.doms| && Underlying(x) != Some(u) ==> vars.doms[u] == old(vars.doms)[u]
      ensures r.Some? ==> MinRaw(x, vars.doms) >= min && MaxRaw(x, vars.doms) == MaxRaw(x, old(vars.doms))
      ensures r.Some? && x.Id? ==> vars.doms[x.v] == Var(Max(old(vars.doms[x.v].min), min), old(vars.doms[x.v].max))
      ensures r.Some? ==> forall a :: InDoms(a, old(vars.doms)) ==> (InDoms(a, vars.doms) <==> Value(x, a) >= min)
      ensures r.Some? ==> vars.doms == SetMinDoms(x, old(vars.doms), min)
    {
      ghost var d0 := vars.doms;
      match x
      case Const(c) =>
        NarrowsRefl(vars.doms, events);
        r := if min <= c then Some(min) else None;
      case Id(v) =>
        r := TrySetMin(v, min);
        forall a | InDoms(a, d0)
          ensures r.Some? ==> (InDoms(a, vars.doms) <==> Value(x, a) >= min)
        {
          InDomsOne(a, d0, vars.doms, v);
        }
      case Binary(v) =>
        r := TrySetMin(v, min);
        forall a | InDoms(a, d0)
          ensures r.Some? ==> (InDoms(a, vars.doms) <==> Value(x, a) >= min)
        {
          InDomsOne(a, d0, vars.doms, v);
        }
      case Opposite(y) =>
        r := ViewTrySetMax(y, -min);
      case Plus(y, offset) =>
        r := ViewTrySetMin(y, min - offset);
      case TimesPos(y, s) =>
        r := ViewTrySetMin(y, DivCeil(min, s));
        CeilThreshold(MaxRaw(y, d0), min, s);
        if r.Some? {
          CeilThreshold(MinRaw(y, vars.doms), min, s);
          forall a | InDoms(a, d0)
            ensures InDoms(a, vars.doms) <==> Value(x, a) >= min
          {
            CeilThreshold(Value(y, a), min, s);
          }
        }
    }

    /**
     * `View::try_set_max`: lowers the view's maximum to `max`, rounding down through a positive
     * scale and turning into a minimum through `Opposite`. It fails, changing nothing, exactly
     * when `max` is below the view's minimum. Otherwise only the underlying variable changes,
     * and of the assignments inside the old domains exactly those where the view is at most
     * `max` are kept.
     */
    method ViewTrySetMax(x: View, max: int) returns (r: Option<int>)
      requires ViewOk(x, |vars.doms|)
      modifies this, vars
      decreases x
      ensures r.None? <==> max < MinRaw(x, old(vars.doms))
      ensures r.None? ==> vars.doms == old(vars.doms) && events == old(events)
      ensures Narrows(old(vars.doms), old(events), vars.doms, events)
      ensures forall u :: 0 <= u < |vars.doms| && Underlying(x) != Some(u) ==> vars.doms[u] == old(vars.doms)[u]
      ensures r.Some? ==> MaxRaw(x, vars.doms) <= max && MinRaw(x, vars.doms) == MinRaw(x, old(vars.doms))
      ensures r.Some? && x.Id? ==> vars.doms[x.v] == Var(old(vars.doms[x.v].min), Min(old(vars.doms[x.v].max), max))
      ensures r.Some? ==> forall a :: InDoms(a, old(vars.doms)) ==> (InDoms(a, vars.doms) <==> Value(x, a) <= max)
      ensures r.Some? ==> vars.doms == SetMaxDoms(x, old(vars.doms), max)
    {
      ghost var d0 := vars.doms;
      match x
      case Const(c) =>
        NarrowsRefl(vars.doms, events);
        r := if max >= c then Some(max) else None;
      case Id(v) =>
        r := TrySetMax(v, max);
        forall a | InDoms(a, d0)
          ensures r.Some? ==> (InDoms(a, vars.doms) <==> Value(x, a) <= max)
        {
          InDomsOne(a, d0, vars.doms, v);
        }
      case Binary(v) =>
        r := TrySetMax(v, max);
        forall a | InDoms(a, d0)
          ensures r.Some? ==> (InDoms(a, vars.doms) <==> Value(x, a) <= max)
        {
          InDomsOne(a, d0, vars.doms, v);
        }
      case Opposite(y) =>
        r := ViewTrySetMin(y, -max);
      case Plus(y, offset) =>
        r := ViewTrySetMax(y, max - offset);
      case TimesPos(y, s) =>
        r := ViewTrySetMax(y, DivFloor(max, s));
        FloorThreshold(MinRaw(y, d0), max, s);
        if r.Some? {
          FloorThreshold(MaxRaw(y, vars.doms), max, s);
          forall a | InDoms(a, d0)
            ensures InDoms(a, vars.doms) <==> Value(x, a) <= max
          {
            FloorThreshold(Value(y, a), max, s);
          }
        }
    }
  }
}
