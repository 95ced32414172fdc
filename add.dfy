/** The view-generic `Add` propagator of the newer engine (src/props/add.rs): `x + y == s`. */
module AddProp {
  import opened Wrappers
  import opened Domains
  import opened Views
  import opened Ints

  /** `Add`: two views and the variable holding their sum. */
  datatype Add = Add(x: View, y: View, s: VarId)

  predicate AddOk(p: Add, n: nat) {
    ViewOk(p.x, n) && ViewOk(p.y, n) && p.s < n
  }

  /** The assignment satisfies `x + y == s`. */
  predicate AddHolds(p: Add, a: seq<int>)
    requires AddOk(p, |a|)
  {
    Value(p.x, a) + Value(p.y, a) == a[p.s]
  }

  /** `list_trigger_vars`: `s`, then the underlying variables of `x` and `y`, when they have one. */
  function AddTriggers(p: Add): (r: seq<VarId>)
    ensures |r| >= 1 && r[0] == p.s
    ensures forall v :: v in r <==> v == p.s || Underlying(p.x) == Some(v) || Underlying(p.y) == Some(v)
  {
    [p.s] + UnderlyingList(p.x) + UnderlyingList(p.y)
  }

  /** No two of `x`, `y` and `s` read the same variable. */
  predicate AddApart(p: Add) {
    Apart(p.x, p.y) && Underlying(p.x) != Some(p.s) && Underlying(p.y) != Some(p.s)
  }

  /** Every solution of `p` inside the domains `d0` is still inside `d`. */
  ghost predicate AddKept(p: Add, d0: seq<Var>, d: seq<Var>)
    requires AddOk(p, |d0|)
  {
    forall a :: InDoms(a, d0) && AddHolds(p, a) ==> InDoms(a, d)
  }

  /** Lines 22-23 as a value: `s` raised to `x.min + y.min`, then lowered to `x.max + y.max` read afresh. */
  function SumStep(p: Add, d: seq<Var>): (r: Option<seq<Var>>)
    requires AddOk(p, |d|)
    ensures r.Some? ==> |r.value| == |d|
  {
    match TrySetMinDoms(Id(p.s), d, MinRaw(p.x, d) + MinRaw(p.y, d))
    case None => None
    case Some(d1) => TrySetMaxDoms(Id(p.s), d1, MaxRaw(p.x, d1) + MaxRaw(p.y, d1))
  }

  /** Lines 25-26 as a value: `x` raised to `s.min - y.max`, then lowered to `s.max - y.min` read afresh. */
  function XStep(p: Add, d: seq<Var>): (r: Option<seq<Var>>)
    requires AddOk(p, |d|)
    ensures r.Some? ==> |r.value| == |d|
  {
    match TrySetMinDoms(p.x, d, d[p.s].min - MaxRaw(p.y, d))
    case None => None
    case Some(d1) => TrySetMaxDoms(p.x, d1, d1[p.s].max - MinRaw(p.y, d1))
  }

  /** Lines 28-29 as a value: `y` raised to `s.min - x.max`, then lowered to `s.max - x.min` read afresh. */
  function YStep(p: Add, d: seq<Var>): (r: Option<seq<Var>>)
    requires AddOk(p, |d|)
    ensures r.Some? ==> |r.value| == |d|
  {
    match TrySetMinDoms(p.y, d, d[p.s].min - MaxRaw(p.x, d))
    case None => None
    case Some(d1) => TrySetMaxDoms(p.y, d1, d1[p.s].max - MinRaw(p.x, d1))
  }

  /** `SumStep` by the outcomes of its two narrowings of `s`. */
  lemma SumStepIs(p: Add, d: seq<Var>, d1: seq<Var>, d2: seq<Var>, ok1: bool, ok2: bool)
    requires AddOk(p, |d|)
    requires ok1 <==> MinRaw(p.x, d) + MinRaw(p.y, d) <= d[p.s].max
    requires ok1 ==> d1 == SetMinDoms(Id(p.s), d, MinRaw(p.x, d) + MinRaw(p.y, d))
    requires ok1 ==> (ok2 <==> MaxRaw(p.x, d1) + MaxRaw(p.y, d1) >= d1[p.s].min)
    requires ok1 && ok2 ==> d2 == SetMaxDoms(Id(p.s), d1, MaxRaw(p.x, d1) + MaxRaw(p.y, d1))
    ensures SumStep(p, d) == if ok1 && ok2 then Some(d2) else None
  {
    if ok1 {
      assert TrySetMinDoms(Id(p.s), d, MinRaw(p.x, d) + MinRaw(p.y, d)) == Some(d1);
    }
  }

  /** `XStep` by the outcomes of its two narrowings of `x`. */
  lemma XStepIs(p: Add, d: seq<Var>, d1: seq<Var>, d2: seq<Var>, ok1: bool, ok2: bool)
    requires AddOk(p, |d|)
    requires ok1 <==> d[p.s].min - MaxRaw(p.y, d) <= MaxRaw(p.x, d)
    requires ok1 ==> d1 == SetMinDoms(p.x, d, d[p.s].min - MaxRaw(p.y, d))
    requires ok1 ==> (ok2 <==> d1[p.s].max - MinRaw(p.y, d1) >= MinRaw(p.x, d1))
    requires ok1 && ok2 ==> d2 == SetMaxDoms(p.x, d1, d1[p.s].max - MinRaw(p.y, d1))
    ensures XStep(p, d) == if ok1 && ok2 then Some(d2) else None
  {
    if ok1 {
      assert TrySetMinDoms(p.x, d, d[p.s].min - MaxRaw(p.y, d)) == Some(d1);
    }
  }

  /** `YStep` by the outcomes of its two narrowings of `y`. */
  lemma YStepIs(p: Add, d: seq<Var>, d1: seq<Var>, d2: seq<Var>, ok1: bool, ok2: bool)
    requires AddOk(p, |d|)
    requires ok1 <==> d[p.s].min - MaxRaw(p.x, d) <= MaxRaw(p.y, d)
    requires ok1 ==> d1 == SetMinDoms(p.y, d, d[p.s].min - MaxRaw(p.x, d))
    requires ok1 ==> (ok2 <==> d1[p.s].max - MinRaw(p.x, d1) >= MinRaw(p.y, d1))
    requires ok1 && ok2 ==> d2 == SetMaxDoms(p.y, d1, d1[p.s].max - MinRaw(p.x, d1))
    ensures YStep(p, d) == if ok1 && ok2 then Some(d2) else None
  {
    if ok1 {
      assert TrySetMinDoms(p.y, d, d[p.s].min - MaxRaw(p.x, d)) == Some(d1);
    }
  }

  /** `prune` as a value: the three steps in order, the first `None` stopping it. */
  function PruneAddSpec(p: Add, d: seq<Var>): Option<seq<Var>>
    requires AddOk(p, |d|)
  {
    match SumStep(p, d)
    case None => None
    case Some(d1) =>
      match XStep(p, d1)
      case None => None
      case Some(d2) => YStep(p, d2)
  }

  /** The doubled-variables example: `2v + 2w == s` with `v`, `w` over `[0, 2]` and `s` at 3. */
  function Doubled(): Add {
    Add(TimesPos(Id(0), 2), TimesPos(Id(1), 2), 2)
  }

  lemma DoubledSumStep()
    ensures SumStep(Doubled(), [Var(0, 2), Var(0, 2), Var(3, 3)]) == Some([Var(0, 2), Var(0, 2), Var(3, 3)])
  {
    var d := [Var(0, 2), Var(0, 2), Var(3, 3)];
    var p := Doubled();
    assert MinRaw(p.x, d) == 0 && MinRaw(p.y, d) == 0;
    assert TrySetMinDoms(Id(2), d, 0) == Some(d[2 := Var(Max(3, 0), 3)]);
    assert d[2 := Var(Max(3, 0), 3)] == d;
    assert MaxRaw(p.x, d) == 4 && MaxRaw(p.y, d) == 4;
    assert TrySetMaxDoms(Id(2), d, 8) == Some(d[2 := Var(3, Min(3, 8))]);
    assert d[2 := Var(3, Min(3, 8))] == d;
  }

  lemma DoubledXStep()
    ensures XStep(Doubled(), [Var(0, 2), Var(0, 2), Var(3, 3)]) == Some([Var(0, 1), Var(0, 2), Var(3, 3)])
  {
    var d := [Var(0, 2), Var(0, 2), Var(3, 3)];
    var p := Doubled();
    assert MaxRaw(p.y, d) == 4 && MaxRaw(p.x, d) == 4;
    assert DivCeil(-1, 2) == 0;
    assert SetMinDoms(p.x, d, -1) == SetMinDoms(Id(0), d, 0) == d[0 := Var(Max(0, 0), 2)];
    assert d[0 := Var(Max(0, 0), 2)] == d;
    assert TrySetMinDoms(p.x, d, -1) == Some(d);
    assert MinRaw(p.y, d) == 0 && MinRaw(p.x, d) == 0;
    assert DivFloor(3, 2) == 1;
    assert SetMaxDoms(p.x, d, 3) == SetMaxDoms(Id(0), d, 1) == d[0 := Var(0, Min(2, 1))];
    assert TrySetMaxDoms(p.x, d, 3) == Some(d[0 := Var(0, Min(2, 1))]);
    assert d[0 := Var(0, Min(2, 1))] == [Var(0, 1), Var(0, 2), Var(3, 3)];
  }

  lemma DoubledYStep()
    ensures YStep(Doubled(), [Var(0, 1), Var(0, 2), Var(3, 3)]) == Some([Var(0, 1), Var(1, 1), Var(3, 3)])
  {
    var d := [Var(0, 1), Var(0, 2), Var(3, 3)];
    var p := Doubled();
    assert MaxRaw(p.x, d) == 2 && MaxRaw(p.y, d) == 4;
    assert DivCeil(1, 2) == 1;
    assert SetMinDoms(p.y, d, 1) == SetMinDoms(Id(1), d, 1) == d[1 := Var(Max(0, 1), 2)];
    var d1 := [Var(0, 1), Var(1, 2), Var(3, 3)];
    assert d[1 := Var(Max(0, 1), 2)] == d1;
    assert TrySetMinDoms(p.y, d, 1) == Some(d1);
    assert MinRaw(p.x, d1) == 0 && MinRaw(p.y, d1) == 2;
    assert DivFloor(3, 2) == 1;
    assert SetMaxDoms(p.y, d1, 3) == SetMaxDoms(Id(1), d1, 1) == d1[1 := Var(1, Min(2, 1))];
    assert TrySetMaxDoms(p.y, d1, 3) == Some(d1[1 := Var(1, Min(2, 1))]);
    assert d1[1 := Var(1, Min(2, 1))] == [Var(0, 1), Var(1, 1), Var(3, 3)];
  }

  /** No assignment makes `2v + 2w` odd. */
  lemma DoubledUnsatisfiable(d: seq<Var>)
    requires |d| == 3 && d[2] == Var(3, 3)
    ensures forall a :: InDoms(a, d) ==> !AddHolds(Doubled(), a)
  {
    forall a | InDoms(a, d) ensures !AddHolds(Doubled(), a) {
      assert Value(Doubled().x, a) + Value(Doubled().y, a) == (a[0] + a[1]) * 2;
    }
  }

  /**
   * Two doubled variables over `[0, 2]` whose sum is held at 3: `prune` succeeds, narrowing
   * the first to `[0, 1]` and the second to `[1, 1]`, although no assignment satisfies
   * `2v + 2w == 3` (bounds reasoning does not see parity).
   */
  lemma PruneAddDoubled()
    ensures var d := [Var(0, 2), Var(0, 2), Var(3, 3)];
            PruneAddSpec(Doubled(), d) == Some([Var(0, 1), Var(1, 1), Var(3, 3)])
            && forall a :: InDoms(a, d) ==> !AddHolds(Doubled(), a)
  {
    var d := [Var(0, 2), Var(0, 2), Var(3, 3)];
    var p := Doubled();
    DoubledSumStep();
    DoubledXStep();
    DoubledYStep();
    DoubledUnsatisfiable(d);
  }

  /** Line 22-23's cut of `s`: its domain within `[x.min + y.min, x.max + y.max]`, read from `d`. */
  function SumRange(p: Add, d: seq<Var>): Var
    requires AddOk(p, |d|)
  {
    Intersect(d[p.s], MinRaw(p.x, d) + MinRaw(p.y, d), MaxRaw(p.x, d) + MaxRaw(p.y, d))
  }

  /**
   * The assignment meets the three cuts of `prune` when no two operands share a variable:
   * `s` within `SumRange`, `x` within `[s.min - y.max, s.max - y.min]` for the cut `s`, and
   * `y` within `[s.min - x.max, s.max - x.min]` for the cut `s` and the bounds `x` ends with
   * in `d`.
   */
  predicate InAddCut(p: Add, d0: seq<Var>, d: seq<Var>, a: seq<int>)
    requires AddOk(p, |d0|) && |d| == |d0| && |a| == |d0|
  {
    var r := SumRange(p, d0);
    Contains(r, a[p.s])
    && r.min - MaxRaw(p.y, d0) <= Value(p.x, a) <= r.max - MinRaw(p.y, d0)
    && r.min - MaxRaw(p.x, d) <= Value(p.y, a) <= r.max - MinRaw(p.x, d)
  }

  /**
   * What `prune` leaves when no two of its operands share a variable: `s` is exactly its cut,
   * and of the assignments inside `d0` exactly those meeting the three cuts remain. It
   * fails exactly when none of them does.
   */
  ghost predicate AddPruned(p: Add, d0: seq<Var>, d: seq<Var>, ok: bool)
    requires AddOk(p, |d0|) && |d| == |d0|
  {
    (ok ==> d[p.s] == SumRange(p, d0))
    && forall a :: InDoms(a, d0) ==> (ok && InDoms(a, d) <==> InAddCut(p, d0, d, a))
  }

  /** The six bounds `prune` imposes, read from domains `d`, hold for every solution inside `d`. */
  lemma AddBounds(p: Add, d: seq<Var>, a: seq<int>)
    requires AddOk(p, |d|) && InDoms(a, d) && AddHolds(p, a)
    ensures MinRaw(p.x, d) + MinRaw(p.y, d) <= a[p.s] <= MaxRaw(p.x, d) + MaxRaw(p.y, d)
    ensures d[p.s].min - MaxRaw(p.y, d) <= Value(p.x, a) <= d[p.s].max - MinRaw(p.y, d)
    ensures d[p.s].min - MaxRaw(p.x, d) <= Value(p.y, a) <= d[p.s].max - MinRaw(p.x, d)
  {
    ViewBounds(p.x, d, a);
    ViewBounds(p.y, d, a);
  }

  /**
   * When `x` and `y` do not read `s`, lines 22-23 cut `s` to `SumRange` and touch nothing
   * else, and fail only when that range is empty.
   */
  lemma SumStepCut(p: Add, d: seq<Var>)
    requires AddOk(p, |d|) && AddApart(p)
    ensures SumStep(p, d).None? ==> IsEmpty(SumRange(p, d))
    ensures SumStep(p, d).Some? ==> SumStep(p, d).value == d[p.s := SumRange(p, d)]
  {
    var lo := MinRaw(p.x, d) + MinRaw(p.y, d);
    if lo > d[p.s].max {
      SumStepIs(p, d, d, d, false, false);
    } else {
      var d1 := d[p.s := Var(Max(d[p.s].min, lo), d[p.s].max)];
      ViewReads(p.x, d, d1);
      ViewReads(p.y, d, d1);
      var hi := MaxRaw(p.x, d) + MaxRaw(p.y, d);
      var d2 := d1[p.s := Var(d1[p.s].min, Min(d1[p.s].max, hi))];
      SumStepIs(p, d, d1, d2, true, hi >= d1[p.s].min);
      assert d2 == d[p.s := SumRange(p, d)];
    }
  }

  /**
   * When `x` and `y` do not read `s`, the cut of `s` to `SumRange` keeps exactly the
   * assignments whose `s` lies in that range, and an empty range is a failure.
   */
  lemma SumCutKept(p: Add, d0: seq<Var>, d: seq<Var>, ok: bool)
    requires AddOk(p, |d0|) && |d| == |d0|
    requires forall u :: 0 <= u < |d0| && u != p.s ==> d[u] == d0[u]
    requires ok ==> d[p.s] == SumRange(p, d0)
    requires !ok ==> IsEmpty(SumRange(p, d0))
    ensures forall a :: InDoms(a, d0) ==> (ok && InDoms(a, d) <==> Contains(SumRange(p, d0), a[p.s]))
  {
    forall a | InDoms(a, d0)
      ensures ok && InDoms(a, d) <==> Contains(SumRange(p, d0), a[p.s])
    {
      InDomsOne(a, d0, d, p.s);
    }
  }

  /** Lines 22-23 of `prune`: `s` is cut to `[x.min + y.min, x.max + y.max]`. */
  method TightenSum(p: Add, ctx: Context) returns (ok: bool)
    requires AddOk(p, |ctx.vars.doms|)
    modifies ctx, ctx.vars
    ensures (if ok then Some(ctx.vars.doms) else None) == SumStep(p, old(ctx.vars.doms))
    ensures Narrows(old(ctx.vars.doms), old(ctx.events), ctx.vars.doms, ctx.events)
    ensures forall u :: 0 <= u < |ctx.vars.doms| && u != p.s ==> ctx.vars.doms[u] == old(ctx.vars.doms)[u]
    ensures forall a :: InDoms(a, old(ctx.vars.doms)) && AddHolds(p, a) ==> ok && InDoms(a, ctx.vars.doms)
    ensures ok && AddApart(p) ==> ctx.vars.doms[p.s] == SumRange(p, old(ctx.vars.doms))
    ensures AddApart(p) ==> forall a :: InDoms(a, old(ctx.vars.doms)) ==>
              (ok && InDoms(a, ctx.vars.doms) <==> Contains(SumRange(p, old(ctx.vars.doms)), a[p.s]))
  {
    ghost var d0, e0 := ctx.vars.doms, ctx.events;
    var r := ctx.ViewTrySetMin(Id(p.s), MinRaw(p.x, ctx.vars.doms) + MinRaw(p.y, ctx.vars.doms));
    if r.None? {
      forall a | InDoms(a, d0) && AddHolds(p, a) ensures false { AddBounds(p, d0, a); }
      SumStepIs(p, d0, d0, d0, false, false);
      if AddApart(p) {
        SumStepCut(p, d0);
        SumCutKept(p, d0, d0, false);
      }
      return false;
    }
    forall a | InDoms(a, d0) && AddHolds(p, a) ensures InDoms(a, ctx.vars.doms) { AddBounds(p, d0, a); }
    ghost var d1, e1 := ctx.vars.doms, ctx.events;
    r := ctx.ViewTrySetMax(Id(p.s), MaxRaw(p.x, ctx.vars.doms) + MaxRaw(p.y, ctx.vars.doms));
    NarrowsTrans(d0, e0, d1, e1, ctx.vars.doms, ctx.events);
    if r.None? {
      forall a | InDoms(a, d0) && AddHolds(p, a) ensures false { AddBounds(p, d1, a); }
      SumStepIs(p, d0, d1, d1, true, false);
      if AddApart(p) {
        SumStepCut(p, d0);
        SumCutKept(p, d0, d1, false);
      }
      return false;
    }
    forall a | InDoms(a, d0) && AddHolds(p, a) ensures InDoms(a, ctx.vars.doms) { AddBounds(p, d1, a); }
    SumStepIs(p, d0, d1, ctx.vars.doms, true, true);
    if AddApart(p) {
      SumStepCut(p, d0);
      SumCutKept(p, d0, ctx.vars.doms, true);
    }
    ok := true;
  }

  /** Lines 25-26 of `prune`: `x` is cut to `[s.min - y.max, s.max - y.min]`. */
  method TightenX(p: Add, ctx: Context) returns (ok: bool)
    requires AddOk(p, |ctx.vars.doms|)
    modifies ctx, ctx.vars
    ensures (if ok then Some(ctx.vars.doms) else None) == XStep(p, old(ctx.vars.doms))
    ensures Narrows(old(ctx.vars.doms), old(ctx.events), ctx.vars.doms, ctx.events)
    ensures forall u :: 0 <= u < |ctx.vars.doms| && Underlying(p.x) != Some(u) ==> ctx.vars.doms[u] == old(ctx.vars.doms)[u]
    ensures forall a :: InDoms(a, old(ctx.vars.doms)) && AddHolds(p, a) ==> ok && InDoms(a, ctx.vars.doms)
    ensures ok && AddApart(p) ==>
              old(ctx.vars.doms)[p.s].min - MaxRaw(p.y, old(ctx.vars.doms)) <= MinRaw(p.x, ctx.vars.doms)
              && MaxRaw(p.x, ctx.vars.doms) <= old(ctx.vars.doms)[p.s].max - MinRaw(p.y, old(ctx.vars.doms))
    ensures AddApart(p) ==> forall a :: InDoms(a, old(ctx.vars.doms)) ==>
              (ok && InDoms(a, ctx.vars.doms) <==>
                 old(ctx.vars.doms)[p.s].min - MaxRaw(p.y, old(ctx.vars.doms)) <= Value(p.x, a)
                 && Value(p.x, a) <= old(ctx.vars.doms)[p.s].max - MinRaw(p.y, old(ctx.vars.doms)))
  {
    ghost var d0, e0 := ctx.vars.doms, ctx.events;
    var r := ctx.ViewTrySetMin(p.x, ctx.vars.doms[p.s].min - MaxRaw(p.y, ctx.vars.doms));
    if r.None? {
      forall a | InDoms(a, d0) && AddHolds(p, a) ensures false { AddBounds(p, d0, a); ViewBounds(p.x, d0, a); }
      forall a | InDoms(a, d0) ensures Value(p.x, a) < d0[p.s].min - MaxRaw(p.y, d0) { ViewBounds(p.x, d0, a); }
      XStepIs(p, d0, d0, d0, false, false);
      return false;
    }
    forall a | InDoms(a, d0) && AddHolds(p, a) ensures InDoms(a, ctx.vars.doms) { AddBounds(p, d0, a); }
    ghost var d1, e1 := ctx.vars.doms, ctx.events;
    r := ctx.ViewTrySetMax(p.x, ctx.vars.doms[p.s].max - MinRaw(p.y, ctx.vars.doms));
    NarrowsTrans(d0, e0, d1, e1, ctx.vars.doms, ctx.events);
    if r.None? {
      forall a | InDoms(a, d0) && AddHolds(p, a) ensures false { AddBounds(p, d1, a); ViewBounds(p.x, d1, a); }
      if AddApart(p) {
        ViewReads(p.y, d0, d1);
        forall a | InDoms(a, d0) && d0[p.s].min - MaxRaw(p.y, d0) <= Value(p.x, a)
          ensures d0[p.s].max - MinRaw(p.y, d0) < Value(p.x, a)
        {
          ViewBounds(p.x, d1, a);
        }
      }
      XStepIs(p, d0, d1, d1, true, false);
      return false;
    }
    forall a | InDoms(a, d0) && AddHolds(p, a) ensures InDoms(a, ctx.vars.doms) { AddBounds(p, d1, a); }
    if AddApart(p) {
      ViewReads(p.y, d0, d1);
    }
    XStepIs(p, d0, d1, ctx.vars.doms, true, true);
    ok := true;
  }

  /** Lines 28-29 of `prune`: `y` is cut to `[s.min - x.max, s.max - x.min]`. */
  method TightenY(p: Add, ctx: Context) returns (ok: bool)
    requires AddOk(p, |ctx.vars.doms|)
    modifies ctx, ctx.vars
    ensures (if ok then Some(ctx.vars.doms) else None) == YStep(p, old(ctx.vars.doms))
    ensures Narrows(old(ctx.vars.doms), old(ctx.events), ctx.vars.doms, ctx.events)
    ensures forall u :: 0 <= u < |ctx.vars.doms| && Underlying(p.y) != Some(u) ==> ctx.vars.doms[u] == old(ctx.vars.doms)[u]
    ensures forall a :: InDoms(a, old(ctx.vars.doms)) && AddHolds(p, a) ==> ok && InDoms(a, ctx.vars.doms)
    ensures ok && AddApart(p) ==>
              old(ctx.vars.doms)[p.s].min - MaxRaw(p.x, old(ctx.vars.doms)) <= MinRaw(p.y, ctx.vars.doms)
              && MaxRaw(p.y, ctx.vars.doms) <= old(ctx.vars.doms)[p.s].max - MinRaw(p.x, old(ctx.vars.doms))
    ensures AddApart(p) ==> forall a :: InDoms(a, old(ctx.vars.doms)) ==>
              (ok && InDoms(a, ctx.vars.doms) <==>
                 old(ctx.vars.doms)[p.s].min - MaxRaw(p.x, old(ctx.vars.doms)) <= Value(p.y, a)
                 && Value(p.y, a) <= old(ctx.vars.doms)[p.s].max - MinRaw(p.x, old(ctx.vars.doms)))
  {
    ghost var d0, e0 := ctx.vars.doms, ctx.events;
    var r := ctx.ViewTrySetMin(p.y, ctx.vars.doms[p.s].min - MaxRaw(p.x, ctx.vars.doms));
    if r.None? {
      forall a | InDoms(a, d0) && AddHolds(p, a) ensures false { AddBounds(p, d0, a); ViewBounds(p.y, d0, a); }
      forall a | InDoms(a, d0) ensures Value(p.y, a) < d0[p.s].min - MaxRaw(p.x, d0) { ViewBounds(p.y, d0, a); }
      YStepIs(p, d0, d0, d0, false, false);
      return false;
    }
    forall a | InDoms(a, d0) && AddHolds(p, a) ensures InDoms(a, ctx.vars.doms) { AddBounds(p, d0, a); }
    ghost var d1, e1 := ctx.vars.doms, ctx.events;
    r := ctx.ViewTrySetMax(p.y, ctx.vars.doms[p.s].max - MinRaw(p.x, ctx.vars.doms));
    NarrowsTrans(d0, e0, d1, e1, ctx.vars.doms, ctx.events);
    if r.None? {
      forall a | InDoms(a, d0) && AddHolds(p, a) ensures false { AddBounds(p, d1, a); ViewBounds(p.y, d1, a); }
      if AddApart(p) {
        ViewReads(p.x, d0, d1);
        forall a | InDoms(a, d0) && d0[p.s].min - MaxRaw(p.x, d0) <= Value(p.y, a)
          ensures d0[p.s].max - MinRaw(p.x, d0) < Value(p.y, a)
        {
          ViewBounds(p.y, d1, a);
        }
      }
      YStepIs(p, d0, d1, d1, true, false);
      return false;
    }
    forall a | InDoms(a, d0) && AddHolds(p, a) ensures InDoms(a, ctx.vars.doms) { AddBounds(p, d1, a); }
    if AddApart(p) {
      ViewReads(p.x, d0, d1);
    }
    YStepIs(p, d0, d1, ctx.vars.doms, true, true);
    ok := true;
  }

  /**
   * The three cuts of `prune` compose: given what the steps from `d0` to `d1` (`s`), to `d2`
   * (`x`) and to `d3` (`y`, skipped when the `x` step failed) each keep, and that each
   * touches only its own variable, the assignments kept overall are exactly those meeting
   * `InAddCut`.
   */
  lemma AddCompose(p: Add, d0: seq<Var>, d1: seq<Var>, d2: seq<Var>, d3: seq<Var>, ok2: bool, ok3: bool)
    requires AddOk(p, |d0|) && AddApart(p) && |d1| == |d0| && |d2| == |d0| && |d3| == |d0|
    requires Narrower(d2, d1) && Narrower(d3, d2) && (!ok2 ==> d3 == d2)
    requires forall u :: 0 <= u < |d0| && u != p.s ==> d1[u] == d0[u]
    requires forall u :: 0 <= u < |d0| && Underlying(p.x) != Some(u) ==> d2[u] == d1[u]
    requires forall u :: 0 <= u < |d0| && Underlying(p.y) != Some(u) ==> d3[u] == d2[u]
    requires d1[p.s] == SumRange(p, d0)
    requires forall a :: InDoms(a, d0) ==> (InDoms(a, d1) <==> Contains(SumRange(p, d0), a[p.s]))
    requires forall a :: InDoms(a, d1) ==>
               (ok2 && InDoms(a, d2) <==> d1[p.s].min - MaxRaw(p.y, d1) <= Value(p.x, a) <= d1[p.s].max - MinRaw(p.y, d1))
    requires ok2 ==> forall a :: InDoms(a, d2) ==>
               (ok3 && InDoms(a, d3) <==> d2[p.s].min - MaxRaw(p.x, d2) <= Value(p.y, a) <= d2[p.s].max - MinRaw(p.x, d2))
    ensures AddPruned(p, d0, d3, ok2 && ok3)
  {
    var r := SumRange(p, d0);
    ViewReads(p.y, d0, d1);
    assert d2[p.s] == r && d3[p.s] == r;
    ViewReads(p.x, d2, d3);
    forall a | InDoms(a, d0)
      ensures ok2 && ok3 && InDoms(a, d3) <==> InAddCut(p, d0, d3, a)
    {
      if InDoms(a, d3) {
        InDomsWiden(a, d3, d2);
        InDomsWiden(a, d2, d1);
      }
      if InAddCut(p, d0, d3, a) {
        assert InDoms(a, d1);
        assert ok2 && InDoms(a, d2);
      }
    }
  }

  /**
   * `Add::prune`: `s`, then `x`, then `y` are narrowed, each step reading the bounds the
   * previous ones left, and the first failure stops it. It only narrows and logs honestly,
   * touches only its trigger variables, never loses a solution of `x + y == s` (so it fails
   * only when there is none), and, on operands that share no variable, leaves exactly what
   * `AddPruned` states: `s` cut, and exactly the assignments meeting the three cuts.
   */
  method PruneAdd(p: Add, ctx: Context) returns (ok: bool)
    requires AddOk(p, |ctx.vars.doms|)
    modifies ctx, ctx.vars
    ensures (if ok then Some(ctx.vars.doms) else None) == PruneAddSpec(p, old(ctx.vars.doms))
    ensures Narrows(old(ctx.vars.doms), old(ctx.events), ctx.vars.doms, ctx.events)
    ensures forall u :: 0 <= u < |ctx.vars.doms| && u !in AddTriggers(p) ==> ctx.vars.doms[u] == old(ctx.vars.doms)[u]
    ensures forall a :: InDoms(a, old(ctx.vars.doms)) && AddHolds(p, a) ==> ok && InDoms(a, ctx.vars.doms)
    ensures AddApart(p) ==> AddPruned(p, old(ctx.vars.doms), ctx.vars.doms, ok)
  {
    ghost var d0, e0 := ctx.vars.doms, ctx.events;
    ok := TightenSum(p, ctx);
    if !ok {
      return;
    }
    ghost var d1, e1 := ctx.vars.doms, ctx.events;
    ok := TightenX(p, ctx);
    NarrowsTrans(d0, e0, d1, e1, ctx.vars.doms, ctx.events);
    ghost var d2, e2 := ctx.vars.doms, ctx.events;
    ghost var ok2 := ok;
    if ok {
      ok := TightenY(p, ctx);
      NarrowsTrans(d0, e0, d2, e2, ctx.vars.doms, ctx.events);
    }
    if AddApart(p) {
      AddCompose(p, d0, d1, d2, ctx.vars.doms, ok2, ok);
    }
  }
}
