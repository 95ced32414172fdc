/**
 * The older engine's variable store, passed to propagators by value and returned narrowed:
 * the domains plus the log of variables whose domain changed since the last drain.
 * Its definition is not part of this model's sources; the narrowing operations follow the
 * behaviour the older propagators and search rely on, the same as the newer `Context`.
 */
module LegacyVars {
  import opened Wrappers
  import opened Ints
  import opened Domains

  datatype Vars = Vars(doms: seq<Var>, events: seq<VarId>)

  /** `Vars::new`: the model's domains with an empty event log. */
  function New(vars: seq<Var>): (r: Vars)
    ensures r.doms == vars && r.events == []
  {
    Vars(vars, [])
  }

  /** Removes the values below `m`; fails when none of the domain is left. */
  function TrySetMin(vs: Vars, v: VarId, m: int): (r: Result<Vars>)
    requires v < |vs.doms|
    ensures r.Failed? <==> m > vs.doms[v].max
    ensures r.Ok? ==> Narrows(vs.doms, vs.events, r.value.doms, r.value.events)
    ensures r.Ok? ==> forall x :: Contains(r.value.doms[v], x) <==> Contains(vs.doms[v], x) && m <= x
    ensures r.Ok? && vs.doms[v].min <= vs.doms[v].max ==>
              r.value.doms[v] == Var(Max(vs.doms[v].min, m), vs.doms[v].max)
    ensures r.Ok? ==> forall u :: 0 <= u < |vs.doms| && u != v ==> r.value.doms[u] == vs.doms[u]
  {
    var d := vs.doms[v];
    if m > d.max then Failed
    else if m > d.min then Ok(Vars(vs.doms[v := Var(m, d.max)], vs.events + [v]))
    else Ok(vs)
  }

  /** Removes the values above `m`; fails when none of the domain is left. */
  function TrySetMax(vs: Vars, v: VarId, m: int): (r: Result<Vars>)
    requires v < |vs.doms|
    ensures r.Failed? <==> m < vs.doms[v].min
    ensures r.Ok? ==> Narrows(vs.doms, vs.events, r.value.doms, r.value.events)
    ensures r.Ok? ==> forall x :: Contains(r.value.doms[v], x) <==> Contains(vs.doms[v], x) && x <= m
    ensures r.Ok? && vs.doms[v].min <= vs.doms[v].max ==>
              r.value.doms[v] == Var(vs.doms[v].min, Min(vs.doms[v].max, m))
    ensures r.Ok? ==> forall u :: 0 <= u < |vs.doms| && u != v ==> r.value.doms[u] == vs.doms[u]
  {
    var d := vs.doms[v];
    if m < d.min then Failed
    else if m < d.max then Ok(Vars(vs.doms[v := Var(d.min, m)], vs.events + [v]))
    else Ok(vs)
  }

  /** `try_set_min_and_max`: raises the minimum, then lowers the maximum. */
  function TrySetMinAndMax(vs: Vars, v: VarId, lo: int, hi: int): (r: Result<Vars>)
    requires v < |vs.doms|
    ensures r.Failed? <==> lo > vs.doms[v].max || hi < Max(vs.doms[v].min, lo)
    ensures r.Ok? ==> Narrows(vs.doms, vs.events, r.value.doms, r.value.events)
    ensures r.Ok? ==> forall x :: Contains(r.value.doms[v], x) <==> Contains(vs.doms[v], x) && lo <= x <= hi
    ensures vs.doms[v].min <= vs.doms[v].max ==> (r.Failed? <==> IsEmpty(Intersect(vs.doms[v], lo, hi)))
    ensures r.Ok? && vs.doms[v].min <= vs.doms[v].max ==> r.value.doms[v] == Intersect(vs.doms[v], lo, hi)
    ensures r.Ok? ==> forall u :: 0 <= u < |vs.doms| && u != v ==> r.value.doms[u] == vs.doms[u]
  {
    match TrySetMin(vs, v, lo)
    case Failed => Failed
    case Ok(vs1) =>
      var r := TrySetMax(vs1, v, hi);
      if r.Ok? then
        NarrowsTrans(vs.doms, vs.events, vs1.doms, vs1.events, r.value.doms, r.value.events);
        r
      else
        r
  }

  /** `try_set`: reduces the domain to the single value `val`. */
  function TrySet(vs: Vars, v: VarId, val: int): (r: Result<Vars>)
    requires v < |vs.doms|
    ensures r.Failed? <==> !Contains(vs.doms[v], val)
    ensures r.Ok? ==> Narrows(vs.doms, vs.events, r.value.doms, r.value.events)
    ensures r.Ok? ==> r.value.doms[v] == Var(val, val)
    ensures r.Ok? ==> forall u :: 0 <= u < |vs.doms| && u != v ==> r.value.doms[u] == vs.doms[u]
  {
    TrySetMinAndMax(vs, v, val, val)
  }

  /** A value inside the requested bounds survives `try_set_min_and_max`, and so does every assignment holding it. */
  lemma TrySetMinAndMaxSound(vs: Vars, v: VarId, lo: int, hi: int, a: seq<int>)
    requires v < |vs.doms| && InDoms(a, vs.doms) && lo <= a[v] <= hi
    ensures TrySetMinAndMax(vs, v, lo, hi).Ok?
    ensures InDoms(a, TrySetMinAndMax(vs, v, lo, hi).value.doms)
  {
    var r := TrySetMinAndMax(vs, v, lo, hi);
    assert Contains(vs.doms[v], a[v]);
    assert Contains(r.value.doms[v], a[v]);
  }

  /**
   * `try_set_min_and_max` on `x`, `?`, then the same on `y`: the body of the two-variable
   * propagators. Every assignment inside both pairs of bounds survives; for distinct nonempty
   * domains it fails exactly when one of the two intersections is empty, and otherwise
   * leaves exactly those intersections.
   */
  method SetPair(vs: Vars, x: VarId, lx: int, hx: int, y: VarId, ly: int, hy: int) returns (r: Result<Vars>)
    requires x < |vs.doms| && y < |vs.doms|
    ensures r.Ok? ==> Narrows(vs.doms, vs.events, r.value.doms, r.value.events)
    ensures r.Ok? ==> forall u :: 0 <= u < |vs.doms| && u != x && u != y ==> r.value.doms[u] == vs.doms[u]
    ensures forall a :: InDoms(a, vs.doms) && lx <= a[x] <= hx && ly <= a[y] <= hy ==>
              r.Ok? && InDoms(a, r.value.doms)
    ensures r.Ok? ==> (forall v :: Contains(r.value.doms[x], v) ==> lx <= v <= hx)
                      && (forall v :: Contains(r.value.doms[y], v) ==> ly <= v <= hy)
    ensures x != y && !IsEmpty(vs.doms[x]) && !IsEmpty(vs.doms[y]) ==>
              (r.Failed? <==> IsEmpty(Intersect(vs.doms[x], lx, hx)) || IsEmpty(Intersect(vs.doms[y], ly, hy)))
              && (r.Ok? ==> r.value.doms[x] == Intersect(vs.doms[x], lx, hx)
                            && r.value.doms[y] == Intersect(vs.doms[y], ly, hy))
  {
    var r1 := TrySetMinAndMax(vs, x, lx, hx);
    forall a | InDoms(a, vs.doms) && lx <= a[x] <= hx
      ensures r1.Ok? && InDoms(a, r1.value.doms)
    {
      TrySetMinAndMaxSound(vs, x, lx, hx, a);
    }
    if r1.Failed? {
      return Failed;
    }
    var vs1 := r1.value;
    r := TrySetMinAndMax(vs1, y, ly, hy);
    forall a | InDoms(a, vs.doms) && lx <= a[x] <= hx && ly <= a[y] <= hy
      ensures r.Ok? && InDoms(a, r.value.doms)
    {
      TrySetMinAndMaxSound(vs1, y, ly, hy, a);
    }
    if r.Ok? {
      NarrowsTrans(vs.doms, vs.events, vs1.doms, vs1.events, r.value.doms, r.value.events);
      forall v | Contains(r.value.doms[x], v)
        ensures lx <= v <= hx
      {
        SubContains(r.value.doms[x], vs1.doms[x], v);
      }
    }
  }

  /**
   * `SetPair`, `?`, then `try_set_min_and_max` on `p`: the body of the three-variable
   * propagator, with the same guarantees.
   */
  method SetTriple(vs: Vars, x: VarId, lx: int, hx: int, y: VarId, ly: int, hy: int,
                   p: VarId, lp: int, hp: int) returns (r: Result<Vars>)
    requires x < |vs.doms| && y < |vs.doms| && p < |vs.doms|
    ensures r.Ok? ==> Narrows(vs.doms, vs.events, r.value.doms, r.value.events)
    ensures r.Ok? ==> forall u :: 0 <= u < |vs.doms| && u != x && u != y && u != p ==>
                        r.value.doms[u] == vs.doms[u]
    ensures forall a :: InDoms(a, vs.doms) && lx <= a[x] <= hx && ly <= a[y] <= hy && lp <= a[p] <= hp ==>
              r.Ok? && InDoms(a, r.value.doms)
    ensures r.Ok? ==> (forall v :: Contains(r.value.doms[x], v) ==> lx <= v <= hx)
                      && (forall v :: Contains(r.value.doms[y], v) ==> ly <= v <= hy)
                      && (forall v :: Contains(r.value.doms[p], v) ==> lp <= v <= hp)
    ensures x != y && x != p && y != p && !IsEmpty(vs.doms[x]) && !IsEmpty(vs.doms[y]) && !IsEmpty(vs.doms[p]) ==>
              (r.Failed? <==> IsEmpty(Intersect(vs.doms[x], lx, hx)) || IsEmpty(Intersect(vs.doms[y], ly, hy))
                              || IsEmpty(Intersect(vs.doms[p], lp, hp)))
              && (r.Ok? ==> r.value.doms[x] == Intersect(vs.doms[x], lx, hx)
                            && r.value.doms[y] == Intersect(vs.doms[y], ly, hy)
                            && r.value.doms[p] == Intersect(vs.doms[p], lp, hp))
  {
    var r2 := SetPair(vs, x, lx, hx, y, ly, hy);
    if r2.Failed? {
      return Failed;
    }
    var vs2 := r2.value;
    r := TrySetMinAndMax(vs2, p, lp, hp);
    forall a | InDoms(a, vs.doms) && lx <= a[x] <= hx && ly <= a[y] <= hy && lp <= a[p] <= hp
      ensures r.Ok? && InDoms(a, r.value.doms)
    {
      TrySetMinAndMaxSound(vs2, p, lp, hp, a);
    }
    if r.Ok? {
      NarrowsTrans(vs.doms, vs.events, vs2.doms, vs2.events, r.value.doms, r.value.events);
      forall v | Contains(r.value.doms[x], v) || Contains(r.value.doms[y], v)
        ensures Contains(r.value.doms[x], v) ==> lx <= v <= hx
        ensures Contains(r.value.doms[y], v) ==> ly <= v <= hy
      {
        if Contains(r.value.doms[x], v) {
          SubContains(r.value.doms[x], vs2.doms[x], v);
        }
        if Contains(r.value.doms[y], v) {
          SubContains(r.value.doms[y], vs2.doms[y], v);
        }
      }
    }
  }

  /** `drain_events`: hands out the event log and empties it; the domains stay. */
  function DrainEvents(vs: Vars): (r: (seq<VarId>, Vars))
    ensures r.0 == vs.events
    ensures r.1.doms == vs.doms && r.1.events == []
  {
    (vs.events, Vars(vs.doms, []))
  }

  /** `get_assignment_if_all_variables_are_set`: the single assignment left, if every domain is a singleton. */
  function GetAssignmentIfAllSet(doms: seq<Var>): (r: Option<seq<int>>)
    ensures r.Some? <==> forall v :: 0 <= v < |doms| ==> IsSet(doms[v])
    ensures r.Some? ==> InDoms(r.value, doms)
    decreases |doms|
  {
    if doms == [] then Some([])
    else
      var n := |doms| - 1;
      match GetAssignmentIfAllSet(doms[..n])
      case None => None
      case Some(prefix) =>
        if IsSet(doms[n]) then Some(prefix + [doms[n].min]) else None
  }

  /** Once every domain is a singleton, the assignment returned is the only one inside the domains. */
  lemma AssignmentUnique(doms: seq<Var>, a: seq<int>)
    requires GetAssignmentIfAllSet(doms).Some? && InDoms(a, doms)
    ensures a == GetAssignmentIfAllSet(doms).value
  {
    var b := GetAssignmentIfAllSet(doms).value;
    forall v | 0 <= v < |a|
      ensures a[v] == b[v]
    {
      assert IsSet(doms[v]);
    }
  }
}
