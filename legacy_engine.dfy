/**
 * The older engine's depth-first search (src/search/engine.rs) and its entry point
 * `Searcher::search` (src/search/mod.rs): a LIFO stack of (choice, space) tasks explored with
 * branch-and-bound, keeping the best solution found so far as the incumbent.
 */
module LegacyEngine {
  import opened Wrappers
  import opened Domains
  import opened Solutions
  import opened LegacyVars
  import opened LegacyProps
  import opened LegacyBranch
  import opened LegacySearch

  // ----- the tasks `push_tasks` queues -----

  /**
   * The tasks `push_tasks` queues for a space: one per mutation the enumerator yields on the
   * first unset variable, all sharing one copy of the space whose picker now rests on that
   * variable; none when every variable from the cursor on is set.
   */
  ghost function BranchTasks(space: Space): seq<(Choice, Space)>
    requires PickerOk(space.brancher.picker, |space.vars.doms|)
  {
    var doms := space.vars.doms;
    match FirstUnsetFrom(doms, space.brancher.picker.next)
    case None => []
    case Some(p) =>
      var shared := Space(space.vars, space.props, Brancher(FirstUnset(p, |doms|), space.brancher.enumerator));
      Tasks(p, BranchOn(space.brancher.enumerator, doms[p]), shared)
  }

  /** One task per mutation on the pivot, in order, all with the shared space. */
  ghost function Tasks(p: VarId, ms: seq<Mutation>, shared: Space): (ts: seq<(Choice, Space)>)
    ensures |ts| == |ms| && forall k :: 0 <= k < |ms| ==> ts[k].0 == Choice(p, ms[k]) && ts[k].1 == shared
  {
    seq(|ms|, k requires 0 <= k < |ms| => (Choice(p, ms[k]), shared))
  }

  /** Peeling the first mutation off peels the first task off. */
  lemma TasksCons(pre: seq<(Choice, Space)>, p: VarId, ms: seq<Mutation>, shared: Space)
    requires ms != []
    ensures pre + [(Choice(p, ms[0]), shared)] + Tasks(p, ms[1..], shared) == pre + Tasks(p, ms, shared)
  {
    var l, r := Tasks(p, ms, shared), [(Choice(p, ms[0]), shared)] + Tasks(p, ms[1..], shared);
    assert |l| == |r|;
    forall k | 0 <= k < |l| ensures l[k] == r[k] {
      if k > 0 { assert r[k] == Tasks(p, ms[1..], shared)[k - 1]; }
    }
    assert pre + [(Choice(p, ms[0]), shared)] + Tasks(p, ms[1..], shared) == pre + r;
  }

  /** Every variable before the picker's cursor is set. */
  predicate CursorSet(space: Space) {
    forall v :: 0 <= v < space.brancher.picker.next && v < |space.vars.doms| ==> IsSet(space.vars.doms[v])
  }

  /** The assignment `a` is still to be explored under the task: it fits its space and its choice. */
  predicate Pending(t: (Choice, Space), a: seq<int>) {
    InDoms(a, t.1.vars.doms) && t.0.pivot < |a| && Allows(t.0.mutation, a[t.0.pivot])
  }

  /** `a` has a strictly smaller objective value than the incumbent, or there is no incumbent. */
  predicate Better(obj: VarId, incumbent: Option<Solution>, a: seq<int>) {
    incumbent.None? || (obj < |a| && obj < |incumbent.value.values| && a[obj] < incumbent.value.values[obj])
  }

  /**
   * A task the search may run: its space descends from the root with the same propagators,
   * an empty log and every propagator checked, its cursor is sound, and its choice sets a
   * pivot that is not yet set.
   */
  ghost predicate TaskOk(s: Searcher, root: Space, t: (Choice, Space)) {
    var sp := t.1;
    sp.props == root.props && sp.vars.events == [] && Narrower(sp.vars.doms, root.vars.doms)
    && PickerOk(sp.brancher.picker, |root.vars.doms|) && CursorSet(sp)
    && t.0.pivot < |root.vars.doms| && t.0.mutation.Set? && !IsSet(sp.vars.doms[t.0.pivot])
    && CheckedOutside(s.deps, root.props, [], sp.vars.doms)
  }

  /** Every task on the stack is runnable; stated task by task from the top, as the stack is used. */
  ghost predicate AllTasksOk(s: Searcher, root: Space, ts: seq<(Choice, Space)>)
    decreases |ts|
  {
    ts == [] || (AllTasksOk(s, root, ts[..|ts| - 1]) && TaskOk(s, root, ts[|ts| - 1]))
  }

  /** `a` is pending in some task of the stack. */
  predicate PendingIn(ts: seq<(Choice, Space)>, a: seq<int>)
    decreases |ts|
  {
    ts != [] && (PendingIn(ts[..|ts| - 1], a) || Pending(ts[|ts| - 1], a))
  }

  /** Every solution inside the root domains that beats the incumbent is pending in some task. */
  ghost predicate Complete(s: Searcher, root: Space, tasks: seq<(Choice, Space)>, incumbent: Option<Solution>) {
    forall a :: InDoms(a, root.vars.doms) && IsSolution(s.deps, root.props, a) && Better(s.obj, incumbent, a) ==>
      PendingIn(tasks, a)
  }

  lemma {:induction false} AllTasksOkAppend(s: Searcher, root: Space, ts: seq<(Choice, Space)>, us: seq<(Choice, Space)>)
    requires AllTasksOk(s, root, ts) && forall k :: 0 <= k < |us| ==> TaskOk(s, root, us[k])
    ensures AllTasksOk(s, root, ts + us)
    decreases |us|
  {
    if us == [] {
      assert ts + us == ts;
    } else {
      var n := |us| - 1;
      AllTasksOkAppend(s, root, ts, us[..n]);
      var all := ts + us;
      assert all[..|all| - 1] == ts + us[..n];
      assert all[|all| - 1] == us[n];
    }
  }

  lemma {:induction false} PendingInAppend(ts: seq<(Choice, Space)>, us: seq<(Choice, Space)>, a: seq<int>)
    ensures PendingIn(ts + us, a) <==> PendingIn(ts, a) || exists j :: 0 <= j < |us| && Pending(us[j], a)
    decreases |us|
  {
    if us == [] {
      assert ts + us == ts;
    } else {
      var n := |us| - 1;
      PendingInAppend(ts, us[..n], a);
      var all := ts + us;
      assert all[..|all| - 1] == ts + us[..n];
      assert all[|all| - 1] == us[n];
      if exists j :: 0 <= j < |us| && Pending(us[j], a) {
        var j :| 0 <= j < |us| && Pending(us[j], a);
        if j < n {
          assert us[..n][j] == us[j];
        }
      }
      if exists j :: 0 <= j < n && Pending(us[..n][j], a) {
        var j :| 0 <= j < n && Pending(us[..n][j], a);
        assert us[..n][j] == us[j];
      }
    }
  }

  /** A width bound on one domain. */
  lemma WidthBound(doms: seq<Var>, v: VarId)
    requires v < |doms|
    ensures Width(doms[v]) <= TotalWidth(doms)
  {
    TotalWidthSplit(doms, v);
  }

  /**
   * The tasks queued for a propagated space that is not all set are runnable, cover every
   * assignment in the space, share its domains, and number at most its total width plus one.
   */
  lemma BranchTasksOk(s: Searcher, root: Space, space: Space)
    requires space.props == root.props && space.vars.events == [] && Narrower(space.vars.doms, root.vars.doms)
    requires PickerOk(space.brancher.picker, |root.vars.doms|) && CursorSet(space) && !AllSet(space.vars.doms)
    requires CheckedOutside(s.deps, root.props, [], space.vars.doms)
    ensures forall k :: 0 <= k < |BranchTasks(space)| ==> TaskOk(s, root, BranchTasks(space)[k])
    ensures forall k :: 0 <= k < |BranchTasks(space)| ==> BranchTasks(space)[k].1.vars == space.vars
    ensures forall a :: InDoms(a, space.vars.doms) ==> exists k :: 0 <= k < |BranchTasks(space)| && Pending(BranchTasks(space)[k], a)
    ensures |BranchTasks(space)| <= TotalWidth(space.vars.doms) + 1
  {
    var doms := space.vars.doms;
    var next := space.brancher.picker.next;
    PickSkipsOnlySet(doms, next);
    var p := FirstUnsetFrom(doms, next).value;
    var ms := BranchOn(space.brancher.enumerator, doms[p]);
    var ts := BranchTasks(space);
    WidthBound(doms, p);
    forall a | InDoms(a, doms)
      ensures exists k :: 0 <= k < |ts| && Pending(ts[k], a)
    {
      assert Contains(doms[p], a[p]);
      var k :| 0 <= k < |ms| && ms[k] == Set(a[p]);
      assert Pending(ts[k], a);
    }
  }

  // ----- termination measure -----

  function Fact(n: nat): (r: nat)
    ensures r >= 1
  {
    if n == 0 then 1 else n * Fact(n - 1)
  }

  lemma {:induction false} FactMonotone(m: nat, n: nat)
    requires m <= n
    ensures Fact(m) <= Fact(n)
    decreases n
  {
    if m < n {
      FactMonotone(m, n - 1);
    }
  }

  /**
   * The weight of a task: it exceeds the total weight of all the tasks its space can queue
   * after a strict narrowing, as a space of total width `w` queues at most `w + 1` tasks.
   */
  function Weight(t: (Choice, Space)): nat {
    Fact(TotalWidth(t.1.vars.doms) + 1)
  }

  /** The sum of the weights of the tasks on the stack. */
  function Potential(ts: seq<(Choice, Space)>): nat {
    if ts == [] then 0 else Potential(ts[..|ts| - 1]) + Weight(ts[|ts| - 1])
  }

  lemma {:induction false} PotentialAppend(ts: seq<(Choice, Space)>, us: seq<(Choice, Space)>)
    ensures Potential(ts + us) == Potential(ts) + Potential(us)
    decreases |us|
  {
    if us == [] {
      assert ts + us == ts;
    } else {
      var n := |us| - 1;
      var all := ts + us;
      assert all != [] && all[|all| - 1] == us[n];
      assert all[..|all| - 1] == ts + us[..n];
      PotentialAppend(ts, us[..n]);
    }
  }

  lemma {:induction false} PotentialUniform(us: seq<(Choice, Space)>, w: nat)
    requires forall k :: 0 <= k < |us| ==> Weight(us[k]) == w
    ensures Potential(us) == |us| * w
    decreases |us|
  {
    if us != [] {
      var n := |us| - 1;
      PotentialUniform(us[..n], w);
      MulSucc(n, w);
    }
  }

  /** At most `w + 1` tasks of weight `Fact(w + 1)` weigh less than `Fact(w + 2)`. */
  lemma FactBound(k: nat, w: nat)
    requires k <= w + 1
    ensures k * Fact(w + 1) < Fact(w + 2)
  {
    var f := Fact(w + 1);
    assert Fact(w + 2) == (w + 2) * f;
    assert k * f <= (w + 1) * f by {
      MulLe(k, w + 1, f);
    }
  }

  lemma MulSucc(n: nat, w: nat)
    ensures (n + 1) * w == n * w + w
  {
  }

  lemma MulLe(a: nat, b: nat, c: nat)
    requires a <= b
    ensures a * c <= b * c
  {
  }

  /** Replacing the top task by the tasks of a strictly narrower space lowers the potential. */
  lemma {:induction false} PotentialDrops(ts: seq<(Choice, Space)>, us: seq<(Choice, Space)>, w: nat)
    requires ts != [] && w < TotalWidth(ts[|ts| - 1].1.vars.doms) && |us| <= w + 1
    requires forall k :: 0 <= k < |us| ==> TotalWidth(us[k].1.vars.doms) == w
    ensures Potential(ts[..|ts| - 1] + us) < Potential(ts)
  {
    var init, top := ts[..|ts| - 1], Weight(ts[|ts| - 1]);
    assert Potential(ts) == Potential(init) + top;
    PotentialAppend(init, us);
    var f := Fact(w + 1);
    PotentialUniform(us, f);
    FactBound(|us|, w);
    FactMonotone(w + 2, TotalWidth(ts[|ts| - 1].1.vars.doms) + 1);
    assert Potential(us) < top;
  }

  // ----- keeping the invariants across one task -----

  /**
   * Replacing the top task by `us` keeps the search complete, as long as every solution
   * pending under the top task that beats the new incumbent is pending in `us`, and the new
   * incumbent is no worse than the old one.
   */
  lemma {:induction false} CompleteStep(s: Searcher, root: Space, ts: seq<(Choice, Space)>, us: seq<(Choice, Space)>,
                     inc: Option<Solution>, inc': Option<Solution>)
    requires ts != [] && Complete(s, root, ts, inc)
    requires forall a :: Better(s.obj, inc', a) ==> Better(s.obj, inc, a)
    requires forall a :: InDoms(a, root.vars.doms) && IsSolution(s.deps, root.props, a)
                         && Better(s.obj, inc', a) && Pending(ts[|ts| - 1], a) ==>
               exists j :: 0 <= j < |us| && Pending(us[j], a)
    ensures Complete(s, root, ts[..|ts| - 1] + us, inc')
    ensures us == [] ==> Complete(s, root, ts[..|ts| - 1], inc')
  {
    assert ts[..|ts| - 1] + [] == ts[..|ts| - 1];
    forall a | InDoms(a, root.vars.doms) && IsSolution(s.deps, root.props, a) && Better(s.obj, inc', a)
      ensures PendingIn(ts[..|ts| - 1] + us, a)
    {
      PendingInAppend(ts[..|ts| - 1], us, a);
    }
  }

  /**
   * Running task `t` under incumbent `inc` loses no solution it should find: every solution
   * pending in `t` that beats the incumbent survives into the fixed point, or is the one
   * assignment reached.
   */
  ghost predicate Explored(s: Searcher, t: (Choice, Space), inc: Option<Solution>, res: Result<Propagated>) {
    forall a :: Pending(t, a) && IsSolution(s.deps, t.1.props, a) && Better(s.obj, inc, a) ==>
      res.Ok? && (res.value.Fixed? ==> InDoms(a, res.value.space.vars.doms))
      && (res.value.Done? ==> res.value.solution.values == a)
  }

  /** The incumbent's objective value as a strict bound keeps exactly the solutions that beat it. */
  lemma {:induction false} ExploredUnderBound(s: Searcher, t: (Choice, Space), inc: Option<Solution>, objOpt: Option<int>,
                           res: Result<Propagated>)
    requires inc.Some? ==> s.obj < |inc.value.values| && objOpt == Some(inc.value.values[s.obj])
    requires inc.None? ==> objOpt.None?
    requires t.0.pivot < |t.1.vars.doms| && s.obj < |t.1.vars.doms|
    requires forall a :: InDoms(a, t.1.vars.doms) && IsSolution(s.deps, t.1.props, a)
                         && Allows(t.0.mutation, a[t.0.pivot]) && (objOpt.Some? ==> a[s.obj] < objOpt.value) ==>
               res.Ok? && (res.value.Fixed? ==> InDoms(a, res.value.space.vars.doms))
               && (res.value.Done? ==> res.value.solution.values == a)
    ensures Explored(s, t, inc, res)
  {
  }

  /** A failed task held no solution beating the incumbent: dropping it keeps the search complete. */
  lemma {:induction false} StepFailed(s: Searcher, root: Space, ts: seq<(Choice, Space)>, inc: Option<Solution>)
    requires ts != [] && AllTasksOk(s, root, ts) && Complete(s, root, ts, inc)
    requires Explored(s, ts[|ts| - 1], inc, Failed)
    ensures Complete(s, root, ts[..|ts| - 1], inc)
  {
    CompleteStep(s, root, ts, [], inc, inc);
  }

  /**
   * A task that reached a fixed point is replaced by the tasks of that fixed point: they are
   * runnable, keep the search complete, and weigh less than the task they replace.
   */
  lemma {:induction false} StepFixed(s: Searcher, root: Space, ts: seq<(Choice, Space)>, inc: Option<Solution>, sp: Space)
    requires ts != [] && AllTasksOk(s, root, ts) && Complete(s, root, ts, inc)
    requires Explored(s, ts[|ts| - 1], inc, Ok(Fixed(sp))) && FixedFrom(ts[|ts| - 1].1, sp)
    requires CheckedOutside(s.deps, root.props, [], sp.vars.doms)
    requires TotalWidth(sp.vars.doms) < TotalWidth(ts[|ts| - 1].1.vars.doms)
    ensures PickerOk(sp.brancher.picker, |sp.vars.doms|)
    ensures AllTasksOk(s, root, ts[..|ts| - 1] + BranchTasks(sp))
    ensures Complete(s, root, ts[..|ts| - 1] + BranchTasks(sp), inc)
    ensures Potential(ts[..|ts| - 1] + BranchTasks(sp)) < Potential(ts)
  {
    var t := ts[|ts| - 1];
    assert TaskOk(s, root, t);
    NarrowerTrans(sp.vars.doms, t.1.vars.doms, root.vars.doms);
    CursorNarrow(t.1, sp);
    BranchTasksOk(s, root, sp);
    var us := BranchTasks(sp);
    AllTasksOkAppend(s, root, ts[..|ts| - 1], us);
    CompleteStep(s, root, ts, us, inc, inc);
    PotentialDrops(ts, us, TotalWidth(sp.vars.doms));
  }

  /**
   * A task that reached one assignment beating the incumbent makes it the new incumbent;
   * no other solution pending in the task beats it, so dropping the task keeps the search
   * complete.
   */
  lemma {:induction false} StepDone(s: Searcher, root: Space, ts: seq<(Choice, Space)>, inc: Option<Solution>, cand: Solution)
    requires ts != [] && AllTasksOk(s, root, ts) && Complete(s, root, ts, inc)
    requires Explored(s, ts[|ts| - 1], inc, Ok(Done(cand))) && s.obj < |cand.values|
    requires inc.Some? ==> s.obj < |inc.value.values| && cand.values[s.obj] < inc.value.values[s.obj]
    ensures Complete(s, root, ts[..|ts| - 1], Some(cand))
  {
    CompleteStep(s, root, ts, [], inc, Some(cand));
  }

  /** Narrowing keeps set variables set, so a sound cursor stays sound. */
  lemma CursorNarrow(sp: Space, sp': Space)
    requires CursorSet(sp) && Narrower(sp'.vars.doms, sp.vars.doms) && sp'.brancher == sp.brancher
    ensures CursorSet(sp')
  {
  }

  // ----- the engine -----

  /** `Stack`: the incumbent solution and the LIFO list of tasks still to explore. */
  class Stack {
    var solution: Option<Solution>
    var tasks: seq<(Choice, Space)>

    /** `new_engine`: no incumbent and no task. */
    constructor ()
      ensures solution == None && tasks == []
    {
      solution := None;
      tasks := [];
    }

    /**
     * `push_tasks`: branches on the space and pushes one task per choice, in the order the
     * brancher yields them, each with the shared space; the incumbent is untouched.
     */
    method PushTasks(space: Space)
      requires PickerOk(space.brancher.picker, |space.vars.doms|)
      modifies this
      ensures solution == old(solution)
      ensures tasks == old(tasks) + BranchTasks(space)
    {
      var it, b := Branch(space.brancher, space.vars.doms);
      if it.Some? {
        var shared := Space(space.vars, space.props, b);
        assert b.picker == FirstUnset(it.value.pivot, |space.vars.doms|);
        assert Tasks(it.value.pivot, it.value.mutations, shared) == BranchTasks(space);
        PushChoices(it.value, shared);
      }
    }

    /** The loop of `push_tasks`: drains the iterator, pushing each choice with the shared space. */
    method PushChoices(it: BrancherIter, shared: Space)
      modifies this
      ensures solution == old(solution)
      ensures tasks == old(tasks) + Tasks(it.pivot, it.mutations, shared)
    {
      var cur := it;
      while true
        invariant cur.pivot == it.pivot && solution == old(solution)
        invariant tasks + Tasks(it.pivot, cur.mutations, shared) == old(tasks) + Tasks(it.pivot, it.mutations, shared)
        decreases |cur.mutations|
      {
        var next := Next(cur);
        if next.0.None? {
          break;
        }
        TasksCons(tasks, it.pivot, cur.mutations, shared);
        tasks := tasks + [(next.0.value, shared)];
        cur := next.1;
      }
    }

    /**
     * What holds between two turns of the loop in `search`: every task is runnable, the
     * incumbent is a solution inside the root domains, feasibility mode has none, and every
     * solution that beats the incumbent is pending in some task.
     */
    ghost predicate Invariant(s: Searcher, root: Space)
      reads this
    {
      AllTasksOk(s, root, tasks)
      && (solution.Some? ==> InDoms(solution.value.values, root.vars.doms)
                             && IsSolution(s.deps, root.props, solution.value.values))
      && (!s.isExhaustive ==> solution.None?)
      && Complete(s, root, tasks, solution)
    }

    /**
     * One turn of the loop in `search`: pops the last task, applies its choice under the
     * incumbent's objective value as strict bound and propagates; a fixed point pushes its
     * own tasks, a failure drops the task, and a solution is returned at once in feasibility
     * mode or becomes the incumbent. The loop invariant is kept and the potential drops; a
     * returned solution lies inside the root domains.
     */
    method RunTask(s: Searcher, root: Space) returns (found: Option<Solution>)
      requires WellFormed(s.deps, root.props, |root.vars.doms|) && s.obj < |root.vars.doms|
      requires tasks != [] && Invariant(s, root)
      modifies this
      ensures found.Some? ==> !s.isExhaustive && InDoms(found.value.values, root.vars.doms)
                              && IsSolution(s.deps, root.props, found.value.values)
      ensures found.None? ==> Invariant(s, root) && Potential(tasks) < Potential(old(tasks))
    {
      ghost var ts := tasks;
      var t := tasks[|tasks| - 1];
      var choice, sp := t.0, t.1;
      tasks := tasks[..|tasks| - 1];
      assert ts == tasks + [t];
      PotentialAppend(tasks, [t]);
      var objOpt := if solution.Some? then Some(Index(solution.value, s.obj)) else None;
      var res := MutateThenPropagate(s, choice, objOpt, sp);
      ExploredUnderBound(s, t, solution, objOpt, res);
      found := None;
      if res.Failed? {
        StepFailed(s, root, ts, solution);
      } else {
        match res.value
        case Fixed(sp') =>
          StepFixed(s, root, ts, solution, sp');
          PushTasks(sp');
        case Done(candidate) =>
          InDomsWiden(candidate.values, sp.vars.doms, root.vars.doms);
          if !s.isExhaustive {
            return Some(candidate);
          }
          StepDone(s, root, ts, solution, candidate);
          if solution.Some? {
            // Only store a new solution if it improves on the incumbent
            if Index(candidate, s.obj) < Index(solution.value, s.obj) {
              solution := Some(candidate);
            }
          } else {
            solution := Some(candidate);
          }
      }
    }

    /**
     * `Stack::search` on a fresh engine, from a propagated space that still needs branching:
     * pops the last task, applies its choice with the incumbent's objective as strict bound,
     * branches again on a fixed point and, on a solution, returns it at once in feasibility
     * mode or keeps it as the new incumbent. The result is a solution inside the domains;
     * there is none only when no solution exists; in exhaustive mode no solution has a
     * smaller objective value.
     */
    method Search(space: Space, s: Searcher) returns (r: Option<Solution>)
      requires WellFormed(s.deps, space.props, |space.vars.doms|) && space.vars.events == []
      requires s.obj < |space.vars.doms| && PickerOk(space.brancher.picker, |space.vars.doms|)
      requires CursorSet(space) && !AllSet(space.vars.doms)
      requires CheckedOutside(s.deps, space.props, [], space.vars.doms)
      requires solution == None && tasks == []
      modifies this
      ensures r.Some? ==> InDoms(r.value.values, space.vars.doms) && IsSolution(s.deps, space.props, r.value.values)
      ensures r.None? ==> forall a :: InDoms(a, space.vars.doms) ==> !IsSolution(s.deps, space.props, a)
      ensures s.isExhaustive && r.Some? ==>
                forall a :: InDoms(a, space.vars.doms) && IsSolution(s.deps, space.props, a) ==>
                  r.value.values[s.obj] <= a[s.obj]
    {
      Seed(s, space);
      while tasks != []
        invariant Invariant(s, space)
        decreases Potential(tasks)
      {
        var found := RunTask(s, space);
        if found.Some? {
          return found;
        }
      }
      Exhausted(s, space, solution);
      r := solution;
    }

    /** The start of `search`: the root's own branches are the whole stack, and the loop invariant holds. */
    method Seed(s: Searcher, root: Space)
      requires WellFormed(s.deps, root.props, |root.vars.doms|) && root.vars.events == []
      requires s.obj < |root.vars.doms| && PickerOk(root.brancher.picker, |root.vars.doms|)
      requires CursorSet(root) && !AllSet(root.vars.doms)
      requires CheckedOutside(s.deps, root.props, [], root.vars.doms)
      requires solution == None && tasks == []
      modifies this
      ensures Invariant(s, root)
    {
      NarrowsRefl(root.vars.doms, []);
      BranchTasksOk(s, root, root);
      PushTasks(root);
      assert tasks == [] + BranchTasks(root);
      AllTasksOkAppend(s, root, [], BranchTasks(root));
      forall a | InDoms(a, root.vars.doms) && IsSolution(s.deps, root.props, a)
        ensures PendingIn(tasks, a)
      {
        PendingInAppend([], BranchTasks(root), a);
      }
    }
  }

  /** With the stack empty, the loop invariant says the incumbent is the answer of `search`. */
  lemma Exhausted(s: Searcher, root: Space, incumbent: Option<Solution>)
    requires s.obj < |root.vars.doms|
    requires incumbent.Some? ==> InDoms(incumbent.value.values, root.vars.doms)
                                 && IsSolution(s.deps, root.props, incumbent.value.values)
    requires !s.isExhaustive ==> incumbent.None?
    requires Complete(s, root, [], incumbent)
    ensures incumbent.None? ==> forall a :: InDoms(a, root.vars.doms) ==> !IsSolution(s.deps, root.props, a)
    ensures s.isExhaustive && incumbent.Some? ==>
              forall a :: InDoms(a, root.vars.doms) && IsSolution(s.deps, root.props, a) ==>
                incumbent.value.values[s.obj] <= a[s.obj]
  {
    forall a | InDoms(a, root.vars.doms) && IsSolution(s.deps, root.props, a)
      ensures !Better(s.obj, incumbent, a)
    {
      assert !PendingIn([], a);
    }
  }

  /**
   * `Searcher::search` with the `Stack` engine: builds the variables, a fresh brancher and
   * the initial space, propagates every declared propagator, and either returns the single
   * assignment left or searches the fixed point. The result is a solution of the model; it
   * is `None` only when the model has no solution; in exhaustive mode it minimises the
   * objective.
   */
  method SearcherSearch(s: Searcher, vars: seq<Var>, props: Props, e: Enumerator) returns (r: Option<Solution>)
    requires WellFormed(s.deps, props, |vars|) && s.obj < |vars|
    ensures r.Some? ==> InDoms(r.value.values, vars) && IsSolution(s.deps, props, r.value.values)
    ensures r.None? ==> forall a :: InDoms(a, vars) ==> !IsSolution(s.deps, props, a)
    ensures s.isExhaustive && r.Some? ==>
              forall a :: InDoms(a, vars) && IsSolution(s.deps, props, a) ==> r.value.values[s.obj] <= a[s.obj]
  {
    var vs := New(vars);
    var brancher := FromVars(vs.doms, e);
    var space := Space(vs, props, brancher);
    var propagated := PropagateWithAllProps(s, space);
    if propagated.Failed? {
      return None;
    }
    match propagated.value
    case Done(solution) =>
      r := Some(solution);
    case Fixed(sp) =>
      var engine := new Stack();
      r := engine.Search(sp, s);
      if r.Some? {
        InDomsWiden(r.value.values, sp.vars.doms, vars);
      }
  }
}
