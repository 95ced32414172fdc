/**
 * The older engine's branching (src/search/branch/{mod,pick,enumerate}.rs): a picker chooses
 * the pivot variable, an enumerator lists the mutations to try on it, and every mutation
 * becomes a `Choice` for the pivot.
 */
module LegacyBranch {
  import opened Wrappers
  import opened Domains

  /** Change to apply to a variable to restrict its domain. */
  datatype Mutation =
    | Set(val: int)
    | Min(min: int)
    | Max(max: int)

  /** Branch to be applied to mutate the search space. */
  datatype Choice = Choice(pivot: VarId, mutation: Mutation)

  // ----- enumerate.rs -----

  /** The two enumeration strategies; both are stateless. */
  datatype Enumerator = SetMinToMax | SetMaxToMin

  /** `Set(v)` for `v` from `lo` up to `hi`: the inclusive range `lo..=hi` mapped to `Set`. */
  function Ascending(lo: int, hi: int): (ms: seq<Mutation>)
    ensures |ms| == if lo <= hi then hi - lo + 1 else 0
    ensures forall k :: 0 <= k < |ms| ==> ms[k].Set? && lo <= ms[k].val <= hi
    ensures forall j, k :: 0 <= j < k < |ms| ==> ms[j].val < ms[k].val
    ensures forall v :: lo <= v <= hi ==> Set(v) in ms
    decreases if lo <= hi then hi - lo + 1 else 0
  {
    if lo > hi then []
    else
      var rest := Ascending(lo + 1, hi);
      assert forall v :: lo < v <= hi ==> Set(v) in rest;
      [Set(lo)] + rest
  }

  /** `Set(v)` for `v` from `hi` down to `lo`: the reversed inclusive range mapped to `Set`. */
  function Descending(lo: int, hi: int): (ms: seq<Mutation>)
    ensures |ms| == if lo <= hi then hi - lo + 1 else 0
    ensures forall k :: 0 <= k < |ms| ==> ms[k].Set? && lo <= ms[k].val <= hi
    ensures forall j, k :: 0 <= j < k < |ms| ==> ms[j].val > ms[k].val
    ensures forall v :: lo <= v <= hi ==> Set(v) in ms
    decreases if lo <= hi then hi - lo + 1 else 0
  {
    if lo > hi then []
    else
      var rest := Descending(lo, hi - 1);
      assert forall v :: lo <= v < hi ==> Set(v) in rest;
      [Set(hi)] + rest
  }

  /**
   * `Enumerate::branch_on`: the mutations to try on a pivot with domain `pivot`, as the
   * sequence its iterator yields. Every value of the domain is set exactly once, only `Set`
   * mutations occur, and `SetMinToMax` yields them from the maximum down while `SetMaxToMin`
   * yields them from the minimum up.
   */
  function BranchOn(e: Enumerator, pivot: Var): (ms: seq<Mutation>)
    ensures |ms| == if pivot.min <= pivot.max then pivot.max - pivot.min + 1 else 0
    ensures forall k :: 0 <= k < |ms| ==> ms[k].Set? && Contains(pivot, ms[k].val)
    ensures forall v :: Contains(pivot, v) ==> Set(v) in ms
    ensures e.SetMinToMax? ==> forall j, k :: 0 <= j < k < |ms| ==> ms[j].val > ms[k].val
    ensures e.SetMaxToMin? ==> forall j, k :: 0 <= j < k < |ms| ==> ms[j].val < ms[k].val
  {
    match e
    case SetMinToMax => Descending(pivot.min, pivot.max)
    case SetMaxToMin => Ascending(pivot.min, pivot.max)
  }

  /** No value is set twice: the yielded values are pairwise distinct. */
  lemma BranchOnDistinct(e: Enumerator, pivot: Var, j: nat, k: nat)
    requires j < k < |BranchOn(e, pivot)|
    ensures BranchOn(e, pivot)[j] != BranchOn(e, pivot)[k]
  {
  }

  /** The first mutation `SetMinToMax` yields sets the maximum, the first of `SetMaxToMin` the minimum. */
  lemma BranchOnFirst(e: Enumerator, pivot: Var)
    requires pivot.min <= pivot.max
    ensures BranchOn(e, pivot)[0] == if e.SetMinToMax? then Set(pivot.max) else Set(pivot.min)
  {
    var ms := BranchOn(e, pivot);
    var v := if e.SetMinToMax? then pivot.max else pivot.min;
    assert Set(v) in ms;
    var k :| 0 <= k < |ms| && ms[k] == Set(v);
    if k != 0 {
      assert Contains(pivot, ms[0].val);
    }
  }

  // ----- pick.rs -----

  /**
   * `FirstUnset`: a peekable cursor over the variable ids `next..end`. It is a value, as the
   * picker is cloned along with the space it belongs to.
   */
  datatype FirstUnset = FirstUnset(next: nat, end: nat)

  /** The cursor has not run past the ids of the `n` variables it was built from. */
  predicate PickerOk(p: FirstUnset, n: nat) {
    p.next <= p.end == n
  }

  /** `FirstUnset::from_vars`: a cursor at the first variable id. */
  function FromVarsPicker(doms: seq<Var>): (p: FirstUnset)
    ensures p.next == 0 && PickerOk(p, |doms|)
  {
    FirstUnset(0, |doms|)
  }

  /** The first variable at or after `from` whose domain is not a singleton. */
  function FirstUnsetFrom(doms: seq<Var>, from: nat): (r: Option<VarId>)
    requires from <= |doms|
    ensures r.Some? ==> from <= r.value < |doms| && !IsSet(doms[r.value])
                        && forall v :: from <= v < r.value ==> IsSet(doms[v])
    ensures r.None? <==> forall v :: from <= v < |doms| ==> IsSet(doms[v])
    decreases |doms| - from
  {
    if from == |doms| then None
    else if !IsSet(doms[from]) then Some(from)
    else FirstUnsetFrom(doms, from + 1)
  }

  /**
   * `FirstUnset::pick`: skips, for good, the variables whose domain is set, and returns the
   * first unset one without moving past it, or `None` once the ids run out.
   */
  method Pick(p: FirstUnset, doms: seq<Var>) returns (x: Option<VarId>, p': FirstUnset)
    requires PickerOk(p, |doms|)
    ensures x == FirstUnsetFrom(doms, p.next)
    ensures PickerOk(p', |doms|) && p.next <= p'.next
    ensures forall v :: p.next <= v < p'.next ==> IsSet(doms[v])
    ensures x.Some? ==> p'.next == x.value
    ensures x.None? ==> p'.next == |doms|
  {
    p' := p;
    while p'.next < p'.end
      invariant PickerOk(p', |doms|) && p.next <= p'.next
      invariant forall v :: p.next <= v < p'.next ==> IsSet(doms[v])
      invariant FirstUnsetFrom(doms, p.next) == FirstUnsetFrom(doms, p'.next)
      decreases p'.end - p'.next
    {
      if !IsSet(doms[p'.next]) {
        return Some(p'.next), p';
      }
      p' := FirstUnset(p'.next + 1, p'.end);
    }
    return None, p';
  }

  /** Picking again from where a successful pick left the cursor returns the same variable. */
  lemma PickAgain(doms: seq<Var>, from: nat)
    requires from <= |doms| && FirstUnsetFrom(doms, from).Some?
    ensures FirstUnsetFrom(doms, FirstUnsetFrom(doms, from).value) == FirstUnsetFrom(doms, from)
  {
  }

  /**
   * The cursor is harmless to keep: if every variable before it is set, the first unset
   * variable from the cursor on is the first unset variable overall.
   */
  lemma {:induction false} PickSkipsOnlySet(doms: seq<Var>, from: nat)
    requires from <= |doms| && forall v :: 0 <= v < from ==> IsSet(doms[v])
    ensures FirstUnsetFrom(doms, from) == FirstUnsetFrom(doms, 0)
    decreases from
  {
    if from > 0 {
      PickSkipsOnlySet(doms, from - 1);
      assert IsSet(doms[from - 1]);
    }
  }

  // ----- mod.rs -----

  /** `Brancher`: a picker and an enumerator. */
  datatype Brancher = Brancher(picker: FirstUnset, enumerator: Enumerator)

  /** `BrancherIter`: the pivot and the mutations still to be yielded for it. */
  datatype BrancherIter = BrancherIter(pivot: VarId, mutations: seq<Mutation>)

  /** `Brancher::from_vars`: a fresh picker over the variables and the chosen enumerator. */
  function FromVars(doms: seq<Var>, e: Enumerator): (b: Brancher)
    ensures b.picker == FromVarsPicker(doms) && b.enumerator == e
  {
    Brancher(FromVarsPicker(doms), e)
  }

  /**
   * `Brancher::branch`: picks the pivot and enumerates the mutations on its current domain;
   * `None` exactly when the picker finds no unset variable. Only the picker's cursor changes.
   */
  method Branch(b: Brancher, doms: seq<Var>) returns (r: Option<BrancherIter>, b': Brancher)
    requires PickerOk(b.picker, |doms|)
    ensures r.None? <==> FirstUnsetFrom(doms, b.picker.next).None?
    ensures r.Some? ==> r.value.pivot == FirstUnsetFrom(doms, b.picker.next).value
                        && r.value.mutations == BranchOn(b.enumerator, doms[r.value.pivot])
    ensures b'.enumerator == b.enumerator && PickerOk(b'.picker, |doms|)
    ensures b.picker.next <= b'.picker.next
    ensures forall v :: b.picker.next <= v < b'.picker.next ==> IsSet(doms[v])
    ensures r.Some? ==> b'.picker.next == r.value.pivot
  {
    var pivot, picker := Pick(b.picker, doms);
    b' := Brancher(picker, b.enumerator);
    match pivot
    case None =>
      r := None;
    case Some(x) =>
      r := Some(BrancherIter(x, BranchOn(b.enumerator, doms[x])));
  }

  /** `BrancherIter::next`: the next mutation, paired with the pivot, and the iterator without it. */
  function Next(it: BrancherIter): (r: (Option<Choice>, BrancherIter))
    ensures r.0.None? <==> it.mutations == []
    ensures r.0.Some? ==> r.0.value == Choice(it.pivot, it.mutations[0])
                          && r.1 == BrancherIter(it.pivot, it.mutations[1..])
    ensures r.0.None? ==> r.1 == it
  {
    if it.mutations == [] then (None, it)
    else (Some(Choice(it.pivot, it.mutations[0])), BrancherIter(it.pivot, it.mutations[1..]))
  }

  /** Everything `next` yields until it returns `None`, in order. */
  function Choices(it: BrancherIter): (cs: seq<Choice>)
    decreases |it.mutations|
  {
    match Next(it)
    case (None, _) => []
    case (Some(c), rest) => [c] + Choices(rest)
  }

  /** Every choice yielded carries the pivot, with the enumerator's mutations in their order. */
  lemma {:induction false} ChoicesArePivotMutations(it: BrancherIter)
    ensures |Choices(it)| == |it.mutations|
    ensures forall k :: 0 <= k < |it.mutations| ==> Choices(it)[k] == Choice(it.pivot, it.mutations[k])
    decreases |it.mutations|
  {
    if it.mutations != [] {
      ChoicesArePivotMutations(Next(it).1);
    }
  }
}
