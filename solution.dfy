/** Assignments returned by search (src/solution.rs). */
module Solutions {
  import opened Domains

  /** Assignment for decision variables that satisfies all constraints: value `i` is variable `i`'s. */
  datatype Solution = Solution(values: seq<int>)

  /** Every id of `vs` names a variable of the solution. */
  predicate ValidIds(s: Solution, vs: seq<VarId>) {
    forall i :: 0 <= i < |vs| ==> vs[i] < |s.values|
  }

  /** `From<Vec<i32>>`: the vector becomes the solution unchanged. */
  function From(values: seq<int>): (s: Solution)
    ensures |s.values| == |values|
    ensures forall v :: 0 <= v < |values| ==> Index(s, v) == values[v]
  {
    Solution(values)
  }

  /** Indexing by a variable id. */
  function Index(s: Solution, v: VarId): int
    requires v < |s.values|
  {
    s.values[v]
  }

  /** `get_values_iter`: the value of each requested variable, in request order. */
  function GetValuesIter(s: Solution, vs: seq<VarId>): (r: seq<int>)
    requires ValidIds(s, vs)
    ensures |r| == |vs|
    ensures forall i :: 0 <= i < |vs| ==> r[i] == Index(s, vs[i])
    decreases |vs|
  {
    if vs == [] then [] else [Index(s, vs[0])] + GetValuesIter(s, vs[1..])
  }

  /** `get_values`: collects `get_values_iter` into a vector. */
  function GetValues(s: Solution, vs: seq<VarId>): (r: seq<int>)
    requires ValidIds(s, vs)
    ensures |r| == |vs|
    ensures forall i :: 0 <= i < |vs| ==> r[i] == Index(s, vs[i])
  {
    GetValuesIter(s, vs)
  }

  /** `get_values_array`: maps indexing over a fixed-size array of ids. */
  function GetValuesArray(s: Solution, vs: seq<VarId>): (r: seq<int>)
    requires ValidIds(s, vs)
    ensures |r| == |vs|
  {
    seq(|vs|, i requires 0 <= i < |vs| => Index(s, vs[i]))
  }

  /** The array form and the vector form return the same values. */
  lemma GetValuesArrayAgrees(s: Solution, vs: seq<VarId>)
    requires ValidIds(s, vs)
    ensures GetValuesArray(s, vs) == GetValues(s, vs)
  {
  }

  /** Asking for the values of more variables extends the answer. */
  lemma {:induction false} GetValuesAppend(s: Solution, vs: seq<VarId>, ws: seq<VarId>)
    requires ValidIds(s, vs) && ValidIds(s, ws)
    ensures ValidIds(s, vs + ws)
    ensures GetValues(s, vs + ws) == GetValues(s, vs) + GetValues(s, ws)
  {
    var l, r := GetValues(s, vs + ws), GetValues(s, vs) + GetValues(s, ws);
    forall i | 0 <= i < |l|
      ensures l[i] == r[i]
    {
      if i < |vs| {
        assert (vs + ws)[i] == vs[i];
      } else {
        assert (vs + ws)[i] == ws[i - |vs|];
      }
    }
  }

  /** Asking for every variable in order gives back the whole assignment. */
  lemma GetValuesAll(s: Solution, vs: seq<VarId>)
    requires |vs| == |s.values| && forall i :: 0 <= i < |vs| ==> vs[i] == i
    ensures ValidIds(s, vs)
    ensures GetValues(s, vs) == s.values
  {
  }
}
