/**
 * The newer engine's agenda (src/search/agenda.rs): the propagators scheduled to run, in a
 * FIFO queue, with a set of the queued ids so that none is queued twice.
 */
module Agendas {
  import opened Wrappers
  import opened Registry

  /** No id occurs twice in `q`. */
  predicate Distinct(q: seq<PropId>) {
    forall i, j :: 0 <= i < j < |q| ==> q[i] != q[j]
  }

  /** The elements of `ps`, each at its first occurrence, in order. */
  function Dedup(ps: seq<PropId>): (r: seq<PropId>)
    ensures Distinct(r)
    ensures forall p :: p in r <==> p in ps
  {
    if ps == [] then []
    else
      var r := Dedup(ps[..|ps| - 1]);
      var p := ps[|ps| - 1];
      assert forall x :: x in ps <==> x in ps[..|ps| - 1] || x == p by {
        assert ps == ps[..|ps| - 1] + [p];
      }
      if p in r then r else r + [p]
  }

  /** A list without repeats is its own deduplication. */
  lemma {:induction false} DedupDistinct(ps: seq<PropId>)
    requires Distinct(ps)
    ensures Dedup(ps) == ps
    decreases |ps|
  {
    if ps != [] {
      var n := |ps| - 1;
      DedupDistinct(ps[..n]);
      assert ps[n] !in ps[..n];
      assert ps == ps[..n] + [ps[n]];
    }
  }

  /** Deduplication never lengthens the list. */
  lemma {:induction false} DedupShorter(ps: seq<PropId>)
    ensures |Dedup(ps)| <= |ps|
    decreases |ps|
  {
    if ps != [] {
      DedupShorter(ps[..|ps| - 1]);
    }
  }

  /** The position where `p` first occurs in `ps`. */
  function FirstIndex(ps: seq<PropId>, p: PropId): (k: nat)
    requires p in ps
    ensures k < |ps| && ps[k] == p && p !in ps[..k]
  {
    if ps[0] == p then 0
    else
      var k := FirstIndex(ps[1..], p);
      assert ps[..k + 1] == [ps[0]] + ps[1..][..k];
      k + 1
  }

  /** Only one position is the first occurrence. */
  lemma FirstIndexUnique(ps: seq<PropId>, p: PropId, k: nat)
    requires k < |ps| && ps[k] == p && p !in ps[..k]
    ensures FirstIndex(ps, p) == k
  {
  }

  /**
   * The ids of `Dedup(ps)` come in the order of their first occurrences in `ps`; with
   * `Distinct` and the same members, this pins `Dedup(ps)` down.
   */
  lemma {:induction false} DedupOrder(ps: seq<PropId>)
    ensures forall i, j :: 0 <= i < j < |Dedup(ps)| ==> FirstIndex(ps, Dedup(ps)[i]) < FirstIndex(ps, Dedup(ps)[j])
    decreases |ps|
  {
    if ps != [] {
      var n := |ps| - 1;
      var r := Dedup(ps[..n]);
      var p := ps[n];
      DedupOrder(ps[..n]);
      forall x | x in ps[..n]
        ensures FirstIndex(ps, x) == FirstIndex(ps[..n], x)
      {
        var k := FirstIndex(ps[..n], x);
        assert ps[..n][..k] == ps[..k];
        FirstIndexUnique(ps, x, k);
      }
      if p !in r {
        assert p !in ps[..n];
        FirstIndexUnique(ps, p, n);
        assert Dedup(ps) == r + [p];
        forall i | 0 <= i < |r|
          ensures FirstIndex(ps, r[i]) < n
        {
          assert r[i] in ps[..n];
        }
      }
    }
  }

  /** `Agenda`: the queue `q` and the set `h` of the ids it holds. */
  class Agenda {
    var q: seq<PropId>
    var h: set<PropId>

    /** No duplicates in the queue, and the set is exactly its elements. */
    ghost predicate Valid()
      reads this
    {
      Distinct(q) && forall p :: p in h <==> p in q
    }

    /** `Agenda::default`: nothing scheduled. */
    constructor ()
      ensures q == [] && h == {} && Valid()
    {
      q := [];
      h := {};
    }

    /** `with_props`: schedules `ps` in order, so each id is queued once, at its first occurrence. */
    constructor WithProps(ps: seq<PropId>)
      ensures q == Dedup(ps) && Valid()
    {
      q := [];
      h := {};
      new;
      var i := 0;
      while i < |ps|
        invariant 0 <= i <= |ps|
        invariant q == Dedup(ps[..i]) && Valid()
      {
        assert ps[..i + 1][..i] == ps[..i];
        Schedule(ps[i]);
        i := i + 1;
      }
      assert ps[..i] == ps;
    }

    /**
     * `schedule`: an id already queued is left where it is; any other goes to the back of the
     * queue and into the set.
     */
    method Schedule(p: PropId)
      requires Valid()
      modifies this
      ensures p in old(h) ==> q == old(q) && h == old(h)
      ensures p !in old(h) ==> q == old(q) + [p] && h == old(h) + {p}
      ensures Valid()
    {
      if p !in h {
        q := q + [p];
        h := h + {p};
      }
    }

    /**
     * `pop`: none when nothing is queued; otherwise the front of the queue, which leaves
     * both the queue and the set, so scheduling it again queues it anew.
     */
    method Pop() returns (r: Option<PropId>)
      requires Valid()
      modifies this
      ensures old(q) == [] ==> r.None? && q == old(q) && h == old(h)
      ensures old(q) != [] ==> r == Some(old(q)[0]) && q == old(q)[1..] && h == old(h) - {old(q)[0]}
      ensures r.Some? ==> r.value !in h
      ensures Valid()
    {
      if q == [] {
        return None;
      }
      var p := q[0];
      q := q[1..];
      h := h - {p};
      r := Some(p);
    }
  }
}
