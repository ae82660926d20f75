/**
 * The acyclicity check `waitFor` runs over the whole registry
 * (`isValidDependencyLayout('store', callbacks)`, app/main.js:38). Nodes are
 * the registry's entries; entry `i` has an edge to entry `j` when `j`'s store
 * is among `i`'s `deps`, so dependencies that name no registered store add
 * no edge. `IsValidLayout` computes, for every entry, the set of entries it
 * reaches in one or more steps; `NoSelfReachIffAcyclic` proves that it
 * accepts exactly the registries whose graph has no cycle.
 */
module DependencyLayout {
  import opened Registry

  /** Entry `i` depends on entry `j`. */
  predicate Edge<S(==)>(callbacks: seq<Entry<S>>, i: int, j: int) {
    0 <= i < |callbacks| && 0 <= j < |callbacks| && callbacks[j].store in callbacks[i].deps
  }

  /** The indices of a registry of `n` entries. */
  function Nodes(n: nat): (s: set<int>)
    ensures forall x :: x in s <==> 0 <= x < n
  {
    if n == 0 then {} else Nodes(n - 1) + {n - 1}
  }

  /** A walk along dependency edges. */
  ghost predicate IsPath<S>(callbacks: seq<Entry<S>>, p: seq<int>) {
    |p| >= 1 &&
    (forall k :: 0 <= k < |p| ==> 0 <= p[k] < |callbacks|) &&
    (forall k :: 0 <= k < |p| - 1 ==> Edge(callbacks, p[k], p[k + 1]))
  }

  /** Entry `j` can be reached from entry `i` by one or more edges. */
  ghost predicate Reaches<S>(callbacks: seq<Entry<S>>, i: int, j: int) {
    exists p :: IsPath(callbacks, p) && |p| >= 2 && p[0] == i && p[|p| - 1] == j
  }

  /** Some entry reaches itself: the dependency graph has a cycle. */
  ghost predicate HasCycle<S>(callbacks: seq<Entry<S>>) {
    exists i :: Reaches(callbacks, i, i)
  }

  /** The entries some entry of `r` depends on directly. */
  function Successors<S(==)>(callbacks: seq<Entry<S>>, r: set<int>): (s: set<int>)
    ensures s <= Nodes(|callbacks|)
  {
    set j | j in Nodes(|callbacks|) && exists i | i in r :: Edge(callbacks, i, j)
  }

  /** The least set of entries that contains `r` and is closed under dependency edges. */
  function Closure<S(==)>(callbacks: seq<Entry<S>>, r: set<int>): (c: set<int>)
    requires r <= Nodes(|callbacks|)
    ensures r <= c <= Nodes(|callbacks|)
    ensures Successors(callbacks, c) <= c
    decreases Nodes(|callbacks|) - r
  {
    var next := r + Successors(callbacks, r);
    if next == r then r
    else
      assert exists x :: x in next && x !in r;
      Closure(callbacks, next)
  }

  /** The entries reachable from entry `i` by one or more edges. */
  function Reach<S(==)>(callbacks: seq<Entry<S>>, i: int): set<int> {
    Closure(callbacks, Successors(callbacks, {i}))
  }

  /** No entry is in its own computed reach set. */
  predicate NoSelfReach<S(==)>(callbacks: seq<Entry<S>>) {
    forall i | 0 <= i < |callbacks| :: i !in Reach(callbacks, i)
  }

  /** The dependency layout is valid: the computed check finds no entry that reaches itself. */
  predicate IsValidLayout<S(==)>(callbacks: seq<Entry<S>>)
    ensures IsValidLayout(callbacks) <==> !HasCycle(callbacks)
  {
    NoSelfReachIffAcyclic(callbacks);
    NoSelfReach(callbacks)
  }

  lemma ReachesExtend<S>(callbacks: seq<Entry<S>>, i: int, j: int, k: int)
    requires Reaches(callbacks, i, j) && Edge(callbacks, j, k)
    ensures Reaches(callbacks, i, k)
  {
    var p :| IsPath(callbacks, p) && |p| >= 2 && p[0] == i && p[|p| - 1] == j;
    var q := p + [k];
    assert IsPath(callbacks, q);
  }

  lemma ReachesByEdge<S>(callbacks: seq<Entry<S>>, i: int, j: int)
    requires Edge(callbacks, i, j)
    ensures Reaches(callbacks, i, j)
  {
    assert IsPath(callbacks, [i, j]);
  }

  /** Everything the closure adds is reachable from `i` when `r` already is. */
  lemma {:induction false} ClosureSound<S>(callbacks: seq<Entry<S>>, i: int, r: set<int>)
    requires r <= Nodes(|callbacks|)
    requires forall x :: x in r ==> Reaches(callbacks, i, x)
    ensures forall x :: x in Closure(callbacks, r) ==> Reaches(callbacks, i, x)
    decreases Nodes(|callbacks|) - r
  {
    var next := r + Successors(callbacks, r);
    if next != r {
      forall x | x in next
        ensures Reaches(callbacks, i, x)
      {
        if x !in r {
          var y :| y in r && Edge(callbacks, y, x);
          ReachesExtend(callbacks, i, y, x);
        }
      }
      assert exists x :: x in next && x !in r;
      ClosureSound(callbacks, i, next);
    }
  }

  /** The last entry of every walk of one or more edges from `i` is in `Reach(callbacks, i)`. */
  lemma {:induction false} ReachComplete<S>(callbacks: seq<Entry<S>>, i: int, p: seq<int>)
    requires IsPath(callbacks, p) && |p| >= 2 && p[0] == i
    ensures p[|p| - 1] in Reach(callbacks, i)
  {
    var c := Reach(callbacks, i);
    if |p| == 2 {
      assert p[1] in Successors(callbacks, {i});
    } else {
      var q := p[..|p| - 1];
      assert IsPath(callbacks, q);
      ReachComplete(callbacks, i, q);
      assert Edge(callbacks, q[|q| - 1], p[|p| - 1]);
      assert p[|p| - 1] in Successors(callbacks, c);
    }
  }

  /** The computed check accepts exactly the registries whose graph has no cycle. */
  lemma NoSelfReachIffAcyclic<S>(callbacks: seq<Entry<S>>)
    ensures NoSelfReach(callbacks) <==> !HasCycle(callbacks)
  {
    if !NoSelfReach(callbacks) {
      var i :| 0 <= i < |callbacks| && i in Reach(callbacks, i);
      forall x | x in Successors(callbacks, {i})
        ensures Reaches(callbacks, i, x)
      {
        ReachesByEdge(callbacks, i, x);
      }
      ClosureSound(callbacks, i, Successors(callbacks, {i}));
      assert Reaches(callbacks, i, i);
    }
    if HasCycle(callbacks) {
      var i :| Reaches(callbacks, i, i);
      var p :| IsPath(callbacks, p) && |p| >= 2 && p[0] == i && p[|p| - 1] == i;
      ReachComplete(callbacks, i, p);
    }
  }
}
