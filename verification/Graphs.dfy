/** Paths, cycles and distances in a finite directed graph given by its edges. */
module Graphs {
  import opened Sequences

  ghost predicate IsPath<T>(edges: set<(T, T)>, p: seq<T>) {
    p != [] && forall i :: 0 <= i < |p| - 1 ==> (p[i], p[i + 1]) in edges
  }

  ghost predicate PathFromTo<T>(edges: set<(T, T)>, p: seq<T>, a: T, b: T) {
    IsPath(edges, p) && p[0] == a && p[|p| - 1] == b
  }

  /** `b` can be reached from `a` along zero or more edges. */
  ghost predicate Reaches<T(!new)>(edges: set<(T, T)>, a: T, b: T) {
    exists p :: PathFromTo(edges, p, a, b)
  }

  /** `a` lies on a cycle. */
  ghost predicate OnCycle<T(!new)>(edges: set<(T, T)>, a: T) {
    exists p :: |p| >= 2 && PathFromTo(edges, p, a, a)
  }

  /** `b` is exactly `k` edges away from `a` along some path. */
  ghost predicate ReachesIn<T(!new)>(edges: set<(T, T)>, a: T, b: T, k: nat) {
    exists p :: |p| == k + 1 && PathFromTo(edges, p, a, b)
  }

  /** The length of a shortest path from `a` to `b` is `k`. */
  ghost predicate Distance<T(!new)>(edges: set<(T, T)>, a: T, b: T, k: nat) {
    ReachesIn(edges, a, b, k) && forall j: nat :: ReachesIn(edges, a, b, j) ==> k <= j
  }

  lemma ReachesSelf<T(!new)>(edges: set<(T, T)>, a: T)
    ensures Reaches(edges, a, a) && ReachesIn(edges, a, a, 0)
  {
    assert PathFromTo(edges, [a], a, a);
  }

  lemma ReachesTransitive<T(!new)>(edges: set<(T, T)>, a: T, b: T, c: T)
    requires Reaches(edges, a, b) && Reaches(edges, b, c)
    ensures Reaches(edges, a, c)
  {
    var p :| PathFromTo(edges, p, a, b);
    var q :| PathFromTo(edges, q, b, c);
    assert PathFromTo(edges, p + q[1..], a, c);
  }

  lemma ReachesEdge<T(!new)>(edges: set<(T, T)>, a: T, b: T)
    requires (a, b) in edges
    ensures Reaches(edges, a, b)
  {
    assert PathFromTo(edges, [a, b], a, b);
  }

  lemma ReachesInExtends<T(!new)>(edges: set<(T, T)>, a: T, b: T, c: T, k: nat)
    requires ReachesIn(edges, a, b, k) && (b, c) in edges
    ensures ReachesIn(edges, a, c, k + 1)
  {
    var p :| |p| == k + 1 && PathFromTo(edges, p, a, b);
    assert PathFromTo(edges, p + [c], a, c);
  }

  /** A node that is reached but is not the start has an edge into it from a reached node. */
  lemma ReachesLastEdge<T(!new)>(edges: set<(T, T)>, a: T, b: T) returns (u: T)
    requires Reaches(edges, a, b) && a != b
    ensures Reaches(edges, a, u) && (u, b) in edges
  {
    var p :| PathFromTo(edges, p, a, b);
    u := p[|p| - 2];
    assert PathFromTo(edges, p[..|p| - 1], a, u);
  }

  lemma ReachesFirstEdge<T(!new)>(edges: set<(T, T)>, a: T, b: T) returns (u: T)
    requires Reaches(edges, a, b) && a != b
    ensures (a, u) in edges && Reaches(edges, u, b)
  {
    var p :| PathFromTo(edges, p, a, b);
    u := p[1];
    assert PathFromTo(edges, p[1..], u, b);
  }

  /** More edges reach at least as far. */
  lemma ReachesMonotone<T(!new)>(edges: set<(T, T)>, more: set<(T, T)>, a: T, b: T)
    requires edges <= more && Reaches(edges, a, b)
    ensures Reaches(more, a, b)
  {
    var p :| PathFromTo(edges, p, a, b);
    assert PathFromTo(more, p, a, b);
  }

  /** A set that holds the start and is closed under edges holds everything reached. */
  lemma ClosedSetHoldsReached<T(!new)>(edges: set<(T, T)>, s: set<T>, a: T, b: T)
    requires a in s && Reaches(edges, a, b)
    requires forall u, v :: (u, v) in edges && u in s ==> v in s
    ensures b in s
  {
    var p :| PathFromTo(edges, p, a, b);
    var i := 0;
    while i < |p| - 1
      invariant 0 <= i < |p| && p[i] in s
    {
      i := i + 1;
    }
  }

  /** A rank that grows along every edge grows along every path, so there is no cycle. */
  lemma RankGrows<T(!new)>(edges: set<(T, T)>, rank: map<T, nat>, p: seq<T>)
    requires forall u, v :: (u, v) in edges ==> u in rank && v in rank && rank[u] < rank[v]
    requires IsPath(edges, p) && |p| >= 2
    ensures p[0] in rank && p[|p| - 1] in rank && rank[p[0]] < rank[p[|p| - 1]]
  {
    assert (p[0], p[1]) in edges;
    if |p| > 2 {
      RankGrows(edges, rank, p[1..]);
    }
  }

  lemma RankForbidsCycles<T(!new)>(edges: set<(T, T)>, rank: map<T, nat>)
    requires forall u, v :: (u, v) in edges ==> u in rank && v in rank && rank[u] < rank[v]
    ensures forall a :: !OnCycle(edges, a)
  {
    forall a ensures !OnCycle(edges, a) {
      if OnCycle(edges, a) {
        var p :| |p| >= 2 && PathFromTo(edges, p, a, a);
        RankGrows(edges, rank, p);
        assert false;
      }
    }
  }

  lemma EdgeBackCycles<T(!new)>(edges: set<(T, T)>, a: T, b: T)
    requires (a, b) in edges && Reaches(edges, b, a)
    ensures OnCycle(edges, a)
  {
    var p :| PathFromTo(edges, p, b, a);
    assert PathFromTo(edges, [a] + p, a, a);
  }

  /** If every member of a non-empty finite set has a predecessor in the set, the set meets a cycle. */
  lemma BackwardsClosedHasCycle<T(!new)>(edges: set<(T, T)>, s: set<T>, start: T) returns (c: T)
    requires start in s
    requires forall v :: v in s ==> exists u :: u in s && (u, v) in edges
    ensures c in s && OnCycle(edges, c)
  {
    c := ExtendBackwards(edges, s, [start]);
  }

  lemma ExtendBackwards<T(!new)>(edges: set<(T, T)>, s: set<T>, p: seq<T>) returns (c: T)
    requires IsPath(edges, p) && NoDup(p) && Elems(p) <= s
    requires forall v :: v in s ==> exists u :: u in s && (u, v) in edges
    ensures c in s && OnCycle(edges, c)
    decreases |s| - |p|
  {
    NoDupBound(p, s);
    assert p[0] in Elems(p);
    var u :| u in s && (u, p[0]) in edges;
    var longer := [u] + p;
    assert IsPath(edges, longer);
    if u in p {
      var i :| 0 <= i < |p| && p[i] == u;
      assert PathFromTo(edges, longer[..i + 2], u, u);
      c := u;
    } else {
      NoDupBound(longer, s);
      c := ExtendBackwards(edges, s, longer);
    }
  }
}
