/**
  What the two Kahn sorts of the repository (the whole DAG, and the cloud outbound queue) share:
  the counting of pending edges, the invariant of the main loop, the inner loop that releases
  children, and what the finished order means.
 */
module Kahn {
  import opened Graphs
  import opened Sequences

  /** Edges into `n` whose parent has not been emitted, with multiplicity. */
  function Pending<T(==)>(edges: seq<(T, T)>, done: set<T>, n: T): nat {
    if edges == [] then 0
    else
      var last := edges[|edges| - 1];
      Pending(edges[..|edges| - 1], done, n) + if last.1 == n && last.0 !in done then 1 else 0
  }

  /** The adjacency list of `p`: its children in edge order, with multiplicity. */
  function Children<T(==)>(edges: seq<(T, T)>, p: T): seq<T> {
    if edges == [] then []
    else
      var last := edges[|edges| - 1];
      Children(edges[..|edges| - 1], p) + if last.0 == p then [last.1] else []
  }

  lemma {:induction false} ChildrenAreEdges<T>(edges: seq<(T, T)>, p: T, c: T)
    ensures c in Children(edges, p) <==> (p, c) in edges
  {
    if edges != [] {
      var init := edges[..|edges| - 1];
      ChildrenAreEdges(init, p, c);
      assert edges == init + [edges[|edges| - 1]];
    }
  }

  lemma {:induction false} PendingZero<T>(edges: seq<(T, T)>, done: set<T>, n: T)
    ensures Pending(edges, done, n) == 0 <==> forall e :: e in edges && e.1 == n ==> e.0 in done
  {
    if edges != [] {
      var init := edges[..|edges| - 1];
      PendingZero(init, done, n);
      assert edges == init + [edges[|edges| - 1]];
    }
  }

  /** Emitting `p` takes each of its edges off the count of the child once. */
  lemma {:induction false} PendingAfterEmit<T>(edges: seq<(T, T)>, done: set<T>, p: T, n: T)
    requires p !in done
    ensures Pending(edges, done, n) == Pending(edges, done + {p}, n) + multiset(Children(edges, p))[n]
  {
    if edges != [] {
      PendingAfterEmit(edges[..|edges| - 1], done, p, n);
    }
  }

  /** Every parent of an emitted node was emitted before it. */
  ghost predicate ParentsFirst<T(!new)>(edges: set<(T, T)>, sorted: seq<T>) {
    forall i, p :: 0 <= i < |sorted| && (p, sorted[i]) in edges ==> p in sorted[..i]
  }

  /** The invariant of the main loop: `degree` counts what is pending, zero means emitted or ready. */
  ghost predicate Inv<T(!new)>(edges: seq<(T, T)>, degree: map<T, nat>, sorted: seq<T>, ready: seq<T>) {
    && (forall e :: e in edges ==> e.1 in degree)
    && (forall n :: n in degree ==> degree[n] == Pending(edges, Elems(sorted), n))
    && NoDup(sorted + ready)
    && (forall n :: n in sorted + ready <==> n in degree && degree[n] == 0)
    && ParentsFirst(Elems(edges), sorted)
  }

  lemma InvInit<T(!new)>(edges: seq<(T, T)>, degree: map<T, nat>, ready: seq<T>)
    requires forall e :: e in edges ==> e.1 in degree
    requires forall n :: n in degree ==> degree[n] == Pending(edges, {}, n)
    requires NoDup(ready) && forall n :: n in ready <==> n in degree && degree[n] == 0
    ensures Inv(edges, degree, [], ready)
  {
    assert Elems<T>([]) == {};
    assert [] + ready == ready;
  }

  /**
    The inner loop: takes one off the degree of every listed child, in order, and reports the
    children that dropped to zero.  The count never underflows.
   */
  method Release<T(==)>(children: seq<T>, before: map<T, nat>) returns (degree: map<T, nat>, released: seq<T>)
    requires forall c :: c in children ==> c in before && multiset(children)[c] <= before[c]
    ensures degree.Keys == before.Keys
    ensures forall n :: n in before ==> degree[n] + multiset(children)[n] == before[n]
    ensures NoDup(released)
    ensures Elems(released) == set n | n in children && degree[n] == 0
  {
    degree, released := before, [];
    for i := 0 to |children|
      invariant degree.Keys == before.Keys
      invariant forall n :: n in before ==> degree[n] + multiset(children[..i])[n] == before[n]
      invariant NoDup(released)
      invariant Elems(released) == set n | n in children[..i] && degree[n] == 0
    {
      var child := children[i];
      ReleaseCount(children, i);
      ghost var was, done := degree, released;
      degree := degree[child := degree[child] - 1];
      if degree[child] == 0 {
        released := released + [child];
      }
      assert was[child] != 0;
      assert Elems(released) == Elems(done) + if degree[child] == 0 then {child} else {};
      assert forall n :: n in children[..i + 1] <==> n in children[..i] || n == child;
    }
    assert children[..|children|] == children;
  }

  lemma ReleaseCount<T>(children: seq<T>, i: nat)
    requires i < |children|
    ensures multiset(children[..i + 1]) == multiset(children[..i]) + multiset{children[i]}
    ensures multiset(children[..i])[children[i]] < multiset(children)[children[i]]
  {
    assert children[..i + 1] == children[..i] + [children[i]];
    assert children == children[..i + 1] + children[i + 1..];
    assert multiset(children) == multiset(children[..i + 1]) + multiset(children[i + 1..]);
  }

  lemma HeadNotEmitted<T(!new)>(edges: seq<(T, T)>, degree: map<T, nat>, sorted: seq<T>, ready: seq<T>)
    requires Inv(edges, degree, sorted, ready) && ready != []
    ensures ready[0] !in sorted && ready[0] in degree && degree[ready[0]] == 0
  {
    var all := sorted + ready;
    assert all[|sorted|] == ready[0];
    assert forall i :: 0 <= i < |sorted| ==> all[i] == sorted[i];
  }

  /** A released child is one whose count can really be lowered. */
  lemma ReleaseEnabled<T(!new)>(edges: seq<(T, T)>, degree: map<T, nat>, sorted: seq<T>, ready: seq<T>)
    requires Inv(edges, degree, sorted, ready) && ready != []
    ensures var ch := Children(edges, ready[0]);
      forall c :: c in ch ==> c in degree && multiset(ch)[c] <= degree[c]
  {
    var node := ready[0];
    HeadNotEmitted(edges, degree, sorted, ready);
    forall c | c in Children(edges, node)
      ensures c in degree && multiset(Children(edges, node))[c] <= degree[c]
    {
      ChildrenAreEdges(edges, node, c);
      assert (node, c).1 in degree;
      PendingAfterEmit(edges, Elems(sorted), node, c);
    }
  }

  /** The degrees after `node` has been emitted and its children released. */
  ghost predicate Lowered<T(!new)>(edges: seq<(T, T)>, node: T, degree: map<T, nat>, degree': map<T, nat>) {
    && degree'.Keys == degree.Keys
    && forall n :: n in degree ==> degree'[n] + multiset(Children(edges, node))[n] == degree[n]
  }

  /** The nodes whose last pending parent was `node`. */
  ghost function Freed<T(!new)>(edges: seq<(T, T)>, node: T, degree': map<T, nat>): set<T> {
    set n | n in Children(edges, node) && n in degree' && degree'[n] == 0
  }

  /** One turn of the main loop keeps the invariant, in whatever order the released children queue up. */
  lemma Step<T(!new)>(edges: seq<(T, T)>, degree: map<T, nat>, sorted: seq<T>, ready: seq<T>,
                      degree': map<T, nat>, next: seq<T>)
    requires Inv(edges, degree, sorted, ready) && ready != []
    requires Lowered(edges, ready[0], degree, degree')
    requires NoDup(next) && Elems(next) == Freed(edges, ready[0], degree')
    ensures Inv(edges, degree', sorted + [ready[0]], ready[1..] + next)
  {
    var node := ready[0];
    StepCounts(edges, degree, sorted, ready, degree');
    StepMembers(edges, degree, sorted, ready, degree', next);
    StepParentsFirst(edges, degree, sorted, ready);
    assert (sorted + [node]) + (ready[1..] + next) == (sorted + ready) + next;
    NoDupAppend(sorted + ready, next);
  }

  lemma StepCounts<T(!new)>(edges: seq<(T, T)>, degree: map<T, nat>, sorted: seq<T>, ready: seq<T>,
                            degree': map<T, nat>)
    requires Inv(edges, degree, sorted, ready) && ready != []
    requires Lowered(edges, ready[0], degree, degree')
    ensures forall n :: n in degree' ==> degree'[n] == Pending(edges, Elems(sorted + [ready[0]]), n)
  {
    var node := ready[0];
    HeadNotEmitted(edges, degree, sorted, ready);
    assert Elems(sorted + [node]) == Elems(sorted) + {node};
    forall n | n in degree'
      ensures degree'[n] == Pending(edges, Elems(sorted + [node]), n)
    {
      PendingAfterEmit(edges, Elems(sorted), node, n);
    }
  }

  lemma StepMembers<T(!new)>(edges: seq<(T, T)>, degree: map<T, nat>, sorted: seq<T>, ready: seq<T>,
                             degree': map<T, nat>, next: seq<T>)
    requires Inv(edges, degree, sorted, ready) && ready != []
    requires Lowered(edges, ready[0], degree, degree')
    requires Elems(next) == Freed(edges, ready[0], degree')
    ensures forall n :: n in next ==> n !in sorted + ready
    ensures forall n :: n in (sorted + ready) + next <==> n in degree' && degree'[n] == 0
  {
    var ch := Children(edges, ready[0]);
    forall n
      ensures n in next ==> n !in sorted + ready
      ensures n in (sorted + ready) + next <==> n in degree' && degree'[n] == 0
    {
      assert n in next <==> n in Elems(next);
      assert n in ch <==> multiset(ch)[n] > 0;
      assert n in sorted + ready <==> n in degree && degree[n] == 0;
    }
  }

  lemma StepParentsFirst<T(!new)>(edges: seq<(T, T)>, degree: map<T, nat>, sorted: seq<T>, ready: seq<T>)
    requires Inv(edges, degree, sorted, ready) && ready != []
    ensures ParentsFirst(Elems(edges), sorted + [ready[0]])
  {
    var node := ready[0];
    var sorted' := sorted + [node];
    HeadNotEmitted(edges, degree, sorted, ready);
    PendingZero(edges, Elems(sorted), node);
    forall i, p | 0 <= i < |sorted'| && (p, sorted'[i]) in Elems(edges)
      ensures p in sorted'[..i]
    {
      assert (p, sorted'[i]) in edges;
      if i < |sorted| {
        assert sorted'[..i] == sorted[..i];
      } else {
        assert sorted'[..i] == sorted;
      }
    }
  }

  // ---------------------------------------------------------------------------
  // What the finished order contains

  /** Every ancestor of `n`, itself included, is stored and off every cycle. */
  ghost predicate Clean<T(!new)>(nodes: set<T>, edges: set<(T, T)>, n: T) {
    forall a :: Reaches(edges, a, n) ==> a in nodes && !OnCycle(edges, a)
  }

  ghost predicate Before<T>(s: seq<T>, a: T, b: T) {
    forall i, j :: 0 <= i < |s| && 0 <= j < |s| && s[i] == a && s[j] == b ==> i < j
  }

  lemma {:induction false} AncestorsEmitted<T(!new)>(edges: set<(T, T)>, sorted: seq<T>, p: seq<T>)
    requires ParentsFirst(edges, sorted) && NoDup(sorted)
    requires IsPath(edges, p) && p[|p| - 1] in sorted
    ensures p[0] in sorted
    ensures |p| >= 2 ==> Before(sorted, p[0], p[|p| - 1])
  {
    if |p| >= 2 {
      AncestorsEmitted(edges, sorted, p[1..]);
      assert (p[0], p[1]) in edges;
      var k :| 0 <= k < |sorted| && sorted[k] == p[1];
      assert p[0] in sorted[..k];
      var i :| 0 <= i < k && sorted[..k][i] == p[0];
    }
  }

  lemma EmittedIsClean<T(!new)>(nodes: set<T>, edges: set<(T, T)>, sorted: seq<T>, n: T)
    requires ParentsFirst(edges, sorted) && NoDup(sorted) && Elems(sorted) <= nodes
    requires n in sorted
    ensures Clean(nodes, edges, n)
  {
    forall a | Reaches(edges, a, n)
      ensures a in nodes && !OnCycle(edges, a)
    {
      var p :| PathFromTo(edges, p, a, n);
      AncestorsEmitted(edges, sorted, p);
      assert a in Elems(sorted);
      if OnCycle(edges, a) {
        var q :| |q| >= 2 && PathFromTo(edges, q, a, a);
        var i :| 0 <= i < |sorted| && sorted[i] == a;
        AncestorsEmitted(edges, sorted, q);
        assert false;
      }
    }
  }

  /**
    A stored node left behind has a dirty ancestor: walk back over unemitted parents until one is
    missing or repeats.
   */
  lemma LeftBehindIsDirty<T(!new)>(nodes: set<T>, edges: set<(T, T)>, sorted: set<T>, n: T)
    requires n in nodes && n !in sorted
    requires forall v :: v in nodes && v !in sorted ==> exists u :: (u, v) in edges && u !in sorted
    ensures !Clean(nodes, edges, n)
  {
    if Clean(nodes, edges, n) {
      var s := set a | a in nodes && a !in sorted && Reaches(edges, a, n);
      ReachesSelf(edges, n);
      forall v | v in s
        ensures exists u :: u in s && (u, v) in edges
      {
        var u :| (u, v) in edges && u !in sorted;
        ReachesEdge(edges, u, v);
        ReachesTransitive(edges, u, v, n);
      }
      var c := BackwardsClosedHasCycle(edges, s, n);
      assert false;
    }
  }

  /** When nothing is ready any more, exactly the clean nodes have been emitted. */
  lemma DrainedEmitsClean<T(!new)>(edges: seq<(T, T)>, degree: map<T, nat>, sorted: seq<T>)
    requires Inv(edges, degree, sorted, [])
    ensures NoDup(sorted) && ParentsFirst(Elems(edges), sorted)
    ensures forall n :: n in sorted <==> n in degree && Clean(degree.Keys, Elems(edges), n)
  {
    assert sorted + [] == sorted;
    forall n ensures n in sorted <==> n in degree && Clean(degree.Keys, Elems(edges), n) {
      if n in sorted {
        EmittedIsClean(degree.Keys, Elems(edges), sorted, n);
      } else if n in degree {
        forall v | v in degree.Keys && v !in Elems(sorted)
          ensures exists u :: (u, v) in Elems(edges) && u !in Elems(sorted)
        {
          PendingZero(edges, Elems(sorted), v);
          var e :| e in edges && e.1 == v && e.0 !in Elems(sorted);
          assert (e.0, v) in Elems(edges);
        }
        LeftBehindIsDirty(degree.Keys, Elems(edges), Elems(sorted), n);
      }
    }
  }
}
