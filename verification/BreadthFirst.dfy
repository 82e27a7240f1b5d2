/**
  The invariant of the breadth-first walks of the repository.  A node may wait in the queue more
  than once; only the first time it is taken out counts.  Ghost levels record how far from the root
  each waiting or visited node was found.
 */
module BreadthFirst {
  import opened Graphs
  import opened Sequences

  /** The nodes reached from `root`, each once, nearest first. */
  ghost predicate IsWalk<T(!new)>(edges: set<(T, T)>, root: T, result: seq<T>) {
    && NoDup(result)
    && (forall x :: x in result <==> Reaches(edges, root, x))
    && forall i, j, k, l ::
       0 <= i < j < |result| && Distance(edges, root, result[i], k) && Distance(edges, root, result[j], l) ==> k <= l
  }

  /** `v` waits in the queue at most at level `bound`. */
  ghost predicate Waits<T>(queue: seq<T>, qlevel: seq<nat>, v: T, bound: nat)
    requires |queue| == |qlevel|
  {
    exists i :: 0 <= i < |queue| && queue[i] == v && qlevel[i] <= bound
  }

  /** What is waiting: at most two adjacent levels, in order, each justified by a path. */
  ghost predicate QueueInv<T(!new)>(edges: set<(T, T)>, root: T, queue: seq<T>, qlevel: seq<nat>) {
    && |queue| == |qlevel|
    && (forall i :: 0 <= i < |queue| ==> ReachesIn(edges, root, queue[i], qlevel[i]))
    && (forall i, j :: 0 <= i <= j < |qlevel| ==> qlevel[i] <= qlevel[j] <= qlevel[i] + 1)
  }

  /** What has been visited: exact distances, nearest first, none beyond what still waits. */
  ghost predicate VisitedInv<T(!new)>(edges: set<(T, T)>, root: T, result: seq<T>, level: map<T, nat>,
                                      qlevel: seq<nat>)
  {
    && NoDup(result) && Elems(result) == level.Keys
    && (forall x :: x in level ==> Distance(edges, root, x, level[x]))
    && (forall i, j :: 0 <= i < j < |result| ==> level[result[i]] <= level[result[j]])
    && (forall x, i :: x in level && 0 <= i < |qlevel| ==> level[x] <= qlevel[i])
  }

  /** Nothing next to a visited node is forgotten. */
  ghost predicate FrontierInv<T(!new)>(edges: set<(T, T)>, root: T, level: map<T, nat>, queue: seq<T>, qlevel: seq<nat>)
    requires |queue| == |qlevel|
  {
    && (root in level || Waits(queue, qlevel, root, 0))
    && forall u, v :: (u, v) in edges && u in level ==> v in level || Waits(queue, qlevel, v, level[u] + 1)
  }

  ghost predicate Inv<T(!new)>(edges: set<(T, T)>, root: T, result: seq<T>, level: map<T, nat>, queue: seq<T>,
                               qlevel: seq<nat>)
  {
    && QueueInv(edges, root, queue, qlevel)
    && VisitedInv(edges, root, result, level, qlevel)
    && FrontierInv(edges, root, level, queue, qlevel)
  }

  /** The unvisited node at the head of the queue waits at its exact distance. */
  lemma HeadIsNearest<T(!new)>(edges: set<(T, T)>, root: T, result: seq<T>, level: map<T, nat>, queue: seq<T>,
                               qlevel: seq<nat>)
    requires Inv(edges, root, result, level, queue, qlevel)
    requires queue != [] && queue[0] !in level
    ensures Distance(edges, root, queue[0], qlevel[0])
  {
    forall j: nat | ReachesIn(edges, root, queue[0], j)
      ensures qlevel[0] <= j
    {
      var p :| |p| == j + 1 && PathFromTo(edges, p, root, queue[0]);
      var i := 0;
      while p[i] in level
        invariant 0 <= i < |p|
        invariant forall k :: 0 <= k < i ==> p[k] in level
        decreases |p| - i
      {
        i := i + 1;
      }
      if i > 0 {
        assert PathFromTo(edges, p[..i], root, p[i - 1]);
        assert ReachesIn(edges, root, p[i - 1], i - 1);
        assert (p[i - 1], p[i]) in edges;
      }
    }
  }

  /** Skipping a node that was visited before keeps the invariant. */
  lemma Skip<T(!new)>(edges: set<(T, T)>, root: T, result: seq<T>, level: map<T, nat>, queue: seq<T>, qlevel: seq<nat>)
    requires Inv(edges, root, result, level, queue, qlevel)
    requires queue != [] && queue[0] in level
    ensures Inv(edges, root, result, level, queue[1..], qlevel[1..])
  {
    WaitsAfterPop(edges, root, level, queue, qlevel);
  }

  /** Whatever waits behind the head still waits once the head is taken out. */
  lemma WaitsAfterPop<T(!new)>(edges: set<(T, T)>, root: T, level: map<T, nat>, queue: seq<T>, qlevel: seq<nat>)
    requires |queue| == |qlevel| && queue != []
    ensures forall v, b :: Waits(queue, qlevel, v, b) && v != queue[0] ==> Waits(queue[1..], qlevel[1..], v, b)
  {
    forall v, b | Waits(queue, qlevel, v, b) && v != queue[0]
      ensures Waits(queue[1..], qlevel[1..], v, b)
    {
      var i :| 0 <= i < |queue| && queue[i] == v && qlevel[i] <= b;
      assert queue[1..][i - 1] == v && qlevel[1..][i - 1] <= b;
    }
  }

  function Repeated(level: nat, count: nat): (r: seq<nat>)
    ensures |r| == count && forall i :: 0 <= i < count ==> r[i] == level
  {
    seq(count, _ => level)
  }

  /** Visiting the head and queueing its unvisited children keeps the invariant. */
  lemma Visit<T(!new)>(edges: set<(T, T)>, root: T, result: seq<T>, level: map<T, nat>, queue: seq<T>,
                       qlevel: seq<nat>, pushed: seq<T>)
    requires Inv(edges, root, result, level, queue, qlevel)
    requires queue != [] && queue[0] !in level
    requires forall c :: c in pushed <==> (queue[0], c) in edges && c !in level && c != queue[0]
    ensures Inv(edges, root, result + [queue[0]], level[queue[0] := qlevel[0]],
                queue[1..] + pushed, qlevel[1..] + Repeated(qlevel[0] + 1, |pushed|))
  {
    VisitQueue(edges, root, queue, qlevel, pushed);
    VisitVisited(edges, root, result, level, queue, qlevel, |pushed|);
    VisitFrontier(edges, root, result, level, queue, qlevel, pushed);
  }

  lemma VisitQueue<T(!new)>(edges: set<(T, T)>, root: T, queue: seq<T>, qlevel: seq<nat>, pushed: seq<T>)
    requires QueueInv(edges, root, queue, qlevel) && queue != []
    requires forall c :: c in pushed ==> (queue[0], c) in edges
    ensures QueueInv(edges, root, queue[1..] + pushed, qlevel[1..] + Repeated(qlevel[0] + 1, |pushed|))
  {
    var queue', qlevel' := queue[1..] + pushed, qlevel[1..] + Repeated(qlevel[0] + 1, |pushed|);
    forall i | 0 <= i < |queue'| ensures ReachesIn(edges, root, queue'[i], qlevel'[i]) {
      if i >= |queue| - 1 {
        assert queue'[i] == pushed[i - (|queue| - 1)];
        ReachesInExtends(edges, root, queue[0], queue'[i], qlevel[0]);
      } else {
        assert queue'[i] == queue[i + 1] && qlevel'[i] == qlevel[i + 1];
      }
    }
  }

  lemma VisitVisited<T(!new)>(edges: set<(T, T)>, root: T, result: seq<T>, level: map<T, nat>, queue: seq<T>,
                              qlevel: seq<nat>, count: nat)
    requires Inv(edges, root, result, level, queue, qlevel)
    requires queue != [] && queue[0] !in level
    ensures VisitedInv(edges, root, result + [queue[0]], level[queue[0] := qlevel[0]],
                       qlevel[1..] + Repeated(qlevel[0] + 1, count))
  {
    var result', level', qlevel' := result + [queue[0]], level[queue[0] := qlevel[0]],
        qlevel[1..] + Repeated(qlevel[0] + 1, count);
    HeadIsNearest(edges, root, result, level, queue, qlevel);
    assert Elems(result') == Elems(result) + {queue[0]};
    LevelsClimb(result, level, queue[0], qlevel[0]);
    forall i | 0 <= i < |qlevel'| ensures qlevel[0] <= qlevel'[i] {
      assert i < |qlevel| - 1 ==> qlevel'[i] == qlevel[i + 1];
    }
    forall x, i | x in level' && 0 <= i < |qlevel'| ensures level'[x] <= qlevel'[i] {
      assert x in level ==> level[x] <= qlevel[0];
    }
  }

  lemma LevelsClimb<T(!new)>(result: seq<T>, level: map<T, nat>, x: T, l: nat)
    requires Elems(result) == level.Keys && x !in level && forall y :: y in level ==> level[y] <= l
    requires forall i, j :: 0 <= i < j < |result| ==> level[result[i]] <= level[result[j]]
    ensures var result', level' := result + [x], level[x := l];
      && Elems(result') == level'.Keys
      && forall i, j :: 0 <= i < j < |result'| ==> level'[result'[i]] <= level'[result'[j]]
  {
    assert forall i :: 0 <= i < |result| ==> result[i] in Elems(result);
    assert Elems(result + [x]) == Elems(result) + {x};
    assert forall i :: 0 <= i < |result| ==> (result + [x])[i] in Elems(result + [x]);
  }

  lemma VisitFrontier<T(!new)>(edges: set<(T, T)>, root: T, result: seq<T>, level: map<T, nat>, queue: seq<T>,
                               qlevel: seq<nat>, pushed: seq<T>)
    requires Inv(edges, root, result, level, queue, qlevel)
    requires queue != [] && queue[0] !in level
    requires forall c :: c in pushed <==> (queue[0], c) in edges && c !in level && c != queue[0]
    ensures FrontierInv(edges, root, level[queue[0] := qlevel[0]], queue[1..] + pushed,
                        qlevel[1..] + Repeated(qlevel[0] + 1, |pushed|))
  {
    var level', queue' := level[queue[0] := qlevel[0]], queue[1..] + pushed;
    var qlevel' := qlevel[1..] + Repeated(qlevel[0] + 1, |pushed|);
    WaitsAfterPop(edges, root, level, queue, qlevel);
    forall v, b | Waits(queue[1..], qlevel[1..], v, b)
      ensures Waits(queue', qlevel', v, b)
    {
      var i :| 0 <= i < |queue| - 1 && queue[1..][i] == v && qlevel[1..][i] <= b;
      assert queue'[i] == v && qlevel'[i] <= b;
    }
    forall u, v | (u, v) in edges && u in level' && v !in level'
      ensures Waits(queue', qlevel', v, level'[u] + 1)
    {
      if u == queue[0] {
        var i :| 0 <= i < |pushed| && pushed[i] == v;
        assert queue'[|queue| - 1 + i] == v && qlevel'[|queue| - 1 + i] == qlevel[0] + 1;
      }
    }
  }

  /** The children that have not been visited, in order: what a walk queues. */
  method Unvisited<T(==)>(children: seq<T>, visited: set<T>) returns (pushed: seq<T>)
    ensures forall c :: c in pushed <==> c in children && c !in visited
  {
    pushed := [];
    for i := 0 to |children|
      invariant forall c :: c in pushed <==> c in children[..i] && c !in visited
    {
      if children[i] !in visited {
        pushed := pushed + [children[i]];
      }
    }
    assert children[..|children|] == children;
  }

  /** All nodes a walk from `root` can meet. */
  function Universe<T(==)>(edges: set<(T, T)>, root: T): set<T> {
    {root} + set e | e in edges :: e.1
  }

  lemma StaysInUniverse<T(!new)>(edges: set<(T, T)>, root: T, queue: seq<T>, current: T, pushed: seq<T>)
    requires queue != [] && Elems(queue) <= Universe(edges, root)
    requires forall c :: c in pushed ==> (current, c) in edges
    ensures Elems(queue[1..] + pushed) <= Universe(edges, root)
  {
    forall v | v in queue[1..] + pushed ensures v in Universe(edges, root) {
      if v in pushed {
        assert (current, v).1 == v;
      } else {
        assert v in Elems(queue);
      }
    }
  }

  /** An empty queue means the walk is complete. */
  lemma Finished<T(!new)>(edges: set<(T, T)>, root: T, result: seq<T>, level: map<T, nat>)
    requires Inv(edges, root, result, level, [], [])
    ensures IsWalk(edges, root, result)
  {
    forall x ensures x in result <==> Reaches(edges, root, x) {
      assert x in result <==> x in Elems(result);
      if x in level {
        assert ReachesIn(edges, root, x, level[x]);
        var p :| |p| == level[x] + 1 && PathFromTo(edges, p, root, x);
      } else if Reaches(edges, root, x) {
        ClosedSetHoldsReached(edges, level.Keys, root, x);
      }
    }
    forall i, j, k, l | 0 <= i < j < |result| && Distance(edges, root, result[i], k) &&
        Distance(edges, root, result[j], l)
      ensures k <= l
    {
      assert result[i] in Elems(result) && result[j] in Elems(result);
    }
  }
}
