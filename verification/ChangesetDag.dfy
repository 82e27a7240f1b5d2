/**
  The changeset DAG: a table of nodes and a table of parent-to-child edges.  An edge may name a
  parent that has not arrived; it always names a stored child.  Row order is whatever the store
  returns, so every result below holds for all row orders.
 */
module ChangesetDags {
  import opened BreadthFirst
  import opened Deltas
  import opened Graphs
  import opened Sequences
  import Kahn

  datatype DagNode = DagNode(lamport: nat, author: Did)

  /** The two tables as one value. */
  datatype Dag = Dag(nodes: map<DeltaId, DagNode>, edges: set<(DeltaId, DeltaId)>) {
    ghost predicate Valid() {
      forall e :: e in edges ==> e.1 in nodes
    }

    /** Every recorded parent has arrived. */
    ghost predicate CausallyClosed() {
      forall e :: e in edges ==> e.0 in nodes
    }

    ghost predicate Acyclic() {
      forall a :: !OnCycle(edges, a)
    }

    /** A node without children that the causal order contains. */
    ghost predicate IsTip(n: DeltaId) {
      n in nodes && Kahn.Clean(nodes.Keys, edges, n) && forall e :: e in edges ==> e.0 != n
    }

    function Insert(id: DeltaId, node: DagNode, parents: seq<DeltaId>): Dag {
      Dag(if id in nodes then nodes else nodes[id := node], edges + set p | p in parents :: (p, id))
    }
  }

  /** A causal order: each clean node once, parents first, nothing else. */
  ghost predicate IsCausalOrder(dag: Dag, sorted: seq<DeltaId>) {
    && NoDup(sorted)
    && Kahn.ParentsFirst(dag.edges, sorted)
    && forall n :: n in sorted <==> n in dag.nodes && Kahn.Clean(dag.nodes.Keys, dag.edges, n)
  }

  class ChangesetDag {
    var nodes: map<DeltaId, DagNode>
    var edges: set<(DeltaId, DeltaId)>

    function View(): Dag
      reads this
    {
      Dag(nodes, edges)
    }

    ghost predicate Valid()
      reads this
    {
      View().Valid()
    }

    constructor ()
      ensures Valid() && View() == Dag(map[], {})
    {
      nodes, edges := map[], {};
    }

    /** Inserts a node and its edges in one transaction; a node already stored is left alone. */
    method Insert(id: DeltaId, node: DagNode, parents: seq<DeltaId>, storeWorks: bool) returns (ok: bool)
      requires Valid()
      modifies this
      ensures Valid() && ok == storeWorks
      ensures View() == if ok then old(View()).Insert(id, node, parents) else old(View())
    {
      var savedNodes, savedEdges := nodes, edges;
      if id !in nodes {
        nodes := nodes[id := node];
      }
      for i := 0 to |parents|
        invariant nodes == old(View()).Insert(id, node, parents).nodes
        invariant edges == old(edges) + set p | p in parents[..i] :: (p, id)
      {
        assert parents[..i + 1] == parents[..i] + [parents[i]];
        edges := edges + {(parents[i], id)};
      }
      assert parents[..|parents|] == parents;
      if !storeWorks {
        nodes, edges := savedNodes, savedEdges;
      }
      return storeWorks;
    }

    /** The children of a node, each once, in row order. */
    method Children(parent: DeltaId) returns (children: seq<DeltaId>)
      ensures NoDup(children)
      ensures forall c :: c in children <==> (parent, c) in edges
    {
      children := Listing(set e | e in edges && e.0 == parent :: e.1);
      forall c ensures c in children <==> (parent, c) in edges {
        assert c in children <==> c in Elems(children);
        if (parent, c) in edges {
          assert (parent, c).1 == c;
        }
      }
    }

    /** Forward reachability from a root, the root included. */
    method BfsDescendants(root: DeltaId) returns (result: seq<DeltaId>)
      ensures IsWalk(edges, root, result)
    {
      ghost var es := edges;
      var visited, queue := {}, [root];
      result := [];
      ghost var level: map<DeltaId, nat>, qlevel: seq<nat> := map[], [0];
      ghost var universe := Universe(es, root);
      ReachesSelf(es, root);
      assert queue[0] == root && qlevel[0] == 0;
      while queue != []
        invariant visited == level.Keys
        invariant Inv(es, root, result, level, queue, qlevel)
        invariant Elems(queue) <= universe
        decreases universe - visited, |queue|
      {
        var current := queue[0];
        assert current in Elems(queue);
        ghost var was, wasLevel, wasQueue, wasQLevel := result, level, queue, qlevel;
        queue, qlevel := queue[1..], qlevel[1..];
        if current in visited {
          Skip(es, root, was, wasLevel, wasQueue, wasQLevel);
          continue;
        }
        visited := visited + {current};
        result := result + [current];
        var children := Children(current);
        var pushed := Unvisited(children, visited);
        queue := queue + pushed;
        Visit(es, root, was, wasLevel, wasQueue, wasQLevel, pushed);
        qlevel := qlevel + Repeated(wasQLevel[0] + 1, |pushed|);
        level := level[current := wasQLevel[0]];
        StaysInUniverse(es, root, wasQueue, current, pushed);
      }
      Finished(es, root, result, level);
    }

    /** Kahn's algorithm over the two tables. */
    method TopologicalSort() returns (sorted: seq<DeltaId>)
      requires Valid()
      ensures IsCausalOrder(View(), sorted)
    {
      var allIds := Listing(nodes.Keys);
      var allEdges := Listing(edges);
      var inDegree, childrenMap := CountEdges(allIds, allEdges);
      assert Elems(allEdges) == edges;
      assert inDegree.Keys == nodes.Keys;
      var ready := Listing(set n | n in inDegree && inDegree[n] == 0);
      forall n ensures n in ready <==> n in inDegree && inDegree[n] == 0 {
        assert n in ready <==> n in Elems(ready);
      }
      Kahn.InvInit(allEdges, inDegree, ready);
      sorted := Drain(allEdges, inDegree, childrenMap, ready);
    }

    /**
      The tips: nodes of the causal order that have no children.  A new delta takes these as its
      parents.
     */
    method Tips() returns (tips: seq<DeltaId>)
      requires Valid()
      ensures NoDup(tips) && forall n :: n in tips <==> View().IsTip(n)
    {
      var all := TopologicalSort();
      var asParent: set<DeltaId> := {};
      for i := 0 to |all|
        invariant asParent == set n | n in all[..i] && exists c :: (n, c) in edges
      {
        var children := Children(all[i]);
        assert children != [] ==> children[0] in children;
        if children != [] {
          asParent := asParent + {all[i]};
        }
        assert all[..i + 1] == all[..i] + [all[i]];
      }
      tips := Filter(all, Elems(all) - asParent);
      FilterNoDup(all, Elems(all) - asParent);
      forall n ensures n in tips <==> View().IsTip(n) {
        assert n in tips <==> n in all && n !in asParent;
        assert (forall e :: e in edges ==> e.0 != n) <==> !exists c :: (n, c) in edges by {
          assert forall e :: e in edges ==> (e.0, e.1) in edges;
        }
      }
    }
  }

  /** `inDegree` counts the incoming edges of every node it lists and misses no child. */
  ghost predicate Counted(rows: seq<(DeltaId, DeltaId)>, inDegree: map<DeltaId, nat>) {
    && (forall n :: n in inDegree ==> inDegree[n] == Kahn.Pending(rows, {}, n))
    && (forall e :: e in rows ==> e.1 in inDegree)
  }

  /** `childrenMap` holds the adjacency list of every parent. */
  ghost predicate Listed(rows: seq<(DeltaId, DeltaId)>, childrenMap: map<DeltaId, seq<DeltaId>>) {
    && (forall p :: p in childrenMap ==> childrenMap[p] == Kahn.Children(rows, p))
    && (forall e :: e in rows ==> e.0 in childrenMap)
  }

  /** The in-degree map with one more edge into `n`. */
  function Bumped(inDegree: map<DeltaId, nat>, n: DeltaId): map<DeltaId, nat> {
    inDegree[n := (if n in inDegree then inDegree[n] else 0) + 1]
  }

  /** The adjacency map with one more child of `p`. */
  function Pushed(childrenMap: map<DeltaId, seq<DeltaId>>, p: DeltaId, child: DeltaId): map<DeltaId, seq<DeltaId>> {
    childrenMap[p := (if p in childrenMap then childrenMap[p] else []) + [child]]
  }

  /** One more row: the child's count goes up by one, the parent's list grows by the child. */
  lemma CountRow(rows: seq<(DeltaId, DeltaId)>, row: (DeltaId, DeltaId),
                 inDegree: map<DeltaId, nat>, childrenMap: map<DeltaId, seq<DeltaId>>)
    requires Counted(rows, inDegree) && Listed(rows, childrenMap)
    ensures Counted(rows + [row], Bumped(inDegree, row.1))
    ensures Listed(rows + [row], Pushed(childrenMap, row.0, row.1))
  {
    var more := rows + [row];
    assert more[..|more| - 1] == rows && more[|more| - 1] == row;
    if row.1 !in inDegree {
      Kahn.PendingZero(rows, {}, row.1);
    }
    if row.0 !in childrenMap && Kahn.Children(rows, row.0) != [] {
      Kahn.ChildrenAreEdges(rows, row.0, Kahn.Children(rows, row.0)[0]);
      assert false;
    }
  }

  /** The nodes some row leads to. */
  function Targets(rows: seq<(DeltaId, DeltaId)>): set<DeltaId> {
    set e | e in rows :: e.1
  }

  lemma TargetsPush(rows: seq<(DeltaId, DeltaId)>, row: (DeltaId, DeltaId))
    ensures Targets(rows + [row]) == Targets(rows) + {row.1}
  {
    assert row in rows + [row];
    assert forall e :: e in rows ==> e in rows + [row];
  }

  /** The maps before any row: every node with no parent and no child. */
  method NoEdges(ids: seq<DeltaId>) returns (inDegree: map<DeltaId, nat>, childrenMap: map<DeltaId, seq<DeltaId>>)
    ensures inDegree.Keys == childrenMap.Keys == Elems(ids)
    ensures Counted([], inDegree) && Listed([], childrenMap)
  {
    inDegree, childrenMap := map[], map[];
    for i := 0 to |ids|
      invariant inDegree.Keys == childrenMap.Keys == Elems(ids[..i])
      invariant Counted([], inDegree) && Listed([], childrenMap)
    {
      inDegree, childrenMap := inDegree[ids[i] := 0], childrenMap[ids[i] := []];
    }
    assert ids[..|ids|] == ids;
  }

  /** Builds the in-degree and adjacency maps from the edge rows. */
  method CountEdges(ids: seq<DeltaId>, rows: seq<(DeltaId, DeltaId)>)
    returns (inDegree: map<DeltaId, nat>, childrenMap: map<DeltaId, seq<DeltaId>>)
    ensures inDegree.Keys == Elems(ids) + Targets(rows)
    ensures Elems(ids) <= childrenMap.Keys
    ensures Counted(rows, inDegree) && Listed(rows, childrenMap)
  {
    inDegree, childrenMap := NoEdges(ids);
    assert Targets([]) == {};
    for i := 0 to |rows|
      invariant inDegree.Keys == Elems(ids) + Targets(rows[..i])
      invariant Elems(ids) <= childrenMap.Keys
      invariant Counted(rows[..i], inDegree) && Listed(rows[..i], childrenMap)
    {
      var (parent, child) := rows[i];
      CountRow(rows[..i], rows[i], inDegree, childrenMap);
      TargetsPush(rows[..i], rows[i]);
      assert rows[..i + 1] == rows[..i] + [rows[i]];
      inDegree, childrenMap := Bumped(inDegree, child), Pushed(childrenMap, parent, child);
    }
    assert rows[..|rows|] == rows;
  }

  /** The main loop of Kahn's algorithm: emit a ready node, release its children, until none is ready. */
  method Drain(ghost rows: seq<(DeltaId, DeltaId)>, counts: map<DeltaId, nat>,
               childrenMap: map<DeltaId, seq<DeltaId>>, roots: seq<DeltaId>) returns (sorted: seq<DeltaId>)
    requires Kahn.Inv(rows, counts, [], roots)
    requires Listed(rows, childrenMap) && counts.Keys <= childrenMap.Keys
    ensures NoDup(sorted) && Kahn.ParentsFirst(Elems(rows), sorted)
    ensures forall n :: n in sorted <==> n in counts && Kahn.Clean(counts.Keys, Elems(rows), n)
  {
    var inDegree, ready := counts, roots;
    sorted := [];
    while ready != []
      invariant inDegree.Keys == counts.Keys
      invariant Kahn.Inv(rows, inDegree, sorted, ready)
      invariant |sorted| <= |inDegree|
      decreases |counts| - |sorted|
    {
      var node := ready[0];
      Kahn.HeadNotEmitted(rows, inDegree, sorted, ready);
      Kahn.ReleaseEnabled(rows, inDegree, sorted, ready);
      var degrees, released := Kahn.Release(childrenMap[node], inDegree);
      Kahn.Step(rows, inDegree, sorted, ready, degrees, released);
      sorted, ready, inDegree := sorted + [node], ready[1..] + released, degrees;
      EmittedBound(rows, inDegree, sorted, ready);
    }
    Kahn.DrainedEmitsClean(rows, inDegree, sorted);
  }

  lemma EmittedBound(edges: seq<(DeltaId, DeltaId)>, degree: map<DeltaId, nat>, sorted: seq<DeltaId>,
                     ready: seq<DeltaId>)
    requires Kahn.Inv(edges, degree, sorted, ready)
    ensures |sorted| <= |degree|
  {
    assert forall i :: 0 <= i < |sorted| ==> (sorted + ready)[i] == sorted[i];
    assert forall n :: n in sorted ==> n in sorted + ready;
    NoDupBound(sorted, degree.Keys);
  }
}
