/** The causal contamination engine: tagging a root, verifying it, closing an incident. */
module Contamination {
  import opened BreadthFirst
  import opened ChangesetDags
  import opened Deltas
  import opened Graphs
  import IncidentGate
  import opened Incidents
  import opened Sequences

  /** A walk lists exactly the descendants. */
  lemma WalkIsDescendants(edges: set<(DeltaId, DeltaId)>, root: DeltaId, walk: seq<DeltaId>)
    requires IsWalk(edges, root, walk)
    ensures Elems(walk) == Descendants(edges, root)
  {
    forall x ensures x in Elems(walk) <==> x in Descendants(edges, root) {
      if Reaches(edges, root, x) && x != root {
        var u := ReachesLastEdge(edges, root, x);
        assert (u, x).1 == x;
      }
    }
  }

  /** Only stored nodes have edges into them, so everything below a stored root is stored. */
  lemma DescendantsStored(dag: Dag, root: DeltaId)
    requires dag.Valid()
    ensures root in dag.nodes ==> Descendants(dag.edges, root) <= dag.nodes.Keys
  {
  }

  class CausalContaminationEngine {
    const dag: ChangesetDag
    var tags: TagLogs
    var incidents: map<IncidentId, Incident>
    var composites: map<IncidentId, Composite>
    var index: map<RowKey, IncidentId>
    var rows: seq<RowKey>
    var flags: map<RowKey, bool>
    var nextId: nat

    function View(): Cce
      reads this, dag
    {
      Cce(dag.edges, tags, incidents, composites, index, rows, flags, nextId)
    }

    /** The tag logs are those of the stored deltas. */
    ghost predicate Valid()
      reads this, dag
    {
      dag.Valid() && tags.Keys == dag.nodes.Keys
    }

    constructor (dag: ChangesetDag, tags: TagLogs, rows: seq<RowKey>, flags: map<RowKey, bool>)
      requires dag.Valid() && tags.Keys == dag.nodes.Keys
      ensures Valid()
      ensures this.dag == dag && View() == Cce(dag.edges, tags, map[], map[], map[], rows, flags, 0)
    {
      this.dag, this.tags, this.rows, this.flags := dag, tags, rows, flags;
      incidents, composites, index, nextId := map[], map[], map[], 0;
    }

    /** Stores a delta under its parents, with an empty tag log; one already stored keeps its log. */
    method StoreDelta(id: DeltaId, node: DagNode, parents: seq<DeltaId>, storeWorks: bool) returns (ok: bool)
      requires Valid()
      modifies this`tags, dag
      ensures Valid() && ok == storeWorks
      ensures IncidentGate.Grows(old(View()), View())
      ensures dag.View() == if ok then old(dag.View()).Insert(id, node, parents) else old(dag.View())
    {
      ok := dag.Insert(id, node, parents, storeWorks);
      if ok && id !in tags {
        tags := tags[id := []];
      }
    }

    function NextId(): IncidentId
      reads this
    {
      IncidentId(nextId)
    }

    /** The only write path for tags: one entry at the end of the log of one stored delta. */
    method AppendTag(d: DeltaId, tag: Tag)
      modifies this`tags
      ensures tags == Append(old(tags), {d}, tag)
    {
      if d in tags {
        tags := tags[d := tags[d] + [tag]];
      }
    }

    method AppendToAll(ds: seq<DeltaId>, tag: Tag)
      requires NoDup(ds)
      modifies this`tags
      ensures tags.Keys == old(tags.Keys)
      ensures tags == Append(old(tags), Elems(ds), tag)
    {
      for i := 0 to |ds|
        invariant tags == Append(old(tags), Elems(ds[..i]), tag)
      {
        AppendTag(ds[i], tag);
      }
      assert ds[..|ds|] == ds;
    }

    method MarkRows(affected: seq<AffectedRow>, value: bool)
      modifies this`flags
      ensures flags == SetFlags(old(flags), RowKeys(affected), value)
    {
      for i := 0 to |affected|
        invariant flags == SetFlags(old(flags), RowKeys(affected[..i]), value)
      {
        RowKeysPush(affected, i);
        if affected[i].row in flags {
          flags := flags[affected[i].row := value];
        }
      }
      assert affected[..|affected|] == affected;
    }

    method IndexRows(affected: seq<AffectedRow>, id: IncidentId)
      modifies this`index
      ensures index == PointTo(old(index), affected, id)
    {
      for i := 0 to |affected|
        invariant index == PointTo(old(index), affected[..i], id)
      {
        RowKeysPush(affected, i);
        index := index[affected[i].row := id];
      }
      assert affected[..|affected|] == affected;
    }

    method OpenIncident(ico: Incident)
      modifies this
      ensures View() == Opened(old(View()), ico)
    {
      var id := NextId();
      incidents := incidents[id := ico];
      IndexRows(ico.rows, id);
      nextId := nextId + 1;
    }

    method JoinIncident(other: IncidentId, ico: Incident)
      requires other in incidents
      modifies this
      ensures View() == Joined(old(View()), other, ico)
    {
      var id, compositeId := NextId(), IncidentId(nextId + 1);
      var existing := incidents[other];
      var merged := CompositeMerge(other, existing, id, ico);
      incidents := incidents[other := existing.(state := SupersededBy(compositeId))];
      incidents := incidents[id := ico.(state := SupersededBy(compositeId))];
      composites := composites[compositeId := merged];
      IndexRows(merged.rows, compositeId);
      nextId := nextId + 2;
    }

    /** Tags every descendant of the root and flags every row. */
    method Taint(root: DeltaId) returns (ico: Incident)
      modifies this`tags, this`flags
      ensures View() == Tainted(old(View()), root) && ico == NewIncident(old(View()), root)
    {
      var walk := dag.BfsDescendants(root);
      WalkIsDescendants(dag.edges, root, walk);
      AppendToAll(walk, Contaminated(root, NextId()));
      var affected := AffectedRows(rows, root);
      MarkRows(affected, true);
      ico := Incident(Open, [root], Elems(walk), affected, []);
    }

    /** Tags a root and everything below it, and opens an incident or merges it with one it overlaps. */
    method TagContaminationRoot(root: DeltaId) returns (id: IncidentId, overlap: Option<IncidentId>)
      requires Valid()
      modifies this
      ensures Valid()
      ensures overlap.Some? ==> overlap.value in Overlapping(old(incidents), Descendants(dag.edges, root))
      ensures overlap.None? ==> Overlapping(old(incidents), Descendants(dag.edges, root)) == {}
      ensures View() == Tagged(old(View()), root, overlap)
      ensures root in dag.nodes ==> forall d :: d in Descendants(dag.edges, root) ==>
        d in tags && tags[d] == old(tags)[d] + [Contaminated(root, IncidentId(old(nextId)))]
      ensures id == IncidentId(if overlap.Some? then old(nextId) + 1 else old(nextId))
    {
      DescendantsStored(dag.View(), root);
      var ico := Taint(root);
      var candidates := Overlapping(incidents, ico.deltas);
      if candidates == {} {
        id, overlap := NextId(), None;
        OpenIncident(ico);
      } else {
        var other :| other in candidates;
        id, overlap := IncidentId(nextId + 1), Some(other);
        JoinIncident(other, ico);
      }
    }

    // -------------------------------------------------------------------------
    // Verification

    /** Audits the incidents of the root and decontaminates those whose roots are all resolved. */
    method Settle(manager: Did, root: DeltaId, ids: seq<IncidentId>)
      modifies this`tags, this`flags, this`incidents
      ensures tags.Keys == old(tags.Keys)
      ensures View() == SettledAll(old(View()), manager, root, ids)
    {
      for i := 0 to |ids|
        invariant tags.Keys == old(tags.Keys)
        invariant View() == SettledAll(old(View()), manager, root, ids[..i])
      {
        assert ids[..i + 1][..i] == ids[..i];
        SettleOne(manager, root, ids[i]);
      }
      assert ids[..|ids|] == ids;
    }

    method SettleOne(manager: Did, root: DeltaId, id: IncidentId)
      modifies this`tags, this`flags, this`incidents
      ensures tags.Keys == old(tags.Keys)
      ensures View() == Settled(old(View()), manager, root, id)
    {
      if id !in incidents {
        return;
      }
      var ico := incidents[id];
      incidents := incidents[id := ico.(audit := ico.audit + [VerifyData(manager, root)])];
      if AllResolved(tags, ico.roots) {
        var all := Listing(ico.deltas);
        AppendToAll(all, Decontaminated(id));
        MarkRows(ico.rows, false);
      }
    }

    /** Tags the descendants that joined the live DAG after the snapshot. */
    method WalkLateArrivals(root: DeltaId, snapshot: set<DeltaId>, resolved: bool, id: IncidentId)
      returns (late: set<DeltaId>)
      modifies this`tags
      ensures late == Descendants(dag.edges, root) - snapshot
      ensures tags == Append(old(tags), late, if resolved then Decontaminated(id) else Contaminated(root, id))
    {
      var live := BfsDescendantsRaw(dag.edges, root);
      late := Elems(live) - snapshot;
      var arrivals := Filter(live, late);
      FilterNoDup(live, late);
      assert Elems(arrivals) == late;
      AppendToAll(arrivals, if resolved then Decontaminated(id) else Contaminated(root, id));
    }

    /** The late walk over all roots of one incident; resolved ones decontaminate, unresolved ones contaminate. */
    method WalkRoots(snapshot: set<DeltaId>, roots: seq<DeltaId>, resolved: bool, id: IncidentId)
      returns (deltas: set<DeltaId>)
      modifies this`tags
      ensures tags.Keys == old(tags.Keys)
      ensures Late(tags, deltas) == LateWalks(dag.edges, Late(old(tags), snapshot), roots, resolved, id)
    {
      deltas := snapshot;
      for i := 0 to |roots|
        invariant tags.Keys == old(tags.Keys)
        invariant Late(tags, deltas) == LateWalks(dag.edges, Late(old(tags), snapshot), roots[..i], resolved, id)
      {
        assert roots[..i + 1][..i] == roots[..i];
        if HasResolved(tags, roots[i]) == resolved {
          var late := WalkLateArrivals(roots[i], deltas, resolved, id);
          deltas := deltas + late;
        }
      }
      assert roots[..|roots|] == roots;
    }

    method WalkIncidents(ids: seq<IncidentId>)
      modifies this`tags, this`incidents
      ensures tags.Keys == old(tags.Keys)
      ensures View() == LateIncidents(old(View()), ids)
    {
      for i := 0 to |ids|
        invariant tags.Keys == old(tags.Keys)
        invariant View() == LateIncidents(old(View()), ids[..i])
      {
        assert ids[..i + 1][..i] == ids[..i];
        if ids[i] in incidents {
          var ico := incidents[ids[i]];
          var deltas := WalkRoots(ico.deltas, ico.roots, AllResolved(tags, ico.roots), ids[i]);
          incidents := incidents[ids[i] := ico.(deltas := deltas)];
        }
      }
      assert ids[..|ids|] == ids;
    }

    method WalkComposites(ids: seq<IncidentId>)
      modifies this`tags, this`composites
      ensures tags.Keys == old(tags.Keys)
      ensures View() == LateComposites(old(View()), ids)
    {
      for i := 0 to |ids|
        invariant tags.Keys == old(tags.Keys)
        invariant View() == LateComposites(old(View()), ids[..i])
      {
        assert ids[..i + 1][..i] == ids[..i];
        if ids[i] in composites {
          var c := composites[ids[i]];
          var deltas := WalkRoots(c.deltas, c.roots, AllResolved(tags, c.roots), ids[i]);
          composites := composites[ids[i] := c.(deltas := deltas)];
        }
      }
      assert ids[..|ids|] == ids;
    }

    /** Registers one surviving root as an incident of its own. */
    method Reregister(root: DeltaId)
      modifies this`incidents, this`flags, this`nextId
      ensures View() == Reregistered(old(View()), root)
    {
      var walk := BfsDescendantsRaw(dag.edges, root);
      var affected := AffectedRows(rows, root);
      MarkRows(affected, true);
      incidents := incidents[NextId() := Incident(Open, [root], Elems(walk), affected, [])];
      nextId := nextId + 1;
    }

    /** Decomposes every composite of the root. */
    method DecomposeComposites(ids: seq<IncidentId>)
      modifies this`incidents, this`composites, this`flags, this`nextId
      ensures View() == DecomposeAll(old(View()), ids)
    {
      for i := 0 to |ids|
        invariant View() == DecomposeAll(old(View()), ids[..i])
      {
        assert ids[..i + 1][..i] == ids[..i];
        DecomposeOne(ids[i]);
      }
      assert ids[..|ids|] == ids;
    }

    method DecomposeOne(id: IncidentId)
      modifies this`incidents, this`composites, this`flags, this`nextId
      ensures View() == Decompose(old(View()), id)
    {
      if id !in composites {
        return;
      }
      var c := composites[id];
      var survivors := Unresolved(tags, c.roots);
      composites := composites[id := c.(state := Decomposed)];
      ghost var start := View();
      for i := 0 to |survivors|
        invariant View() == ReregisteredAll(start, survivors[..i])
      {
        assert survivors[..i + 1][..i] == survivors[..i];
        Reregister(survivors[i]);
      }
      assert survivors[..|survivors|] == survivors;
    }

    /** Points the rows of the new incidents at them, then drops every entry whose incident no longer taints. */
    method RefreshIndex(from: nat)
      modifies this`index
      ensures var s := old(View()); View() == s.(index := Incidents.Pruned(s, IndexNew(s, from, s.nextId)))
    {
      ghost var s := View();
      var i := from;
      while i < nextId
        invariant if from <= nextId then from <= i <= nextId else i == from
        invariant index == IndexNew(s, from, i)
      {
        if IncidentId(i) in incidents {
          IndexRows(incidents[IncidentId(i)].rows, IncidentId(i));
        }
        i := i + 1;
      }
      ghost var pointed := index;
      assert pointed == IndexNew(s, from, nextId);
      index := map k | k in index && Active(View(), index[k]) :: index[k];
      assert index == Incidents.Pruned(s, pointed);
    }

    /** Verifies a root on a manager's authority; a failed authorisation changes nothing. */
    method VerifyRoot(root: DeltaId, manager: Did, authorised: bool) returns (ok: bool, ghost order: Order)
      requires Valid()
      modifies this
      ensures Valid()
      ensures ok == authorised
      ensures ok ==> OrderFits(old(View()), root, order) && View() == Verified(old(View()), manager, root, order)
      ensures !ok ==> View() == old(View())
    {
      order := Order([], [], []);
      if !authorised {
        return false, order;
      }
      var from := nextId;
      var icoIds := Listing(set i | i in incidents && root in incidents[i].roots);
      var openIds := Listing(set c | c in composites && composites[c].state == Open && root in composites[c].roots);
      var allIds := Listing(set c | c in composites && root in composites[c].roots);
      order := Order(icoIds, openIds, allIds);
      AppendTag(root, Resolved(manager));
      Settle(manager, root, icoIds);
      WalkIncidents(icoIds);
      WalkComposites(openIds);
      DecomposeComposites(allIds);
      RefreshIndex(from);
      return true, order;
    }

    /** Closes an open incident; tags and rows are left alone. */
    method CloseIncident(id: IncidentId, manager: Did, authorised: bool) returns (ok: bool)
      requires Valid()
      modifies this`incidents
      ensures Valid()
      ensures ok <==> authorised && id in old(incidents) && old(incidents)[id].state == Open
      ensures View() == if ok then ClosedIncident(old(View()), id, manager) else old(View())
    {
      if !authorised || id !in incidents || incidents[id].state != Open {
        return false;
      }
      var ico := incidents[id];
      incidents := incidents[id := ico.(state := Closed, audit := ico.audit + [AdminClose(manager)])];
      return true;
    }
  }

  lemma RowKeysPush(affected: seq<AffectedRow>, i: nat)
    requires i < |affected|
    ensures RowKeys(affected[..i + 1]) == RowKeys(affected[..i]) + {affected[i].row}
  {
    assert affected[..i + 1] == affected[..i] + [affected[i]];
    RowKeysAppend(affected[..i], affected[i]);
  }

  /** Merges two incidents: union of roots, deltas and rows. */
  method CompositeMerge(a: IncidentId, ia: Incident, b: IncidentId, ib: Incident) returns (c: Composite)
    ensures c == Merged(a, ia, b, ib)
  {
    var roots := ia.roots;
    for i := 0 to |ib.roots|
      invariant roots == UnionRoots(ia.roots, ib.roots[..i])
    {
      assert ib.roots[..i + 1][..i] == ib.roots[..i];
      if ib.roots[i] !in roots {
        roots := roots + [ib.roots[i]];
      }
    }
    assert ib.roots[..|ib.roots|] == ib.roots;
    var rows := ia.rows;
    for i := 0 to |ib.rows|
      invariant rows == UnionRows(ia.rows, ib.rows[..i])
    {
      assert ib.rows[..i + 1][..i] == ib.rows[..i];
      if !HasKey(rows, ib.rows[i].row.key) {
        rows := rows + [ib.rows[i]];
      }
    }
    assert ib.rows[..|ib.rows|] == ib.rows;
    c := Composite(Open, [a, b], roots, ia.deltas + ib.deltas, rows);
  }

  /** The breadth-first walk on the raw edge table, used while the connection is locked. */
  method BfsDescendantsRaw(edges: set<(DeltaId, DeltaId)>, root: DeltaId) returns (result: seq<DeltaId>)
    ensures IsWalk(edges, root, result) && Elems(result) == Descendants(edges, root)
  {
    var visited, queue := {}, [root];
    result := [];
    ghost var level: map<DeltaId, nat>, qlevel: seq<nat> := map[], [0];
    ghost var universe := Universe(edges, root);
    ReachesSelf(edges, root);
    assert queue[0] == root && qlevel[0] == 0;
    while queue != []
      invariant visited == level.Keys
      invariant Inv(edges, root, result, level, queue, qlevel)
      invariant Elems(queue) <= universe
      decreases universe - visited, |queue|
    {
      var current := queue[0];
      assert current in Elems(queue);
      ghost var was, wasLevel, wasQueue, wasQLevel := result, level, queue, qlevel;
      queue, qlevel := queue[1..], qlevel[1..];
      if current in visited {
        Skip(edges, root, was, wasLevel, wasQueue, wasQLevel);
        continue;
      }
      visited := visited + {current};
      result := result + [current];
      var children := RawChildren(edges, current);
      var pushed := Unvisited(children, visited);
      queue := queue + pushed;
      Visit(edges, root, was, wasLevel, wasQueue, wasQLevel, pushed);
      qlevel := qlevel + Repeated(wasQLevel[0] + 1, |pushed|);
      level := level[current := wasQLevel[0]];
      StaysInUniverse(edges, root, wasQueue, current, pushed);
    }
    Finished(edges, root, result, level);
    WalkIsDescendants(edges, root, result);
  }

  method RawChildren(edges: set<(DeltaId, DeltaId)>, current: DeltaId) returns (children: seq<DeltaId>)
    ensures forall c :: c in children <==> (current, c) in edges
  {
    children := Listing(set e | e in edges && e.0 == current :: e.1);
    forall c ensures c in children <==> (current, c) in edges {
      assert c in children <==> c in Elems(children);
      if (current, c) in edges {
        assert (current, c).1 == c;
      }
    }
  }

  /** The walk of the DAG and the walk on the raw tables list the same deltas. */
  lemma WalksAgree(edges: set<(DeltaId, DeltaId)>, root: DeltaId, a: seq<DeltaId>, b: seq<DeltaId>)
    requires IsWalk(edges, root, a) && IsWalk(edges, root, b)
    ensures Elems(a) == Elems(b) && |a| == |b|
  {
    WalkIsDescendants(edges, root, a);
    WalkIsDescendants(edges, root, b);
    NoDupSize(a);
    NoDupSize(b);
  }
}
