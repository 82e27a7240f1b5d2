/** The cloud outbound queue: its operations, its causal send order, and one sync cycle. */
module CloudQueues {
  import opened ChangesetDags
  import opened Deltas
  import opened Graphs
  import opened LexOrder
  import opened Sequences
  import Kahn

  const MAX_QUEUE_DEPTH := 100_000

  datatype QueueEntry = QueueEntry(id: DeltaId, bytes: Option<Bytes>, parents: seq<DeltaId>, compacted: bool,
                                   holders: seq<Did>, tier2: bool)

  function Ids(q: seq<QueueEntry>): (r: seq<DeltaId>)
    ensures |r| == |q| && forall i :: 0 <= i < |q| ==> r[i] == q[i].id
  {
    seq(|q|, i requires 0 <= i < |q| => q[i].id)
  }

  ghost predicate Distinct(q: seq<QueueEntry>) {
    forall i, j :: 0 <= i < j < |q| ==> q[i].id != q[j].id
  }

  lemma DistinctIds(q: seq<QueueEntry>)
    ensures Distinct(q) <==> NoDup(Ids(q))
  {
    if NoDup(Ids(q)) {
      forall i, j | 0 <= i < j < |q| ensures q[i].id != q[j].id {
        assert Ids(q)[i] != Ids(q)[j];
      }
    }
  }

  /** The queue without the entries of some ids; the others keep their order. */
  function Without(q: seq<QueueEntry>, gone: set<DeltaId>): (r: seq<QueueEntry>)
    ensures forall i :: 0 <= i < |r| ==> r[i] in q && r[i].id !in gone
    ensures forall i :: 0 <= i < |q| && q[i].id !in gone ==> q[i] in r
  {
    if q == [] then []
    else if q[0].id in gone then Without(q[1..], gone)
    else [q[0]] + Without(q[1..], gone)
  }

  lemma {:induction false} WithoutPush(q: seq<QueueEntry>, e: QueueEntry, gone: set<DeltaId>)
    ensures Without(q + [e], gone) == Without(q, gone) + if e.id in gone then [] else [e]
  {
    if q == [] {
      assert q + [e] == [e];
    } else {
      assert (q + [e])[1..] == q[1..] + [e];
      WithoutPush(q[1..], e, gone);
    }
  }

  lemma {:induction false} WithoutTwice(q: seq<QueueEntry>, a: set<DeltaId>, b: set<DeltaId>)
    ensures Without(Without(q, a), b) == Without(q, a + b)
  {
    if q != [] {
      WithoutTwice(q[1..], a, b);
    }
  }

  lemma {:induction false} WithoutNone(q: seq<QueueEntry>)
    ensures Without(q, {}) == q
  {
    if q != [] {
      WithoutNone(q[1..]);
    }
  }

  lemma {:induction false} WithoutDistinct(q: seq<QueueEntry>, gone: set<DeltaId>)
    requires Distinct(q)
    ensures Distinct(Without(q, gone))
  {
    if q != [] {
      WithoutDistinct(q[1..], gone);
    }
  }

  /** An id stays queued exactly when it is not removed. */
  lemma WithoutIds(q: seq<QueueEntry>, gone: set<DeltaId>, id: DeltaId)
    ensures id in Ids(Without(q, gone)) <==> id in Ids(q) && id !in gone
  {
    var r := Without(q, gone);
    if id in Ids(r) {
      var i :| 0 <= i < |r| && Ids(r)[i] == id;
      var j :| 0 <= j < |q| && q[j] == r[i];
      assert Ids(q)[j] == id;
    }
    if id in Ids(q) && id !in gone {
      var j :| 0 <= j < |q| && Ids(q)[j] == id;
      var i :| 0 <= i < |r| && r[i] == q[j];
      assert Ids(r)[i] == id;
    }
  }

  /** Removing ids of distinct entries removes one entry for each. */
  lemma {:induction false} WithoutSize(q: seq<QueueEntry>, gone: set<DeltaId>)
    requires Distinct(q) && gone <= Elems(Ids(q))
    ensures |Without(q, gone)| + |gone| == |q|
  {
    if q != [] {
      var id, rest := q[0].id, Ids(q[1..]);
      assert Ids(q) == [id] + rest;
      assert Elems(Ids(q)) == {id} + Elems(rest);
      WithoutSize(q[1..], gone - {id});
      WithoutOther(q[1..], id, gone);
    }
  }

  /** Naming an id that is not there removes nothing. */
  lemma {:induction false} WithoutOther(q: seq<QueueEntry>, id: DeltaId, gone: set<DeltaId>)
    requires forall i :: 0 <= i < |q| ==> q[i].id != id
    ensures Without(q, gone) == Without(q, gone - {id})
  {
    if q != [] {
      WithoutOther(q[1..], id, gone);
    }
  }

  /** Changes the first entry with the given id, if there is one. */
  function UpdateFirst(q: seq<QueueEntry>, id: DeltaId, f: QueueEntry -> QueueEntry): seq<QueueEntry> {
    if q == [] then []
    else if q[0].id == id then [f(q[0])] + q[1..]
    else [q[0]] + UpdateFirst(q[1..], id, f)
  }

  lemma {:induction false} UpdateFirstAt(q: seq<QueueEntry>, id: DeltaId, f: QueueEntry -> QueueEntry, i: nat)
    requires i <= |q| && (forall k :: 0 <= k < i ==> q[k].id != id) && (i < |q| ==> q[i].id == id)
    ensures UpdateFirst(q, id, f) == if i < |q| then q[i := f(q[i])] else q
  {
    if i > 0 {
      UpdateFirstAt(q[1..], id, f, i - 1);
    }
  }

  lemma {:induction false} UpdateKeepsIds(q: seq<QueueEntry>, id: DeltaId, f: QueueEntry -> QueueEntry)
    requires forall e :: f(e).id == e.id
    ensures Ids(UpdateFirst(q, id, f)) == Ids(q)
  {
    if q != [] && q[0].id != id {
      UpdateKeepsIds(q[1..], id, f);
      assert Ids(q) == [q[0].id] + Ids(q[1..]);
    }
  }

  lemma {:induction false} UpdateKeepsFlags(q: seq<QueueEntry>, id: DeltaId, f: QueueEntry -> QueueEntry)
    requires forall e :: f(e).tier2 == e.tier2
    requires forall i :: 0 <= i < |q| ==> !q[i].tier2
    ensures forall e :: e in UpdateFirst(q, id, f) ==> !e.tier2
  {
    if q != [] && q[0].id != id {
      UpdateKeepsFlags(q[1..], id, f);
    }
  }

  /** An update that keeps ids and flags keeps the shape of the queue. */
  lemma UpdateKeeps(q: seq<QueueEntry>, id: DeltaId, f: QueueEntry -> QueueEntry)
    requires forall e :: f(e).id == e.id && f(e).tier2 == e.tier2
    ensures Ids(UpdateFirst(q, id, f)) == Ids(q) && (Distinct(q) ==> Distinct(UpdateFirst(q, id, f)))
    ensures (forall e :: e in q ==> !e.tier2) ==> forall e :: e in UpdateFirst(q, id, f) ==> !e.tier2
  {
    UpdateKeepsIds(q, id, f);
    DistinctIds(q);
    DistinctIds(UpdateFirst(q, id, f));
    if forall e :: e in q ==> !e.tier2 {
      UpdateKeepsFlags(q, id, f);
    }
  }

  function Flagged(e: QueueEntry): QueueEntry { e.(tier2 := true) }

  function Pruned(e: QueueEntry): QueueEntry { e.(compacted := true, bytes := None) }

  function Held(e: QueueEntry, holder: Did): QueueEntry {
    if holder in e.holders then e else e.(holders := e.holders + [holder])
  }

  /** Marking an entry as durable flags the first of its id and changes nothing else. */
  lemma FlaggedIs(q: seq<QueueEntry>, id: DeltaId, k: nat)
    requires k <= |q| && (forall j :: 0 <= j < k ==> q[j].id != id) && (k < |q| ==> q[k].id == id)
    ensures var q' := UpdateFirst(q, id, Flagged);
      && |q'| == |q| && (forall i :: 0 <= i < |q| && i != k ==> q'[i] == q[i])
      && (k < |q| ==>
            q'[k] == QueueEntry(q[k].id, q[k].bytes, q[k].parents, q[k].compacted, q[k].holders, true))
  {
    UpdateFirstAt(q, id, Flagged, k);
  }

  // ---------------------------------------------------------------------------
  // The causal send order

  /** The dependencies between entries of the queue: parents that are still queued. */
  ghost function QueueEdges(q: seq<QueueEntry>, ids: set<DeltaId>): set<(DeltaId, DeltaId)> {
    set e, p | e in q && p in e.parents && p in ids :: (p, e.id)
  }

  function ParentRows(id: DeltaId, parents: seq<DeltaId>, ids: set<DeltaId>): seq<(DeltaId, DeltaId)> {
    if parents == [] then []
    else
      var last := parents[|parents| - 1];
      ParentRows(id, parents[..|parents| - 1], ids) + if last in ids then [(last, id)] else []
  }

  function EdgeRows(q: seq<QueueEntry>, ids: set<DeltaId>): seq<(DeltaId, DeltaId)> {
    if q == [] then []
    else
      var last := q[|q| - 1];
      EdgeRows(q[..|q| - 1], ids) + ParentRows(last.id, last.parents, ids)
  }

  lemma {:induction false} ParentRowsContents(id: DeltaId, parents: seq<DeltaId>, ids: set<DeltaId>)
    ensures forall r :: r in ParentRows(id, parents, ids) <==> r.1 == id && r.0 in parents && r.0 in ids
  {
    if parents != [] {
      ParentRowsContents(id, parents[..|parents| - 1], ids);
      assert parents == parents[..|parents| - 1] + [parents[|parents| - 1]];
    }
  }

  lemma {:induction false} EdgeRowsContents(q: seq<QueueEntry>, ids: set<DeltaId>)
    ensures Elems(EdgeRows(q, ids)) == QueueEdges(q, ids)
  {
    if q != [] {
      var init, last := q[..|q| - 1], q[|q| - 1];
      EdgeRowsContents(init, ids);
      ParentRowsContents(last.id, last.parents, ids);
      assert q == init + [last];
      forall r ensures r in EdgeRows(q, ids) <==> r in QueueEdges(q, ids) {
        assert r in EdgeRows(init, ids) <==> r in Elems(EdgeRows(init, ids));
        if r in ParentRows(last.id, last.parents, ids) {
          assert last in q && r == (r.0, last.id);
        }
        if r in QueueEdges(init, ids) {
          var e, p :| e in init && p in e.parents && p in ids && r == (p, e.id);
          assert e in q;
        }
        if r in QueueEdges(q, ids) {
          var e, p :| e in q && p in e.parents && p in ids && r == (p, e.id);
          assert e in init || e == last;
        }
      }
    }
  }

  /** Each id once, by its last position in the queue: the key the batches are sorted by. */
  function ByPosition(ids: seq<DeltaId>): seq<DeltaId> {
    if ids == [] then []
    else
      var before, last := ByPosition(ids[..|ids| - 1]), ids[|ids| - 1];
      Filter(before, Elems(before) - {last}) + [last]
  }

  lemma {:induction false} ByPositionHolds(ids: seq<DeltaId>)
    ensures NoDup(ByPosition(ids)) && Elems(ByPosition(ids)) == Elems(ids)
  {
    if ids != [] {
      var init, last := ids[..|ids| - 1], ids[|ids| - 1];
      var before, keep := ByPosition(init), Elems(ByPosition(init)) - {last};
      ByPositionHolds(init);
      FilterNoDup(before, keep);
      assert Elems(Filter(before, keep)) == keep;
      assert ids == init + [last];
      assert Elems(ids) == Elems(init) + {last};
      assert Elems(Filter(before, keep) + [last]) == keep + {last};
    }
  }

  lemma FilterOthers<T>(s: seq<T>, x: T)
    requires x !in s
    ensures Filter(s, Elems(s) - {x}) == s
  {
    forall i | 0 <= i < |s| ensures s[i] in Elems(s) - {x} {
      assert s[i] in s;
    }
    FilterAll(s, Elems(s) - {x});
  }

  lemma {:induction false} ByPositionDistinct(ids: seq<DeltaId>)
    requires NoDup(ids)
    ensures ByPosition(ids) == ids
  {
    if ids != [] {
      var init, last := ids[..|ids| - 1], ids[|ids| - 1];
      ByPositionDistinct(init);
      FilterOthers(init, last);
      calc {
        ByPosition(ids);
        Filter(init, Elems(init) - {last}) + [last];
        init + [last];
        ids;
      }
    }
  }

  lemma ByPositionContents(ids: seq<DeltaId>)
    ensures NoDup(ByPosition(ids)) && Elems(ByPosition(ids)) == Elems(ids)
    ensures NoDup(ids) ==> ByPosition(ids) == ids
  {
    ByPositionHolds(ids);
    if NoDup(ids) {
      ByPositionDistinct(ids);
    }
  }

  lemma {:induction false} FilterAll<T>(s: seq<T>, keep: set<T>)
    requires forall i :: 0 <= i < |s| ==> s[i] in keep
    ensures Filter(s, keep) == s
  {
    if s != [] {
      FilterAll(s[1..], keep);
    }
  }

  /** The ready list grown by children in queue order; `fuel` bounds the nodes still to emit. */
  function Emit(order: seq<DeltaId>, rows: seq<(DeltaId, DeltaId)>, fuel: nat, sorted: seq<DeltaId>,
                ready: seq<DeltaId>): seq<DeltaId>
  {
    if fuel == 0 || ready == [] then sorted
    else
      var done := sorted + [ready[0]];
      Emit(order, rows, fuel - 1, done, ready[1..] + Filter(order, FreedBy(rows, Elems(done), ready[0])))
  }

  /** The children of `node` that wait for nothing outside `done`. */
  function FreedBy(rows: seq<(DeltaId, DeltaId)>, done: set<DeltaId>, node: DeltaId): set<DeltaId> {
    set c | c in Kahn.Children(rows, node) && Kahn.Pending(rows, done, c) == 0
  }

  /** The entries with no queued parent. */
  function Roots(rows: seq<(DeltaId, DeltaId)>, ids: seq<DeltaId>): set<DeltaId> {
    set n | n in ids && Kahn.Pending(rows, {}, n) == 0
  }

  /** The send order as a function of the queue alone. */
  function SendOrder(q: seq<QueueEntry>): seq<DeltaId> {
    var ids := Ids(q);
    var order, rows := ByPosition(ids), EdgeRows(q, Elems(ids));
    var sorted := Emit(order, rows, |order|, [], Filter(order, Roots(rows, ids)));
    sorted + Filter(ids, Elems(ids) - Elems(sorted))
  }

  /** Not on a dependency cycle of the queue and not behind one. */
  ghost predicate Orderly(q: seq<QueueEntry>, id: DeltaId) {
    Kahn.Clean(Elems(Ids(q)), QueueEdges(q, Elems(Ids(q))), id)
  }

  ghost predicate AcyclicQueue(q: seq<QueueEntry>) {
    forall id :: id in Ids(q) ==> Orderly(q, id)
  }

  /** The orderly ids first, each once and after its queued parents; the rest last, in queue order. */
  ghost predicate IsCausal(q: seq<QueueEntry>, order: seq<DeltaId>) {
    exists sorted, tail :: CausalSplit(q, sorted, tail) && order == sorted + tail
  }

  ghost predicate CausalSplit(q: seq<QueueEntry>, sorted: seq<DeltaId>, tail: seq<DeltaId>) {
    && NoDup(sorted)
    && Kahn.ParentsFirst(QueueEdges(q, Elems(Ids(q))), sorted)
    && (forall id :: id in sorted <==> id in Ids(q) && Orderly(q, id))
    && tail == Filter(Ids(q), set id | id in Ids(q) && !Orderly(q, id))
  }

  /** Makes sure a node has a count and a list. */
  method WithNode(id: DeltaId, ghost rows: seq<(DeltaId, DeltaId)>, counts: map<DeltaId, nat>,
                  lists: map<DeltaId, seq<DeltaId>>)
    returns (inDegree: map<DeltaId, nat>, childrenMap: map<DeltaId, seq<DeltaId>>)
    requires Counted(rows, counts) && Listed(rows, lists)
    ensures inDegree.Keys == counts.Keys + {id} && childrenMap.Keys == lists.Keys + {id}
    ensures Counted(rows, inDegree) && Listed(rows, childrenMap)
  {
    inDegree, childrenMap := counts, lists;
    if id !in inDegree {
      Kahn.PendingZero(rows, {}, id);
      inDegree := inDegree[id := 0];
    }
    if id !in childrenMap {
      if Kahn.Children(rows, id) != [] {
        Kahn.ChildrenAreEdges(rows, id, Kahn.Children(rows, id)[0]);
        assert false;
      }
      childrenMap := childrenMap[id := []];
    }
  }

  /** Counts one dependency of `id` on a queued parent. */
  method CountParent(parent: DeltaId, id: DeltaId, ghost rows: seq<(DeltaId, DeltaId)>,
                     counts: map<DeltaId, nat>, lists: map<DeltaId, seq<DeltaId>>)
    returns (inDegree: map<DeltaId, nat>, childrenMap: map<DeltaId, seq<DeltaId>>)
    requires Counted(rows, counts) && Listed(rows, lists)
    ensures inDegree.Keys == counts.Keys + {id} && childrenMap.Keys == lists.Keys + {parent}
    ensures Counted(rows + [(parent, id)], inDegree) && Listed(rows + [(parent, id)], childrenMap)
  {
    CountRow(rows, (parent, id), counts, lists);
    inDegree, childrenMap := Bumped(counts, id), Pushed(lists, parent, id);
  }

  /** Adds one entry and its queued parents to the maps. */
  method CountEntry(entry: QueueEntry, idSet: set<DeltaId>, ghost before: seq<(DeltaId, DeltaId)>,
                    counts: map<DeltaId, nat>, lists: map<DeltaId, seq<DeltaId>>)
    returns (inDegree: map<DeltaId, nat>, childrenMap: map<DeltaId, seq<DeltaId>>)
    requires Counted(before, counts) && Listed(before, lists)
    ensures inDegree.Keys == counts.Keys + {entry.id}
    ensures lists.Keys + {entry.id} <= childrenMap.Keys <= lists.Keys + {entry.id} + idSet
    ensures Counted(before + ParentRows(entry.id, entry.parents, idSet), inDegree)
    ensures Listed(before + ParentRows(entry.id, entry.parents, idSet), childrenMap)
  {
    inDegree, childrenMap := WithNode(entry.id, before, counts, lists);
    ghost var rows := before;
    for j := 0 to |entry.parents|
      invariant inDegree.Keys == counts.Keys + {entry.id}
      invariant lists.Keys + {entry.id} <= childrenMap.Keys <= lists.Keys + {entry.id} + idSet
      invariant rows == before + ParentRows(entry.id, entry.parents[..j], idSet)
      invariant Counted(rows, inDegree) && Listed(rows, childrenMap)
    {
      var parent := entry.parents[j];
      ParentRowsGrow(before, entry.id, entry.parents, j, idSet);
      if parent in idSet {
        inDegree, childrenMap := CountParent(parent, entry.id, rows, inDegree, childrenMap);
        rows := rows + [(parent, entry.id)];
      }
    }
    assert entry.parents[..|entry.parents|] == entry.parents;
  }

  lemma ParentRowsGrow(before: seq<(DeltaId, DeltaId)>, id: DeltaId, parents: seq<DeltaId>, j: nat, ids: set<DeltaId>)
    requires j < |parents|
    ensures var rows := before + ParentRows(id, parents[..j], ids);
      before + ParentRows(id, parents[..j + 1], ids) == if parents[j] in ids then rows + [(parents[j], id)] else rows
  {
    assert parents[..j + 1][..j] == parents[..j];
  }

  lemma CountQueuePush(q: seq<QueueEntry>, i: nat, ids: set<DeltaId>)
    requires i < |q|
    ensures Elems(Ids(q[..i + 1])) == Elems(Ids(q[..i])) + {q[i].id} && q[i].id in Elems(Ids(q))
    ensures EdgeRows(q[..i + 1], ids) == EdgeRows(q[..i], ids) + ParentRows(q[i].id, q[i].parents, ids)
  {
    assert Ids(q[..i + 1]) == Ids(q[..i]) + [q[i].id];
    assert Elems(Ids(q[..i]) + [q[i].id]) == Elems(Ids(q[..i])) + {q[i].id};
    assert Ids(q)[i] == q[i].id;
    assert q[..i + 1][..i] == q[..i];
  }

  /** In-degree and adjacency maps of the queue. */
  method CountQueue(q: seq<QueueEntry>)
    returns (inDegree: map<DeltaId, nat>, childrenMap: map<DeltaId, seq<DeltaId>>)
    ensures inDegree.Keys == childrenMap.Keys == Elems(Ids(q))
    ensures Counted(EdgeRows(q, Elems(Ids(q))), inDegree) && Listed(EdgeRows(q, Elems(Ids(q))), childrenMap)
  {
    var idSet := Elems(Ids(q));
    inDegree, childrenMap := map[], map[];
    for i := 0 to |q|
      invariant inDegree.Keys == Elems(Ids(q[..i]))
      invariant Elems(Ids(q[..i])) <= childrenMap.Keys <= idSet
      invariant Counted(EdgeRows(q[..i], idSet), inDegree) && Listed(EdgeRows(q[..i], idSet), childrenMap)
    {
      CountQueuePush(q, i, idSet);
      inDegree, childrenMap := CountEntry(q[i], idSet, EdgeRows(q[..i], idSet), inDegree, childrenMap);
    }
    assert q[..|q|] == q;
  }

  /** Sorts a batch by queue position. */
  method SortByPosition(batch: seq<DeltaId>, order: seq<DeltaId>) returns (r: seq<DeltaId>)
    requires NoDup(order) && Elems(batch) <= Elems(order)
    ensures r == Filter(order, Elems(batch))
    ensures NoDup(r) && Elems(r) == Elems(batch)
  {
    r := Filter(order, Elems(batch));
    FilterNoDup(order, Elems(batch));
    forall x ensures x in r <==> x in batch {
      if x in batch {
        assert x in Elems(batch) && x in Elems(order);
      }
    }
  }

  /** One turn of the loop: release the children of the head and put the freed ones in queue order. */
  method Turn(order: seq<DeltaId>, ghost rows: seq<(DeltaId, DeltaId)>, inDegree: map<DeltaId, nat>,
              childrenMap: map<DeltaId, seq<DeltaId>>, ghost sorted: seq<DeltaId>, ready: seq<DeltaId>,
              ghost left: nat)
    returns (degrees: map<DeltaId, nat>, next: seq<DeltaId>)
    requires NoDup(order) && Elems(order) == inDegree.Keys == childrenMap.Keys
    requires Kahn.Inv(rows, inDegree, sorted, ready) && Listed(rows, childrenMap) && ready != []
    requires left + |sorted| == |order|
    ensures degrees.Keys == inDegree.Keys && left > 0
    ensures Kahn.Inv(rows, degrees, sorted + [ready[0]], ready[1..] + next)
    ensures Emit(order, rows, left, sorted, ready) ==
            Emit(order, rows, left - 1, sorted + [ready[0]], ready[1..] + next)
  {
    NoDupSize(order);
    Kahn.HeadNotEmitted(rows, inDegree, sorted, ready);
    Kahn.ReleaseEnabled(rows, inDegree, sorted, ready);
    var released;
    degrees, released := Kahn.Release(childrenMap[ready[0]], inDegree);
    next := SortByPosition(released, order);
    EmitTurn(order, rows, inDegree, sorted, ready, degrees, next);
  }

  /** Kahn's loop with each released batch in queue order. */
  method DrainInOrder(order: seq<DeltaId>, ghost rows: seq<(DeltaId, DeltaId)>, counts: map<DeltaId, nat>,
                      childrenMap: map<DeltaId, seq<DeltaId>>, roots: seq<DeltaId>) returns (sorted: seq<DeltaId>)
    requires NoDup(order) && Elems(order) == counts.Keys == childrenMap.Keys
    requires Kahn.Inv(rows, counts, [], roots) && Listed(rows, childrenMap)
    ensures sorted == Emit(order, rows, |order|, [], roots)
    ensures NoDup(sorted) && Kahn.ParentsFirst(Elems(rows), sorted)
    ensures forall n :: n in sorted <==> n in counts && Kahn.Clean(counts.Keys, Elems(rows), n)
  {
    var inDegree, ready := counts, roots;
    sorted := [];
    ghost var left: nat := |order|;
    ghost var full := Emit(order, rows, left, [], roots);
    while ready != []
      invariant inDegree.Keys == counts.Keys
      invariant Kahn.Inv(rows, inDegree, sorted, ready)
      invariant left + |sorted| == |order|
      invariant Emit(order, rows, left, sorted, ready) == full
      decreases left
    {
      var degrees, next := Turn(order, rows, inDegree, childrenMap, sorted, ready, left);
      sorted, ready, inDegree := sorted + [ready[0]], ready[1..] + next, degrees;
      left := left - 1;
    }
    EmitDone(order, rows, left, sorted);
    Kahn.DrainedEmitsClean(rows, inDegree, sorted);
  }

  lemma EmitDone(order: seq<DeltaId>, rows: seq<(DeltaId, DeltaId)>, left: nat, sorted: seq<DeltaId>)
    ensures Emit(order, rows, left, sorted, []) == sorted
  {
  }

  /** One turn of the loop is one unfolding of the recursive definition. */
  lemma EmitTurn(order: seq<DeltaId>, rows: seq<(DeltaId, DeltaId)>, degree: map<DeltaId, nat>, sorted: seq<DeltaId>,
                 ready: seq<DeltaId>, degree': map<DeltaId, nat>, next: seq<DeltaId>)
    requires Kahn.Inv(rows, degree, sorted, ready) && ready != []
    requires Kahn.Lowered(rows, ready[0], degree, degree')
    requires NoDup(order) && |order| == |degree|
    requires NoDup(next) && Elems(next) == Kahn.Freed(rows, ready[0], degree')
    requires next == Filter(order, Elems(next))
    ensures Kahn.Inv(rows, degree', sorted + [ready[0]], ready[1..] + next)
    ensures |sorted| < |order|
    ensures Emit(order, rows, |order| - |sorted|, sorted, ready) ==
            Emit(order, rows, |order| - |sorted| - 1, sorted + [ready[0]], ready[1..] + next)
  {
    RoomLeft(rows, degree, sorted, ready);
    Kahn.Step(rows, degree, sorted, ready, degree', next);
    FreedByCount(rows, degree, sorted, ready, degree', next);
  }

  lemma RoomLeft(rows: seq<(DeltaId, DeltaId)>, degree: map<DeltaId, nat>, sorted: seq<DeltaId>, ready: seq<DeltaId>)
    requires Kahn.Inv(rows, degree, sorted, ready) && ready != []
    ensures |sorted| < |degree|
  {
    Kahn.HeadNotEmitted(rows, degree, sorted, ready);
    var longer := sorted + [ready[0]];
    assert forall i :: 0 <= i < |sorted| ==> (sorted + ready)[i] == sorted[i];
    assert forall n :: n in longer ==> n in sorted + ready;
    NoDupBound(longer, degree.Keys);
  }

  /** What the counters release is what the recursive definition frees. */
  lemma FreedByCount(rows: seq<(DeltaId, DeltaId)>, degree: map<DeltaId, nat>, sorted: seq<DeltaId>,
                     ready: seq<DeltaId>,
                     degree': map<DeltaId, nat>, released: seq<DeltaId>)
    requires Kahn.Inv(rows, degree, sorted, ready) && ready != []
    requires Kahn.Lowered(rows, ready[0], degree, degree')
    requires Elems(released) == Kahn.Freed(rows, ready[0], degree')
    ensures Elems(released) == FreedBy(rows, Elems(sorted + [ready[0]]), ready[0])
  {
    Kahn.StepCounts(rows, degree, sorted, ready, degree');
    forall c | c in Kahn.Children(rows, ready[0]) ensures c in degree' {
      Kahn.ChildrenAreEdges(rows, ready[0], c);
      assert (ready[0], c).1 in degree;
    }
  }

  class CloudOutboundQueue {
    var queue: seq<QueueEntry>

    constructor ()
      ensures queue == []
    {
      queue := [];
    }

    /** Appends an entry unless the queue is full. */
    method Enqueue(entry: QueueEntry) returns (ok: bool)
      modifies this
      ensures ok <==> |old(queue)| < MAX_QUEUE_DEPTH
      ensures queue == if ok then old(queue) + [entry] else old(queue)
    {
      if |queue| >= MAX_QUEUE_DEPTH {
        return false;
      }
      queue := queue + [entry];
      return true;
    }

    /** Removes every entry of an acknowledged id; the other entries stay as they are, in their order. */
    method Acknowledge(id: DeltaId)
      modifies this
      ensures queue == Without(old(queue), {id})
      ensures forall x :: x in Ids(queue) <==> x in Ids(old(queue)) && x != id
    {
      var kept: seq<QueueEntry> := [];
      for i := 0 to |queue|
        invariant queue == old(queue) && kept == Without(queue[..i], {id})
      {
        WithoutPush(queue[..i], queue[i], {id});
        assert queue[..i + 1] == queue[..i] + [queue[i]];
        if queue[i].id != id {
          kept := kept + [queue[i]];
        }
      }
      assert queue[..|queue|] == queue;
      queue := kept;
      forall x ensures x in Ids(queue) <==> x in Ids(old(queue)) && x != id {
        WithoutIds(old(queue), {id}, x);
      }
    }

    method MarkTier2(id: DeltaId)
      modifies this
      ensures queue == UpdateFirst(old(queue), id, Flagged)
    {
      for i := 0 to |queue|
        invariant queue == old(queue) && forall k :: 0 <= k < i ==> queue[k].id != id
      {
        if queue[i].id == id {
          UpdateFirstAt(queue, id, Flagged, i);
          queue := queue[i := queue[i].(tier2 := true)];
          return;
        }
      }
      UpdateFirstAt(queue, id, Flagged, |queue|);
    }

    method MarkCompacted(id: DeltaId)
      modifies this
      ensures queue == UpdateFirst(old(queue), id, Pruned)
    {
      for i := 0 to |queue|
        invariant queue == old(queue) && forall k :: 0 <= k < i ==> queue[k].id != id
      {
        if queue[i].id == id {
          UpdateFirstAt(queue, id, Pruned, i);
          queue := queue[i := queue[i].(compacted := true, bytes := None)];
          return;
        }
      }
      UpdateFirstAt(queue, id, Pruned, |queue|);
    }

    method AddReceiptHolder(id: DeltaId, holder: Did)
      modifies this
      ensures queue == UpdateFirst(old(queue), id, e => Held(e, holder))
    {
      for i := 0 to |queue|
        invariant queue == old(queue) && forall k :: 0 <= k < i ==> queue[k].id != id
      {
        if queue[i].id == id {
          UpdateFirstAt(queue, id, e => Held(e, holder), i);
          if holder !in queue[i].holders {
            queue := queue[i := queue[i].(holders := queue[i].holders + [holder])];
          }
          return;
        }
      }
      UpdateFirstAt(queue, id, e => Held(e, holder), |queue|);
    }

    /** The causal send order; the same for every iteration order of the hash maps. */
    method TopologicalSortQueue() returns (sorted: seq<DeltaId>)
      ensures sorted == SendOrder(queue) && IsCausal(queue, sorted)
    {
      var ids := Ids(queue);
      var inDegree, childrenMap := CountQueue(queue);
      ghost var rows := EdgeRows(queue, Elems(ids));
      EdgeRowsContents(queue, Elems(ids));
      var order := ByPosition(ids);
      ByPositionContents(ids);
      var zero := Listing(set n | n in inDegree && inDegree[n] == 0);
      var ready := SortByPosition(zero, order);
      RootsReady(rows, ids, inDegree, ready);
      var emitted := DrainInOrder(order, rows, inDegree, childrenMap, ready);
      var tail := Leftovers(ids, Elems(emitted));
      LeftoversAreDirty(queue, emitted);
      sorted := emitted + tail;
    }
  }

  lemma RootsReady(rows: seq<(DeltaId, DeltaId)>, ids: seq<DeltaId>, inDegree: map<DeltaId, nat>, ready: seq<DeltaId>)
    requires Counted(rows, inDegree) && inDegree.Keys == Elems(ids)
    requires NoDup(ready) && Elems(ready) == set n | n in inDegree && inDegree[n] == 0
    ensures Kahn.Inv(rows, inDegree, [], ready)
    ensures Elems(ready) == Roots(rows, ids)
  {
    forall n ensures n in ready <==> n in inDegree && inDegree[n] == 0 {
      assert n in ready <==> n in Elems(ready);
    }
    Kahn.InvInit(rows, inDegree, ready);
  }

  lemma LeftoversAreDirty(q: seq<QueueEntry>, emitted: seq<DeltaId>)
    requires forall n :: n in emitted <==> n in Elems(Ids(q)) && Orderly(q, n)
    ensures Elems(Ids(q)) - Elems(emitted) == set id | id in Ids(q) && !Orderly(q, id)
  {
  }

  /** The ids that were not emitted, in queue order. */
  method Leftovers(ids: seq<DeltaId>, emitted: set<DeltaId>) returns (tail: seq<DeltaId>)
    ensures tail == Filter(ids, Elems(ids) - emitted)
  {
    tail := [];
    var rest := Elems(ids) - emitted;
    for i := 0 to |ids|
      invariant tail == Filter(ids[..i], rest)
    {
      FilterDistributes(ids[..i], [ids[i]], rest);
      assert ids[..i + 1] == ids[..i] + [ids[i]];
      if ids[i] !in emitted {
        tail := tail + [ids[i]];
      }
    }
    assert ids[..|ids|] == ids;
  }

  /** With distinct ids the send order is a permutation of the queue. */
  lemma CausalIsPermutation(q: seq<QueueEntry>, order: seq<DeltaId>)
    requires Distinct(q) && IsCausal(q, order)
    ensures NoDup(order) && Elems(order) == Elems(Ids(q)) && |order| == |q|
  {
    var sorted, tail :| CausalSplit(q, sorted, tail) && order == sorted + tail;
    SplitIsPermutation(q, sorted, tail);
    NoDupSize(order);
    DistinctIds(q);
    NoDupSize(Ids(q));
  }

  lemma SplitIsPermutation(q: seq<QueueEntry>, sorted: seq<DeltaId>, tail: seq<DeltaId>)
    requires Distinct(q) && CausalSplit(q, sorted, tail)
    ensures NoDup(sorted + tail) && Elems(sorted + tail) == Elems(Ids(q))
  {
    var dirty := set id | id in Ids(q) && !Orderly(q, id);
    DistinctIds(q);
    FilterNoDup(Ids(q), dirty);
    forall i | 0 <= i < |tail| ensures tail[i] !in sorted {
      assert tail[i] in dirty;
    }
    NoDupAppend(sorted, tail);
    forall id ensures id in sorted + tail <==> id in Ids(q) {
      if id in tail {
        assert id in dirty;
      }
      if id in Ids(q) && !Orderly(q, id) {
        assert id in dirty && id in tail;
      }
    }
  }

  /** The send order lists every queued id, repeated or not. */
  lemma CausalCovers(q: seq<QueueEntry>, order: seq<DeltaId>)
    requires IsCausal(q, order)
    ensures Elems(order) == Elems(Ids(q))
  {
    var sorted, tail :| CausalSplit(q, sorted, tail) && order == sorted + tail;
    forall id ensures id in Elems(order) <==> id in Elems(Ids(q)) {
      if id in Ids(q) && !Orderly(q, id) {
        assert id in (set x | x in Ids(q) && !Orderly(q, x));
        assert id in tail;
      }
    }
  }

  /** Every orderly entry follows its queued parents; on an acyclic queue every entry does. */
  lemma OrderlyFollowParents(q: seq<QueueEntry>, order: seq<DeltaId>, i: nat, p: DeltaId)
    requires IsCausal(q, order) && i < |order|
    requires Orderly(q, order[i]) && (p, order[i]) in QueueEdges(q, Elems(Ids(q)))
    ensures p in order[..i]
  {
    var sorted, tail :| CausalSplit(q, sorted, tail) && order == sorted + tail;
    if i < |sorted| {
      assert sorted[i] == order[i] && sorted[..i] == order[..i];
    }
  }
}
