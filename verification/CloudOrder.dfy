/**
  The send order without the loop that computes it: an entry is released by the last of its queued parents
  to be sent; entries go out in the order of their release, and in queue order when released together.
 */
module CloudOrders {
  import opened ChangesetDags
  import opened CloudQueues
  import opened Deltas
  import opened Graphs
  import opened Sequences
  import Kahn

  // ---------------------------------------------------------------------------
  // Releases

  /** The place just after the last node of `s` with an edge into `x`; 0 when there is none. */
  ghost function Release(edges: set<(DeltaId, DeltaId)>, s: seq<DeltaId>, x: DeltaId): (r: nat)
    ensures r <= |s| && (r > 0 ==> (s[r - 1], x) in edges)
    ensures forall k :: r <= k < |s| ==> (s[k], x) !in edges
  {
    if s == [] then 0
    else if (s[|s| - 1], x) in edges then |s|
    else Release(edges, s[..|s| - 1], x)
  }

  /** `x` comes before `y` in a list without repeats. */
  ghost predicate Earlier(order: seq<DeltaId>, x: DeltaId, y: DeltaId) {
    exists i, j :: 0 <= i < j < |order| && order[i] == x && order[j] == y
  }

  /** Sorted by release, and within one release by `order`. */
  ghost predicate InBatches(edges: set<(DeltaId, DeltaId)>, order: seq<DeltaId>, s: seq<DeltaId>) {
    forall a, b :: 0 <= a < b < |s| ==> Follows(edges, order, s, s[a], s[b])
  }

  ghost predicate Follows(edges: set<(DeltaId, DeltaId)>, order: seq<DeltaId>, s: seq<DeltaId>, x: DeltaId, y: DeltaId)
  {
    || Release(edges, s, x) < Release(edges, s, y)
    || (Release(edges, s, x) == Release(edges, s, y) && Earlier(order, x, y))
  }

  lemma ReleaseIs(edges: set<(DeltaId, DeltaId)>, s: seq<DeltaId>, x: DeltaId, r: nat)
    requires r <= |s| && (r > 0 ==> (s[r - 1], x) in edges)
    requires forall k :: r <= k < |s| ==> (s[k], x) !in edges
    ensures Release(edges, s, x) == r
  {
  }

  /** Later nodes without an edge into `x` do not move its release. */
  lemma ReleaseStays(edges: set<(DeltaId, DeltaId)>, s: seq<DeltaId>, more: seq<DeltaId>, x: DeltaId)
    requires forall k :: 0 <= k < |more| ==> (more[k], x) !in edges
    ensures Release(edges, s + more, x) == Release(edges, s, x)
  {
    var all, r := s + more, Release(edges, s, x);
    forall k | r <= k < |all| ensures (all[k], x) !in edges {
      if k >= |s| {
        assert all[k] == more[k - |s|];
      }
    }
    ReleaseIs(edges, all, x, r);
  }

  /** Where two kept entries stand in the list they were kept from. */
  lemma {:induction false} FilterPlaces(order: seq<DeltaId>, keep: set<DeltaId>, r: seq<DeltaId>, a: nat, b: nat)
    returns (i: nat, j: nat)
    requires r == Filter(order, keep) && a < b < |r|
    ensures i < j < |order| && order[i] == r[a] && order[j] == r[b]
  {
    var rest := Filter(order[1..], keep);
    FilterCons(order, keep);
    if order[0] !in keep {
      i, j := FilterPlaces(order[1..], keep, rest, a, b);
    } else if a > 0 {
      i, j := FilterPlaces(order[1..], keep, rest, a - 1, b - 1);
    } else {
      j := PlaceIn(order[1..], rest[b - 1]);
      return 0, j + 1;
    }
    i, j := i + 1, j + 1;
  }

  lemma FilterCons(order: seq<DeltaId>, keep: set<DeltaId>)
    requires order != []
    ensures Filter(order, keep) == (if order[0] in keep then [order[0]] else []) + Filter(order[1..], keep)
  {
  }

  function PlaceIn(s: seq<DeltaId>, x: DeltaId): (k: nat)
    requires x in s
    ensures k < |s| && s[k] == x
  {
    if s[0] == x then 0 else 1 + PlaceIn(s[1..], x)
  }

  lemma FilterEarlier(order: seq<DeltaId>, keep: set<DeltaId>, a: nat, b: nat)
    requires a < b < |Filter(order, keep)|
    ensures Earlier(order, Filter(order, keep)[a], Filter(order, keep)[b])
  {
    var i, j := FilterPlaces(order, keep, Filter(order, keep), a, b);
  }

  // ---------------------------------------------------------------------------
  // The loop releases batch after batch

  ghost function Degrees(order: seq<DeltaId>, rows: seq<(DeltaId, DeltaId)>, sorted: seq<DeltaId>): map<DeltaId, nat> {
    map n | n in order :: Kahn.Pending(rows, Elems(sorted), n)
  }

  ghost predicate LoopState(order: seq<DeltaId>, rows: seq<(DeltaId, DeltaId)>, sorted: seq<DeltaId>,
                            ready: seq<DeltaId>)
  {
    Kahn.Inv(rows, Degrees(order, rows, sorted), sorted, ready) && InBatches(Elems(rows), order, sorted + ready)
  }

  /** The nodes that the head frees. */
  ghost function Batch(order: seq<DeltaId>, rows: seq<(DeltaId, DeltaId)>, sorted: seq<DeltaId>,
                       node: DeltaId): seq<DeltaId>
  {
    Filter(order, FreedBy(rows, Elems(sorted + [node]), node))
  }

  lemma BatchIsFreed(order: seq<DeltaId>, rows: seq<(DeltaId, DeltaId)>, sorted: seq<DeltaId>, ready: seq<DeltaId>)
    requires NoDup(order) && ready != [] && Kahn.Inv(rows, Degrees(order, rows, sorted), sorted, ready)
    ensures var next, degree' := Batch(order, rows, sorted, ready[0]), Degrees(order, rows, sorted + [ready[0]]);
      && Kahn.Lowered(rows, ready[0], Degrees(order, rows, sorted), degree')
      && NoDup(next) && Elems(next) == Kahn.Freed(rows, ready[0], degree')
  {
    var node, degree := ready[0], Degrees(order, rows, sorted);
    var degree' := Degrees(order, rows, sorted + [node]);
    Kahn.HeadNotEmitted(rows, degree, sorted, ready);
    assert Elems(sorted + [node]) == Elems(sorted) + {node};
    forall n | n in degree ensures degree'[n] + multiset(Kahn.Children(rows, node))[n] == degree[n] {
      Kahn.PendingAfterEmit(rows, Elems(sorted), node, n);
    }
    var freed := FreedBy(rows, Elems(sorted + [node]), node);
    FilterNoDup(order, freed);
    forall n | n in Kahn.Children(rows, node) ensures n in order {
      Kahn.ChildrenAreEdges(rows, node, n);
      assert (node, n).1 in degree;
    }
  }

  /** All parents of `x` are in the list. */
  ghost predicate ParentsIn(edges: set<(DeltaId, DeltaId)>, x: DeltaId, s: seq<DeltaId>) {
    forall p :: (p, x) in edges ==> p in s
  }

  lemma BatchStep(order: seq<DeltaId>, rows: seq<(DeltaId, DeltaId)>, sorted: seq<DeltaId>, ready: seq<DeltaId>)
    requires NoDup(order) && ready != [] && LoopState(order, rows, sorted, ready)
    ensures LoopState(order, rows, sorted + [ready[0]], ready[1..] + Batch(order, rows, sorted, ready[0]))
  {
    var node, next := ready[0], Batch(order, rows, sorted, ready[0]);
    var degree, degree' := Degrees(order, rows, sorted), Degrees(order, rows, sorted + [node]);
    BatchIsFreed(order, rows, sorted, ready);
    Kahn.Step(rows, degree, sorted, ready, degree', next);
    SameList(sorted, node, ready, next);
    assert NoDup((sorted + ready) + next);
    BatchParents(rows, degree, sorted, ready, degree', next);
    BatchesGrow(Elems(rows), order, sorted, node, ready, next, FreedBy(rows, Elems(sorted + [node]), node));
  }

  lemma SameList<T>(sorted: seq<T>, node: T, ready: seq<T>, next: seq<T>)
    requires ready != [] && ready[0] == node
    ensures (sorted + [node]) + (ready[1..] + next) == (sorted + ready) + next
  {
    assert ready == [node] + ready[1..];
  }

  /** What is listed waits for emitted parents only; what the head frees waits for the head too. */
  lemma BatchParents(rows: seq<(DeltaId, DeltaId)>, degree: map<DeltaId, nat>, sorted: seq<DeltaId>,
                     ready: seq<DeltaId>, degree': map<DeltaId, nat>, next: seq<DeltaId>)
    requires ready != [] && Kahn.Inv(rows, degree, sorted, ready)
    requires Elems(next) == Kahn.Freed(rows, ready[0], degree')
    requires forall n :: n in degree' ==> degree'[n] == Kahn.Pending(rows, Elems(sorted + [ready[0]]), n)
    ensures forall x :: x in sorted + ready ==> ParentsIn(Elems(rows), x, sorted)
    ensures forall x :: x in next ==>
              (ready[0], x) in Elems(rows) && ParentsIn(Elems(rows), x, sorted + [ready[0]])
  {
    forall x | x in sorted + ready ensures ParentsIn(Elems(rows), x, sorted) {
      NothingPending(rows, sorted, x);
    }
    forall x | x in next ensures (ready[0], x) in Elems(rows) && ParentsIn(Elems(rows), x, sorted + [ready[0]]) {
      assert x in Elems(next);
      Kahn.ChildrenAreEdges(rows, ready[0], x);
      NothingPending(rows, sorted + [ready[0]], x);
    }
  }

  lemma NothingPending(rows: seq<(DeltaId, DeltaId)>, done: seq<DeltaId>, x: DeltaId)
    requires Kahn.Pending(rows, Elems(done), x) == 0
    ensures ParentsIn(Elems(rows), x, done)
  {
    Kahn.PendingZero(rows, Elems(done), x);
    forall p | (p, x) in Elems(rows) ensures p in done {
      assert (p, x) in rows && (p, x).1 == x;
    }
  }

  /** A batch freed by the head goes behind everything that was released before. */
  lemma BatchesGrow(edges: set<(DeltaId, DeltaId)>, order: seq<DeltaId>, sorted: seq<DeltaId>, node: DeltaId,
                    ready: seq<DeltaId>, next: seq<DeltaId>, keep: set<DeltaId>)
    requires ready != [] && ready[0] == node && NoDup((sorted + ready) + next)
    requires InBatches(edges, order, sorted + ready)
    requires forall x :: x in sorted + ready ==> ParentsIn(edges, x, sorted)
    requires forall x :: x in next ==> (node, x) in edges && ParentsIn(edges, x, sorted + [node])
    requires next == Filter(order, keep)
    ensures InBatches(edges, order, (sorted + ready) + next)
  {
    var was, all := sorted + ready, (sorted + ready) + next;
    forall x | x in was ensures Release(edges, all, x) == Release(edges, was, x) <= |sorted| {
      OldRelease(edges, sorted, ready, next, x);
    }
    forall x | x in next ensures Release(edges, all, x) == |sorted| + 1 {
      NewRelease(edges, sorted, node, ready, next, x);
    }
    forall a, b | 0 <= a < b < |next| ensures Earlier(order, next[a], next[b]) {
      FilterEarlier(order, keep, a, b);
    }
    LaterBatch(edges, order, was, next, |sorted|);
  }

  /** What was released by `n` comes first, and then what is released just after. */
  lemma LaterBatch(edges: set<(DeltaId, DeltaId)>, order: seq<DeltaId>, was: seq<DeltaId>, next: seq<DeltaId>, n: nat)
    requires InBatches(edges, order, was)
    requires forall x :: x in was ==> Release(edges, was + next, x) == Release(edges, was, x) <= n
    requires forall x :: x in next ==> Release(edges, was + next, x) == n + 1
    requires forall a, b :: 0 <= a < b < |next| ==> Earlier(order, next[a], next[b])
    ensures InBatches(edges, order, was + next)
  {
    var all := was + next;
    forall a, b | 0 <= a < b < |all| ensures Follows(edges, order, all, all[a], all[b]) {
      if b < |was| {
        assert Follows(edges, order, was, was[a], was[b]);
        assert was[a] in was && was[b] in was;
      } else if a < |was| {
        assert was[a] in was && next[b - |was|] in next;
      } else {
        assert next[a - |was|] in next && next[b - |was|] in next;
      }
    }
  }

  lemma ApartInNoDup<T>(s: seq<T>, t: seq<T>, k: nat)
    requires NoDup(s + t) && k < |t|
    ensures t[k] !in s
  {
    assert (s + t)[|s| + k] == t[k];
    assert forall i :: 0 <= i < |s| ==> (s + t)[i] == s[i];
  }

  lemma OldRelease(edges: set<(DeltaId, DeltaId)>, sorted: seq<DeltaId>, ready: seq<DeltaId>, next: seq<DeltaId>,
                   x: DeltaId)
    requires NoDup((sorted + ready) + next) && ParentsIn(edges, x, sorted)
    ensures Release(edges, (sorted + ready) + next, x) == Release(edges, sorted + ready, x) <= |sorted|
  {
    assert (sorted + ready) + next == sorted + (ready + next);
    forall k | 0 <= k < |ready + next| ensures ((ready + next)[k], x) !in edges {
      ApartInNoDup(sorted, ready + next, k);
    }
    assert forall k :: 0 <= k < |ready| ==> (ready + next)[k] == ready[k];
    ReleaseStays(edges, sorted, ready + next, x);
    ReleaseStays(edges, sorted, ready, x);
  }

  lemma NewRelease(edges: set<(DeltaId, DeltaId)>, sorted: seq<DeltaId>, node: DeltaId, ready: seq<DeltaId>,
                   next: seq<DeltaId>, x: DeltaId)
    requires ready != [] && ready[0] == node && NoDup((sorted + ready) + next)
    requires (node, x) in edges && ParentsIn(edges, x, sorted + [node])
    ensures Release(edges, (sorted + ready) + next, x) == |sorted| + 1
  {
    var upTo, rest := sorted + [node], ready[1..] + next;
    SameList(sorted, node, ready, next);
    forall k | 0 <= k < |rest| ensures (rest[k], x) !in edges {
      ApartInNoDup(upTo, rest, k);
    }
    assert upTo[|sorted|] == node;
    ReleaseIs(edges, upTo, x, |sorted| + 1);
    ReleaseStays(edges, upTo, rest, x);
  }

  lemma LoopRoom(order: seq<DeltaId>, rows: seq<(DeltaId, DeltaId)>, sorted: seq<DeltaId>, ready: seq<DeltaId>)
    requires NoDup(order) && LoopState(order, rows, sorted, ready) && ready != []
    ensures |sorted| < |order|
  {
    NoDupSize(order);
    assert Degrees(order, rows, sorted).Keys == Elems(order);
    RoomLeft(rows, Degrees(order, rows, sorted), sorted, ready);
  }

  lemma EmitOne(order: seq<DeltaId>, rows: seq<(DeltaId, DeltaId)>, fuel: nat, sorted: seq<DeltaId>,
                ready: seq<DeltaId>)
    requires ready != [] && fuel > 0
    ensures Emit(order, rows, fuel, sorted, ready) ==
            Emit(order, rows, fuel - 1, sorted + [ready[0]], ready[1..] + Batch(order, rows, sorted, ready[0]))
  {
  }

  /** Everything the loop emits, it emits in batches; when it stops nothing is ready. */
  lemma {:induction false} EmitInBatches(order: seq<DeltaId>, rows: seq<(DeltaId, DeltaId)>, fuel: nat,
                                         sorted: seq<DeltaId>, ready: seq<DeltaId>, out: seq<DeltaId>)
    requires NoDup(order) && LoopState(order, rows, sorted, ready) && fuel + |sorted| == |order|
    requires out == Emit(order, rows, fuel, sorted, ready)
    ensures LoopState(order, rows, out, [])
    decreases fuel
  {
    if ready == [] {
      EmitDone(order, rows, fuel, sorted);
    } else {
      LoopRoom(order, rows, sorted, ready);
      var done, next := sorted + [ready[0]], ready[1..] + Batch(order, rows, sorted, ready[0]);
      BatchStep(order, rows, sorted, ready);
      EmitOne(order, rows, fuel, sorted, ready);
      EmitInBatches(order, rows, fuel - 1, done, next, out);
    }
  }

  // ---------------------------------------------------------------------------
  // The queue

  /** The last entry of `x` lies before an entry of `y`; with distinct ids, `x` was queued before `y`. */
  ghost predicate QueuedBefore(ids: seq<DeltaId>, x: DeltaId, y: DeltaId) {
    x in ids && exists k :: 0 <= k < |ids| && ids[k] == y && x !in ids[k..]
  }

  lemma QueuedPush(init: seq<DeltaId>, last: DeltaId, x: DeltaId, y: DeltaId)
    requires x != last && x in init
    ensures y == last || QueuedBefore(init, x, y) ==> QueuedBefore(init + [last], x, y)
  {
    var ids := init + [last];
    if y == last {
      assert ids[|init|] == y && x !in ids[|init|..];
    } else if QueuedBefore(init, x, y) {
      var k :| 0 <= k < |init| && init[k] == y && x !in init[k..];
      assert ids[k..] == init[k..] + [last];
    }
  }

  lemma {:induction false} PositionsAreQueued(ids: seq<DeltaId>, x: DeltaId, y: DeltaId)
    requires Earlier(ByPosition(ids), x, y)
    ensures QueuedBefore(ids, x, y)
  {
    var order := ByPosition(ids);
    var i, j :| 0 <= i < j < |order| && order[i] == x && order[j] == y;
    var init, last := ids[..|ids| - 1], ids[|ids| - 1];
    var before := ByPosition(init);
    var kept := Filter(before, Elems(before) - {last});
    assert order == kept + [last] && ids == init + [last];
    ByPositionHolds(init);
    assert x == kept[i] && x in Elems(before) - {last};
    if y != last {
      FilterEarlier(before, Elems(before) - {last}, i, j);
      PositionsAreQueued(init, x, y);
    }
    assert x in Elems(init);
    QueuedPush(init, last, x, y);
  }

  /** What the loop emits on a queue. */
  ghost function Emitted(q: seq<QueueEntry>): seq<DeltaId> {
    var ids := Ids(q);
    var order, rows := ByPosition(ids), EdgeRows(q, Elems(ids));
    Emit(order, rows, |order|, [], Filter(order, Roots(rows, ids)))
  }

  /** The dependencies of the queue. */
  ghost function Waits(q: seq<QueueEntry>): set<(DeltaId, DeltaId)> {
    QueueEdges(q, Elems(Ids(q)))
  }

  lemma FirstBatch(order: seq<DeltaId>, rows: seq<(DeltaId, DeltaId)>, ids: seq<DeltaId>)
    requires NoDup(order) && Elems(order) == Elems(ids) && forall r :: r in rows ==> r.1 in ids
    ensures LoopState(order, rows, [], Filter(order, Roots(rows, ids)))
  {
    var ready := Filter(order, Roots(rows, ids));
    FilterNoDup(order, Roots(rows, ids));
    assert Elems<DeltaId>([]) == {};
    forall n ensures n in order <==> n in ids {
      assert n in Elems(order) <==> n in Elems(ids);
    }
    Kahn.InvInit(rows, Degrees(order, rows, []), ready);
    assert [] + ready == ready;
    FirstReleases(order, rows, Roots(rows, ids));
  }

  lemma FirstReleases(order: seq<DeltaId>, rows: seq<(DeltaId, DeltaId)>, keep: set<DeltaId>)
    requires forall x :: x in keep ==> Kahn.Pending(rows, {}, x) == 0
    ensures InBatches(Elems(rows), order, Filter(order, keep))
  {
    var ready := Filter(order, keep);
    assert Elems<DeltaId>([]) == {};
    forall x | x in keep ensures Release(Elems(rows), ready, x) == 0 {
      NothingPending(rows, [], x);
      ReleaseIs(Elems(rows), ready, x, 0);
    }
    forall a, b | 0 <= a < b < |ready| ensures Follows(Elems(rows), order, ready, ready[a], ready[b]) {
      FilterEarlier(order, keep, a, b);
    }
  }

  lemma EmittedState(q: seq<QueueEntry>)
    ensures LoopState(ByPosition(Ids(q)), EdgeRows(q, Elems(Ids(q))), Emitted(q), [])
    ensures Elems(EdgeRows(q, Elems(Ids(q)))) == Waits(q)
  {
    var ids := Ids(q);
    var order, rows := ByPosition(ids), EdgeRows(q, Elems(ids));
    ByPositionHolds(ids);
    EdgeRowsContents(q, Elems(ids));
    forall r | r in rows ensures r.1 in ids {
      assert r in Elems(rows);
      var e, p :| e in q && p in e.parents && p in Elems(ids) && r == (p, e.id);
      var k :| 0 <= k < |q| && q[k] == e;
      assert ids[k] == r.1;
    }
    FirstBatch(order, rows, ids);
    EmitInBatches(order, rows, |order|, [], Filter(order, Roots(rows, ids)), Emitted(q));
  }

  /** The loop emits exactly the orderly entries, each after its queued parents. */
  lemma EmittedIsOrderly(q: seq<QueueEntry>)
    ensures NoDup(Emitted(q)) && Kahn.ParentsFirst(Waits(q), Emitted(q))
    ensures forall id :: id in Emitted(q) <==> id in Ids(q) && Orderly(q, id)
  {
    var ids := Ids(q);
    var order, rows, sorted := ByPosition(ids), EdgeRows(q, Elems(ids)), Emitted(q);
    EmittedState(q);
    ByPositionHolds(ids);
    var degree := Degrees(order, rows, sorted);
    assert degree.Keys == Elems(order) == Elems(ids);
    Kahn.DrainedEmitsClean(rows, degree, sorted);
  }

  /** The tail is what the loop left behind. */
  lemma SendOrderSplits(q: seq<QueueEntry>)
    ensures var tail := Filter(Ids(q), Elems(Ids(q)) - Elems(Emitted(q)));
      SendOrder(q) == Emitted(q) + tail && CausalSplit(q, Emitted(q), tail)
  {
    EmittedIsOrderly(q);
    LeftoversAreDirty(q, Emitted(q));
  }

  lemma ParentsEmitted(edges: set<(DeltaId, DeltaId)>, sorted: seq<DeltaId>, x: DeltaId)
    requires Kahn.ParentsFirst(edges, sorted) && x in sorted
    ensures ParentsIn(edges, x, sorted)
  {
    var i :| 0 <= i < |sorted| && sorted[i] == x;
    forall p | (p, x) in edges ensures p in sorted {
      assert p in sorted[..i];
    }
  }

  lemma TailIsNotOrderly(q: seq<QueueEntry>, j: nat)
    requires |Emitted(q)| <= j < |SendOrder(q)|
    ensures !Orderly(q, SendOrder(q)[j])
  {
    var tail := Filter(Ids(q), Elems(Ids(q)) - Elems(Emitted(q)));
    SendOrderSplits(q);
    assert SendOrder(q)[j] == tail[j - |Emitted(q)|];
  }

  /** The release of an orderly entry does not depend on the tail. */
  lemma EmittedRelease(q: seq<QueueEntry>, x: DeltaId)
    requires x in Emitted(q)
    ensures Release(Waits(q), SendOrder(q), x) == Release(Waits(q), Emitted(q), x)
  {
    var sorted, tail := Emitted(q), Filter(Ids(q), Elems(Ids(q)) - Elems(Emitted(q)));
    SendOrderSplits(q);
    ParentsEmitted(Waits(q), sorted, x);
    forall k | 0 <= k < |tail| ensures (tail[k], x) !in Waits(q) {
      assert tail[k] !in Elems(sorted);
    }
    ReleaseStays(Waits(q), sorted, tail, x);
  }

  /**
    Of two orderly entries the one released earlier is sent earlier, and of two released together the one
    that was queued first.
   */
  lemma SentInBatches(q: seq<QueueEntry>, i: nat, j: nat)
    requires i < j < |SendOrder(q)| && Orderly(q, SendOrder(q)[i]) && Orderly(q, SendOrder(q)[j])
    ensures var s := SendOrder(q);
      var a, b := Release(Waits(q), s, s[i]), Release(Waits(q), s, s[j]);
      a < b || (a == b && QueuedBefore(Ids(q), s[i], s[j]))
  {
    var s, sorted := SendOrder(q), Emitted(q);
    SendOrderSplits(q);
    if j >= |sorted| {
      TailIsNotOrderly(q, j);
    }
    assert s[i] == sorted[i] && s[j] == sorted[j];
    EmittedState(q);
    EmittedRelease(q, sorted[i]);
    EmittedRelease(q, sorted[j]);
    assert sorted + [] == sorted;
    assert Follows(Waits(q), ByPosition(Ids(q)), sorted, sorted[i], sorted[j]);
    if Earlier(ByPosition(Ids(q)), sorted[i], sorted[j]) {
      PositionsAreQueued(Ids(q), sorted[i], sorted[j]);
    }
  }

  /** No parent of the entry is queued. */
  ghost predicate Free(q: seq<QueueEntry>, id: DeltaId) {
    id in Ids(q) && forall p :: (p, id) !in Waits(q)
  }

  lemma CycleEdge(edges: set<(DeltaId, DeltaId)>, a: DeltaId) returns (u: DeltaId)
    requires OnCycle(edges, a)
    ensures (u, a) in edges
  {
    var p :| |p| >= 2 && PathFromTo(edges, p, a, a);
    u := p[|p| - 2];
    assert (p[|p| - 2], p[|p| - 1]) in edges;
  }

  lemma FreeIsOrderly(q: seq<QueueEntry>, id: DeltaId)
    requires Free(q, id)
    ensures Orderly(q, id)
  {
    var edges := Waits(q);
    forall a | Reaches(edges, a, id) ensures a in Elems(Ids(q)) && !OnCycle(edges, a) {
      if a != id {
        var u := ReachesLastEdge(edges, a, id);
        assert false;
      }
      if OnCycle(edges, id) {
        var u := CycleEdge(edges, id);
        assert false;
      }
    }
  }

  /** Entries that wait for nothing go out in queue order, whatever else is queued. */
  lemma FreeEntriesKeepOrder(q: seq<QueueEntry>, i: nat, j: nat)
    requires i < j < |SendOrder(q)| && Free(q, SendOrder(q)[i]) && Free(q, SendOrder(q)[j])
    ensures QueuedBefore(Ids(q), SendOrder(q)[i], SendOrder(q)[j])
  {
    var s := SendOrder(q);
    FreeIsOrderly(q, s[i]);
    FreeIsOrderly(q, s[j]);
    SentInBatches(q, i, j);
    ReleaseIs(Waits(q), s, s[i], 0);
    ReleaseIs(Waits(q), s, s[j], 0);
  }

  lemma {:induction false} FilterNone<T>(s: seq<T>, keep: set<T>)
    requires keep == {}
    ensures Filter(s, keep) == []
  {
    if s != [] {
      FilterNone(s[1..], keep);
    }
  }

  lemma {:induction false} NoRows(order: seq<DeltaId>, fuel: nat, sorted: seq<DeltaId>, ready: seq<DeltaId>)
    requires |ready| <= fuel
    ensures Emit(order, [], fuel, sorted, ready) == sorted + ready
  {
    if ready == [] {
      assert sorted + ready == sorted;
    } else {
      FilterNone(order, FreedBy([], Elems(sorted + [ready[0]]), ready[0]));
      assert ready[1..] + [] == ready[1..];
      NoRows(order, fuel - 1, sorted + [ready[0]], ready[1..]);
      assert (sorted + [ready[0]]) + ready[1..] == sorted + ready;
    }
  }

  /** A queue in which nothing waits is sent as it stands. */
  lemma SentAsQueued(q: seq<QueueEntry>)
    requires Distinct(q) && forall e, p :: e in q && p in e.parents ==> p !in Ids(q)
    ensures SendOrder(q) == Ids(q)
  {
    var ids := Ids(q);
    DistinctIds(q);
    ByPositionDistinct(ids);
    NothingWaits(q, ids);
    AllReady(ids);
    SendOrderIs(q, ids, ids, [], ids, ids);
    FilterNone(ids, Elems(ids) - Elems(ids));
    assert ids + [] == ids;
  }

  lemma AllReady(ids: seq<DeltaId>)
    ensures Filter(ids, Roots([], ids)) == ids && Emit(ids, [], |ids|, [], ids) == ids
  {
    assert forall n :: n in ids ==> Kahn.Pending([], {}, n) == 0;
    FilterAll(ids, Roots([], ids));
    NoRows(ids, |ids|, [], ids);
    assert [] + ids == ids;
  }

  lemma SendOrderIs(q: seq<QueueEntry>, ids: seq<DeltaId>, order: seq<DeltaId>, rows: seq<(DeltaId, DeltaId)>,
                    ready: seq<DeltaId>, sorted: seq<DeltaId>)
    requires ids == Ids(q) && order == ByPosition(ids) && rows == EdgeRows(q, Elems(ids))
    requires ready == Filter(order, Roots(rows, ids)) && sorted == Emit(order, rows, |order|, [], ready)
    ensures SendOrder(q) == sorted + Filter(ids, Elems(ids) - Elems(sorted))
  {
  }

  lemma NothingWaits(q: seq<QueueEntry>, ids: seq<DeltaId>)
    requires ids == Ids(q) && forall e, p :: e in q && p in e.parents ==> p !in ids
    ensures EdgeRows(q, Elems(ids)) == []
  {
    var rows := EdgeRows(q, Elems(ids));
    EdgeRowsContents(q, Elems(ids));
    if rows != [] {
      NotEmpty(rows);
    }
  }

  lemma NotEmpty<T>(s: seq<T>)
    requires s != []
    ensures Elems(s) != {}
  {
    assert s[0] in Elems(s);
  }
}
