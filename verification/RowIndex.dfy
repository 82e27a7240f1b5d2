/** The row index of the contamination engine: which rows a verification leaves reported. */
module RowIndex {
  import opened Deltas
  import opened Graphs
  import opened Incidents
  import opened IncidentGate
  import opened Sequences

  // ---------------------------------------------------------------------------
  // What the walks leave alone

  ghost predicate SameShape(a: Incident, b: Incident) {
    a.state == b.state && a.roots == b.roots && a.rows == b.rows
  }

  /** No incident came, went or changed its state, roots or rows. */
  ghost predicate ShapeStays(s: Cce, t: Cce) {
    && t.rows == s.rows && t.index == s.index && t.nextId == s.nextId && t.edges == s.edges
    && t.flags.Keys == s.flags.Keys
    && t.incidents.Keys == s.incidents.Keys &&
       (forall i :: i in s.incidents ==> SameShape(s.incidents[i], t.incidents[i]))
    && t.composites.Keys == s.composites.Keys
    && (forall c :: c in s.composites ==>
          t.composites[c].state == s.composites[c].state && t.composites[c].roots == s.composites[c].roots)
  }

  lemma OneSettledStays(s: Cce, manager: Did, root: DeltaId, id: IncidentId)
    ensures ShapeStays(s, Settled(s, manager, root, id))
  {
    if id in s.incidents {
      var ico := s.incidents[id];
      var audited := ico.(audit := ico.audit + [VerifyData(manager, root)]);
      OneIncidentStays(s, Settled(s, manager, root, id), id, audited);
    }
  }

  lemma OneIncidentStays(s: Cce, t: Cce, id: IncidentId, ico: Incident)
    requires id in s.incidents && SameShape(s.incidents[id], ico)
    requires t == s.(incidents := s.incidents[id := ico], tags := t.tags, flags := t.flags) &&
             t.flags.Keys == s.flags.Keys
    ensures ShapeStays(s, t)
  {
  }

  lemma {:induction false} SettledStays(s: Cce, manager: Did, root: DeltaId, ids: seq<IncidentId>)
    ensures ShapeStays(s, SettledAll(s, manager, root, ids))
  {
    if ids != [] {
      var mid := SettledAll(s, manager, root, ids[..|ids| - 1]);
      SettledStays(s, manager, root, ids[..|ids| - 1]);
      OneSettledStays(mid, manager, root, ids[|ids| - 1]);
    }
  }

  lemma {:induction false} LateIncidentsStay(s: Cce, ids: seq<IncidentId>)
    ensures ShapeStays(s, LateIncidents(s, ids))
  {
    if ids != [] {
      LateIncidentsStay(s, ids[..|ids| - 1]);
    }
  }

  lemma {:induction false} LateCompositesStay(s: Cce, ids: seq<IncidentId>)
    ensures ShapeStays(s, LateComposites(s, ids))
  {
    if ids != [] {
      LateCompositesStay(s, ids[..|ids| - 1]);
    }
  }

  lemma WalksStay(s: Cce, manager: Did, root: DeltaId, order: Order)
    requires GateInv(s)
    ensures var g := StagesOf(s, manager, root, order);
      ShapeStays(s, g.walkedAll) && SameResolved(g.resolved.tags, g.walkedAll.tags)
  {
    var g := StagesOf(s, manager, root, order);
    SettledStays(g.resolved, manager, root, order.incidents);
    LateIncidentsStay(g.settled, order.incidents);
    LateCompositesStay(g.walked, order.openComposites);
    StagesKeep(s, manager, root, order);
  }

  // ---------------------------------------------------------------------------
  // What decomposition adds

  /** An incident of one unresolved root, holding every row. */
  ghost predicate Survivor(s: Cce, ico: Incident) {
    ico.state == Open && |ico.roots| == 1 && !HasResolved(s.tags, ico.roots[0]) && RowKeys(ico.rows) == Elems(s.rows)
  }

  ghost function Numbers(from: nat, end: nat): (ids: set<IncidentId>)
    ensures forall i :: i in ids <==> from <= i.n < end
  {
    var ids := set n: nat | from <= n < end :: IncidentId(n);
    assert forall i: IncidentId :: from <= i.n < end ==> i == IncidentId(i.n);
    ids
  }

  /** From `s` to `t`, survivors were numbered from the counter on, and nothing else came. */
  ghost predicate Registers(s: Cce, t: Cce) {
    && s.nextId <= t.nextId && t.tags == s.tags && t.rows == s.rows && t.index == s.index && t.edges == s.edges
    && t.incidents.Keys == s.incidents.Keys + Numbers(s.nextId, t.nextId)
    && (forall i :: i in s.incidents ==> t.incidents[i] == s.incidents[i])
    && (forall n :: s.nextId <= n < t.nextId ==> Survivor(s, t.incidents[IncidentId(n)]))
  }

  /** Every projected row is flagged once a survivor is registered, and no flag changes before. */
  ghost predicate FlagsRaised(s: Cce, t: Cce) {
    t.flags == if t.nextId > s.nextId then SetFlags(s.flags, Elems(s.rows), true) else s.flags
  }

  lemma RegisterOne(s: Cce, t: Cce, root: DeltaId)
    requires Numbered(s) && Registers(s, t) && FlagsRaised(s, t) && !HasResolved(s.tags, root)
    ensures var u := Reregistered(t, root);
      Registers(s, u) && FlagsRaised(s, u) && u.composites == t.composites
  {
    AffectedRowKeys(t.rows, root);
    var u := Reregistered(t, root);
    var ico := u.incidents[IncidentId(t.nextId)];
    assert Survivor(s, ico);
    assert u.incidents == t.incidents[IncidentId(t.nextId) := ico];
    assert Numbers(s.nextId, u.nextId) == Numbers(s.nextId, t.nextId) + {IncidentId(t.nextId)};
  }

  lemma {:induction false} RegisterMany(s: Cce, t: Cce, roots: seq<DeltaId>)
    requires Numbered(s) && Registers(s, t) && FlagsRaised(s, t)
    requires forall r :: r in roots ==> !HasResolved(s.tags, r)
    ensures var u := ReregisteredAll(t, roots);
      Registers(s, u) && FlagsRaised(s, u) && u.composites == t.composites && u.nextId == t.nextId + |roots|
  {
    if roots != [] {
      RegisterMany(s, t, roots[..|roots| - 1]);
      assert roots[|roots| - 1] in roots;
      RegisterOne(s, ReregisteredAll(t, roots[..|roots| - 1]), roots[|roots| - 1]);
    }
  }

  /** Some composite of `ids` has a root that is not resolved. */
  ghost predicate LeavesSurvivor(s: Cce, ids: seq<IncidentId>) {
    exists c :: c in ids && c in s.composites && !AllResolved(s.tags, s.composites[c].roots)
  }

  /** Exactly the composites of `ids` are decomposed. */
  ghost predicate DecomposedExactly(s: Cce, t: Cce, ids: seq<IncidentId>) {
    && t.composites.Keys == s.composites.Keys
    && forall c :: c in s.composites ==>
         && t.composites[c].roots == s.composites[c].roots
         && t.composites[c].state == if c in ids then Decomposed else s.composites[c].state
  }

  lemma DecomposeRegisters(s: Cce, t: Cce, id: IncidentId)
    requires Numbered(s) && Registers(s, t) && FlagsRaised(s, t)
    ensures var u := Decompose(t, id);
      && Registers(s, u) && FlagsRaised(s, u)
      && (id !in t.composites ==> u == t)
      && (id in t.composites ==>
            && u.composites == t.composites[id := t.composites[id].(state := Decomposed)]
            && t.nextId <= u.nextId && (u.nextId == t.nextId <==> AllResolved(s.tags, t.composites[id].roots)))
  {
    if id in t.composites {
      var c := t.composites[id];
      var mid, left := t.(composites := t.composites[id := c.(state := Decomposed)]), Unresolved(t.tags, c.roots);
      RegisterMany(s, mid, left);
      if left == [] {
        forall r | r in c.roots ensures HasResolved(s.tags, r) {
          assert r in (set x | x in c.roots && !HasResolved(t.tags, x)) ==> r in left;
        }
      } else {
        assert left[0] in c.roots && !HasResolved(s.tags, left[0]);
      }
    }
  }

  lemma {:induction false} DecomposeAllRegisters(s: Cce, ids: seq<IncidentId>)
    requires Numbered(s)
    ensures var t := DecomposeAll(s, ids);
      && Registers(s, t) && FlagsRaised(s, t) && DecomposedExactly(s, t, ids)
      && (t.nextId > s.nextId <==> LeavesSurvivor(s, ids))
  {
    if ids != [] {
      var init, last := ids[..|ids| - 1], ids[|ids| - 1];
      var mid := DecomposeAll(s, init);
      DecomposeAllRegisters(s, init);
      DecomposeRegisters(s, mid, last);
      assert ids == init + [last];
      LeavesSurvivorPush(s, init, last);
      DecomposedPush(s, mid, DecomposeAll(s, ids), init, last);
    }
  }

  lemma LeavesSurvivorPush(s: Cce, init: seq<IncidentId>, last: IncidentId)
    ensures LeavesSurvivor(s, init + [last]) <==>
            LeavesSurvivor(s, init) || (last in s.composites && !AllResolved(s.tags, s.composites[last].roots))
  {
    assert last in init + [last];
    if c :| c in init && c in s.composites && !AllResolved(s.tags, s.composites[c].roots) {
      assert c in init + [last];
    }
  }

  lemma DecomposedPush(s: Cce, t: Cce, u: Cce, init: seq<IncidentId>, last: IncidentId)
    requires DecomposedExactly(s, t, init)
    requires u.composites ==
             if last in t.composites then t.composites[last := t.composites[last].(state := Decomposed)]
             else t.composites
    ensures DecomposedExactly(s, u, init + [last])
  {
  }

  // ---------------------------------------------------------------------------
  // The new index

  lemma {:induction false} IndexNewHolds(s: Cce, from: nat, end: nat, keys: set<RowKey>)
    requires forall n :: from <= n < end ==>
             IncidentId(n) in s.incidents && RowKeys(s.incidents[IncidentId(n)].rows) == keys
    ensures end <= from ==> IndexNew(s, from, end) == s.index
    ensures from < end ==> IndexNew(s, from, end) == s.index + map k | k in keys :: IncidentId(end - 1)
    decreases end
  {
    if from < end {
      IndexNewHolds(s, from, end - 1, keys);
      if from < end - 1 {
        PointToTwice(s.index, keys, IncidentId(end - 2), IncidentId(end - 1));
      }
    }
  }

  lemma PointToTwice(index: map<RowKey, IncidentId>, keys: set<RowKey>, a: IncidentId, b: IncidentId)
    ensures index + (map k | k in keys :: a) + (map k | k in keys :: b) == index + map k | k in keys :: b
  {
  }

  /** The incident of a row still taints it once `root` is resolved: open, unresolved, and not a composite of `root`. */
  predicate StillTaints(s: Cce, resolved: TagLogs, root: DeltaId, id: IncidentId) {
    if id in s.incidents then s.incidents[id].state == Open && !AllResolved(resolved, s.incidents[id].roots)
    else
      && id in s.composites && s.composites[id].state == Open && root !in s.composites[id].roots
      && !AllResolved(resolved, s.composites[id].roots)
  }

  /** Some composite of `root`, in whatever state, has another root that is not resolved. */
  predicate RootsSurvive(s: Cce, resolved: TagLogs, root: DeltaId) {
    exists c :: c in s.composites && root in s.composites[c].roots && !AllResolved(resolved, s.composites[c].roots)
  }

  ghost predicate IndexedBelow(s: Cce) {
    forall k :: k in s.index ==> s.index[k].n < s.nextId
  }

  /** What a verification changes in the registers, in terms of the state before it. */
  lemma ResolutionRegisters(s: Cce, manager: Did, root: DeltaId, order: Order)
    requires GateInv(s) && OrderFits(s, root, order)
    ensures var r, w := Resolution(s, manager, root, order), StagesOf(s, manager, root, order).walkedAll;
      && ShapeStays(s, w) && Registers(w, r) && FlagsRaised(w, r) && DecomposedExactly(w, r, order.composites)
      && SameResolved(Append(s.tags, {root}, Resolved(manager)), r.tags)
      && (r.nextId > s.nextId <==> RootsSurvive(s, Append(s.tags, {root}, Resolved(manager)), root))
  {
    var g := StagesOf(s, manager, root, order);
    StagesKeep(s, manager, root, order);
    WalksStay(s, manager, root, order);
    DecomposeAllRegisters(g.walkedAll, order.composites);
    SurvivorsMatch(s, g.walkedAll, g.resolved.tags, root, order);
  }

  lemma SurvivorsMatch(s: Cce, w: Cce, resolved: TagLogs, root: DeltaId, order: Order)
    requires OrderFits(s, root, order) && ShapeStays(s, w) && SameResolved(resolved, w.tags)
    ensures LeavesSurvivor(w, order.composites) <==> RootsSurvive(s, resolved, root)
  {
    forall c | c in s.composites ensures c in order.composites <==> root in s.composites[c].roots {
      assert c in order.composites <==> c in Elems(order.composites);
    }
    forall c | c in s.composites
      ensures AllResolved(w.tags, w.composites[c].roots) == AllResolved(resolved, s.composites[c].roots)
    {
      SameAllResolved(resolved, w.tags, s.composites[c].roots);
    }
    if c :| c in s.composites && root in s.composites[c].roots && !AllResolved(resolved, s.composites[c].roots) {
      assert c in order.composites;
    }
  }

  lemma ActiveMatches(s: Cce, w: Cce, r: Cce, resolved: TagLogs, root: DeltaId, order: Order, id: IncidentId)
    requires Numbered(s) && OrderFits(s, root, order) && id.n < s.nextId
    requires ShapeStays(s, w) && Registers(w, r) && DecomposedExactly(w, r, order.composites) &&
             SameResolved(resolved, r.tags)
    ensures Active(r, id) <==> StillTaints(s, resolved, root, id)
  {
    assert id !in Numbers(w.nextId, r.nextId);
    if id in s.incidents {
      SameAllResolved(resolved, r.tags, s.incidents[id].roots);
    } else if id in s.composites {
      SameAllResolved(resolved, r.tags, s.composites[id].roots);
      assert id in order.composites <==> id in Elems(order.composites);
    }
  }

  lemma NewIsActive(w: Cce, r: Cce, n: nat)
    requires Registers(w, r) && w.nextId <= n < r.nextId && SameResolved(w.tags, r.tags)
    ensures IncidentId(n) in r.incidents && Active(r, IncidentId(n)) &&
            RowKeys(r.incidents[IncidentId(n)].rows) == Elems(w.rows)
  {
    assert IncidentId(n) in Numbers(w.nextId, r.nextId);
    var ico := r.incidents[IncidentId(n)];
    assert Survivor(w, ico) && ico.roots[0] in ico.roots;
  }

  lemma ActiveIgnoresIndex(s: Cce, index: map<RowKey, IncidentId>, id: IncidentId)
    ensures Active(s.(index := index), id) == Active(s, id)
  {
  }

  /**
    After a verification a row is reported exactly when a root survives in a composite of the
    verified root and the row exists, or the incident in the row's slot still taints it.  Every entry
    names an open incident with an unresolved root.
   */
  lemma ReportedAfterVerify(s: Cce, manager: Did, root: DeltaId, order: Order, k: RowKey)
    requires GateInv(s) && IndexedBelow(s) && OrderFits(s, root, order)
    ensures var s', resolved := Verified(s, manager, root, order), Append(s.tags, {root}, Resolved(manager));
      && (k in s'.index <==>
            || (RootsSurvive(s, resolved, root) && k in s.rows)
            || (k in s.index && StillTaints(s, resolved, root, s.index[k])))
      && (k in s'.index ==> Active(s', s'.index[k]))
  {
    var r, w := Resolution(s, manager, root, order), StagesOf(s, manager, root, order).walkedAll;
    var s', resolved := Verified(s, manager, root, order), Append(s.tags, {root}, Resolved(manager));
    ResolutionRegisters(s, manager, root, order);
    NewAreActive(s, w, r);
    PrunedIndex(r, s.nextId, Elems(s.rows), k);
    assert s'.index == Pruned(r, IndexNew(r, s.nextId, r.nextId));
    if k in s.index {
      ActiveMatches(s, w, r, resolved, root, order, s.index[k]);
    }
    if k in s'.index {
      ActiveIgnoresIndex(r, s'.index, s'.index[k]);
    }
  }

  lemma NewAreActive(s: Cce, w: Cce, r: Cce)
    requires Registers(w, r) && ShapeStays(s, w) && SameResolved(w.tags, r.tags)
    ensures forall n :: s.nextId <= n < r.nextId ==>
      IncidentId(n) in r.incidents && Active(r, IncidentId(n)) &&
          RowKeys(r.incidents[IncidentId(n)].rows) == Elems(s.rows)
  {
    forall n | s.nextId <= n < r.nextId
      ensures IncidentId(n) in r.incidents && Active(r, IncidentId(n)) &&
              RowKeys(r.incidents[IncidentId(n)].rows) == Elems(s.rows)
    {
      NewIsActive(w, r, n);
    }
  }

  lemma PrunedIndex(r: Cce, from: nat, keys: set<RowKey>, k: RowKey)
    requires forall n :: from <= n < r.nextId ==>
      IncidentId(n) in r.incidents && Active(r, IncidentId(n)) && RowKeys(r.incidents[IncidentId(n)].rows) == keys
    ensures var index := Pruned(r, IndexNew(r, from, r.nextId));
      && (k in index <==> (from < r.nextId && k in keys) || (k in r.index && Active(r, r.index[k])))
      && (k in index ==> Active(r, index[k]))
  {
    IndexNewHolds(r, from, r.nextId, keys);
    if from < r.nextId {
      assert Active(r, IncidentId(r.nextId - 1));
    }
  }

  // ---------------------------------------------------------------------------
  // The flags

  /** Some incident of `ids` with all its roots resolved holds the row. */
  ghost predicate Clears(s: Cce, ids: seq<IncidentId>, k: RowKey) {
    exists i :: i in ids && ClearsRow(s, s.tags, i, k)
  }

  ghost predicate ClearsRow(s: Cce, resolved: TagLogs, i: IncidentId, k: RowKey) {
    i in s.incidents && AllResolved(resolved, s.incidents[i].roots) && k in RowKeys(s.incidents[i].rows)
  }

  lemma {:induction false} SettledFlags(s: Cce, manager: Did, root: DeltaId, ids: seq<IncidentId>, k: RowKey)
    requires GateInv(s) && k in s.flags
    ensures var t := SettledAll(s, manager, root, ids);
      k in t.flags && t.flags[k] == (s.flags[k] && !Clears(s, ids, k))
  {
    if ids != [] {
      var init, last := ids[..|ids| - 1], ids[|ids| - 1];
      var mid := SettledAll(s, manager, root, init);
      SettledFlags(s, manager, root, init, k);
      SettledStays(s, manager, root, init);
      SettledAllKeeps(s, manager, root, init);
      if last in s.incidents {
        SameAllResolved(s.tags, mid.tags, s.incidents[last].roots);
      }
      ClearsPush(s, init, last, k);
      assert ids == init + [last];
    }
  }

  lemma ClearsPush(s: Cce, init: seq<IncidentId>, last: IncidentId, k: RowKey)
    ensures Clears(s, init + [last], k) <==> Clears(s, init, k) || ClearsRow(s, s.tags, last, k)
  {
    var ids := init + [last];
    assert last in ids;
    if i :| i in init && ClearsRow(s, s.tags, i, k) {
      assert i in ids;
    }
  }

  lemma {:induction false} LateFlags(s: Cce, incidents: seq<IncidentId>, composites: seq<IncidentId>)
    ensures LateComposites(LateIncidents(s, incidents), composites).flags == s.flags
  {
    if composites != [] {
      LateFlags(s, incidents, composites[..|composites| - 1]);
    } else if incidents != [] {
      LateFlags(s, incidents[..|incidents| - 1], []);
    }
  }

  /** Some incident of the verified root has all its roots resolved by the verification and holds the row. */
  ghost predicate VerificationClears(s: Cce, resolved: TagLogs, root: DeltaId, k: RowKey) {
    exists i :: i in s.incidents && root in s.incidents[i].roots && ClearsRow(s, resolved, i, k)
  }

  /**
    The flag of a row after a verification: raised if a root survives and the row is projected,
    else cleared if an incident that the verification resolves holds the row, whatever other
    incidents hold it too, else as it was.
   */
  lemma FlagAfterVerify(s: Cce, manager: Did, root: DeltaId, order: Order, k: RowKey)
    requires GateInv(s) && OrderFits(s, root, order) && k in s.flags
    ensures var s', resolved := Verified(s, manager, root, order), Append(s.tags, {root}, Resolved(manager));
      && k in s'.flags
      && s'.flags[k] == ((RootsSurvive(s, resolved, root) && k in s.rows) ||
                         (s.flags[k] && !VerificationClears(s, resolved, root, k)))
  {
    var g := StagesOf(s, manager, root, order);
    ResolvingKeeps(s, root, manager);
    ResolutionRegisters(s, manager, root, order);
    SettledFlags(g.resolved, manager, root, order.incidents, k);
    LateFlags(g.settled, order.incidents, order.openComposites);
    forall i | i in s.incidents ensures i in order.incidents <==> root in s.incidents[i].roots {
      assert i in order.incidents <==> i in Elems(order.incidents);
    }
    if VerificationClears(s, g.resolved.tags, root, k) {
      var i :| i in s.incidents && root in s.incidents[i].roots && ClearsRow(s, g.resolved.tags, i, k);
      assert ClearsRow(g.resolved, g.resolved.tags, i, k);
    }
    if Clears(g.resolved, order.incidents, k) {
      var i :| i in order.incidents && ClearsRow(g.resolved, g.resolved.tags, i, k);
      assert ClearsRow(s, g.resolved.tags, i, k);
    }
  }

  /** When a root survives, every projected row is flagged again, whatever was cleared on the way. */
  lemma SurvivorsKeepFlags(s: Cce, manager: Did, root: DeltaId, order: Order, k: RowKey)
    requires GateInv(s) && OrderFits(s, root, order)
    requires RootsSurvive(s, Append(s.tags, {root}, Resolved(manager)), root)
    requires k in s.rows && k in s.flags
    ensures var s' := Verified(s, manager, root, order); k in s'.flags && s'.flags[k]
  {
    ResolutionRegisters(s, manager, root, order);
  }

  // ---------------------------------------------------------------------------
  // Every run

  lemma {:induction false} IndexNewBelow(s: Cce, from: nat, end: nat, k: RowKey)
    requires k in s.index ==> s.index[k].n < s.nextId
    requires end <= s.nextId
    ensures k in IndexNew(s, from, end) ==> IndexNew(s, from, end)[k].n < s.nextId
    decreases end
  {
    if from < end {
      IndexNewBelow(s, from, end - 1, k);
    }
  }

  lemma VerifyKeepsIndex(s: Cce, s': Cce, manager: Did, root: DeltaId, order: Order)
    requires GateInv(s) && IndexedBelow(s) && Verifies(s, s', manager, root, order)
    ensures IndexedBelow(s')
  {
    var r := Resolution(s, manager, root, order);
    ResolutionRegisters(s, manager, root, order);
    forall k | k in s'.index ensures s'.index[k].n < s'.nextId {
      IndexNewBelow(r, s.nextId, r.nextId, k);
    }
  }

  lemma TagKeepsIndex(s: Cce, s': Cce, root: DeltaId, overlap: Option<IncidentId>)
    requires IndexedBelow(s) && Tags(s, s', root, overlap)
    ensures IndexedBelow(s')
  {
  }

  lemma StepKeepsIndex(s: Cce, s': Cce)
    requires GateInv(s) && IndexedBelow(s) && Step(s, s')
    ensures IndexedBelow(s')
  {
    if root, overlap :| Tags(s, s', root, overlap) {
      TagKeepsIndex(s, s', root, overlap);
    } else if manager, root, order :| Verifies(s, s', manager, root, order) {
      VerifyKeepsIndex(s, s', manager, root, order);
    }
  }

  /** In every reachable state the two preconditions of the results above hold. */
  lemma {:induction false} RunKeepsIndex(run: seq<Cce>)
    requires IsRun(run)
    ensures GateInv(run[|run| - 1]) && IndexedBelow(run[|run| - 1])
  {
    RunGrows(run, 0);
    if |run| > 1 {
      RunKeepsIndex(run[..|run| - 1]);
      StepKeepsIndex(run[|run| - 2], run[|run| - 1]);
    }
  }

  // ---------------------------------------------------------------------------
  // One slot for each row

  lemma SlotIsResolved(s: Cce, resolved: TagLogs, manager: Did, root: DeltaId, id: IncidentId)
    requires resolved == Append(s.tags, {root}, Resolved(manager)) && root in s.tags
    requires id in s.incidents && s.incidents[id].roots == [root]
    ensures !StillTaints(s, resolved, root, id)
  {
    assert Resolved(manager) in resolved[root];
  }

  /** An open incident with an unresolved root other than the verified one stays active. */
  lemma EarlierStaysActive(s: Cce, manager: Did, root: DeltaId, order: Order, earlier: IncidentId, r: DeltaId)
    requires GateInv(s) && OrderFits(s, root, order)
    requires earlier in s.incidents && Active(s, earlier)
    requires r in s.incidents[earlier].roots && r != root && !HasResolved(s.tags, r)
    ensures var s' := Verified(s, manager, root, order);
      earlier in s'.incidents && Active(s', earlier) && s'.incidents[earlier].rows == s.incidents[earlier].rows
  {
    var s', resolved := Verified(s, manager, root, order), Append(s.tags, {root}, Resolved(manager));
    var w, done := StagesOf(s, manager, root, order).walkedAll, Resolution(s, manager, root, order);
    VerifiesKeeps(s, s', manager, root, order);
    assert !HasResolved(resolved, r);
    ResolutionRegisters(s, manager, root, order);
    ActiveMatches(s, w, done, resolved, root, order, earlier);
    ActiveIgnoresIndex(done, s'.index, earlier);
  }

  /** Verifying the incident in a row's slot hides the row, though an earlier incident still taints it. */
  lemma VerifyHidesSharedRow(s: Cce, manager: Did, root: DeltaId, order: Order, earlier: IncidentId, r: DeltaId,
                             k: RowKey)
    requires GateInv(s) && IndexedBelow(s) && OrderFits(s, root, order) && s.composites == map[]
    requires earlier in s.incidents && Active(s, earlier) && k in RowKeys(s.incidents[earlier].rows)
    requires r in s.incidents[earlier].roots && r != root && !HasResolved(s.tags, r)
    requires k in s.index && s.index[k] in s.incidents && s.incidents[s.index[k]].roots == [root] && root in s.tags
    ensures var s' := Verified(s, manager, root, order);
      && earlier in s'.incidents && Active(s', earlier) && k in RowKeys(s'.incidents[earlier].rows)
      && k !in s'.index
  {
    SlotIsResolved(s, Append(s.tags, {root}, Resolved(manager)), manager, root, s.index[k]);
    ReportedAfterVerify(s, manager, root, order, k);
    EarlierStaysActive(s, manager, root, order, earlier, r);
  }

  /** Verifying it also clears the flag of the row. */
  lemma VerifyUnflagsSharedRow(s: Cce, manager: Did, root: DeltaId, order: Order, k: RowKey)
    requires GateInv(s) && OrderFits(s, root, order) && s.composites == map[] && k in s.flags
    requires k in s.index && s.index[k] in s.incidents && s.incidents[s.index[k]].roots == [root] && root in s.tags
    requires k in RowKeys(s.incidents[s.index[k]].rows)
    ensures var s' := Verified(s, manager, root, order); k in s'.flags && !s'.flags[k]
  {
    var resolved, id := Append(s.tags, {root}, Resolved(manager)), s.index[k];
    SlotIsResolved(s, resolved, manager, root, id);
    assert Resolved(manager) in resolved[root];
    assert root in s.incidents[id].roots && ClearsRow(s, resolved, id, k);
    FlagAfterVerify(s, manager, root, order, k);
  }

  lemma LonelyRoot(root: DeltaId)
    ensures Descendants({}, root) == {root}
  {
    DescendantOf({}, root, root) by {
      ReachesSelf({}, root);
    }
    var none: set<(DeltaId, DeltaId)> := {};
    assert forall x :: x in Descendants(none, root) ==> x in {root} + (set e | e in none :: e.1);
  }

  /** Two unrelated deltas and one projected row: nothing tagged, the first tagged, both tagged. */
  ghost predicate NoneTagged(s: Cce, a: DeltaId, b: DeltaId, k: RowKey) {
    s == Cce({}, map[a := [], b := []], map[], map[], map[], [k], map[k := false], 0)
  }

  ghost predicate OneTagged(s: Cce, a: DeltaId, b: DeltaId, k: RowKey) {
    s == Cce({}, map[a := [Contaminated(a, IncidentId(0))], b := []],
             map[IncidentId(0) := Incident(Open, [a], {a}, [AffectedRow(k, a)], [])], map[],
             map[k := IncidentId(0)], [k], map[k := true], 1)
  }

  ghost predicate BothTagged(s: Cce, a: DeltaId, b: DeltaId, k: RowKey) {
    var first, second := IncidentId(0), IncidentId(1);
    s == Cce({}, map[a := [Contaminated(a, first)], b := [Contaminated(b, second)]],
             map[first := Incident(Open, [a], {a}, [AffectedRow(k, a)], []),
                 second := Incident(Open, [b], {b}, [AffectedRow(k, b)], [])],
             map[], map[k := second], [k], map[k := true], 2)
  }

  lemma ThreeStates(a: DeltaId, b: DeltaId, k: RowKey) returns (s0: Cce, s1: Cce, s2: Cce)
    requires a != b
    ensures NoneTagged(s0, a, b, k) && OneTagged(s1, a, b, k) && BothTagged(s2, a, b, k)
  {
    var first, second := IncidentId(0), IncidentId(1);
    var ofA, ofB := Incident(Open, [a], {a}, [AffectedRow(k, a)], []),
        Incident(Open, [b], {b}, [AffectedRow(k, b)], []);
    s0 := Cce({}, map[a := [], b := []], map[], map[], map[], [k], map[k := false], 0);
    s1 := s0.(tags := map[a := [Contaminated(a, first)], b := []], incidents := map[first := ofA],
              index := map[k := first], flags := map[k := true], nextId := 1);
    s2 := s1.(tags := map[a := [Contaminated(a, first)], b := [Contaminated(b, second)]],
              incidents := map[first := ofA, second := ofB], index := map[k := second], nextId := 2);
  }

  lemma FirstRoot(s0: Cce, s1: Cce, a: DeltaId, b: DeltaId, k: RowKey)
    requires a != b && NoneTagged(s0, a, b, k) && OneTagged(s1, a, b, k)
    ensures Tags(s0, s1, a, None) && Init(s0)
  {
    LonelyRoot(a);
    OneRow(k, a);
    FirstTaint(s0, s1, a, b, k);
    assert Overlapping(s0.incidents, {a}) == {};
    assert NewIncident(s0, a) == s1.incidents[IncidentId(0)];
    assert PointTo(s0.index, [AffectedRow(k, a)], IncidentId(0)) == s1.index;
  }

  lemma FirstTaint(s0: Cce, s1: Cce, a: DeltaId, b: DeltaId, k: RowKey)
    requires a != b && NoneTagged(s0, a, b, k) && OneTagged(s1, a, b, k)
    ensures s1.tags == Append(s0.tags, {a}, Contaminated(a, IncidentId(0))) && s1.flags == SetFlags(s0.flags, {k}, true)
  {
    assert [] + [Contaminated(a, IncidentId(0))] == [Contaminated(a, IncidentId(0))];
  }

  lemma SecondTaint(s1: Cce, s2: Cce, a: DeltaId, b: DeltaId, k: RowKey)
    requires a != b && OneTagged(s1, a, b, k) && BothTagged(s2, a, b, k)
    ensures s2.tags == Append(s1.tags, {b}, Contaminated(b, IncidentId(1))) && s2.flags == SetFlags(s1.flags, {k}, true)
  {
    assert [] + [Contaminated(b, IncidentId(1))] == [Contaminated(b, IncidentId(1))];
  }

  lemma SecondRoot(s1: Cce, s2: Cce, a: DeltaId, b: DeltaId, k: RowKey)
    requires a != b && OneTagged(s1, a, b, k) && BothTagged(s2, a, b, k)
    ensures Tags(s1, s2, b, None)
  {
    LonelyRoot(b);
    OneRow(k, b);
    SecondTaint(s1, s2, a, b, k);
    assert NewIncident(s1, b) == Incident(Open, [b], {b}, [AffectedRow(k, b)], []);
  }

  lemma OneRow(k: RowKey, d: DeltaId)
    ensures AffectedRows([k], d) == [AffectedRow(k, d)] && RowKeys(AffectedRows([k], d)) == {k}
  {
    AffectedRowKeys([k], d);
  }

  lemma BothTaggedMeets(s: Cce, a: DeltaId, b: DeltaId, k: RowKey, order: Order)
    requires a != b && BothTagged(s, a, b, k) && order == Order([IncidentId(1)], [], [])
    ensures OrderFits(s, b, order) && s.composites == map[] && b in s.tags && k in s.index &&
            s.index[k] == IncidentId(1)
    ensures s.incidents.Keys == {IncidentId(0), IncidentId(1)} && s.incidents[IncidentId(1)].roots == [b]
    ensures Active(s, IncidentId(0)) && s.incidents[IncidentId(0)].roots == [a] && !HasResolved(s.tags, a)
    ensures k in RowKeys(s.incidents[IncidentId(0)].rows) && k in RowKeys(s.incidents[IncidentId(1)].rows) &&
            k in s.flags
  {
    assert AffectedRow(k, b) in s.incidents[IncidentId(1)].rows;
    assert Elems(order.incidents) == {IncidentId(1)};
    assert !HasResolved(s.tags, a) && a in s.incidents[IncidentId(0)].roots;
    assert AffectedRow(k, a) in s.incidents[IncidentId(0)].rows;
  }

  /** Two unrelated roots, one row: verifying the second leaves the row of the first unreported. */
  lemma TwoRootsShareOneRow(a: DeltaId, b: DeltaId, k: RowKey, manager: Did) returns (run: seq<Cce>, s': Cce)
    requires a != b
    ensures IsRun(run) && Verifies(run[|run| - 1], s', manager, b, Order([IncidentId(1)], [], []))
    ensures IncidentId(0) in s'.incidents && Active(s', IncidentId(0))
    ensures k in RowKeys(s'.incidents[IncidentId(0)].rows) && k !in s'.index && k in s'.flags && !s'.flags[k]
  {
    var order := Order([IncidentId(1)], [], []);
    var s0, s1, s2 := ThreeStates(a, b, k);
    FirstRoot(s0, s1, a, b, k);
    SecondRoot(s1, s2, a, b, k);
    run := [s0, s1, s2];
    assert Step(s0, s1) && Step(s1, s2);
    RunKeepsIndex(run);
    BothTaggedMeets(s2, a, b, k, order);
    assert a in s2.incidents[IncidentId(0)].roots;
    VerifyHidesSharedRow(s2, manager, b, order, IncidentId(0), a, k);
    VerifyUnflagsSharedRow(s2, manager, b, order, k);
    s' := Verified(s2, manager, b, order);
  }
}
