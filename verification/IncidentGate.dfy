/**
  Runs of the contamination engine: logs only grow, a decontamination needs every root resolved, and
  resolving every root of an incident decontaminates all that descends from them.
 */
module IncidentGate {
  import opened Deltas
  import opened Graphs
  import opened Incidents
  import opened Sequences

  // ---------------------------------------------------------------------------
  // Runs

  /** Deltas arrive and rows are projected; stored deltas keep their logs. */
  ghost predicate Grows(s: Cce, s': Cce) {
    && s.edges <= s'.edges && s.tags.Keys <= s'.tags.Keys
    && (forall d :: d in s'.tags ==> s'.tags[d] == if d in s.tags then s.tags[d] else [])
    && s' == s.(edges := s'.edges, tags := s'.tags, rows := s'.rows, flags := s'.flags)
  }

  ghost predicate Tags(s: Cce, s': Cce, root: DeltaId, overlap: Option<IncidentId>) {
    && (overlap.Some? ==> overlap.value in Overlapping(s.incidents, Descendants(s.edges, root)))
    && (overlap.None? ==> Overlapping(s.incidents, Descendants(s.edges, root)) == {})
    && s' == Tagged(s, root, overlap)
  }

  ghost predicate Verifies(s: Cce, s': Cce, manager: Did, root: DeltaId, order: Order) {
    OrderFits(s, root, order) && s' == Verified(s, manager, root, order)
  }

  ghost predicate Step(s: Cce, s': Cce) {
    || Grows(s, s')
    || (exists root, overlap :: Tags(s, s', root, overlap))
    || (exists manager, root, order :: Verifies(s, s', manager, root, order))
    || (exists id, manager :: s' == ClosedIncident(s, id, manager))
  }

  /** A run starts without incidents and without tags. */
  ghost predicate Init(s: Cce) {
    && s.incidents == map[] && s.composites == map[] && s.index == map[] && s.nextId == 0
    && forall d :: d in s.tags ==> s.tags[d] == []
  }

  ghost predicate IsRun(run: seq<Cce>) {
    run != [] && Init(run[0]) && forall i :: 0 <= i < |run| - 1 ==> Step(run[i], run[i + 1])
  }

  // ---------------------------------------------------------------------------
  // What every step keeps

  type Roots = map<IncidentId, seq<DeltaId>>

  ghost function RootsOf(s: Cce): Roots {
    (map i | i in s.incidents :: s.incidents[i].roots) + (map c | c in s.composites :: s.composites[c].roots)
  }

  /** Ids come from the counter, and no id names both an incident and a composite. */
  ghost predicate Numbered(s: Cce) {
    && (forall i :: i in s.incidents ==> i.n < s.nextId && i !in s.composites)
    && (forall c :: c in s.composites ==> c.n < s.nextId)
  }

  /** Tags name known incidents, and a decontamination one whose roots are all resolved. */
  ghost predicate Gate(tags: TagLogs, roots: Roots) {
    forall d, k :: d in tags && 0 <= k < |tags[d]| ==> Justified(tags, roots, tags[d][k])
  }

  ghost predicate Justified(tags: TagLogs, roots: Roots, tag: Tag) {
    && (tag.Contaminated? ==> tag.incident in roots)
    && (tag.Decontaminated? ==> tag.incident in roots && AllResolved(tags, roots[tag.incident]))
  }

  ghost predicate GateInv(s: Cce) {
    Numbered(s) && Gate(s.tags, RootsOf(s))
  }

  /** Every log of `a` is a beginning of the same log in `b`. */
  ghost predicate LogsExtend(a: TagLogs, b: TagLogs) {
    forall d :: d in a ==> d in b && a[d] <= b[d]
  }

  /** Logs and audits only grow; no incident is lost, changes its roots or sheds a delta. */
  ghost predicate Extends(s: Cce, s': Cce) {
    && LogsExtend(s.tags, s'.tags) && s.edges <= s'.edges && s.nextId <= s'.nextId
    && IncidentsExtend(s.incidents, s'.incidents) && CompositesExtend(s.composites, s'.composites)
  }

  ghost predicate IncidentsExtend(a: map<IncidentId, Incident>, b: map<IncidentId, Incident>) {
    forall i :: i in a ==> i in b && IncidentExtends(a[i], b[i])
  }

  ghost predicate CompositesExtend(a: map<IncidentId, Composite>, b: map<IncidentId, Composite>) {
    forall c :: c in a ==> c in b && CompositeExtends(a[c], b[c])
  }

  ghost predicate IncidentExtends(a: Incident, b: Incident) {
    a.roots == b.roots && a.deltas <= b.deltas && a.audit <= b.audit && a.rows == b.rows
  }

  ghost predicate CompositeExtends(a: Composite, b: Composite) {
    a.sources == b.sources && a.roots == b.roots && a.deltas <= b.deltas && a.rows == b.rows
  }

  ghost predicate Kept(s: Cce, s': Cce) {
    GateInv(s') && Extends(s, s')
  }

  lemma LogsExtendTransitive(a: TagLogs, b: TagLogs, c: TagLogs)
    requires LogsExtend(a, b) && LogsExtend(b, c)
    ensures LogsExtend(a, c)
  {
  }

  lemma ExtendsTransitive(s: Cce, t: Cce, u: Cce)
    requires Extends(s, t) && Extends(t, u)
    ensures Extends(s, u)
  {
    LogsExtendTransitive(s.tags, t.tags, u.tags);
  }

  lemma ResolvedStays(a: TagLogs, b: TagLogs, d: DeltaId)
    requires LogsExtend(a, b) && HasResolved(a, d)
    ensures HasResolved(b, d)
  {
    var t :| t in a[d] && t.Resolved?;
    assert t in b[d];
  }

  lemma AllResolvedStays(a: TagLogs, b: TagLogs, roots: seq<DeltaId>)
    requires LogsExtend(a, b) && AllResolved(a, roots)
    ensures AllResolved(b, roots)
  {
    forall r | r in roots ensures HasResolved(b, r) {
      ResolvedStays(a, b, r);
    }
  }

  lemma AppendExtends(tags: TagLogs, ds: set<DeltaId>, tag: Tag)
    ensures LogsExtend(tags, Append(tags, ds, tag)) && Append(tags, ds, tag).Keys == tags.Keys
  {
  }

  /** The gate survives an append of a justified tag, and incidents that are new. */
  lemma GateAppend(tags: TagLogs, roots: Roots, more: Roots, ds: set<DeltaId>, tag: Tag)
    requires Gate(tags, roots)
    requires forall i :: i in roots ==> i in more && more[i] == roots[i]
    requires Justified(tags, more, tag)
    ensures Gate(Append(tags, ds, tag), more)
  {
    var tags' := Append(tags, ds, tag);
    AppendExtends(tags, ds, tag);
    forall d, k | d in tags' && 0 <= k < |tags'[d]| ensures Justified(tags', more, tags'[d][k]) {
      var t := tags'[d][k];
      if k < |tags[d]| {
        assert t == tags[d][k] && Justified(tags, roots, t);
      } else {
        assert t == tag;
      }
      if t.Decontaminated? {
        AllResolvedStays(tags, tags', more[t.incident]);
      }
    }
  }

  // ---------------------------------------------------------------------------
  // Growing, tagging, closing

  lemma GrowsKeeps(s: Cce, s': Cce)
    requires GateInv(s) && Grows(s, s')
    ensures Kept(s, s')
  {
    assert RootsOf(s') == RootsOf(s);
    forall d, k | d in s'.tags && 0 <= k < |s'.tags[d]| ensures Justified(s'.tags, RootsOf(s'), s'.tags[d][k]) {
      var t := s.tags[d][k];
      assert Justified(s.tags, RootsOf(s), t);
      if t.Decontaminated? {
        AllResolvedStays(s.tags, s'.tags, RootsOf(s)[t.incident]);
      }
    }
  }

  lemma TagsKeeps(s: Cce, s': Cce, root: DeltaId, overlap: Option<IncidentId>)
    requires GateInv(s) && Tags(s, s', root, overlap)
    ensures Kept(s, s')
  {
    var marked := Tainted(s, root);
    SameRoots(s, marked);
    match overlap {
      case None => AddExtends(marked, s', NewIncident(s, root));
      case Some(other) => JoinedKeeps(marked, other, NewIncident(s, root));
    }
    TaintKeeps(s, s', root);
  }

  /** Once the incident is known, its taint is justified. */
  lemma TaintKeeps(s: Cce, s': Cce, root: DeltaId)
    requires GateInv(s)
    requires Numbered(s') && Extends(Tainted(s, root), s') && IdsJoin(s, s') && s'.tags == Tainted(s, root).tags
    ensures Kept(s, s')
  {
    var ds, tag := Descendants(s.edges, root), Contaminated(root, IncidentId(s.nextId));
    AppendExtends(s.tags, ds, tag);
    GateAppend(s.tags, RootsOf(s), RootsOf(s'), ds, tag);
    LogsExtendTransitive(s.tags, Tainted(s, root).tags, s'.tags);
  }

  lemma JoinedKeeps(s: Cce, other: IncidentId, ico: Incident)
    requires Numbered(s) && other in s.incidents
    ensures var s' := Joined(s, other, ico);
      && Numbered(s') && Extends(s, s') && IdsJoin(s, s')
  {
    var id, c := IncidentId(s.nextId), IncidentId(s.nextId + 1);
    var was, merged := s.incidents[other], Merged(other, s.incidents[other], id, ico);
    JoinKeeps(s, Joined(s, other, ico), other, was.(state := SupersededBy(c)), ico.(state := SupersededBy(c)), merged);
  }

  lemma JoinKeeps(s: Cce, s': Cce, other: IncidentId, a: Incident, b: Incident, m: Composite)
    requires Numbered(s) && other in s.incidents && IncidentExtends(s.incidents[other], a)
    requires s'.incidents == s.incidents[other := a][IncidentId(s.nextId) := b]
    requires s'.composites == s.composites[IncidentId(s.nextId + 1) := m]
    requires s'.tags == s.tags && s'.edges == s.edges && s'.nextId == s.nextId + 2
    ensures Numbered(s') && Extends(s, s') && IdsJoin(s, s')
  {
    assert IncidentsExtend(s.incidents, s'.incidents);
    assert CompositesExtend(s.composites, s'.composites);
    assert Numbered(s');
    ExtendedKeep(s, s');
    assert IncidentId(s.nextId) in s'.incidents;
  }

  lemma ExtendedKeep(s: Cce, s': Cce)
    requires Numbered(s) && Numbered(s')
    requires IncidentsExtend(s.incidents, s'.incidents) && CompositesExtend(s.composites, s'.composites)
    ensures IdsKeep(s, s')
  {
  }

  /** The known ids keep their roots, and the next id is known now. */
  ghost predicate IdsJoin(s: Cce, s': Cce) {
    && IdsKeep(s, s') && IdKnown(s', IncidentId(s.nextId))
  }

  ghost predicate IdKnown(s: Cce, i: IncidentId) {
    i in RootsOf(s)
  }

  ghost predicate IdsKeep(s: Cce, s': Cce) {
    forall i :: i in RootsOf(s) ==> i in RootsOf(s') && RootsOf(s')[i] == RootsOf(s)[i]
  }

  lemma SameRoots(s: Cce, s': Cce)
    requires s'.incidents.Keys == s.incidents.Keys && s'.composites.Keys == s.composites.Keys
    requires forall i :: i in s.incidents ==> s'.incidents[i].roots == s.incidents[i].roots
    requires forall c :: c in s.composites ==> s'.composites[c].roots == s.composites[c].roots
    ensures RootsOf(s') == RootsOf(s)
  {
  }

  /** One incident changes, and logs grow by justified tags. */
  lemma UpdateKeeps(s: Cce, s': Cce, id: IncidentId, ico: Incident)
    requires GateInv(s) && id in s.incidents && IncidentExtends(s.incidents[id], ico)
    requires s'.incidents == s.incidents[id := ico] && s'.composites == s.composites
    requires s'.edges == s.edges && s'.nextId == s.nextId
    requires LogsExtend(s.tags, s'.tags) && Gate(s'.tags, RootsOf(s))
    ensures Kept(s, s')
  {
    SameRoots(s, s');
    assert IncidentsExtend(s.incidents, s'.incidents) && CompositesExtend(s.composites, s'.composites);
  }

  lemma UpdateCompositeKeeps(s: Cce, s': Cce, id: IncidentId, c: Composite)
    requires GateInv(s) && id in s.composites && CompositeExtends(s.composites[id], c)
    requires s'.composites == s.composites[id := c] && s'.incidents == s.incidents
    requires s'.edges == s.edges && s'.nextId == s.nextId
    requires LogsExtend(s.tags, s'.tags) && Gate(s'.tags, RootsOf(s))
    ensures Kept(s, s')
  {
    SameRoots(s, s');
    assert IncidentsExtend(s.incidents, s'.incidents) && CompositesExtend(s.composites, s'.composites);
  }

  lemma AddExtends(s: Cce, s': Cce, ico: Incident)
    requires Numbered(s)
    requires s'.incidents == s.incidents[IncidentId(s.nextId) := ico] && s'.composites == s.composites
    requires s'.edges == s.edges && s'.nextId == s.nextId + 1 && s'.tags == s.tags
    ensures Numbered(s') && Extends(s, s') && IdsJoin(s, s')
  {
    assert IncidentsExtend(s.incidents, s'.incidents) && CompositesExtend(s.composites, s'.composites);
  }

  lemma AddKeeps(s: Cce, s': Cce, ico: Incident)
    requires GateInv(s)
    requires s'.incidents == s.incidents[IncidentId(s.nextId) := ico] && s'.composites == s.composites
    requires s'.edges == s.edges && s'.nextId == s.nextId + 1 && s'.tags == s.tags
    ensures Kept(s, s')
  {
    AddExtends(s, s', ico);
  }

  lemma ClosesKeeps(s: Cce, id: IncidentId, manager: Did)
    requires GateInv(s)
    ensures Kept(s, ClosedIncident(s, id, manager))
  {
    if id in s.incidents && s.incidents[id].state == Open {
      var s' := ClosedIncident(s, id, manager);
      UpdateKeeps(s, s', id, s'.incidents[id]);
    }
  }

  // ---------------------------------------------------------------------------
  // Verifying: each part keeps the invariant, and only the first resolves anything

  ghost predicate SameResolved(a: TagLogs, b: TagLogs) {
    forall d :: HasResolved(a, d) <==> HasResolved(b, d)
  }

  ghost predicate Quiet(s: Cce, s': Cce) {
    Kept(s, s') && SameResolved(s.tags, s'.tags)
  }

  lemma ResolvingKeeps(s: Cce, root: DeltaId, manager: Did)
    requires GateInv(s)
    ensures Kept(s, s.(tags := Append(s.tags, {root}, Resolved(manager))))
  {
    var s' := s.(tags := Append(s.tags, {root}, Resolved(manager)));
    assert RootsOf(s') == RootsOf(s);
    GateAppend(s.tags, RootsOf(s), RootsOf(s'), {root}, Resolved(manager));
  }

  lemma SettledKeeps(s: Cce, manager: Did, root: DeltaId, id: IncidentId)
    requires GateInv(s)
    ensures Quiet(s, Settled(s, manager, root, id))
  {
    if id in s.incidents {
      var ico, s', tag := s.incidents[id], Settled(s, manager, root, id), Decontaminated(id);
      if AllResolved(s.tags, ico.roots) {
        AppendExtends(s.tags, ico.deltas, tag);
        GateAppend(s.tags, RootsOf(s), RootsOf(s), ico.deltas, tag);
      }
      UpdateKeeps(s, s', id, s'.incidents[id]);
    }
  }

  lemma {:induction false} SettledAllKeeps(s: Cce, manager: Did, root: DeltaId, ids: seq<IncidentId>)
    requires GateInv(s)
    ensures Quiet(s, SettledAll(s, manager, root, ids))
  {
    if ids != [] {
      var mid := SettledAll(s, manager, root, ids[..|ids| - 1]);
      SettledAllKeeps(s, manager, root, ids[..|ids| - 1]);
      SettledKeeps(mid, manager, root, ids[|ids| - 1]);
      ExtendsTransitive(s, mid, SettledAll(s, manager, root, ids));
    }
  }

  lemma {:induction false} LateWalksKeep(edges: set<(DeltaId, DeltaId)>, l: Late, walked: seq<DeltaId>,
                                         resolved: bool, id: IncidentId, roots: Roots)
    requires Gate(l.tags, roots) && id in roots && (resolved ==> AllResolved(l.tags, roots[id]))
    ensures var l' := LateWalks(edges, l, walked, resolved, id);
      Gate(l'.tags, roots) && LogsExtend(l.tags, l'.tags) && SameResolved(l.tags, l'.tags) && l.deltas <= l'.deltas
  {
    if walked != [] {
      var mid := LateWalks(edges, l, walked[..|walked| - 1], resolved, id);
      LateWalksKeep(edges, l, walked[..|walked| - 1], resolved, id, roots);
    }
  }

  lemma LateIncidentKeeps(s: Cce, id: IncidentId)
    requires GateInv(s)
    ensures Quiet(s, LateIncident(s, id))
  {
    if id in s.incidents {
      var ico := s.incidents[id];
      LateWalksKeep(s.edges, Late(s.tags, ico.deltas), ico.roots, AllResolved(s.tags, ico.roots), id, RootsOf(s));
      var s' := LateIncident(s, id);
      UpdateKeeps(s, s', id, s'.incidents[id]);
    }
  }

  lemma {:induction false} LateIncidentsKeep(s: Cce, ids: seq<IncidentId>)
    requires GateInv(s)
    ensures Quiet(s, LateIncidents(s, ids))
  {
    if ids != [] {
      var mid := LateIncidents(s, ids[..|ids| - 1]);
      LateIncidentsKeep(s, ids[..|ids| - 1]);
      LateIncidentKeeps(mid, ids[|ids| - 1]);
      ExtendsTransitive(s, mid, LateIncidents(s, ids));
    }
  }

  lemma LateCompositeKeeps(s: Cce, id: IncidentId)
    requires GateInv(s)
    ensures Quiet(s, LateComposite(s, id))
  {
    if id in s.composites {
      var c := s.composites[id];
      LateWalksKeep(s.edges, Late(s.tags, c.deltas), c.roots, AllResolved(s.tags, c.roots), id, RootsOf(s));
      var s' := LateComposite(s, id);
      UpdateCompositeKeeps(s, s', id, s'.composites[id]);
    }
  }

  lemma {:induction false} LateCompositesKeep(s: Cce, ids: seq<IncidentId>)
    requires GateInv(s)
    ensures Quiet(s, LateComposites(s, ids))
  {
    if ids != [] {
      var mid := LateComposites(s, ids[..|ids| - 1]);
      LateCompositesKeep(s, ids[..|ids| - 1]);
      LateCompositeKeeps(mid, ids[|ids| - 1]);
      ExtendsTransitive(s, mid, LateComposites(s, ids));
    }
  }

  lemma {:induction false} ReregisteredAllKeeps(s: Cce, roots: seq<DeltaId>)
    requires GateInv(s)
    ensures Quiet(s, ReregisteredAll(s, roots))
  {
    if roots != [] {
      var mid := ReregisteredAll(s, roots[..|roots| - 1]);
      ReregisteredAllKeeps(s, roots[..|roots| - 1]);
      ReregisteredKeeps(mid, roots[|roots| - 1]);
      ExtendsTransitive(s, mid, ReregisteredAll(s, roots));
    }
  }

  lemma ReregisteredKeeps(s: Cce, root: DeltaId)
    requires GateInv(s)
    ensures Quiet(s, Reregistered(s, root))
  {
    AddKeeps(s, Reregistered(s, root), NewIncident(s, root));
  }

  lemma DecomposeKeeps(s: Cce, id: IncidentId)
    requires GateInv(s)
    ensures Quiet(s, Decompose(s, id))
  {
    if id in s.composites {
      var c := s.composites[id];
      var mid := s.(composites := s.composites[id := c.(state := Decomposed)]);
      UpdateCompositeKeeps(s, mid, id, mid.composites[id]);
      ReregisteredAllKeeps(mid, Unresolved(s.tags, c.roots));
      ExtendsTransitive(s, mid, Decompose(s, id));
    }
  }

  lemma {:induction false} DecomposeAllKeeps(s: Cce, ids: seq<IncidentId>)
    requires GateInv(s)
    ensures Quiet(s, DecomposeAll(s, ids))
  {
    if ids != [] {
      var mid := DecomposeAll(s, ids[..|ids| - 1]);
      DecomposeAllKeeps(s, ids[..|ids| - 1]);
      DecomposeKeeps(mid, ids[|ids| - 1]);
      ExtendsTransitive(s, mid, DecomposeAll(s, ids));
    }
  }

  // ---------------------------------------------------------------------------
  // A whole verification, stage by stage

  /** The states a verification passes through. */
  datatype Stages = Stages(resolved: Cce, settled: Cce, walked: Cce, walkedAll: Cce, done: Cce)

  ghost function StagesOf(s: Cce, manager: Did, root: DeltaId, order: Order): Stages {
    var s1 := s.(tags := Append(s.tags, {root}, Resolved(manager)));
    var s2 := SettledAll(s1, manager, root, order.incidents);
    var s3 := LateIncidents(s2, order.incidents);
    var s4 := LateComposites(s3, order.openComposites);
    Stages(s1, s2, s3, s4, DecomposeAll(s4, order.composites))
  }

  lemma StagesKeep(s: Cce, manager: Did, root: DeltaId, order: Order)
    requires GateInv(s)
    ensures var g := StagesOf(s, manager, root, order);
      && g.done == Resolution(s, manager, root, order)
      && Kept(s, g.resolved) && Quiet(g.resolved, g.settled) && Quiet(g.settled, g.walked)
      && Quiet(g.walked, g.walkedAll) && Quiet(g.walkedAll, g.done)
  {
    var g := StagesOf(s, manager, root, order);
    ResolvingKeeps(s, root, manager);
    SettledAllKeeps(g.resolved, manager, root, order.incidents);
    LateIncidentsKeep(g.settled, order.incidents);
    LateCompositesKeep(g.walked, order.openComposites);
    DecomposeAllKeeps(g.walkedAll, order.composites);
  }

  lemma VerifiesKeeps(s: Cce, s': Cce, manager: Did, root: DeltaId, order: Order)
    requires GateInv(s) && Verifies(s, s', manager, root, order)
    ensures Kept(s, s')
  {
    var g := StagesOf(s, manager, root, order);
    StagesKeep(s, manager, root, order);
    ExtendsTransitive(s, g.resolved, g.settled);
    ExtendsTransitive(s, g.settled, g.walked);
    ExtendsTransitive(s, g.walked, g.walkedAll);
    ExtendsTransitive(s, g.walkedAll, g.done);
  }

  // ---------------------------------------------------------------------------
  // Every run

  lemma StepKeeps(s: Cce, s': Cce)
    requires GateInv(s) && Step(s, s')
    ensures Kept(s, s')
  {
    if Grows(s, s') {
      GrowsKeeps(s, s');
    } else if root, overlap :| Tags(s, s', root, overlap) {
      TagsKeeps(s, s', root, overlap);
    } else if manager, root, order :| Verifies(s, s', manager, root, order) {
      VerifiesKeeps(s, s', manager, root, order);
    } else {
      var id, manager :| s' == ClosedIncident(s, id, manager);
      ClosesKeeps(s, id, manager);
    }
  }

  lemma {:induction false} RunGrows(run: seq<Cce>, i: nat)
    requires IsRun(run) && i < |run|
    ensures var last := run[|run| - 1];
      GateInv(last) && Extends(run[i], last)
    decreases |run|
  {
    if |run| > 1 {
      var init := run[..|run| - 1];
      RunGrows(init, if i < |init| then i else 0);
      StepKeeps(init[|init| - 1], run[|run| - 1]);
      if i < |init| {
        ExtendsTransitive(run[i], init[|init| - 1], run[|run| - 1]);
      }
    }
  }

  /** Between any two moments of a run, logs and audits only grow and roots stay. */
  lemma LogsOnlyGrow(run: seq<Cce>, i: nat, j: nat)
    requires IsRun(run) && i <= j < |run|
    ensures Extends(run[i], run[j])
  {
    RunGrows(run[..j + 1], i);
  }

  lemma GateAt(s: Cce, d: DeltaId, tag: Tag)
    requires GateInv(s) && d in s.tags && tag in s.tags[d]
    ensures Justified(s.tags, RootsOf(s), tag)
  {
    var k :| 0 <= k < |s.tags[d]| && s.tags[d][k] == tag;
  }

  /** In every reachable state, a delta is decontaminated for an incident only if all its roots are resolved. */
  lemma DecontaminationNeedsResolution(run: seq<Cce>, d: DeltaId, tag: Tag)
    requires IsRun(run)
    requires var last := run[|run| - 1]; d in last.tags && tag in last.tags[d] && tag.Decontaminated?
    ensures var last := run[|run| - 1];
      tag.incident in RootsOf(last) && forall r :: r in RootsOf(last)[tag.incident] ==> HasResolved(last.tags, r)
  {
    RunGrows(run, 0);
    GateAt(run[|run| - 1], d, tag);
  }

  // ---------------------------------------------------------------------------
  // Resolving every root decontaminates every descendant

  ghost predicate Carries(tags: TagLogs, ds: set<DeltaId>, tag: Tag) {
    forall d :: d in ds && d in tags ==> tag in tags[d]
  }

  lemma SameAllResolved(a: TagLogs, b: TagLogs, roots: seq<DeltaId>)
    requires SameResolved(a, b)
    ensures AllResolved(a, roots) <==> AllResolved(b, roots)
  {
  }

  /** The same incidents with the same roots and deltas, the same edges, and logs of the same deltas. */
  ghost predicate SameChains(s: Cce, s': Cce) {
    && s'.incidents.Keys == s.incidents.Keys && s'.tags.Keys == s.tags.Keys && s'.edges == s.edges
    && forall i :: i in s.incidents ==>
         s'.incidents[i].roots == s.incidents[i].roots && s'.incidents[i].deltas == s.incidents[i].deltas
  }

  lemma SettledLeaves(s: Cce, manager: Did, root: DeltaId, id: IncidentId)
    ensures SameChains(s, Settled(s, manager, root, id))
  {
  }

  lemma {:induction false} SettledAllLeaves(s: Cce, manager: Did, root: DeltaId, ids: seq<IncidentId>)
    ensures SameChains(s, SettledAll(s, manager, root, ids))
  {
    if ids != [] {
      var mid := SettledAll(s, manager, root, ids[..|ids| - 1]);
      SettledAllLeaves(s, manager, root, ids[..|ids| - 1]);
      SettledLeaves(mid, manager, root, ids[|ids| - 1]);
    }
  }

  lemma SettledTags(s: Cce, manager: Did, root: DeltaId, id: IncidentId)
    requires id in s.incidents && AllResolved(s.tags, s.incidents[id].roots)
    ensures Carries(Settled(s, manager, root, id).tags, s.incidents[id].deltas, Decontaminated(id))
  {
  }

  lemma {:induction false} SettledAllTags(s: Cce, manager: Did, root: DeltaId, ids: seq<IncidentId>, id: IncidentId)
    requires GateInv(s) && id in ids && id in s.incidents && AllResolved(s.tags, s.incidents[id].roots)
    ensures Carries(SettledAll(s, manager, root, ids).tags, s.incidents[id].deltas, Decontaminated(id))
  {
    var init, last := ids[..|ids| - 1], ids[|ids| - 1];
    var mid := SettledAll(s, manager, root, init);
    SettledAllKeeps(s, manager, root, init);
    SettledAllLeaves(s, manager, root, init);
    if last == id {
      SameAllResolved(s.tags, mid.tags, s.incidents[id].roots);
      SettledTags(mid, manager, root, id);
    } else {
      assert ids == init + [last];
      SettledAllTags(s, manager, root, init, id);
      SettledKeeps(mid, manager, root, last);
      SettledLeaves(mid, manager, root, last);
      CarriesOn(mid, Settled(mid, manager, root, last), s.incidents[id].deltas, Decontaminated(id));
    }
  }

  lemma CarriesOn(s: Cce, s': Cce, ds: set<DeltaId>, tag: Tag)
    requires Carries(s.tags, ds, tag) && LogsExtend(s.tags, s'.tags) && s'.tags.Keys == s.tags.Keys
    ensures Carries(s'.tags, ds, tag)
  {
  }

  /** The resolved walk leaves every descendant of the roots in the incident, tagged. */
  lemma {:induction false} LateWalksReach(edges: set<(DeltaId, DeltaId)>, l: Late, walked: seq<DeltaId>, id: IncidentId)
    requires AllResolved(l.tags, walked) && Carries(l.tags, l.deltas, Decontaminated(id))
    ensures var l' := LateWalks(edges, l, walked, true, id);
      && Carries(l'.tags, l'.deltas, Decontaminated(id))
      && l'.tags.Keys == l.tags.Keys && SameResolved(l.tags, l'.tags)
      && forall r :: r in walked ==> Descendants(edges, r) <= l'.deltas
  {
    if walked != [] {
      var init, last := walked[..|walked| - 1], walked[|walked| - 1];
      LateWalksReach(edges, l, init, id);
      var mid := LateWalks(edges, l, init, true, id);
      assert HasResolved(l.tags, last);
      assert forall r :: r in walked <==> r in init || r == last;
    }
  }

  lemma LateIncidentReaches(s: Cce, id: IncidentId)
    requires id in s.incidents && AllResolved(s.tags, s.incidents[id].roots)
    requires Carries(s.tags, s.incidents[id].deltas, Decontaminated(id))
    ensures var s' := LateIncident(s, id);
      && Carries(s'.tags, s'.incidents[id].deltas, Decontaminated(id))
      && forall r :: r in s.incidents[id].roots ==> Descendants(s.edges, r) <= s'.incidents[id].deltas
  {
    LateWalksReach(s.edges, Late(s.tags, s.incidents[id].deltas), s.incidents[id].roots, id);
  }

  lemma {:induction false} LateWalksKeys(edges: set<(DeltaId, DeltaId)>, l: Late, walked: seq<DeltaId>,
                                         resolved: bool, id: IncidentId)
    ensures LateWalks(edges, l, walked, resolved, id).tags.Keys == l.tags.Keys
  {
    if walked != [] {
      LateWalksKeys(edges, l, walked[..|walked| - 1], resolved, id);
    }
  }

  lemma LateIncidentElsewhere(s: Cce, other: IncidentId)
    ensures var s' := LateIncident(s, other);
      && s'.incidents.Keys == s.incidents.Keys && s'.edges == s.edges && s'.tags.Keys == s.tags.Keys
      && forall i :: i in s.incidents ==>
           s'.incidents[i].roots == s.incidents[i].roots && (i != other ==> s'.incidents[i] == s.incidents[i])
  {
    if other in s.incidents {
      var ico := s.incidents[other];
      LateWalksKeys(s.edges, Late(s.tags, ico.deltas), ico.roots, AllResolved(s.tags, ico.roots), other);
    }
  }

  /** A fully resolved incident, its deltas all tagged, before and during the walks. */
  ghost predicate Cleared(s: Cce, id: IncidentId, roots: seq<DeltaId>) {
    && id in s.incidents && s.incidents[id].roots == roots && AllResolved(s.tags, roots)
    && Carries(s.tags, s.incidents[id].deltas, Decontaminated(id))
  }

  lemma {:induction false} LateIncidentsReach(s: Cce, ids: seq<IncidentId>, id: IncidentId, roots: seq<DeltaId>)
    requires GateInv(s) && Cleared(s, id, roots)
    ensures var s' := LateIncidents(s, ids);
      && Cleared(s', id, roots) && s'.edges == s.edges && s'.tags.Keys == s.tags.Keys
      && (id in ids ==> forall r :: r in roots ==> Descendants(s.edges, r) <= s'.incidents[id].deltas)
  {
    if ids != [] {
      var init, last := ids[..|ids| - 1], ids[|ids| - 1];
      var mid := LateIncidents(s, init);
      LateIncidentsReach(s, init, id, roots);
      LateIncidentsKeep(s, init);
      LateIncidentKeeps(mid, last);
      LateIncidentElsewhere(mid, last);
      AllResolvedStays(mid.tags, LateIncident(mid, last).tags, roots);
      if last == id {
        LateIncidentReaches(mid, id);
      } else {
        assert id in ids ==> id in init;
      }
    }
  }

  lemma {:induction false} LateCompositesKeys(s: Cce, ids: seq<IncidentId>)
    ensures LateComposites(s, ids).tags.Keys == s.tags.Keys
  {
    if ids != [] {
      LateCompositesKeys(s, ids[..|ids| - 1]);
      var mid, id := LateComposites(s, ids[..|ids| - 1]), ids[|ids| - 1];
      if id in mid.composites {
        var c := mid.composites[id];
        LateWalksKeys(mid.edges, Late(mid.tags, c.deltas), c.roots, AllResolved(mid.tags, c.roots), id);
      }
    }
  }

  lemma {:induction false} DecomposeAllKeepsLogs(s: Cce, ids: seq<IncidentId>)
    ensures DecomposeAll(s, ids).tags == s.tags
  {
    if ids != [] {
      DecomposeAllKeepsLogs(s, ids[..|ids| - 1]);
      var mid, id := DecomposeAll(s, ids[..|ids| - 1]), ids[|ids| - 1];
      if id in mid.composites {
        var c := mid.composites[id];
        ReregisteredKeepsLogs(mid.(composites := mid.composites[id := c.(state := Decomposed)]),
                              Unresolved(mid.tags, c.roots));
      }
    }
  }

  lemma {:induction false} ReregisteredKeepsLogs(s: Cce, roots: seq<DeltaId>)
    ensures ReregisteredAll(s, roots).tags == s.tags
  {
    if roots != [] {
      ReregisteredKeepsLogs(s, roots[..|roots| - 1]);
    }
  }

  lemma VerifyClears(s: Cce, manager: Did, root: DeltaId, order: Order, id: IncidentId)
    requires GateInv(s) && OrderFits(s, root, order)
    requires id in s.incidents && root in s.incidents[id].roots
    requires AllResolved(Append(s.tags, {root}, Resolved(manager)), s.incidents[id].roots)
    ensures var s' := Verified(s, manager, root, order);
      forall r :: r in s.incidents[id].roots ==> Carries(s'.tags, Descendants(s.edges, r), Decontaminated(id))
  {
    var g, roots := StagesOf(s, manager, root, order), s.incidents[id].roots;
    StagesKeep(s, manager, root, order);
    assert id in Elems(order.incidents);
    SettledAllTags(g.resolved, manager, root, order.incidents, id);
    SettledAllLeaves(g.resolved, manager, root, order.incidents);
    SameAllResolved(g.resolved.tags, g.settled.tags, roots);
    assert Cleared(g.settled, id, roots);
    LateIncidentsReach(g.settled, order.incidents, id, roots);
    LateCompositesKeys(g.walked, order.openComposites);
    DecomposeAllKeepsLogs(g.walkedAll, order.composites);
    forall r | r in roots ensures Carries(g.done.tags, Descendants(s.edges, r), Decontaminated(id)) {
      assert Carries(g.walked.tags, Descendants(s.edges, r), Decontaminated(id));
    }
  }

  /**
    After a verification, the stored descendants of an incident of the root, late arrivals included,
    carry its decontamination exactly when all its roots are resolved.
   */
  lemma DecontaminatedIffResolved(s: Cce, manager: Did, root: DeltaId, order: Order, id: IncidentId, r: DeltaId,
                                  d: DeltaId)
    requires GateInv(s) && OrderFits(s, root, order)
    requires id in s.incidents && root in s.incidents[id].roots && r in s.incidents[id].roots
    requires Reaches(s.edges, r, d) && d in s.tags
    ensures var s' := Verified(s, manager, root, order);
      d in s'.tags && (Decontaminated(id) in s'.tags[d] <==> AllResolved(s'.tags, s.incidents[id].roots))
  {
    var s', roots := Verified(s, manager, root, order), s.incidents[id].roots;
    var resolved := Append(s.tags, {root}, Resolved(manager));
    VerifiesKeeps(s, s', manager, root, order);
    StagesKeep(s, manager, root, order);
    SameAllResolved(resolved, s'.tags, roots);
    if AllResolved(resolved, roots) {
      VerifyClears(s, manager, root, order, id);
      DescendantOf(s.edges, r, d);
      assert Carries(s'.tags, Descendants(s.edges, r), Decontaminated(id));
    }
    if Decontaminated(id) in s'.tags[d] {
      GateAt(s', d, Decontaminated(id));
    }
  }

  lemma DescendantOf(edges: set<(DeltaId, DeltaId)>, root: DeltaId, d: DeltaId)
    requires Reaches(edges, root, d)
    ensures d in Descendants(edges, root)
  {
    if d != root {
      var u := ReachesLastEdge(edges, root, d);
      assert (u, d).1 == d;
    }
  }

  /** Tagging adds one contamination tag to each stored descendant, and nothing anywhere else. */
  lemma TagMarksExactlyDescendants(run: seq<Cce>, s': Cce, root: DeltaId, overlap: Option<IncidentId>, d: DeltaId)
    requires IsRun(run) && Tags(run[|run| - 1], s', root, overlap)
    ensures var s := run[|run| - 1]; var tag := Contaminated(root, IncidentId(s.nextId));
      && (d in s'.tags <==> d in s.tags)
      && (d in s.tags ==> multiset(s'.tags[d])[tag] == if Reaches(s.edges, root, d) then 1 else 0)
      && (d in s.tags ==> s'.tags[d] == if Reaches(s.edges, root, d) then s.tags[d] + [tag] else s.tags[d])
  {
    RunGrows(run, 0);
    TagIsNew(run[|run| - 1], s', root, overlap, d);
  }

  lemma TagIsNew(s: Cce, s': Cce, root: DeltaId, overlap: Option<IncidentId>, d: DeltaId)
    requires GateInv(s) && Tags(s, s', root, overlap)
    ensures var tag := Contaminated(root, IncidentId(s.nextId));
      && (d in s'.tags <==> d in s.tags)
      && (d in s.tags ==> multiset(s'.tags[d])[tag] == if Reaches(s.edges, root, d) then 1 else 0)
      && (d in s.tags ==> s'.tags[d] == if Reaches(s.edges, root, d) then s.tags[d] + [tag] else s.tags[d])
  {
    if d in s.tags {
      TagUnused(s, root, d);
      assert s'.tags == Append(s.tags, Descendants(s.edges, root), Contaminated(root, IncidentId(s.nextId)));
      if Reaches(s.edges, root, d) {
        DescendantOf(s.edges, root, d);
      }
    }
  }

  lemma TagUnused(s: Cce, root: DeltaId, d: DeltaId)
    requires GateInv(s) && d in s.tags
    ensures Contaminated(root, IncidentId(s.nextId)) !in multiset(s.tags[d])
  {
    var tag := Contaminated(root, IncidentId(s.nextId));
    forall k | 0 <= k < |s.tags[d]| ensures s.tags[d][k] != tag {
      assert Justified(s.tags, RootsOf(s), s.tags[d][k]);
    }
  }
}
