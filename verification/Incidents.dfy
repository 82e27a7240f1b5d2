/**
  The data of the contamination engine, and what its operations do to it, as functions.  Incident
  ids come from a counter, which stands for an ideal source of unique ids.  Hash maps are walked in
  some order; an operation is a function of the state and of the orders it happened to use.
 */
module Incidents {
  import opened Deltas
  import opened Graphs
  import opened Sequences

  datatype IncidentId = IncidentId(n: nat)

  datatype Tag =
    | Contaminated(root: DeltaId, incident: IncidentId)
    | Decontaminated(incident: IncidentId)
    | Resolved(manager: Did)

  type TagLogs = map<DeltaId, seq<Tag>>

  datatype State = Open | Closed | SupersededBy(composite: IncidentId) | Decomposed

  datatype RowKey = RowKey(table: string, key: string)
  datatype AffectedRow = AffectedRow(row: RowKey, delta: DeltaId)
  datatype AuditEntry = VerifyData(manager: Did, root: DeltaId) | AdminClose(manager: Did)

  datatype Incident = Incident(state: State, roots: seq<DeltaId>, deltas: set<DeltaId>, rows: seq<AffectedRow>,
                               audit: seq<AuditEntry>)
  datatype Composite = Composite(state: State, sources: seq<IncidentId>, roots: seq<DeltaId>, deltas: set<DeltaId>,
                                 rows: seq<AffectedRow>)

  /**
    The engine and the tables it shares: edges, tag logs of the stored deltas, incidents, the
    row index, the projection rows in table order with their contamination flags, the id counter.
   */
  datatype Cce = Cce(edges: set<(DeltaId, DeltaId)>, tags: TagLogs,
                     incidents: map<IncidentId, Incident>, composites: map<IncidentId, Composite>,
                     index: map<RowKey, IncidentId>, rows: seq<RowKey>, flags: map<RowKey, bool>, nextId: nat)

  // ---------------------------------------------------------------------------
  // Tags

  /** Appends a tag to the logs of some deltas; a delta that is not stored has no log. */
  function Append(tags: TagLogs, ds: set<DeltaId>, tag: Tag): TagLogs {
    map d | d in tags :: if d in ds then tags[d] + [tag] else tags[d]
  }

  predicate HasResolved(tags: TagLogs, d: DeltaId) {
    d in tags && exists t :: t in tags[d] && t.Resolved?
  }

  predicate AllResolved(tags: TagLogs, roots: seq<DeltaId>) {
    forall r :: r in roots ==> HasResolved(tags, r)
  }

  /** The deltas reached from a root in the live DAG, the root included. */
  ghost function Descendants(edges: set<(DeltaId, DeltaId)>, root: DeltaId): set<DeltaId> {
    set x | x in {root} + (set e | e in edges :: e.1) && Reaches(edges, root, x)
  }

  // ---------------------------------------------------------------------------
  // Rows

  function RowKeys(rows: seq<AffectedRow>): set<RowKey> {
    set r | r in rows :: r.row
  }

  lemma RowKeysAppend(rows: seq<AffectedRow>, last: AffectedRow)
    ensures RowKeys(rows + [last]) == RowKeys(rows) + {last.row}
  {
    assert last in rows + [last];
    assert forall r :: r in rows ==> r in rows + [last];
  }

  function SetFlags(flags: map<RowKey, bool>, keys: set<RowKey>, value: bool): map<RowKey, bool> {
    map k | k in flags :: if k in keys then value else flags[k]
  }

  /** Every projection row counts as affected, attributed to the root. */
  function AffectedRows(rows: seq<RowKey>, root: DeltaId): (r: seq<AffectedRow>)
    ensures |r| == |rows| && forall i :: 0 <= i < |rows| ==> r[i] == AffectedRow(rows[i], root)
  {
    seq(|rows|, i requires 0 <= i < |rows| => AffectedRow(rows[i], root))
  }

  lemma AffectedRowKeys(rows: seq<RowKey>, root: DeltaId)
    ensures RowKeys(AffectedRows(rows, root)) == Elems(rows)
  {
    var affected := AffectedRows(rows, root);
    forall k ensures k in RowKeys(affected) <==> k in Elems(rows) {
      if k in rows {
        var i :| 0 <= i < |rows| && rows[i] == k;
        assert affected[i] in affected;
      }
    }
  }

  function PointTo(index: map<RowKey, IncidentId>, rows: seq<AffectedRow>, id: IncidentId): map<RowKey, IncidentId> {
    index + map k | k in RowKeys(rows) :: id
  }

  // ---------------------------------------------------------------------------
  // Tagging a root

  /** The union of two root lists, the first list first, without repeats. */
  function UnionRoots(a: seq<DeltaId>, b: seq<DeltaId>): seq<DeltaId> {
    if b == [] then a
    else
      var before, last := UnionRoots(a, b[..|b| - 1]), b[|b| - 1];
      if last in before then before else before + [last]
  }

  predicate HasKey(rows: seq<AffectedRow>, key: string) {
    exists r :: r in rows && r.row.key == key
  }

  /** The union of two row lists; a row is left out when its key, whatever its table, is there already. */
  function UnionRows(a: seq<AffectedRow>, b: seq<AffectedRow>): seq<AffectedRow> {
    if b == [] then a
    else
      var before, last := UnionRows(a, b[..|b| - 1]), b[|b| - 1];
      if HasKey(before, last.row.key) then before else before + [last]
  }

  function Merged(a: IncidentId, ia: Incident, b: IncidentId, ib: Incident): Composite {
    Composite(Open, [a, b], UnionRoots(ia.roots, ib.roots), ia.deltas + ib.deltas, UnionRows(ia.rows, ib.rows))
  }

  ghost function NewIncident(s: Cce, root: DeltaId): Incident {
    Incident(Open, [root], Descendants(s.edges, root), AffectedRows(s.rows, root), [])
  }

  /** The open plain incidents a chain shares a delta with. */
  function Overlapping(incidents: map<IncidentId, Incident>, deltas: set<DeltaId>): set<IncidentId> {
    set i | i in incidents && incidents[i].state == Open && incidents[i].deltas * deltas != {}
  }

  /** The taint of a root: one tag on every descendant, a flag on every row. */
  ghost function Tainted(s: Cce, root: DeltaId): Cce {
    s.(tags := Append(s.tags, Descendants(s.edges, root), Contaminated(root, IncidentId(s.nextId))),
       flags := SetFlags(s.flags, RowKeys(AffectedRows(s.rows, root)), true))
  }

  /** A new incident of its own. */
  function Opened(s: Cce, ico: Incident): Cce {
    var id := IncidentId(s.nextId);
    s.(incidents := s.incidents[id := ico], index := PointTo(s.index, ico.rows, id), nextId := s.nextId + 1)
  }

  /** A new incident merged with an open one it overlaps: both are superseded by the composite. */
  function Joined(s: Cce, other: IncidentId, ico: Incident): Cce
    requires other in s.incidents
  {
    var id, composite := IncidentId(s.nextId), IncidentId(s.nextId + 1);
    var merged := Merged(other, s.incidents[other], id, ico);
    var superseded := s.incidents[other].(state := SupersededBy(composite));
    s.(incidents := s.incidents[other := superseded][id := ico.(state := SupersededBy(composite))],
       composites := s.composites[composite := merged],
       index := PointTo(s.index, merged.rows, composite), nextId := s.nextId + 2)
  }

  /** After tagging a root: the taint, and an incident merged with `overlap` when there is one. */
  ghost function Tagged(s: Cce, root: DeltaId, overlap: Option<IncidentId>): Cce
    requires overlap.Some? ==> overlap.value in s.incidents
  {
    var marked := Tainted(s, root);
    match overlap
    case None => Opened(marked, NewIncident(s, root))
    case Some(other) => Joined(marked, other, NewIncident(s, root))
  }

  // ---------------------------------------------------------------------------
  // Verifying a root

  /** One incident of the verified root: audit it and, if all its roots are resolved, decontaminate it. */
  function Settled(s: Cce, manager: Did, root: DeltaId, id: IncidentId): Cce {
    if id !in s.incidents then s
    else
      var ico := s.incidents[id];
      var audited := s.(incidents := s.incidents[id := ico.(audit := ico.audit + [VerifyData(manager, root)])]);
      if AllResolved(s.tags, ico.roots) then
        audited.(tags := Append(s.tags, ico.deltas, Decontaminated(id)),
                 flags := SetFlags(s.flags, RowKeys(ico.rows), false))
      else audited
  }

  function SettledAll(s: Cce, manager: Did, root: DeltaId, ids: seq<IncidentId>): Cce {
    if ids == [] then s else Settled(SettledAll(s, manager, root, ids[..|ids| - 1]), manager, root, ids[|ids| - 1])
  }

  /** Tag logs and delta set of one incident. */
  datatype Late = Late(tags: TagLogs, deltas: set<DeltaId>)

  /** The live walk from one root: descendants that are new to the incident are tagged and join it. */
  ghost function LateWalk(edges: set<(DeltaId, DeltaId)>, l: Late, root: DeltaId, resolved: bool,
                          id: IncidentId): Late
  {
    if HasResolved(l.tags, root) != resolved then l
    else
      var late := Descendants(edges, root) - l.deltas;
      Late(Append(l.tags, late, if resolved then Decontaminated(id) else Contaminated(root, id)), l.deltas + late)
  }

  ghost function LateWalks(edges: set<(DeltaId, DeltaId)>, l: Late, roots: seq<DeltaId>, resolved: bool,
                           id: IncidentId): Late
  {
    if roots == [] then l
    else LateWalk(edges, LateWalks(edges, l, roots[..|roots| - 1], resolved, id), roots[|roots| - 1], resolved, id)
  }

  ghost function LateIncident(s: Cce, id: IncidentId): Cce {
    if id !in s.incidents then s
    else
      var ico := s.incidents[id];
      var l := LateWalks(s.edges, Late(s.tags, ico.deltas), ico.roots, AllResolved(s.tags, ico.roots), id);
      s.(tags := l.tags, incidents := s.incidents[id := ico.(deltas := l.deltas)])
  }

  ghost function LateIncidents(s: Cce, ids: seq<IncidentId>): Cce {
    if ids == [] then s else LateIncident(LateIncidents(s, ids[..|ids| - 1]), ids[|ids| - 1])
  }

  ghost function LateComposite(s: Cce, id: IncidentId): Cce {
    if id !in s.composites then s
    else
      var c := s.composites[id];
      var l := LateWalks(s.edges, Late(s.tags, c.deltas), c.roots, AllResolved(s.tags, c.roots), id);
      s.(tags := l.tags, composites := s.composites[id := c.(deltas := l.deltas)])
  }

  ghost function LateComposites(s: Cce, ids: seq<IncidentId>): Cce {
    if ids == [] then s else LateComposite(LateComposites(s, ids[..|ids| - 1]), ids[|ids| - 1])
  }

  /** A surviving root becomes an incident of its own, and its rows are marked again. */
  ghost function Reregistered(s: Cce, root: DeltaId): Cce {
    var ico := NewIncident(s, root);
    s.(incidents := s.incidents[IncidentId(s.nextId) := ico], flags := SetFlags(s.flags, RowKeys(ico.rows), true),
       nextId := s.nextId + 1)
  }

  ghost function ReregisteredAll(s: Cce, roots: seq<DeltaId>): Cce {
    if roots == [] then s else Reregistered(ReregisteredAll(s, roots[..|roots| - 1]), roots[|roots| - 1])
  }

  function Unresolved(tags: TagLogs, roots: seq<DeltaId>): seq<DeltaId> {
    Filter(roots, set r | r in roots && !HasResolved(tags, r))
  }

  /** A composite of the verified root is decomposed; each unresolved root is registered again. */
  ghost function Decompose(s: Cce, id: IncidentId): Cce {
    if id !in s.composites then s
    else
      var c := s.composites[id];
      ReregisteredAll(s.(composites := s.composites[id := c.(state := Decomposed)]), Unresolved(s.tags, c.roots))
  }

  ghost function DecomposeAll(s: Cce, ids: seq<IncidentId>): Cce {
    if ids == [] then s else Decompose(DecomposeAll(s, ids[..|ids| - 1]), ids[|ids| - 1])
  }

  /** An incident that still taints its rows: open, with a root that is not resolved. */
  predicate Active(s: Cce, id: IncidentId) {
    if id in s.incidents then s.incidents[id].state == Open && !AllResolved(s.tags, s.incidents[id].roots)
    else id in s.composites && s.composites[id].state == Open && !AllResolved(s.tags, s.composites[id].roots)
  }

  /** Points the rows of the incidents numbered from `from` up to `end` at them. */
  function IndexNew(s: Cce, from: nat, end: nat): map<RowKey, IncidentId>
    decreases end
  {
    if end <= from then s.index
    else
      var before, id := IndexNew(s, from, end - 1), IncidentId(end - 1);
      if id in s.incidents then PointTo(before, s.incidents[id].rows, id) else before
  }

  function Pruned(s: Cce, index: map<RowKey, IncidentId>): map<RowKey, IncidentId> {
    map k | k in index && Active(s, index[k]) :: index[k]
  }

  /** The orders in which the hash maps were walked. */
  datatype Order = Order(incidents: seq<IncidentId>, openComposites: seq<IncidentId>, composites: seq<IncidentId>)

  ghost predicate OrderFits(s: Cce, root: DeltaId, order: Order) {
    && NoDup(order.incidents) && Elems(order.incidents) == (set i | i in s.incidents && root in s.incidents[i].roots)
    && NoDup(order.openComposites)
    && Elems(order.openComposites) ==
       (set c | c in s.composites && s.composites[c].state == Open && root in s.composites[c].roots)
    && NoDup(order.composites) &&
       Elems(order.composites) == (set c | c in s.composites && root in s.composites[c].roots)
  }

  /** Resolution of a root, before the engine brings its row index up to date. */
  ghost function Resolution(s: Cce, manager: Did, root: DeltaId, order: Order): Cce {
    var s1 := s.(tags := Append(s.tags, {root}, Resolved(manager)));
    var s2 := SettledAll(s1, manager, root, order.incidents);
    var s3 := LateIncidents(s2, order.incidents);
    var s4 := LateComposites(s3, order.openComposites);
    DecomposeAll(s4, order.composites)
  }

  ghost function Verified(s: Cce, manager: Did, root: DeltaId, order: Order): Cce {
    var r := Resolution(s, manager, root, order);
    r.(index := Pruned(r, IndexNew(r, s.nextId, r.nextId)))
  }

  // ---------------------------------------------------------------------------
  // Closing an incident

  function ClosedIncident(s: Cce, id: IncidentId, manager: Did): Cce {
    if id !in s.incidents || s.incidents[id].state != Open then s
    else
      var ico := s.incidents[id];
      s.(incidents := s.incidents[id := ico.(state := Closed, audit := ico.audit + [AdminClose(manager)])])
  }
}
