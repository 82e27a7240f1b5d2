/**
  What a verification writes, delta by delta: each tag that it brings to a log, each delta that joins an
  incident on a late walk, and each incident that a decomposition leaves behind.
 */
module LateArrivals {
  import opened Deltas
  import opened Graphs
  import opened IncidentGate
  import opened Incidents
  import opened RowIndex
  import opened Sequences

  // ---------------------------------------------------------------------------
  // The statement

  /** The deltas that are resolved once a manager has verified `root`. */
  function ResolvedWith(s: Cce, root: DeltaId): set<DeltaId> {
    set r | r in s.tags && (r == root || exists t :: t in s.tags[r] && t.Resolved?)
  }

  predicate AllIn(roots: seq<DeltaId>, done: set<DeltaId>) {
    forall r :: r in roots ==> r in done
  }

  /** Some root that is resolved, or one that is not, as asked, reaches the delta. */
  ghost predicate Meets(edges: set<(DeltaId, DeltaId)>, done: set<DeltaId>, roots: seq<DeltaId>, resolved: bool,
                        x: DeltaId)
  {
    exists r :: r in roots && (r in done) == resolved && Reaches(edges, r, x)
  }

  /** `r` is the first such root in the list. */
  ghost predicate FirstMeets(edges: set<(DeltaId, DeltaId)>, done: set<DeltaId>, roots: seq<DeltaId>, resolved: bool,
                             r: DeltaId, x: DeltaId)
  {
    exists k :: 0 <= k < |roots| && FirstAt(edges, done, roots, resolved, r, x, k)
  }

  ghost predicate FirstAt(edges: set<(DeltaId, DeltaId)>, done: set<DeltaId>, roots: seq<DeltaId>, resolved: bool,
                          r: DeltaId, x: DeltaId, k: nat)
    requires k < |roots|
  {
    && roots[k] == r && (r in done) == resolved && Reaches(edges, r, x)
    && !Meets(edges, done, roots[..k], resolved, x)
  }

  /** The incident lists the verified root, whatever its state. */
  predicate Listed(s: Cce, root: DeltaId, id: IncidentId) {
    id in s.incidents && root in s.incidents[id].roots
  }

  predicate ListedOpen(s: Cce, root: DeltaId, id: IncidentId) {
    id in s.composites && s.composites[id].state == Open && root in s.composites[id].roots
  }

  /** The tag a late walk over one incident brings to a delta outside its delta set. */
  ghost predicate LateTag(edges: set<(DeltaId, DeltaId)>, done: set<DeltaId>, roots: seq<DeltaId>, resolved: bool,
                          d: DeltaId, tag: Tag)
  {
    match tag
    case Contaminated(r, _) => !resolved && FirstMeets(edges, done, roots, false, r, d)
    case Decontaminated(_) => resolved && Meets(edges, done, roots, true, d)
    case Resolved(_) => false
  }

  predicate Names(tag: Tag, id: IncidentId) {
    (tag.Contaminated? || tag.Decontaminated?) && tag.incident == id
  }

  // ---------------------------------------------------------------------------
  // Counting tags

  ghost function Count(tags: TagLogs, d: DeltaId, tag: Tag): nat
    requires d in tags
  {
    multiset(tags[d])[tag]
  }

  ghost function One(b: bool): nat {
    if b then 1 else 0
  }

  lemma AppendCount(tags: TagLogs, ds: set<DeltaId>, t: Tag, d: DeltaId, tag: Tag)
    requires d in tags
    ensures Count(Append(tags, ds, t), d, tag) == Count(tags, d, tag) + One(d in ds && t == tag)
  {
  }

  /** `done` lists the resolved deltas. */
  ghost predicate Marks(tags: TagLogs, done: set<DeltaId>) {
    forall r :: HasResolved(tags, r) <==> r in done
  }

  lemma AppendMarks(tags: TagLogs, ds: set<DeltaId>, t: Tag, done: set<DeltaId>)
    requires Marks(tags, done) && !t.Resolved?
    ensures Marks(Append(tags, ds, t), done)
  {
    var tags' := Append(tags, ds, t);
    forall r ensures HasResolved(tags', r) <==> HasResolved(tags, r) {
      if r in tags {
        assert forall u :: u in tags[r] ==> u in tags'[r];
        assert forall u :: u in tags'[r] ==> u in tags[r] || u == t;
      }
    }
  }

  lemma ResolvingMarks(s: Cce, root: DeltaId, manager: Did)
    ensures Marks(Append(s.tags, {root}, Resolved(manager)), ResolvedWith(s, root))
  {
    var tags' := Append(s.tags, {root}, Resolved(manager));
    forall r ensures HasResolved(tags', r) <==> r in ResolvedWith(s, root) {
      if r in s.tags {
        assert forall u :: u in s.tags[r] ==> u in tags'[r];
        assert r == root ==> Resolved(manager) in tags'[r];
        assert forall u :: u in tags'[r] ==> u in s.tags[r] || r == root;
      }
    }
  }

  lemma MarksAll(tags: TagLogs, done: set<DeltaId>, roots: seq<DeltaId>)
    requires Marks(tags, done)
    ensures AllResolved(tags, roots) <==> AllIn(roots, done)
  {
  }

  lemma SameMarks(a: TagLogs, b: TagLogs, done: set<DeltaId>)
    requires Marks(a, done) && SameResolved(a, b)
    ensures Marks(b, done)
  {
  }

  // ---------------------------------------------------------------------------
  // One walk

  lemma MeetsPush(edges: set<(DeltaId, DeltaId)>, done: set<DeltaId>, init: seq<DeltaId>, last: DeltaId,
                  resolved: bool, x: DeltaId)
    ensures Meets(edges, done, init + [last], resolved, x) <==>
            Meets(edges, done, init, resolved, x) || ((last in done) == resolved && Reaches(edges, last, x))
  {
    var roots := init + [last];
    assert last in roots;
    if r :| r in init && (r in done) == resolved && Reaches(edges, r, x) {
      assert r in roots;
    }
  }

  lemma FirstMeetsPush(edges: set<(DeltaId, DeltaId)>, done: set<DeltaId>, init: seq<DeltaId>, last: DeltaId,
                       resolved: bool, r: DeltaId, x: DeltaId)
    ensures FirstMeets(edges, done, init + [last], resolved, r, x) <==>
            || FirstMeets(edges, done, init, resolved, r, x)
            || (last == r && (r in done) == resolved && Reaches(edges, r, x) && !Meets(edges, done, init, resolved, x))
  {
    var roots := init + [last];
    assert roots[..|init|] == init;
    assert forall k: nat :: k < |init| ==> roots[..k] == init[..k] && roots[k] == init[k];
    if k :| 0 <= k < |init| && FirstAt(edges, done, init, resolved, r, x, k) {
      assert FirstAt(edges, done, roots, resolved, r, x, k);
    }
    if k :| 0 <= k < |roots| && FirstAt(edges, done, roots, resolved, r, x, k) {
      if k < |init| {
        assert FirstAt(edges, done, init, resolved, r, x, k);
      }
    }
    if last == r && (r in done) == resolved && Reaches(edges, r, x) && !Meets(edges, done, init, resolved, x) {
      assert FirstAt(edges, done, roots, resolved, r, x, |init|);
    }
  }

  lemma FirstMeetsMeets(edges: set<(DeltaId, DeltaId)>, done: set<DeltaId>, roots: seq<DeltaId>, resolved: bool,
                        r: DeltaId, x: DeltaId)
    requires FirstMeets(edges, done, roots, resolved, r, x)
    ensures Meets(edges, done, roots, resolved, x)
  {
  }

  lemma InDescendants(edges: set<(DeltaId, DeltaId)>, root: DeltaId, d: DeltaId)
    ensures d in Descendants(edges, root) <==> Reaches(edges, root, d)
  {
    if Reaches(edges, root, d) {
      DescendantOf(edges, root, d);
    }
  }

  /** What a late walk over some roots does, as seen from one delta and one tag. */
  ghost predicate WalkedAt(edges: set<(DeltaId, DeltaId)>, done: set<DeltaId>, l: Late, l': Late, roots: seq<DeltaId>,
                           resolved: bool, id: IncidentId, d: DeltaId, tag: Tag)
  {
    && Marks(l'.tags, done)
    && (d in l'.tags <==> d in l.tags)
    && (d in l'.deltas <==> d in l.deltas || Meets(edges, done, roots, resolved, d))
    && (d in l.tags && d in l'.tags ==>
          Count(l'.tags, d, tag) == Count(l.tags, d, tag) +
          One(Names(tag, id) && d !in l.deltas && LateTag(edges, done, roots, resolved, d, tag)))
  }

  lemma WalkOne(edges: set<(DeltaId, DeltaId)>, done: set<DeltaId>, l: Late, root: DeltaId, resolved: bool,
                id: IncidentId, d: DeltaId, tag: Tag)
    requires Marks(l.tags, done)
    ensures var l' := LateWalk(edges, l, root, resolved, id);
      var late := (root in done) == resolved && Reaches(edges, root, d);
      && Marks(l'.tags, done)
      && (d in l'.tags <==> d in l.tags) && (d in l'.deltas <==> d in l.deltas || late)
      && (d in l.tags && d in l'.tags ==>
            Count(l'.tags, d, tag) == Count(l.tags, d, tag) +
            One(late && d !in l.deltas && tag == if resolved then Decontaminated(id) else Contaminated(root, id)))
  {
    InDescendants(edges, root, d);
    if HasResolved(l.tags, root) == resolved {
      var late := Descendants(edges, root) - l.deltas;
      var t := if resolved then Decontaminated(id) else Contaminated(root, id);
      AppendMarks(l.tags, late, t, done);
      if d in l.tags {
        AppendCount(l.tags, late, t, d, tag);
      }
    }
  }

  lemma {:induction false} WalkMany(edges: set<(DeltaId, DeltaId)>, done: set<DeltaId>, l: Late, roots: seq<DeltaId>,
                                    resolved: bool, id: IncidentId, d: DeltaId, tag: Tag)
    requires Marks(l.tags, done)
    ensures WalkedAt(edges, done, l, LateWalks(edges, l, roots, resolved, id), roots, resolved, id, d, tag)
  {
    if roots != [] {
      var init, last := roots[..|roots| - 1], roots[|roots| - 1];
      assert roots == init + [last];
      WalkMany(edges, done, l, init, resolved, id, d, tag);
      var mid := LateWalks(edges, l, init, resolved, id);
      WalkOne(edges, done, mid, last, resolved, id, d, tag);
      MeetsPush(edges, done, init, last, resolved, d);
      if tag.Contaminated? {
        FirstMeetsPush(edges, done, init, last, false, tag.root, d);
        if FirstMeets(edges, done, init, false, tag.root, d) {
          FirstMeetsMeets(edges, done, init, false, tag.root, d);
        }
      }
    }
  }

  // ---------------------------------------------------------------------------
  // Settling the incidents of the root

  /** Settling a fully resolved incident brings its decontamination to the deltas it holds. */
  ghost predicate SettleTag(s: Cce, ids: seq<IncidentId>, done: set<DeltaId>, d: DeltaId, tag: Tag) {
    && tag.Decontaminated? && tag.incident in ids && tag.incident in s.incidents
    && AllIn(s.incidents[tag.incident].roots, done) && d in s.incidents[tag.incident].deltas
  }

  lemma SettleOne(s: Cce, manager: Did, root: DeltaId, id: IncidentId, done: set<DeltaId>, d: DeltaId, tag: Tag)
    requires Marks(s.tags, done) && d in s.tags
    ensures var s' := Settled(s, manager, root, id);
      && Marks(s'.tags, done) && d in s'.tags
      && Count(s'.tags, d, tag) == Count(s.tags, d, tag) +
         One(&& id in s.incidents && AllIn(s.incidents[id].roots, done) && d in s.incidents[id].deltas
             && tag == Decontaminated(id))
  {
    if id in s.incidents {
      var ico := s.incidents[id];
      MarksAll(s.tags, done, ico.roots);
      AppendCount(s.tags, ico.deltas, Decontaminated(id), d, tag);
      AppendMarks(s.tags, ico.deltas, Decontaminated(id), done);
    }
  }

  lemma {:induction false} SettleMany(s: Cce, manager: Did, root: DeltaId, ids: seq<IncidentId>, done: set<DeltaId>,
                                      d: DeltaId, tag: Tag)
    requires Marks(s.tags, done) && d in s.tags && NoDup(ids)
    ensures var s' := SettledAll(s, manager, root, ids);
      && Marks(s'.tags, done) && d in s'.tags
      && Count(s'.tags, d, tag) == Count(s.tags, d, tag) + One(SettleTag(s, ids, done, d, tag))
  {
    if ids != [] {
      var init, last := ids[..|ids| - 1], ids[|ids| - 1];
      assert ids == init + [last];
      SettleMany(s, manager, root, init, done, d, tag);
      SettledAllLeaves(s, manager, root, init);
      SettleOne(SettledAll(s, manager, root, init), manager, root, last, done, d, tag);
    }
  }

  // ---------------------------------------------------------------------------
  // The walks over the incidents of the root

  /** A late walk over the incident a tag names brings that tag. */
  ghost predicate IncidentTag(s: Cce, ids: seq<IncidentId>, done: set<DeltaId>, d: DeltaId, tag: Tag) {
    && !tag.Resolved? && tag.incident in ids && tag.incident in s.incidents
    && d !in s.incidents[tag.incident].deltas
    && LateTag(s.edges, done, s.incidents[tag.incident].roots, AllIn(s.incidents[tag.incident].roots, done), d, tag)
  }

  /** Where a late walk starts: from every root once all are resolved, from the unresolved ones before. */
  ghost predicate WalkReaches(edges: set<(DeltaId, DeltaId)>, done: set<DeltaId>, roots: seq<DeltaId>, x: DeltaId) {
    Meets(edges, done, roots, AllIn(roots, done), x)
  }

  lemma IncidentOne(s: Cce, id: IncidentId, done: set<DeltaId>, d: DeltaId, tag: Tag)
    requires Marks(s.tags, done)
    ensures var s' := LateIncident(s, id);
      && Marks(s'.tags, done) && (d in s'.tags <==> d in s.tags) && s'.edges == s.edges
      && s'.composites == s.composites && s'.incidents.Keys == s.incidents.Keys
      && (d in s.tags && d in s'.tags ==>
            Count(s'.tags, d, tag) == Count(s.tags, d, tag) + One(IncidentTag(s, [id], done, d, tag)))
      && (id in s.incidents ==>
            && s'.incidents[id].roots == s.incidents[id].roots
            && (d in s'.incidents[id].deltas <==>
                d in s.incidents[id].deltas || WalkReaches(s.edges, done, s.incidents[id].roots, d)))
  {
    if id in s.incidents {
      var ico := s.incidents[id];
      MarksAll(s.tags, done, ico.roots);
      WalkMany(s.edges, done, Late(s.tags, ico.deltas), ico.roots, AllIn(ico.roots, done), id, d, tag);
    }
  }

  /** The delta sets after the walks over `ids`, seen from one incident and one delta. */
  ghost predicate JoinedLate(s: Cce, s': Cce, ids: seq<IncidentId>, done: set<DeltaId>, i: IncidentId, x: DeltaId) {
    && s'.incidents.Keys == s.incidents.Keys && s'.edges == s.edges && s'.composites == s.composites
    && (i in s.incidents ==>
          && s'.incidents[i].roots == s.incidents[i].roots
          && (x in s'.incidents[i].deltas <==>
              || x in s.incidents[i].deltas
              || (i in ids && WalkReaches(s.edges, done, s.incidents[i].roots, x))))
  }

  lemma {:induction false} IncidentMany(s: Cce, ids: seq<IncidentId>, done: set<DeltaId>, i: IncidentId, x: DeltaId)
    requires Marks(s.tags, done) && NoDup(ids)
    ensures Marks(LateIncidents(s, ids).tags, done) && JoinedLate(s, LateIncidents(s, ids), ids, done, i, x)
  {
    if ids != [] {
      var init, last := ids[..|ids| - 1], ids[|ids| - 1];
      assert ids == init + [last];
      IncidentMany(s, init, done, i, x);
      var mid := LateIncidents(s, init);
      IncidentOne(mid, last, done, x, Resolved(""));
      LateIncidentElsewhere(mid, last);
    }
  }

  lemma {:induction false} IncidentTags(s: Cce, ids: seq<IncidentId>, done: set<DeltaId>, d: DeltaId, tag: Tag)
    requires Marks(s.tags, done) && NoDup(ids) && d in s.tags
    ensures var s' := LateIncidents(s, ids);
      && d in s'.tags && Marks(s'.tags, done)
      && Count(s'.tags, d, tag) == Count(s.tags, d, tag) + One(IncidentTag(s, ids, done, d, tag))
  {
    if ids != [] {
      var init, last := ids[..|ids| - 1], ids[|ids| - 1];
      assert ids == init + [last];
      IncidentTags(s, init, done, d, tag);
      IncidentMany(s, init, done, last, d);
      IncidentOne(LateIncidents(s, init), last, done, d, tag);
    }
  }

  // ---------------------------------------------------------------------------
  // The walks over the open composites of the root

  ghost predicate CompositeTag(s: Cce, ids: seq<IncidentId>, done: set<DeltaId>, d: DeltaId, tag: Tag) {
    && !tag.Resolved? && tag.incident in ids && tag.incident in s.composites
    && d !in s.composites[tag.incident].deltas
    && LateTag(s.edges, done, s.composites[tag.incident].roots, AllIn(s.composites[tag.incident].roots, done), d, tag)
  }

  lemma CompositeOne(s: Cce, id: IncidentId, done: set<DeltaId>, d: DeltaId, tag: Tag)
    requires Marks(s.tags, done)
    ensures var s' := LateComposite(s, id);
      && Marks(s'.tags, done) && (d in s'.tags <==> d in s.tags) && s'.edges == s.edges
      && s'.incidents == s.incidents && s'.composites.Keys == s.composites.Keys
      && (d in s.tags && d in s'.tags ==>
            Count(s'.tags, d, tag) == Count(s.tags, d, tag) + One(CompositeTag(s, [id], done, d, tag)))
      && (forall c :: c in s.composites && c != id ==> s'.composites[c] == s.composites[c])
      && (id in s.composites ==>
            && s'.composites[id].roots == s.composites[id].roots
            && (d in s'.composites[id].deltas <==>
                d in s.composites[id].deltas || WalkReaches(s.edges, done, s.composites[id].roots, d)))
  {
    if id in s.composites {
      var c := s.composites[id];
      MarksAll(s.tags, done, c.roots);
      WalkMany(s.edges, done, Late(s.tags, c.deltas), c.roots, AllIn(c.roots, done), id, d, tag);
    }
  }

  ghost predicate CompositeJoinedLate(s: Cce, s': Cce, ids: seq<IncidentId>, done: set<DeltaId>, c: IncidentId,
                                      x: DeltaId)
  {
    && s'.composites.Keys == s.composites.Keys && s'.edges == s.edges && s'.incidents == s.incidents
    && (c in s.composites ==>
          && s'.composites[c].roots == s.composites[c].roots
          && (x in s'.composites[c].deltas <==>
              || x in s.composites[c].deltas
              || (c in ids && WalkReaches(s.edges, done, s.composites[c].roots, x))))
  }

  lemma {:induction false} CompositeMany(s: Cce, ids: seq<IncidentId>, done: set<DeltaId>, c: IncidentId, x: DeltaId)
    requires Marks(s.tags, done) && NoDup(ids)
    ensures Marks(LateComposites(s, ids).tags, done) && CompositeJoinedLate(s, LateComposites(s, ids), ids, done, c, x)
  {
    if ids != [] {
      var init, last := ids[..|ids| - 1], ids[|ids| - 1];
      assert ids == init + [last];
      CompositeMany(s, init, done, c, x);
      CompositeOne(LateComposites(s, init), last, done, x, Resolved(""));
    }
  }

  lemma {:induction false} CompositeTags(s: Cce, ids: seq<IncidentId>, done: set<DeltaId>, d: DeltaId, tag: Tag)
    requires Marks(s.tags, done) && NoDup(ids) && d in s.tags
    ensures var s' := LateComposites(s, ids);
      && d in s'.tags && Marks(s'.tags, done)
      && Count(s'.tags, d, tag) == Count(s.tags, d, tag) + One(CompositeTag(s, ids, done, d, tag))
  {
    if ids != [] {
      var init, last := ids[..|ids| - 1], ids[|ids| - 1];
      assert ids == init + [last];
      CompositeTags(s, init, done, d, tag);
      CompositeMany(s, init, done, last, d);
      CompositeOne(LateComposites(s, init), last, done, d, tag);
    }
  }

  // ---------------------------------------------------------------------------
  // A whole verification

  /**
    The tags a verification brings to the log of a delta.  A decontamination reaches what a resolved
    incident holds and what its roots reach; a contamination reaches what the unresolved roots of an
    incident, or of an open composite, reach outside its delta set, and names the first of them.
   */
  ghost predicate Brings(s: Cce, manager: Did, root: DeltaId, d: DeltaId, tag: Tag) {
    var done := ResolvedWith(s, root);
    match tag
    case Resolved(m) => d == root && m == manager
    case Decontaminated(i) =>
      || (Listed(s, root, i) && AllIn(s.incidents[i].roots, done)
          && (d in s.incidents[i].deltas || Meets(s.edges, done, s.incidents[i].roots, true, d)))
      || (ListedOpen(s, root, i) && AllIn(s.composites[i].roots, done)
          && d !in s.composites[i].deltas && Meets(s.edges, done, s.composites[i].roots, true, d))
    case Contaminated(r, i) =>
      || (Listed(s, root, i) && !AllIn(s.incidents[i].roots, done)
          && d !in s.incidents[i].deltas && FirstMeets(s.edges, done, s.incidents[i].roots, false, r, d))
      || (ListedOpen(s, root, i) && !AllIn(s.composites[i].roots, done)
          && d !in s.composites[i].deltas && FirstMeets(s.edges, done, s.composites[i].roots, false, r, d))
  }

  lemma {:induction false} SettledComposites(s: Cce, manager: Did, root: DeltaId, ids: seq<IncidentId>)
    ensures SettledAll(s, manager, root, ids).composites == s.composites
  {
    if ids != [] {
      SettledComposites(s, manager, root, ids[..|ids| - 1]);
    }
  }

  lemma OrderLists(s: Cce, root: DeltaId, order: Order, i: IncidentId)
    requires OrderFits(s, root, order)
    ensures i in order.incidents <==> Listed(s, root, i)
    ensures i in order.openComposites <==> ListedOpen(s, root, i)
  {
    assert i in order.incidents <==> i in Elems(order.incidents);
    assert i in order.openComposites <==> i in Elems(order.openComposites);
  }

  /** The tags of the three stages together are those that `Brings` lists, each once. */
  lemma StagesBring(s: Cce, manager: Did, root: DeltaId, order: Order, d: DeltaId, tag: Tag)
    requires Numbered(s) && OrderFits(s, root, order)
    ensures var done := ResolvedWith(s, root);
      One(d == root && tag == Resolved(manager)) + One(SettleTag(s, order.incidents, done, d, tag))
      + One(IncidentTag(s, order.incidents, done, d, tag)) + One(CompositeTag(s, order.openComposites, done, d, tag))
      == One(Brings(s, manager, root, d, tag))
  {
    if !tag.Resolved? {
      OrderLists(s, root, order, tag.incident);
    }
  }

  lemma SettledSame(s: Cce, t: Cce, ids: seq<IncidentId>, done: set<DeltaId>, d: DeltaId, tag: Tag)
    requires t.incidents.Keys == s.incidents.Keys && t.edges == s.edges
    requires forall i :: i in s.incidents ==>
               t.incidents[i].roots == s.incidents[i].roots && t.incidents[i].deltas == s.incidents[i].deltas
    ensures IncidentTag(t, ids, done, d, tag) <==> IncidentTag(s, ids, done, d, tag)
  {
  }

  /** Stage by stage: each stage brings its own tags. */
  lemma StagesCount(s: Cce, manager: Did, root: DeltaId, order: Order, d: DeltaId, tag: Tag)
    requires GateInv(s) && OrderFits(s, root, order) && d in s.tags
    ensures var done, w := ResolvedWith(s, root), StagesOf(s, manager, root, order).walkedAll;
      && d in w.tags
      && Count(w.tags, d, tag) == Count(s.tags, d, tag) + One(d == root && tag == Resolved(manager))
         + One(SettleTag(s, order.incidents, done, d, tag)) + One(IncidentTag(s, order.incidents, done, d, tag))
         + One(CompositeTag(s, order.openComposites, done, d, tag))
  {
    var done, g := ResolvedWith(s, root), StagesOf(s, manager, root, order);
    ResolvingMarks(s, root, manager);
    AppendCount(s.tags, {root}, Resolved(manager), d, tag);
    SettleMany(g.resolved, manager, root, order.incidents, done, d, tag);
    SettledAllLeaves(g.resolved, manager, root, order.incidents);
    SettledComposites(g.resolved, manager, root, order.incidents);
    IncidentTags(g.settled, order.incidents, done, d, tag);
    IncidentMany(g.settled, order.incidents, done, IncidentId(0), d);
    SettledSame(s, g.settled, order.incidents, done, d, tag);
    CompositeTags(g.walked, order.openComposites, done, d, tag);
  }

  /** A verification brings exactly these tags, each once; every log keeps what it held. */
  lemma VerifyBrings(s: Cce, manager: Did, root: DeltaId, order: Order, d: DeltaId, tag: Tag)
    requires GateInv(s) && OrderFits(s, root, order) && d in s.tags
    ensures var s' := Verified(s, manager, root, order);
      && d in s'.tags && s.tags[d] <= s'.tags[d]
      && multiset(s'.tags[d])[tag] ==
         multiset(s.tags[d])[tag] + if Brings(s, manager, root, d, tag) then 1 else 0
  {
    StagesCount(s, manager, root, order, d, tag);
    StagesBring(s, manager, root, order, d, tag);
    VerifiesKeeps(s, Verified(s, manager, root, order), manager, root, order);
    DecomposeAllKeepsLogs(StagesOf(s, manager, root, order).walkedAll, order.composites);
  }

  // ---------------------------------------------------------------------------
  // Late arrivals

  /** Among the roots that reach the delta there is a first one. */
  lemma {:induction false} SomeFirst(edges: set<(DeltaId, DeltaId)>, done: set<DeltaId>, roots: seq<DeltaId>,
                                     resolved: bool, x: DeltaId) returns (r: DeltaId)
    requires Meets(edges, done, roots, resolved, x)
    ensures FirstMeets(edges, done, roots, resolved, r, x)
  {
    if roots == [] {
      assert false;
    }
    var init, last := roots[..|roots| - 1], roots[|roots| - 1];
    assert roots == init + [last];
    MeetsPush(edges, done, init, last, resolved, x);
    if Meets(edges, done, init, resolved, x) {
      r := SomeFirst(edges, done, init, resolved, x);
    } else {
      r := last;
    }
    FirstMeetsPush(edges, done, init, last, resolved, r, x);
  }

  /** A delta that arrived late below an unresolved root of an incident, or of an open composite, is tainted. */
  lemma LateArrivalIsTainted(s: Cce, manager: Did, root: DeltaId, order: Order, id: IncidentId, q: DeltaId, d: DeltaId)
    returns (r: DeltaId)
    requires GateInv(s) && OrderFits(s, root, order) && d in s.tags
    requires Listed(s, root, id) || ListedOpen(s, root, id)
    requires q in RootsOf(s)[id] && q !in ResolvedWith(s, root) && Reaches(s.edges, q, d)
    requires d !in if id in s.incidents then s.incidents[id].deltas else s.composites[id].deltas
    ensures r in RootsOf(s)[id] && r !in ResolvedWith(s, root) && Reaches(s.edges, r, d)
    ensures var s' := Verified(s, manager, root, order);
      d in s'.tags && s.tags[d] <= s'.tags[d] && Contaminated(r, id) in s'.tags[d][|s.tags[d]|..]
  {
    var roots, done := RootsOf(s)[id], ResolvedWith(s, root);
    assert Meets(s.edges, done, roots, false, d);
    r := SomeFirst(s.edges, done, roots, false, d);
    VerifyBrings(s, manager, root, order, d, Contaminated(r, id));
    var a, b, tag := s.tags[d], Verified(s, manager, root, order).tags[d], Contaminated(r, id);
    assert b == a + b[|a|..];
    assert multiset(b)[tag] == multiset(a)[tag] + multiset(b[|a|..])[tag];
  }

  // ---------------------------------------------------------------------------
  // What a decomposition leaves behind

  /** The incident of a root that a decomposition leaves unresolved. */
  ghost predicate StandsAlone(s: Cce, ico: Incident, root: DeltaId) {
    && ico.state == Open && ico.roots == [root] && ico.audit == []
    && (forall x :: x in ico.deltas <==> Reaches(s.edges, root, x))
    && |ico.rows| == |s.rows| && forall k :: 0 <= k < |s.rows| ==> ico.rows[k] == AffectedRow(s.rows[k], root)
  }

  /** From `s` to `t` incidents were numbered from the counter on, the j-th of them for `roots[j]`. */
  ghost predicate Stand(s: Cce, t: Cce, roots: seq<DeltaId>) {
    && t.nextId == s.nextId + |roots| && t.edges == s.edges && t.rows == s.rows && t.tags == s.tags
    && (forall i :: i in t.incidents <==> i in s.incidents || s.nextId <= i.n < t.nextId)
    && (forall i :: i in s.incidents && i in t.incidents ==> t.incidents[i] == s.incidents[i])
    && (forall n :: s.nextId <= n < t.nextId && IncidentId(n) in t.incidents ==>
          StandsAlone(s, t.incidents[IncidentId(n)], roots[n - s.nextId]))
  }

  lemma {:induction false} ReregisterStands(s: Cce, roots: seq<DeltaId>)
    requires Numbered(s)
    ensures Stand(s, ReregisteredAll(s, roots), roots) && ReregisteredAll(s, roots).composites == s.composites
  {
    if roots != [] {
      var init, last := roots[..|roots| - 1], roots[|roots| - 1];
      ReregisterStands(s, init);
      StandOne(s, ReregisteredAll(s, init), init, last);
      assert roots == init + [last];
    }
  }

  lemma StandOne(s: Cce, t: Cce, init: seq<DeltaId>, last: DeltaId)
    requires Numbered(s) && Stand(s, t, init)
    ensures Stand(s, Reregistered(t, last), init + [last])
  {
    var u, id := Reregistered(t, last), IncidentId(t.nextId);
    forall x ensures x in u.incidents[id].deltas <==> Reaches(s.edges, last, x) {
      InDescendants(s.edges, last, x);
    }
    assert StandsAlone(s, u.incidents[id], last);
    forall n | s.nextId <= n < u.nextId && IncidentId(n) in u.incidents
      ensures StandsAlone(s, u.incidents[IncidentId(n)], (init + [last])[n - s.nextId])
    {
      if n < t.nextId {
        assert u.incidents[IncidentId(n)] == t.incidents[IncidentId(n)];
        assert StandsAlone(s, t.incidents[IncidentId(n)], init[n - s.nextId]);
      }
    }
  }

  lemma StandOn(s: Cce, t: Cce, u: Cce, a: seq<DeltaId>, b: seq<DeltaId>)
    requires Stand(s, t, a) && Stand(t, u, b)
    ensures Stand(s, u, a + b)
  {
    forall n | s.nextId <= n < u.nextId && IncidentId(n) in u.incidents
      ensures StandsAlone(s, u.incidents[IncidentId(n)], (a + b)[n - s.nextId])
    {
      if n < t.nextId {
        assert u.incidents[IncidentId(n)] == t.incidents[IncidentId(n)];
        assert StandsAlone(s, t.incidents[IncidentId(n)], a[n - s.nextId]);
      } else {
        assert StandsAlone(t, u.incidents[IncidentId(n)], b[n - t.nextId]);
      }
    }
  }

  /** The unresolved roots of the listed composites, one composite after the other. */
  ghost function Surviving(s: Cce, ids: seq<IncidentId>): seq<DeltaId> {
    if ids == [] then []
    else
      var before, last := Surviving(s, ids[..|ids| - 1]), ids[|ids| - 1];
      if last in s.composites then before + Unresolved(s.tags, s.composites[last].roots) else before
  }

  /** Composites keep their roots and deltas while they are decomposed. */
  ghost predicate CompositesStay(s: Cce, t: Cce) {
    && t.composites.Keys == s.composites.Keys
    && forall c :: c in s.composites ==>
         t.composites[c].roots == s.composites[c].roots && t.composites[c].deltas == s.composites[c].deltas
  }

  lemma StandNumbered(s: Cce, t: Cce, roots: seq<DeltaId>)
    requires Numbered(s) && Stand(s, t, roots) && CompositesStay(s, t)
    ensures Numbered(t)
  {
  }

  lemma DecomposeOneStands(s: Cce, id: IncidentId)
    requires Numbered(s) && id in s.composites
    ensures Stand(s, Decompose(s, id), Unresolved(s.tags, s.composites[id].roots))
    ensures CompositesStay(s, Decompose(s, id))
  {
    var c := s.composites[id];
    var marked := s.(composites := s.composites[id := c.(state := Decomposed)]);
    assert CompositesStay(s, marked);
    ReregisterStands(marked, Unresolved(s.tags, c.roots));
    StandFrom(s, marked, ReregisteredAll(marked, Unresolved(s.tags, c.roots)), Unresolved(s.tags, c.roots));
  }

  /** What stands does not depend on the composites. */
  lemma StandFrom(s: Cce, marked: Cce, t: Cce, roots: seq<DeltaId>)
    requires marked == s.(composites := marked.composites) && Stand(marked, t, roots)
    ensures Stand(s, t, roots)
  {
    forall n | s.nextId <= n < t.nextId && IncidentId(n) in t.incidents
      ensures StandsAlone(s, t.incidents[IncidentId(n)], roots[n - s.nextId])
    {
      assert StandsAlone(marked, t.incidents[IncidentId(n)], roots[n - s.nextId]);
    }
  }

  lemma {:induction false} DecomposeStands(s: Cce, ids: seq<IncidentId>)
    requires Numbered(s)
    ensures Stand(s, DecomposeAll(s, ids), Surviving(s, ids)) && CompositesStay(s, DecomposeAll(s, ids))
  {
    if ids != [] {
      var init, last := ids[..|ids| - 1], ids[|ids| - 1];
      var mid := DecomposeAll(s, init);
      DecomposeStands(s, init);
      if last in s.composites {
        StandNumbered(s, mid, Surviving(s, init));
        DecomposeOneStands(mid, last);
        StandOn(s, mid, Decompose(mid, last), Surviving(s, init), Unresolved(s.tags, s.composites[last].roots));
      }
    }
  }

  /** The listed composites in which `r` is a root. */
  ghost function Rooted(s: Cce, ids: set<IncidentId>, r: DeltaId): set<IncidentId> {
    set c | c in ids && c in s.composites && r in s.composites[c].roots
  }

  ghost predicate DistinctRoots(s: Cce) {
    && (forall c :: c in s.composites ==> NoDup(s.composites[c].roots))
    && forall i :: i in s.incidents ==> NoDup(s.incidents[i].roots)
  }

  lemma CountCons(head: DeltaId, rest: seq<DeltaId>, r: DeltaId)
    ensures multiset([head] + rest)[r] == One(head == r) + multiset(rest)[r]
  {
  }

  lemma {:induction false} OnceIn(roots: seq<DeltaId>, keep: set<DeltaId>, r: DeltaId)
    requires NoDup(roots)
    ensures multiset(Filter(roots, keep))[r] == One(r in roots && r in keep)
  {
    if roots != [] {
      var head, rest := roots[0], roots[1..];
      OnceIn(rest, keep, r);
      assert r in roots <==> r == head || r in rest;
      assert head !in rest;
      CountCons(head, Filter(rest, keep), r);
    }
  }

  lemma CountJoin(a: seq<DeltaId>, b: seq<DeltaId>, r: DeltaId)
    ensures multiset(a + b)[r] == multiset(a)[r] + multiset(b)[r]
  {
  }

  lemma RootedPush(s: Cce, init: seq<IncidentId>, last: IncidentId, r: DeltaId)
    requires last !in init
    ensures |Rooted(s, Elems(init + [last]), r)| ==
            |Rooted(s, Elems(init), r)| + One(last in s.composites && r in s.composites[last].roots)
  {
    var before, now := Rooted(s, Elems(init), r), Rooted(s, Elems(init + [last]), r);
    if last in s.composites && r in s.composites[last].roots {
      assert now == before + {last};
    } else {
      assert now == before;
    }
  }

  lemma {:induction false} SurvivingCount(s: Cce, ids: seq<IncidentId>, done: set<DeltaId>, r: DeltaId)
    requires DistinctRoots(s) && NoDup(ids) && Marks(s.tags, done)
    ensures multiset(Surviving(s, ids))[r] == if r in done then 0 else |Rooted(s, Elems(ids), r)|
  {
    if ids == [] {
      assert Rooted(s, Elems(ids), r) == {};
    } else {
      var init, last := ids[..|ids| - 1], ids[|ids| - 1];
      assert ids == init + [last];
      SurvivingCount(s, init, done, r);
      RootedPush(s, init, last, r);
      if last in s.composites {
        UnresolvedCount(s, last, done, r);
        CountJoin(Surviving(s, init), Unresolved(s.tags, s.composites[last].roots), r);
      }
    }
  }

  lemma UnresolvedCount(s: Cce, id: IncidentId, done: set<DeltaId>, r: DeltaId)
    requires DistinctRoots(s) && id in s.composites && Marks(s.tags, done)
    ensures multiset(Unresolved(s.tags, s.composites[id].roots))[r] == One(r in s.composites[id].roots && r !in done)
  {
    var roots := s.composites[id].roots;
    OnceIn(roots, (set x | x in roots && !HasResolved(s.tags, x)), r);
  }

  // ---------------------------------------------------------------------------
  // Incidents after a verification

  /**
    The late arrivals that join: what the roots of an incident of the verified root, or of an open
    composite of it, reach; every root counts once all are resolved, only the unresolved ones before.
   */
  lemma VerifyJoins(s: Cce, manager: Did, root: DeltaId, order: Order, i: IncidentId, x: DeltaId)
    requires GateInv(s) && OrderFits(s, root, order)
    ensures var s', done := Verified(s, manager, root, order), ResolvedWith(s, root);
      && (i in s.incidents ==>
            && i in s'.incidents
            && (x in s'.incidents[i].deltas <==>
                || x in s.incidents[i].deltas
                || (&& Listed(s, root, i)
                    && Meets(s.edges, done, s.incidents[i].roots, AllIn(s.incidents[i].roots, done), x))))
      && (i in s.composites ==>
            && i in s'.composites
            && (x in s'.composites[i].deltas <==>
                || x in s.composites[i].deltas
                || (&& ListedOpen(s, root, i)
                    && Meets(s.edges, done, s.composites[i].roots, AllIn(s.composites[i].roots, done), x))))
  {
    var done, g := ResolvedWith(s, root), StagesOf(s, manager, root, order);
    ResolvingMarks(s, root, manager);
    StagesKeep(s, manager, root, order);
    SameMarks(g.resolved.tags, g.settled.tags, done);
    SettledAllLeaves(g.resolved, manager, root, order.incidents);
    SettledComposites(g.resolved, manager, root, order.incidents);
    IncidentMany(g.settled, order.incidents, done, i, x);
    CompositeMany(g.walked, order.openComposites, done, i, x);
    DecomposeStands(g.walkedAll, order.composites);
    OrderLists(s, root, order, i);
  }

  /** The composites, in whatever state, that list both deltas as roots. */
  function Sharing(s: Cce, root: DeltaId, r: DeltaId): set<IncidentId> {
    set c | c in s.composites && root in s.composites[c].roots && r in s.composites[c].roots
  }

  /**
    A decomposition numbers one open incident for each unresolved root of each composite of the verified
    root, in whatever state; it holds what that root reaches and every projected row.
   */
  lemma DecompositionLeaves(s: Cce, manager: Did, root: DeltaId, order: Order) returns (left: seq<DeltaId>)
    requires GateInv(s) && OrderFits(s, root, order) && DistinctRoots(s)
    ensures var s', done := Verified(s, manager, root, order), ResolvedWith(s, root);
      && s'.nextId == s.nextId + |left|
      && (forall i :: i in s'.incidents <==> i in s.incidents || s.nextId <= i.n < s'.nextId)
      && (forall n :: s.nextId <= n < s'.nextId && IncidentId(n) in s'.incidents ==>
            StandsAlone(s, s'.incidents[IncidentId(n)], left[n - s.nextId]))
    ensures forall r :: multiset(left)[r] ==
              if r in ResolvedWith(s, root) then 0
              else |Sharing(s, root, r)|
  {
    var done, w := ResolvedWith(s, root), StagesOf(s, manager, root, order).walkedAll;
    ResolvingMarks(s, root, manager);
    StagesKeep(s, manager, root, order);
    WalksStay(s, manager, root, order);
    SameMarks(StagesOf(s, manager, root, order).resolved.tags, w.tags, done);
    DecomposeStands(w, order.composites);
    left := Surviving(w, order.composites);
    StandWalked(s, w, DecomposeAll(w, order.composites), left);
    forall r ensures multiset(left)[r] == if r in done then 0 else |Sharing(s, root, r)| {
      SurvivingOf(s, w, root, order, done, r);
    }
  }

  lemma StandWalked(s: Cce, w: Cce, t: Cce, roots: seq<DeltaId>)
    requires Stand(w, t, roots) && ShapeStays(s, w)
    ensures t.nextId == s.nextId + |roots|
    ensures forall i :: i in t.incidents <==> i in s.incidents || s.nextId <= i.n < t.nextId
    ensures forall n :: s.nextId <= n < t.nextId && IncidentId(n) in t.incidents ==>
              StandsAlone(s, t.incidents[IncidentId(n)], roots[n - s.nextId])
  {
    forall n | s.nextId <= n < t.nextId && IncidentId(n) in t.incidents
      ensures StandsAlone(s, t.incidents[IncidentId(n)], roots[n - s.nextId])
    {
      assert StandsAlone(w, t.incidents[IncidentId(n)], roots[n - s.nextId]);
    }
  }

  lemma SurvivingOf(s: Cce, w: Cce, root: DeltaId, order: Order, done: set<DeltaId>, r: DeltaId)
    requires OrderFits(s, root, order) && DistinctRoots(s) && ShapeStays(s, w) && Marks(w.tags, done)
    ensures multiset(Surviving(w, order.composites))[r] == if r in done then 0 else |Sharing(s, root, r)|
  {
    SurvivingCount(w, order.composites, done, r);
    assert Rooted(w, Elems(order.composites), r) == Sharing(s, root, r);
  }

  // ---------------------------------------------------------------------------
  // The audit

  lemma {:induction false} SettledAudits(s: Cce, manager: Did, root: DeltaId, ids: seq<IncidentId>, i: IncidentId)
    requires NoDup(ids) && i in s.incidents
    ensures var s' := SettledAll(s, manager, root, ids);
      && i in s'.incidents && s'.incidents[i].state == s.incidents[i].state
      && s'.incidents[i].audit == s.incidents[i].audit + (if i in ids then [VerifyData(manager, root)] else [])
  {
    if ids != [] {
      var init, last := ids[..|ids| - 1], ids[|ids| - 1];
      assert ids == init + [last];
      SettledAudits(s, manager, root, init, i);
      SettledAudit(SettledAll(s, manager, root, init), manager, root, last, i);
    }
  }

  lemma SettledAudit(s: Cce, manager: Did, root: DeltaId, id: IncidentId, i: IncidentId)
    requires i in s.incidents
    ensures var s' := Settled(s, manager, root, id);
      && i in s'.incidents && s'.incidents[i].state == s.incidents[i].state
      && (i == id ==> s'.incidents[i].audit == s.incidents[i].audit + [VerifyData(manager, root)])
      && (i != id ==> s'.incidents[i].audit == s.incidents[i].audit)
  {
  }

  lemma {:induction false} WalksLeaveAudits(s: Cce, ids: seq<IncidentId>, i: IncidentId)
    requires i in s.incidents
    ensures var s' := LateIncidents(s, ids);
      && i in s'.incidents && s'.incidents[i].audit == s.incidents[i].audit
      && s'.incidents[i].state == s.incidents[i].state
  {
    if ids != [] {
      WalksLeaveAudits(s, ids[..|ids| - 1], i);
    }
  }

  lemma {:induction false} CompositeWalksLeave(s: Cce, ids: seq<IncidentId>)
    ensures LateComposites(s, ids).incidents == s.incidents
  {
    if ids != [] {
      CompositeWalksLeave(s, ids[..|ids| - 1]);
    }
  }

  /** The incidents of the verified root are audited once, in whatever state; no other is, and no state moves. */
  lemma VerifyAudits(s: Cce, manager: Did, root: DeltaId, order: Order, i: IncidentId)
    requires GateInv(s) && OrderFits(s, root, order) && i in s.incidents
    ensures var s' := Verified(s, manager, root, order);
      && i in s'.incidents && s'.incidents[i].state == s.incidents[i].state
      && (root in s.incidents[i].roots ==>
            s'.incidents[i].audit == s.incidents[i].audit + [VerifyData(manager, root)])
      && (root !in s.incidents[i].roots ==> s'.incidents[i].audit == s.incidents[i].audit)
  {
    var g := StagesOf(s, manager, root, order);
    StagesKeep(s, manager, root, order);
    OrderLists(s, root, order, i);
    SettledAudits(g.resolved, manager, root, order.incidents, i);
    WalksLeaveAudits(g.settled, order.incidents, i);
    CompositeWalksLeave(g.walked, order.openComposites);
    DecomposeStands(g.walkedAll, order.composites);
  }

  /** Closing marks an open incident Closed with one audit entry; it changes nothing else, and nothing otherwise. */
  lemma CloseMarks(s: Cce, id: IncidentId, manager: Did, i: IncidentId)
    ensures var s' := ClosedIncident(s, id, manager);
      var closes := id in s.incidents && s.incidents[id].state == Open;
      && (i in s'.incidents <==> i in s.incidents)
      && (i in s.incidents && !(closes && i == id) ==> s'.incidents[i] == s.incidents[i])
      && (closes && i == id ==>
            var a, b := s.incidents[i], s'.incidents[i];
            && b.roots == a.roots && b.deltas == a.deltas && b.rows == a.rows
            && b.state == Closed && b.audit == a.audit + [AdminClose(manager)])
      && s'.tags == s.tags && s'.edges == s.edges && s'.composites == s.composites && s'.index == s.index
      && s'.rows == s.rows && s'.flags == s.flags && s'.nextId == s.nextId
  {
  }

  // ---------------------------------------------------------------------------
  // Every incident lists a root once

  lemma {:induction false} UnionDistinct(a: seq<DeltaId>, b: seq<DeltaId>)
    requires NoDup(a)
    ensures NoDup(UnionRoots(a, b))
  {
    if b != [] {
      UnionDistinct(a, b[..|b| - 1]);
    }
  }

  lemma VerifyKeepsDistinct(s: Cce, manager: Did, root: DeltaId, order: Order)
    requires GateInv(s) && OrderFits(s, root, order) && DistinctRoots(s)
    ensures DistinctRoots(Verified(s, manager, root, order))
  {
    var s', w := Verified(s, manager, root, order), StagesOf(s, manager, root, order).walkedAll;
    var left := DecompositionLeaves(s, manager, root, order);
    VerifiesKeeps(s, s', manager, root, order);
    WalksStay(s, manager, root, order);
    StagesKeep(s, manager, root, order);
    DecomposeStands(w, order.composites);
    DistinctAfter(s, s', left);
  }

  lemma DistinctAfter(s: Cce, s': Cce, left: seq<DeltaId>)
    requires DistinctRoots(s) && Extends(s, s') && s'.composites.Keys == s.composites.Keys
    requires s'.nextId == s.nextId + |left|
    requires forall i :: i in s'.incidents ==> i in s.incidents || s.nextId <= i.n < s'.nextId
    requires forall n :: s.nextId <= n < s'.nextId && IncidentId(n) in s'.incidents ==>
               StandsAlone(s, s'.incidents[IncidentId(n)], left[n - s.nextId])
    ensures DistinctRoots(s')
  {
    forall i | i in s'.incidents ensures NoDup(s'.incidents[i].roots) {
      if i in s.incidents {
        assert IncidentExtends(s.incidents[i], s'.incidents[i]);
      } else {
        assert i == IncidentId(i.n);
        assert StandsAlone(s, s'.incidents[IncidentId(i.n)], left[i.n - s.nextId]);
      }
    }
    forall c | c in s'.composites ensures NoDup(s'.composites[c].roots) {
      assert CompositeExtends(s.composites[c], s'.composites[c]);
    }
  }

  lemma TagKeepsDistinct(s: Cce, s': Cce, root: DeltaId, overlap: Option<IncidentId>)
    requires DistinctRoots(s) && Tags(s, s', root, overlap)
    ensures DistinctRoots(s')
  {
    match overlap {
      case None =>
        assert s'.incidents == s.incidents[IncidentId(s.nextId) := NewIncident(s, root)];
      case Some(other) =>
        UnionDistinct(s.incidents[other].roots, [root]);
        JoinedDistinct(s, s', other, root);
    }
  }

  lemma JoinedDistinct(s: Cce, s': Cce, other: IncidentId, root: DeltaId)
    requires DistinctRoots(s) && other in s.incidents && s' == Tagged(s, root, Some(other))
    requires NoDup(UnionRoots(s.incidents[other].roots, [root]))
    ensures DistinctRoots(s')
  {
    var ico, c := NewIncident(s, root), IncidentId(s.nextId + 1);
    assert s'.composites[c].roots == UnionRoots(s.incidents[other].roots, [root]);
    assert forall i :: i in s'.incidents ==> s'.incidents[i].roots == [root] ||
                                              (i in s.incidents && s'.incidents[i].roots == s.incidents[i].roots);
    assert forall k :: k in s'.composites && k != c ==> k in s.composites && s'.composites[k] == s.composites[k];
  }

  lemma StepKeepsDistinct(s: Cce, s': Cce)
    requires GateInv(s) && DistinctRoots(s) && Step(s, s')
    ensures DistinctRoots(s')
  {
    if Grows(s, s') {
    } else if root, overlap :| Tags(s, s', root, overlap) {
      TagKeepsDistinct(s, s', root, overlap);
    } else if manager, root, order :| Verifies(s, s', manager, root, order) {
      VerifyKeepsDistinct(s, manager, root, order);
    } else {
      var id, manager :| s' == ClosedIncident(s, id, manager);
      CloseKeepsDistinct(s, id, manager);
    }
  }

  lemma CloseKeepsDistinct(s: Cce, id: IncidentId, manager: Did)
    requires DistinctRoots(s)
    ensures DistinctRoots(ClosedIncident(s, id, manager))
  {
  }

  /** In every reachable state the preconditions of the lemmas above hold. */
  lemma {:induction false} RunKeepsDistinct(run: seq<Cce>)
    requires IsRun(run)
    ensures GateInv(run[|run| - 1]) && DistinctRoots(run[|run| - 1])
  {
    RunGrows(run, 0);
    if |run| > 1 {
      var init := run[..|run| - 1];
      RunGrows(init, 0);
      RunKeepsDistinct(init);
      StepKeepsDistinct(init[|init| - 1], run[|run| - 1]);
    }
  }
}
