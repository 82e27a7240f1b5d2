/** Incidents and composites while chains are only tagged: who supersedes whom, and what overlaps. */
module IncidentAlgebra {
  import opened Deltas
  import opened Graphs
  import opened Incidents
  import opened IncidentGate
  import opened Sequences

  ghost predicate TagStep(s: Cce, s': Cce) {
    Grows(s, s') || (exists root, overlap :: Tags(s, s', root, overlap))
  }

  ghost predicate IsTagRun(run: seq<Cce>) {
    run != [] && Init(run[0]) && forall i :: 0 <= i < |run| - 1 ==> TagStep(run[i], run[i + 1])
  }

  // ---------------------------------------------------------------------------
  // The algebra

  /** Open plain incidents share no delta. */
  ghost predicate Apart(incidents: map<IncidentId, Incident>) {
    forall i, j :: i in incidents && j in incidents && i != j && incidents[i].state == incidents[j].state == Open ==>
      incidents[i].deltas !! incidents[j].deltas
  }

  /** An incident is open, or superseded by a composite that lists it and holds its roots and deltas. */
  ghost predicate Accounted(s: Cce, i: IncidentId)
    requires i in s.incidents
  {
    var ico := s.incidents[i];
    || ico.state == Open
    || (&& ico.state.SupersededBy? && ico.state.composite in s.composites
        && var c := s.composites[ico.state.composite];
           i in c.sources && Elems(ico.roots) <= Elems(c.roots) && ico.deltas <= c.deltas)
  }

  /** A composite is open and is exactly the union of the two incidents it superseded. */
  ghost predicate IsUnion(s: Cce, c: IncidentId)
    requires c in s.composites
  {
    var m := s.composites[c];
    && m.state == Open && |m.sources| == 2 && m.sources[0] != m.sources[1]
    && (forall k :: 0 <= k < 2 ==> m.sources[k] in s.incidents && s.incidents[m.sources[k]].state == SupersededBy(c))
    && Elems(m.roots) == Elems(s.incidents[m.sources[0]].roots) + Elems(s.incidents[m.sources[1]].roots)
    && m.deltas == s.incidents[m.sources[0]].deltas + s.incidents[m.sources[1]].deltas
  }

  ghost predicate Algebra(s: Cce) {
    && Numbered(s) && Apart(s.incidents)
    && (forall i :: i in s.incidents ==> Accounted(s, i))
    && (forall c :: c in s.composites ==> IsUnion(s, c))
  }

  lemma {:induction false} UnionRootsHolds(a: seq<DeltaId>, b: seq<DeltaId>)
    ensures Elems(UnionRoots(a, b)) == Elems(a) + Elems(b)
  {
    if b != [] {
      var init, last := b[..|b| - 1], b[|b| - 1];
      UnionRootsHolds(a, init);
      assert b == init + [last];
      assert Elems(b) == Elems(init) + {last};
      assert Elems(UnionRoots(a, init) + [last]) == Elems(UnionRoots(a, init)) + {last};
    }
  }

  lemma NoOverlap(incidents: map<IncidentId, Incident>, deltas: set<DeltaId>, i: IncidentId)
    requires i in incidents && incidents[i].state == Open
    ensures i !in Overlapping(incidents, deltas) <==> incidents[i].deltas !! deltas
  {
    var shared := incidents[i].deltas * deltas;
    assert forall d :: d in shared <==> d in incidents[i].deltas && d in deltas;
    if shared == {} {
      assert forall d :: d in incidents[i].deltas ==> d !in deltas;
    }
  }

  lemma OpenedKeepsAlgebra(s: Cce, s': Cce, ico: Incident)
    requires Algebra(s) && ico.state == Open && Overlapping(s.incidents, ico.deltas) == {}
    requires s'.incidents == s.incidents[IncidentId(s.nextId) := ico] && s'.composites == s.composites &&
             s'.nextId == s.nextId + 1
    ensures Algebra(s')
  {
    forall i | i in s.incidents && s.incidents[i].state == Open ensures s.incidents[i].deltas !! ico.deltas {
      NoOverlap(s.incidents, ico.deltas, i);
    }
    assert Apart(s'.incidents);
    forall i | i in s'.incidents ensures Accounted(s', i) {
      if i in s.incidents {
        assert Accounted(s, i) && s'.incidents[i] == s.incidents[i];
      } else {
        assert s'.incidents[i] == ico;
      }
    }
    forall c | c in s'.composites ensures IsUnion(s', c) {
      assert IsUnion(s, c);
    }
  }

  /** Two incidents superseded by a new composite, which is their union. */
  ghost predicate JoinsAs(s: Cce, s': Cce, other: IncidentId, ico: Incident, merged: Composite) {
    var id, c := IncidentId(s.nextId), IncidentId(s.nextId + 1);
    && other in s.incidents && s.incidents[other].state == Open
    && var was := s.incidents[other];
       && s'.incidents == s.incidents[other := was.(state := SupersededBy(c))][id := ico.(state := SupersededBy(c))]
       && s'.composites == s.composites[c := merged] && s'.nextId == s.nextId + 2
       && merged.state == Open && merged.sources == [other, id]
       && Elems(merged.roots) == Elems(was.roots) + Elems(ico.roots) && merged.deltas == was.deltas + ico.deltas
  }

  lemma JoinedAccounts(s: Cce, s': Cce, other: IncidentId, ico: Incident, merged: Composite, i: IncidentId)
    requires Numbered(s) && JoinsAs(s, s', other, ico, merged)
    requires i in s'.incidents && (i in s.incidents ==> Accounted(s, i))
    ensures Accounted(s', i)
  {
    if i == other || i == IncidentId(s.nextId) {
      assert merged.sources[0] == other && merged.sources[1] == IncidentId(s.nextId);
    }
  }

  lemma JoinedUnions(s: Cce, s': Cce, other: IncidentId, ico: Incident, merged: Composite, x: IncidentId)
    requires Numbered(s) && JoinsAs(s, s', other, ico, merged)
    requires x in s'.composites && (x in s.composites ==> IsUnion(s, x))
    ensures IsUnion(s', x)
  {
    if x in s.composites {
      var sources := s.composites[x].sources;
      assert forall k :: 0 <= k < 2 ==> s.incidents[sources[k]].state == SupersededBy(x);
      assert sources[0] in s.incidents && sources[1] in s.incidents;
    }
  }

  lemma JoinedApart(s: Cce, s': Cce, other: IncidentId, ico: Incident, merged: Composite)
    requires Numbered(s) && Apart(s.incidents) && JoinsAs(s, s', other, ico, merged)
    ensures Apart(s'.incidents) && Numbered(s')
  {
  }

  lemma JoinedKeepsAlgebra(s: Cce, s': Cce, other: IncidentId, ico: Incident, merged: Composite)
    requires Algebra(s) && JoinsAs(s, s', other, ico, merged)
    ensures Algebra(s')
  {
    JoinedApart(s, s', other, ico, merged);
    forall i | i in s'.incidents ensures Accounted(s', i) {
      JoinedAccounts(s, s', other, ico, merged, i);
    }
    forall x | x in s'.composites ensures IsUnion(s', x) {
      JoinedUnions(s, s', other, ico, merged, x);
    }
  }

  lemma TagKeepsAlgebra(s: Cce, s': Cce, root: DeltaId, overlap: Option<IncidentId>)
    requires Algebra(s) && Tags(s, s', root, overlap)
    ensures Algebra(s')
  {
    var ico := NewIncident(s, root);
    match overlap {
      case None => OpenedKeepsAlgebra(s, s', ico);
      case Some(other) =>
        UnionRootsHolds(s.incidents[other].roots, ico.roots);
        var merged := Merged(other, s.incidents[other], IncidentId(s.nextId), ico);
        assert JoinsAs(s, s', other, ico, merged);
        JoinedKeepsAlgebra(s, s', other, ico, merged);
    }
  }

  lemma TagStepKeepsAlgebra(s: Cce, s': Cce)
    requires Algebra(s) && TagStep(s, s')
    ensures Algebra(s')
  {
    if Grows(s, s') {
      GrowKeepsAlgebra(s, s');
    } else {
      var root, overlap :| Tags(s, s', root, overlap);
      TagKeepsAlgebra(s, s', root, overlap);
    }
  }

  lemma {:induction false} TagRunKeepsAlgebra(run: seq<Cce>)
    requires IsTagRun(run)
    ensures Algebra(run[|run| - 1])
  {
    if |run| > 1 {
      TagRunKeepsAlgebra(run[..|run| - 1]);
      TagStepKeepsAlgebra(run[|run| - 2], run[|run| - 1]);
    }
  }

  lemma GrowKeepsAlgebra(s: Cce, s': Cce)
    requires Algebra(s) && s'.incidents == s.incidents && s'.composites == s.composites && s'.nextId == s.nextId
    ensures Algebra(s')
  {
    forall i | i in s'.incidents ensures Accounted(s', i) {
      assert Accounted(s, i);
    }
    forall c | c in s'.composites ensures IsUnion(s', c) {
      assert IsUnion(s, c);
    }
  }

  // ---------------------------------------------------------------------------
  // Chains: open incidents and open composites

  predicate OpenChain(s: Cce, x: IncidentId) {
    (x in s.incidents && s.incidents[x].state == Open) || (x in s.composites && s.composites[x].state == Open)
  }

  function ChainDeltas(s: Cce, x: IncidentId): set<DeltaId> {
    if x in s.incidents then s.incidents[x].deltas else if x in s.composites then s.composites[x].deltas else {}
  }

  /** No delta of any incident is ever lost: an open incident or composite still holds it. */
  lemma EveryDeltaIsHeld(run: seq<Cce>, i: IncidentId, d: DeltaId)
    requires IsTagRun(run) && i in run[|run| - 1].incidents && d in run[|run| - 1].incidents[i].deltas
    ensures var s := run[|run| - 1]; exists x :: OpenChain(s, x) && d in ChainDeltas(s, x)
  {
    var s := run[|run| - 1];
    TagRunKeepsAlgebra(run);
    assert Accounted(s, i);
    if s.incidents[i].state == Open {
      assert OpenChain(s, i) && d in ChainDeltas(s, i);
    } else {
      var c := s.incidents[i].state.composite;
      assert IsUnion(s, c);
      assert OpenChain(s, c) && d in ChainDeltas(s, c);
    }
  }

  ghost predicate ChainsApart(s: Cce) {
    forall x, y :: x != y && OpenChain(s, x) && OpenChain(s, y) ==> ChainDeltas(s, x) !! ChainDeltas(s, y)
  }

  /** The new chain meets at most one open incident, and no open composite. */
  predicate OneOverlapAtMost(s: Cce, deltas: set<DeltaId>) {
    && (forall i, j :: i in Overlapping(s.incidents, deltas) && j in Overlapping(s.incidents, deltas) ==> i == j)
    && (forall c :: c in s.composites && s.composites[c].state == Open ==> s.composites[c].deltas !! deltas)
  }

  /**
    Tagging merges at most one overlap, and composites are not searched: the open chains stay apart
    exactly when there was at most one chain to overlap and it was a plain incident.
   */
  lemma ChainsStayApartIff(s: Cce, s': Cce, root: DeltaId, overlap: Option<IncidentId>)
    requires Numbered(s) && ChainsApart(s) && Tags(s, s', root, overlap)
    ensures ChainsApart(s') <==> OneOverlapAtMost(s, Descendants(s.edges, root))
  {
    match overlap {
      case None => OpenedApartIff(s, s', root);
      case Some(other) => JoinedApartIff(s, s', root, other);
    }
  }

  lemma OpenedApartIff(s: Cce, s': Cce, root: DeltaId)
    requires Numbered(s) && ChainsApart(s)
    requires var deltas := Descendants(s.edges, root); Overlapping(s.incidents, deltas) == {}
    requires s'.incidents == s.incidents[IncidentId(s.nextId) := NewIncident(s, root)] && s'.composites == s.composites
    ensures ChainsApart(s') <==> OneOverlapAtMost(s, Descendants(s.edges, root))
  {
    var id, deltas := IncidentId(s.nextId), Descendants(s.edges, root);
    assert OpenChain(s', id) && ChainDeltas(s', id) == deltas;
    forall x | x != id ensures OpenChain(s', x) == OpenChain(s, x) && ChainDeltas(s', x) == ChainDeltas(s, x) {
    }
    forall i | i in s.incidents && s.incidents[i].state == Open ensures ChainDeltas(s, i) !! deltas {
      NoOverlap(s.incidents, deltas, i);
    }
    forall c | c in s.composites && s.composites[c].state == Open
      ensures OpenChain(s', c) && ChainDeltas(s', c) == s.composites[c].deltas && c != id
    {
    }
  }

  lemma JoinedApartIff(s: Cce, s': Cce, root: DeltaId, other: IncidentId)
    requires Numbered(s) && ChainsApart(s)
    requires var ico, id, c := NewIncident(s, root), IncidentId(s.nextId), IncidentId(s.nextId + 1);
      && other in Overlapping(s.incidents, Descendants(s.edges, root))
      && var was := s.incidents[other]; var merged := Merged(other, was, id, ico);
      && merged.state == Open && merged.deltas == was.deltas + ico.deltas
      && s'.incidents == s.incidents[other := was.(state := SupersededBy(c))][id := ico.(state := SupersededBy(c))]
      && s'.composites == s.composites[c := merged]
    ensures ChainsApart(s') <==> OneOverlapAtMost(s, Descendants(s.edges, root))
  {
    var deltas, c := Descendants(s.edges, root), IncidentId(s.nextId + 1);
    assert OpenChain(s', c) && ChainDeltas(s', c) == s.incidents[other].deltas + deltas;
    assert OpenChain(s, other) && !OpenChain(s', other) && !OpenChain(s', IncidentId(s.nextId));
    forall x | OpenChain(s', x) && x != c
      ensures OpenChain(s, x) && x != other && ChainDeltas(s', x) == ChainDeltas(s, x) &&
              ChainDeltas(s, x) !! s.incidents[other].deltas
    {
      assert ChainDeltas(s, other) == s.incidents[other].deltas;
    }
    forall x | OpenChain(s, x) && x != other ensures OpenChain(s', x) && x != c {
    }
    if OneOverlapAtMost(s, deltas) {
      forall x | OpenChain(s', x) && x != c ensures ChainDeltas(s', x) !! ChainDeltas(s', c) {
        if x in s.incidents {
          NoOverlap(s.incidents, deltas, x);
        }
        assert ChainDeltas(s', x) !! deltas;
      }
    }
    if ChainsApart(s') {
      forall i | i in Overlapping(s.incidents, deltas) ensures i == other {
        assert OpenChain(s, i);
      }
      forall x | x in s.composites && s.composites[x].state == Open ensures s.composites[x].deltas !! deltas {
        assert OpenChain(s, x) && x != other;
      }
    }
  }

  /** Three tags of one root: the second merges with the first, the third finds no open incident. */
  lemma ThirdTagStandsBesideComposite(root: DeltaId, s0: Cce) returns (s1: Cce, s2: Cce, s3: Cce)
    requires Init(s0)
    ensures Tags(s0, s1, root, None) && Tags(s1, s2, root, Some(IncidentId(0))) && Tags(s2, s3, root, None)
    ensures ChainsApart(s2) && !ChainsApart(s3)
  {
    s1 := Tagged(s0, root, None);
    SecondTagMeetsFirst(s0, s1, root);
    s2 := Tagged(s1, root, Some(IncidentId(0)));
    SecondTagLeavesComposite(s1, s2, root);
    s3 := Tagged(s2, root, None);
    MeetsComposite(s2, s3, root, IncidentId(2));
  }

  lemma MeetsComposite(s: Cce, s': Cce, root: DeltaId, c: IncidentId)
    requires Numbered(s) && ChainsApart(s) && Tags(s, s', root, None)
    requires c in s.composites && s.composites[c].state == Open && root in s.composites[c].deltas
    ensures !ChainsApart(s')
  {
    DescendantOfSelf(s.edges, root);
    ChainsStayApartIff(s, s', root, None);
    assert root in s.composites[c].deltas * Descendants(s.edges, root);
  }

  lemma SecondTagLeavesComposite(s1: Cce, s2: Cce, root: DeltaId)
    requires s1.incidents.Keys == {IncidentId(0)} && s1.nextId == 1 && s1.composites == map[]
    requires Tags(s1, s2, root, Some(IncidentId(0)))
    ensures Numbered(s2) && ChainsApart(s2) && Overlapping(s2.incidents, Descendants(s2.edges, root)) == {}
    ensures s2.composites.Keys == {IncidentId(2)} && s2.composites[IncidentId(2)].state == Open
    ensures root in s2.composites[IncidentId(2)].deltas
  {
    DescendantOfSelf(s1.edges, root);
    assert forall x :: OpenChain(s2, x) ==> x == IncidentId(2);
  }

  lemma DescendantOfSelf(edges: set<(DeltaId, DeltaId)>, root: DeltaId)
    ensures root in Descendants(edges, root)
  {
    ReachesSelf(edges, root);
  }

  lemma SecondTagMeetsFirst(s0: Cce, s1: Cce, root: DeltaId)
    requires Init(s0) && s1 == Tagged(s0, root, None)
    ensures s1.incidents == map[IncidentId(0) := NewIncident(s0, root)] && s1.nextId == 1 && s1.composites == map[]
    ensures IncidentId(0) in Overlapping(s1.incidents, Descendants(s1.edges, root))
  {
    DescendantOfSelf(s0.edges, root);
    assert root in s1.incidents[IncidentId(0)].deltas * Descendants(s1.edges, root);
  }

  // ---------------------------------------------------------------------------
  // The rows of a merge

  /** The key of row `j` of `b`, in whatever table, occurs before it. */
  predicate KeySeen(a: seq<AffectedRow>, b: seq<AffectedRow>, j: nat)
    requires j < |b|
  {
    HasKey(a + b[..j], b[j].row.key)
  }

  predicate RowSeen(a: seq<AffectedRow>, b: seq<AffectedRow>, j: nat)
    requires j < |b|
  {
    b[j].row in RowKeys(a + b[..j])
  }

  /** Every row that reuses a key is itself a repeat. */
  predicate KeysTellRows(a: seq<AffectedRow>, b: seq<AffectedRow>) {
    forall j: nat :: j < |b| && KeySeen(a, b, j) ==> RowSeen(a, b, j)
  }

  lemma HasKeyAppend(rows: seq<AffectedRow>, last: AffectedRow, key: string)
    ensures HasKey(rows + [last], key) <==> HasKey(rows, key) || key == last.row.key
  {
    assert last in rows + [last];
    if HasKey(rows, key) {
      var r :| r in rows && r.row.key == key;
      assert r in rows + [last];
    }
  }

  /** A merge invents no row and loses no key. */
  lemma {:induction false} MergeKeepsKeys(a: seq<AffectedRow>, b: seq<AffectedRow>)
    ensures forall m :: m in UnionRows(a, b) ==> m in a + b
    ensures forall key :: HasKey(UnionRows(a, b), key) <==> HasKey(a + b, key)
  {
    if b == [] {
      assert a + b == a;
    } else {
      var init, last := b[..|b| - 1], b[|b| - 1];
      assert a + b == (a + init) + [last];
      MergeKeepsKeys(a, init);
      forall key ensures HasKey(UnionRows(a, b), key) <==> HasKey(a + b, key) {
        HasKeyAppend(a + init, last, key);
        HasKeyAppend(UnionRows(a, init), last, key);
      }
    }
  }

  /**
    A merge drops repeated keys whatever their table, so it keeps every row exactly when no row
    reuses the key of another.
   */
  lemma {:induction false} MergeKeepsRowsIff(a: seq<AffectedRow>, b: seq<AffectedRow>)
    ensures RowKeys(UnionRows(a, b)) == RowKeys(a + b) <==> KeysTellRows(a, b)
  {
    if b == [] {
      assert a + b == a;
    } else {
      var init, last := b[..|b| - 1], b[|b| - 1];
      assert b == init + [last];
      MergeKeepsRowsIff(a, init);
      MergeRowsPush(a, init, last);
      KeysTellRowsPush(a, init, last);
    }
  }

  lemma MergeRowsPush(a: seq<AffectedRow>, init: seq<AffectedRow>, last: AffectedRow)
    ensures var b := init + [last];
      RowKeys(UnionRows(a, b)) == RowKeys(a + b) <==>
      RowKeys(UnionRows(a, init)) == RowKeys(a + init) && (KeySeen(a, b, |init|) ==> RowSeen(a, b, |init|))
  {
    var b, u, all := init + [last], UnionRows(a, init), a + init;
    assert b[..|init|] == init && b[|b| - 1] == last && b[..|b| - 1] == init;
    assert a + b == all + [last];
    MergeKeepsKeys(a, init);
    RowKeysAppend(all, last);
    RowKeysAppend(u, last);
    assert KeySeen(a, b, |init|) == HasKey(all, last.row.key) == HasKey(u, last.row.key);
    assert RowSeen(a, b, |init|) == (last.row in RowKeys(all));
  }

  lemma KeysTellRowsPush(a: seq<AffectedRow>, init: seq<AffectedRow>, last: AffectedRow)
    ensures var b := init + [last];
      KeysTellRows(a, b) <==> KeysTellRows(a, init) && (KeySeen(a, b, |init|) ==> RowSeen(a, b, |init|))
  {
    var b := init + [last];
    assert b[..|init|] == init;
    forall j: nat | j < |init|
      ensures KeySeen(a, b, j) == KeySeen(a, init, j) && RowSeen(a, b, j) == RowSeen(a, init, j)
    {
      assert b[..j] == init[..j];
    }
    if KeysTellRows(a, init) && (KeySeen(a, b, |init|) ==> RowSeen(a, b, |init|)) {
      forall j: nat | j < |b| && KeySeen(a, b, j) ensures RowSeen(a, b, j) {
        if j < |init| {
          assert KeySeen(a, init, j);
        }
      }
    }
  }

  /** Row `j` of `b` brings the row `k` into the merge: no row before it, in whatever table, has its key. */
  predicate Brings(a: seq<AffectedRow>, b: seq<AffectedRow>, j: nat, k: RowKey) {
    j < |b| && b[j].row == k && !KeySeen(a, b, j)
  }

  /** A merge holds a row exactly when the first list has it or some row of the second brings it. */
  lemma {:induction false} MergeHoldsRowIff(a: seq<AffectedRow>, b: seq<AffectedRow>, k: RowKey)
    ensures k in RowKeys(UnionRows(a, b)) <==> k in RowKeys(a) || exists j: nat :: Brings(a, b, j, k)
  {
    if b != [] {
      var init, last := b[..|b| - 1], b[|b| - 1];
      assert b == init + [last];
      MergeHoldsRowIff(a, init, k);
      MergeKeepsKeys(a, init);
      RowKeysAppend(UnionRows(a, init), last);
      assert KeySeen(a, b, |init|) == HasKey(UnionRows(a, init), last.row.key);
      BringsPush(a, init, last, k);
    }
  }

  lemma BringsPush(a: seq<AffectedRow>, init: seq<AffectedRow>, last: AffectedRow, k: RowKey)
    ensures var b := init + [last];
      (exists j: nat :: Brings(a, b, j, k)) <==> (exists j: nat :: Brings(a, init, j, k)) || Brings(a, b, |init|, k)
  {
    var b := init + [last];
    forall j: nat | j < |init| ensures Brings(a, b, j, k) == Brings(a, init, j, k) {
      assert b[..j] == init[..j];
    }
    if j: nat :| Brings(a, init, j, k) {
      assert Brings(a, b, j, k);
    }
  }

  /** Some affected row, or a projected row before place `j`, has the key of the projected row there. */
  predicate KeyTaken(rows: seq<AffectedRow>, projected: seq<RowKey>, j: nat)
    requires j < |projected|
  {
    HasKey(rows, projected[j].key) || exists i: nat :: i < j && projected[i].key == projected[j].key
  }

  lemma SeenIsTaken(rows: seq<AffectedRow>, projected: seq<RowKey>, root: DeltaId, j: nat)
    requires j < |projected|
    ensures KeySeen(rows, AffectedRows(projected, root), j) <==> KeyTaken(rows, projected, j)
  {
    var affected, key := AffectedRows(projected, root), projected[j].key;
    var all := rows + affected[..j];
    if r :| r in all && r.row.key == key && r !in rows {
      var i :| 0 <= i < j && affected[i] == r;
      assert projected[i].key == key;
    }
    if i: nat :| i < j && projected[i].key == key {
      assert affected[i] == affected[..j][i] && affected[i] in all;
    }
    if r :| r in rows && r.row.key == key {
      assert r in all;
    }
  }

  /**
    Tagging a root reports every projected row when it opens an incident of its own.  Merged with an
    open incident it misses a row exactly when the row is not yet reported, the incident does not
    list it, and its key is taken wherever it is projected, by whatever table.
   */
  lemma RowMissedIff(s: Cce, root: DeltaId, overlap: Option<IncidentId>, k: RowKey)
    requires k in s.rows && (overlap.Some? ==> overlap.value in s.incidents)
    ensures k !in Tagged(s, root, overlap).index <==>
      && overlap.Some? && k !in s.index && k !in RowKeys(s.incidents[overlap.value].rows)
      && forall j: nat :: j < |s.rows| && s.rows[j] == k ==> KeyTaken(s.incidents[overlap.value].rows, s.rows, j)
  {
    var affected := AffectedRows(s.rows, root);
    match overlap
    case None =>
      var j :| 0 <= j < |s.rows| && s.rows[j] == k;
      assert affected[j] in affected;
    case Some(other) =>
      var rows := s.incidents[other].rows;
      MergeHoldsRowIff(rows, affected, k);
      forall j: nat | j < |s.rows|
        ensures Brings(rows, affected, j, k) <==> s.rows[j] == k && !KeyTaken(rows, s.rows, j)
      {
        SeenIsTaken(rows, s.rows, root, j);
      }
  }

  lemma FirstTagOfRow(s0: Cce, root: DeltaId, k: RowKey) returns (s1: Cce)
    requires Init(s0) && s0.rows == [k]
    ensures Tags(s0, s1, root, None) && s1.nextId == 1 && s1.rows == [k]
    ensures IncidentId(0) in s1.incidents && RowKeys(s1.incidents[IncidentId(0)].rows) == {k} && s1.index.Keys == {k}
    ensures IncidentId(0) in Overlapping(s1.incidents, Descendants(s1.edges, root))
  {
    s1 := Tagged(s0, root, None);
    SecondTagMeetsFirst(s0, s1, root);
    assert Overlapping(s0.incidents, Descendants(s0.edges, root)) == {};
    AffectedRowKeys([k], root);
  }

  lemma SecondTagMisses(s: Cce, root: DeltaId, k1: RowKey, k2: RowKey) returns (t: Cce)
    requires k1 != k2 && k1.key == k2.key && s.rows == [k1, k2] && s.nextId == 1
    requires IncidentId(0) in Overlapping(s.incidents, Descendants(s.edges, root)) && k2 !in s.index && k2 in s.flags
    requires k1 in RowKeys(s.incidents[IncidentId(0)].rows) && k2 !in RowKeys(s.incidents[IncidentId(0)].rows)
    ensures Tags(s, t, root, Some(IncidentId(0)))
    ensures k2 in t.rows && k2 in t.flags && t.flags[k2] && k2 !in t.index && OpenChain(t, IncidentId(2))
  {
    var rows := s.incidents[IncidentId(0)].rows;
    AffectedRowKeys(s.rows, root);
    assert HasKey(rows, k2.key) by {
      var r :| r in rows && r.row == k1;
    }
    assert forall j: nat :: j < 2 && s.rows[j] == k2 ==> KeyTaken(rows, s.rows, j);
    RowMissedIff(s, root, Some(IncidentId(0)), k2);
    t := Tagged(s, root, Some(IncidentId(0)));
  }

  /**
    A row projected between two tags, under a key another table uses: the second tag flags it, the
    merge leaves it out, and it is not reported.
   */
  lemma LateRowIsMissed(root: DeltaId, key: string) returns (run: seq<Cce>)
    ensures IsTagRun(run)
    ensures var last, k := run[|run| - 1], RowKey("b", key);
      k in last.rows && k in last.flags && last.flags[k] && k !in last.index && OpenChain(last, IncidentId(2))
  {
    var k1, k2 := RowKey("a", key), RowKey("b", key);
    assert "a" != "b";
    var s0 := Cce({}, map[root := []], map[], map[], map[], [k1], map[k1 := false], 0);
    var s1 := FirstTagOfRow(s0, root, k1);
    var s2 := s1.(rows := [k1, k2], flags := s1.flags[k2 := false]);
    var s3 := SecondTagMisses(s2, root, k1, k2);
    run := TagGrowTag(s0, s1, s2, s3, root, Some(IncidentId(0)));
  }

  lemma TagGrowTag(s0: Cce, s1: Cce, s2: Cce, s3: Cce, root: DeltaId, overlap: Option<IncidentId>)
    returns (run: seq<Cce>)
    requires Init(s0) && Tags(s0, s1, root, None) && Grows(s1, s2) && Tags(s2, s3, root, overlap)
    ensures IsTagRun(run) && run[|run| - 1] == s3
  {
    run := [s0, s1, s2, s3];
    assert TagStep(s0, s1) && TagStep(s1, s2) && TagStep(s2, s3);
  }

  /** Two tables use one key: the row of the second table is lost in the merge. */
  lemma MergeDropsSecondTable(root: DeltaId, key: string)
    ensures var a, b := AffectedRow(RowKey("a", key), root), AffectedRow(RowKey("b", key), root);
      RowKey("b", key) !in RowKeys(UnionRows([a], [a, b])) && !KeysTellRows([a], [a, b])
  {
    var a, b := AffectedRow(RowKey("a", key), root), AffectedRow(RowKey("b", key), root);
    assert [a, b][..1] == [a] && [a][..0] == [];
    assert HasKey([a], key) by {
      assert a in [a];
    }
    assert UnionRows([a], [a]) == [a];
    assert UnionRows([a], [a, b]) == [a];
    assert "a" != "b";
    assert a in [a] + [a, b][..1];
    assert KeySeen([a], [a, b], 1) && !RowSeen([a], [a, b], 1);
  }

  // ---------------------------------------------------------------------------
  // One tag in full

  /** The rows as a new incident of the root reports them: every projected row, in table order, as tainted by it. */
  ghost predicate ReportsAll(rows: seq<AffectedRow>, projected: seq<RowKey>, root: DeltaId) {
    |rows| == |projected| && forall k :: 0 <= k < |rows| ==> rows[k].row == projected[k] && rows[k].delta == root
  }

  /** A new incident of one root, in the state it was given. */
  ghost predicate OwnIncident(s: Cce, ico: Incident, root: DeltaId, state: State) {
    && ico.state == state && ico.roots == [root] && ico.audit == [] && ReportsAll(ico.rows, s.rows, root)
    && forall x :: x in ico.deltas <==> Reaches(s.edges, root, x)
  }

  /** Every projected row is flagged. */
  ghost predicate RowsFlagged(s: Cce, s': Cce) {
    && s'.rows == s.rows && s'.flags.Keys == s.flags.Keys
    && forall k :: k in s.flags ==> (s'.flags[k] <==> s.flags[k] || k in s.rows)
  }

  /** The index points the rows at the incident; every other entry stays. */
  ghost predicate PointsAt(s: Cce, s': Cce, rows: set<RowKey>, c: IncidentId) {
    && (forall k :: k in s'.index <==> k in s.index || k in rows)
    && (forall k :: k in s'.index ==> (k in rows ==> s'.index[k] == c) && (k !in rows ==> s'.index[k] == s.index[k]))
  }

  lemma NewIncidentIsOwn(s: Cce, root: DeltaId)
    ensures OwnIncident(s, NewIncident(s, root), root, Open)
  {
    forall x ensures x in Descendants(s.edges, root) <==> Reaches(s.edges, root, x) {
      if Reaches(s.edges, root, x) {
        DescendantOf(s.edges, root, x);
      }
    }
  }

  lemma TaintFlags(s: Cce, root: DeltaId)
    ensures RowsFlagged(s, Tainted(s, root))
  {
    AffectedRowKeys(s.rows, root);
  }

  /**
    A tag that overlaps no open incident: one new open incident, numbered next, whose rows the index now
    points at; every other entry stays.
   */
  lemma TagOpens(s: Cce, s': Cce, root: DeltaId)
    requires Numbered(s) && Tags(s, s', root, None)
    ensures var id := IncidentId(s.nextId);
      && s'.nextId == s.nextId + 1 && s'.composites == s.composites && s'.edges == s.edges
      && s'.incidents.Keys == s.incidents.Keys + {id} && id in s'.incidents
      && OwnIncident(s, s'.incidents[id], root, Open)
      && (forall i :: i in s.incidents && i != id ==> i in s'.incidents && s'.incidents[i] == s.incidents[i])
      && RowsFlagged(s, s')
      && PointsAt(s, s', Elems(s.rows), id)
  {
    NewIncidentIsOwn(s, root);
    TaintFlags(s, root);
    AffectedRowKeys(s.rows, root);
  }

  /**
    A tag that overlaps the open incident `other`: it and the new incident are superseded by a composite
    that is numbered after the new one, and nothing else changes but the flags of the rows.
   */
  lemma TagJoins(s: Cce, s': Cce, root: DeltaId, other: IncidentId)
    requires Numbered(s) && Tags(s, s', root, Some(other))
    ensures var id, c := IncidentId(s.nextId), IncidentId(s.nextId + 1);
      && other in s.incidents && s'.nextId == s.nextId + 2 && s'.edges == s.edges
      && s'.incidents.Keys == s.incidents.Keys + {id} && s'.composites.Keys == s.composites.Keys + {c}
      && id in s'.incidents && OwnIncident(s, s'.incidents[id], root, SupersededBy(c))
      && other in s'.incidents && s'.incidents[other] == s.incidents[other].(state := SupersededBy(c))
      && (forall i :: i in s.incidents && i != other ==> i in s'.incidents && s'.incidents[i] == s.incidents[i])
      && (forall x :: x in s.composites ==> x in s'.composites && s'.composites[x] == s.composites[x])
      && RowsFlagged(s, s')
  {
    NewIncidentIsOwn(s, root);
    TaintFlags(s, root);
  }

  /**
    The composite of that tag: the roots of `other` first and the new one unless it is there, the deltas of
    both, the rows of `other` first; the index points every row of the composite at it.
   */
  lemma TagJoinsAs(s: Cce, s': Cce, root: DeltaId, other: IncidentId)
    requires Numbered(s) && Tags(s, s', root, Some(other))
    ensures var was, c := s.incidents[other], IncidentId(s.nextId + 1);
      && IncidentId(s.nextId) in s'.incidents && c in s'.composites
      && (var m := s'.composites[c];
          && m.state == Open && m.sources == [other, IncidentId(s.nextId)]
          && m.roots == (if root in was.roots then was.roots else was.roots + [root])
          && (forall x :: x in m.deltas <==> x in was.deltas || Reaches(s.edges, root, x))
          && was.rows <= m.rows && m.rows == UnionRows(was.rows, s'.incidents[IncidentId(s.nextId)].rows)
          && PointsAt(s, s', RowKeys(m.rows), c))
  {
    var ico := NewIncident(s, root);
    var merged := Merged(other, s.incidents[other], IncidentId(s.nextId), ico);
    NewIncidentIsOwn(s, root);
    UnionRowsPrefix(s.incidents[other].rows, ico.rows);
    UnionRootsOne(s.incidents[other].roots, root);
    assert s'.composites[IncidentId(s.nextId + 1)] == merged;
    assert s'.incidents[IncidentId(s.nextId)].rows == ico.rows;
    assert s'.index == PointTo(s.index, merged.rows, IncidentId(s.nextId + 1));
  }

  lemma UnionRootsOne(roots: seq<DeltaId>, root: DeltaId)
    ensures UnionRoots(roots, [root]) == if root in roots then roots else roots + [root]
  {
    assert [root][..0] == [];
  }

  lemma {:induction false} UnionRowsPrefix(a: seq<AffectedRow>, b: seq<AffectedRow>)
    ensures a <= UnionRows(a, b)
  {
    if b != [] {
      UnionRowsPrefix(a, b[..|b| - 1]);
    }
  }
}
