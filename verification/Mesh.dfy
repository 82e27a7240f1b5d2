/**
  Any number of engines that produce deltas and exchange them in any order, with loss and duplication,
  and are started again over their tables.  The order of production is a rank that keeps every
  device's DAG acyclic; the Lamport clock, which a new process starts at 0, need not be one.
 */
module Mesh {
  import opened ChangesetDags
  import opened CrdtEngines
  import opened Deltas
  import opened Graphs
  import opened SchemaHashes
  import opened Sequences
  import Kahn

  // ---------------------------------------------------------------------------
  // The network and its steps

  /** All engines, and every delta ever produced by its identifier: the identifier determines the content. */
  datatype Network = Network(engines: map<Did, Engine>, sent: map<DeltaId, Delta>)

  ghost predicate Init(net: Network) {
    && net.sent == map[]
    && forall d :: d in net.engines ==>
       net.engines[d].Valid() && net.engines[d].lamport == 0 && net.engines[d].dag == Dag(map[], {})
  }

  /** Device `d` produces `delta`, taking its parents from its own DAG: the tips, or a list of stored nodes. */
  ghost predicate Produces(net: Network, net': Network, d: Did, delta: Delta, explicit: seq<DeltaId>) {
    && d in net.engines
    && (forall p :: p in explicit ==> p in net.engines[d].dag.nodes)
    && net.engines[d].ParentsFor(explicit, delta.parents)
    && delta.lamport == net.engines[d].lamport + 1
    && delta.id !in net.sent
    && net' == Network(net.engines[d := net.engines[d].Produced(delta, true)], net.sent[delta.id := delta])
  }

  /** Producing fails after the clock has ticked. */
  ghost predicate ProduceFails(net: Network, net': Network, d: Did) {
    && d in net.engines
    && net' == net.(engines := net.engines[d := net.engines[d].(lamport := net.engines[d].lamport + 1)])
  }

  /** Any delta ever produced arrives at `d`, or something arrives that no key signed. */
  ghost predicate Delivers(net: Network, net': Network, d: Did, delta: Delta, world: World) {
    && d in net.engines
    && (delta.signature != Genuine || (delta.id in net.sent && net.sent[delta.id] == delta))
    && net' == net.(engines := net.engines[d := net.engines[d].Applied(delta, world)])
  }

  /** The host of `d` configures schemas or marks a DID revoked. */
  ghost predicate Configures(net: Network, net': Network, d: Did, op: Op) {
    && d in net.engines
    && (op.AddKnown? || op.Register? || op.SetCurrent? || op.Revoke?)
    && net' == net.(engines := net.engines[d := CrdtEngines.Next(net.engines[d], op)])
  }

  /** A new process opens the engine of `d` over its tables: they stay, and the clock is 0. */
  ghost predicate Reopens(net: Network, net': Network, d: Did, hash: SchemaHash) {
    d in net.engines && net' == net.(engines := net.engines[d := net.engines[d].Reopened(hash)])
  }

  ghost predicate Step(net: Network, net': Network) {
    || (exists d, delta, explicit :: Produces(net, net', d, delta, explicit))
    || (exists d :: ProduceFails(net, net', d))
    || (exists d, delta, world :: Delivers(net, net', d, delta, world))
    || (exists d, op :: Configures(net, net', d, op))
    || (exists d, hash :: Reopens(net, net', d, hash))
  }

  ghost predicate IsRun(run: seq<Network>) {
    run != [] && Init(run[0]) && forall i :: 0 <= i < |run| - 1 ==> Step(run[i], run[i + 1])
  }

  // ---------------------------------------------------------------------------
  // The invariant

  /** Each produced delta is filed under its identifier; its parents were produced. */
  ghost predicate SentInv(sent: map<DeltaId, Delta>) {
    forall id :: id in sent ==> sent[id].id == id && forall p :: p in sent[id].parents ==> p in sent
  }

  /** An engine stores only produced deltas as they were sent, each with exactly its recorded parents. */
  ghost predicate EngineInv(sent: map<DeltaId, Delta>, e: Engine) {
    && e.Valid()
    && (forall n :: n in e.dag.nodes ==> n in sent && e.dag.nodes[n] == NodeOf(sent[n]))
    && (forall g :: g in e.dag.edges <==> g.1 in e.dag.nodes && g.1 in sent && g.0 in sent[g.1].parents)
  }

  ghost predicate NetworkInv(net: Network) {
    SentInv(net.sent) && forall d :: d in net.engines ==> EngineInv(net.sent, net.engines[d])
  }

  lemma InsertKeeps(sent: map<DeltaId, Delta>, e: Engine, e': Engine, delta: Delta)
    requires EngineInv(sent, e) && delta.id in sent && sent[delta.id] == delta
    requires e'.Valid() && e'.dag == e.dag.Insert(delta.id, NodeOf(delta), delta.parents)
    ensures EngineInv(sent, e')
  {
  }

  /** Learning of a new delta elsewhere does not disturb an engine. */
  lemma MoreSentKeeps(sent: map<DeltaId, Delta>, delta: Delta, e: Engine)
    requires EngineInv(sent, e) && delta.id !in sent
    ensures EngineInv(sent[delta.id := delta], e)
  {
  }

  lemma AppliedKeepsInv(sent: map<DeltaId, Delta>, e: Engine, delta: Delta, world: World)
    requires EngineInv(sent, e)
    requires delta.signature != Genuine || (delta.id in sent && sent[delta.id] == delta)
    ensures EngineInv(sent, e.Applied(delta, world))
  {
    AppliedKeeps(e, delta, world);
    var e' := e.Applied(delta, world);
    if e'.dag != e.dag {
      InsertKeeps(sent, e, e', delta);
    }
  }

  /** A production takes its parents from stored nodes, so they were produced before. */
  lemma ParentsStored(net: Network, net': Network, d: Did, delta: Delta, explicit: seq<DeltaId>)
    requires NetworkInv(net) && Produces(net, net', d, delta, explicit)
    ensures forall p :: p in delta.parents ==>
      p in net.engines[d].dag.nodes && p in net.sent && net.engines[d].dag.nodes[p] == NodeOf(net.sent[p])
  {
  }

  lemma ProducedKeepsInv(net: Network, net': Network, d: Did, delta: Delta, explicit: seq<DeltaId>)
    requires NetworkInv(net) && Produces(net, net', d, delta, explicit)
    ensures NetworkInv(net')
  {
    var e := net.engines[d];
    ParentsStored(net, net', d, delta, explicit);
    MoreSentKeeps(net.sent, delta, e);
    InsertKeeps(net'.sent, e, e.Produced(delta, true), delta);
    forall x | x in net'.engines ensures EngineInv(net'.sent, net'.engines[x]) {
      if x != d {
        MoreSentKeeps(net.sent, delta, net.engines[x]);
      }
    }
  }

  lemma OneEngineKeeps(net: Network, net': Network, d: Did, e: Engine)
    requires NetworkInv(net) && EngineInv(net.sent, e) && net' == net.(engines := net.engines[d := e])
    ensures NetworkInv(net')
  {
  }

  lemma ConfiguredKeepsInv(sent: map<DeltaId, Delta>, e: Engine, op: Op)
    requires EngineInv(sent, e) && (op.AddKnown? || op.Register? || op.SetCurrent? || op.Revoke? || op.Reopen?)
    ensures EngineInv(sent, CrdtEngines.Next(e, op))
  {
    NextKeeps(e, op);
  }

  lemma StepKeepsInv(net: Network, net': Network)
    requires NetworkInv(net) && Step(net, net')
    ensures NetworkInv(net')
  {
    if d, delta, explicit :| Produces(net, net', d, delta, explicit) {
      ProducedKeepsInv(net, net', d, delta, explicit);
    } else if d, delta, world :| Delivers(net, net', d, delta, world) {
      AppliedKeepsInv(net.sent, net.engines[d], delta, world);
      OneEngineKeeps(net, net', d, net.engines[d].Applied(delta, world));
    } else if d :| ProduceFails(net, net', d) {
      OneEngineKeeps(net, net', d, net.engines[d].(lamport := net.engines[d].lamport + 1));
    } else if d, op :| Configures(net, net', d, op) {
      ConfiguredKeepsInv(net.sent, net.engines[d], op);
      OneEngineKeeps(net, net', d, CrdtEngines.Next(net.engines[d], op));
    } else {
      var d, hash :| Reopens(net, net', d, hash);
      ConfiguredKeepsInv(net.sent, net.engines[d], Reopen(hash));
      OneEngineKeeps(net, net', d, net.engines[d].Reopened(hash));
    }
  }

  lemma {:induction false} RunKeepsInv(run: seq<Network>)
    requires IsRun(run)
    ensures NetworkInv(run[|run| - 1])
  {
    if |run| > 1 {
      RunKeepsInv(run[..|run| - 1]);
      StepKeepsInv(run[|run| - 2], run[|run| - 1]);
    }
  }

  // ---------------------------------------------------------------------------
  // The order of production

  /** Every produced delta has a place, after those of its parents. */
  ghost predicate Ranks(sent: map<DeltaId, Delta>, rank: map<DeltaId, nat>) {
    && rank.Keys == sent.Keys && (forall id :: id in sent ==> rank[id] < |sent|)
    && forall id, p :: id in sent && p in sent[id].parents ==> p in sent && rank[p] < rank[id]
  }

  lemma ProducedRanks(net: Network, net': Network, d: Did, delta: Delta, explicit: seq<DeltaId>,
                      rank: map<DeltaId, nat>)
    requires NetworkInv(net) && Produces(net, net', d, delta, explicit) && Ranks(net.sent, rank)
    ensures Ranks(net'.sent, rank[delta.id := |net.sent|])
  {
    ParentsStored(net, net', d, delta, explicit);
    RankNext(net.sent, delta, rank);
  }

  lemma SizePush<K, V>(m: map<K, V>, k: K, v: V)
    requires k !in m
    ensures |m[k := v]| == |m| + 1
  {
    assert m[k := v].Keys == m.Keys + {k};
    assert |m[k := v]| == |m[k := v].Keys| && |m| == |m.Keys|;
  }

  lemma RankNext(sent: map<DeltaId, Delta>, delta: Delta, rank: map<DeltaId, nat>)
    requires SentInv(sent) && Ranks(sent, rank) && delta.id !in sent && forall p :: p in delta.parents ==> p in sent
    ensures Ranks(sent[delta.id := delta], rank[delta.id := |sent|])
  {
    var sent', rank' := sent[delta.id := delta], rank[delta.id := |sent|];
    SizePush(sent, delta.id, delta);
    forall id | id in sent' ensures rank'[id] < |sent'| {
    }
    forall id, p | id in sent' && p in sent'[id].parents ensures p in sent' && rank'[p] < rank'[id] {
      if id == delta.id {
        assert p in sent && rank[p] < |sent|;
      } else {
        assert p in sent[id].parents;
      }
    }
  }

  /** The deltas of every run, reopened devices included, can be ranked in the order of production. */
  lemma {:induction false} RunRanks(run: seq<Network>) returns (rank: map<DeltaId, nat>)
    requires IsRun(run)
    ensures Ranks(run[|run| - 1].sent, rank)
  {
    rank := map[];
    if |run| > 1 {
      var net, net' := run[|run| - 2], run[|run| - 1];
      rank := RunRanks(run[..|run| - 1]);
      RunKeepsInv(run[..|run| - 1]);
      if d, delta, explicit :| Produces(net, net', d, delta, explicit) {
        ProducedRanks(net, net', d, delta, explicit, rank);
        rank := rank[delta.id := |net.sent|];
      } else {
        assert net'.sent == net.sent;
      }
    }
  }

  /** In every reachable state no device's DAG has a cycle, however often devices were started again. */
  lemma EveryDagIsAcyclic(run: seq<Network>, d: Did)
    requires IsRun(run) && d in run[|run| - 1].engines
    ensures var dag := run[|run| - 1].engines[d].dag; dag.Valid() && dag.Acyclic()
  {
    RunKeepsInv(run);
    var net := run[|run| - 1];
    var e := net.engines[d];
    var rank := RunRanks(run);
    assert EngineInv(net.sent, e);
    forall u, v | (u, v) in e.dag.edges ensures u in rank && v in rank && rank[u] < rank[v] {
      assert (u, v).1 in e.dag.nodes && (u, v).0 in net.sent[v].parents;
    }
    RankForbidsCycles(e.dag.edges, rank);
  }

  /** Two devices that hold the same deltas have the same DAG, and so the same tips. */
  lemma SameNodesSameDag(run: seq<Network>, d: Did, d': Did)
    requires IsRun(run) && d in run[|run| - 1].engines && d' in run[|run| - 1].engines
    requires run[|run| - 1].engines[d].dag.nodes.Keys == run[|run| - 1].engines[d'].dag.nodes.Keys
    ensures run[|run| - 1].engines[d].dag == run[|run| - 1].engines[d'].dag
  {
    RunKeepsInv(run);
    var net := run[|run| - 1];
    var a, b := net.engines[d].dag, net.engines[d'].dag;
    assert EngineInv(net.sent, net.engines[d]) && EngineInv(net.sent, net.engines[d']);
    assert forall n :: n in a.nodes ==> a.nodes[n] == b.nodes[n];
    assert forall g :: g in a.edges <==> g in b.edges;
  }

  // ---------------------------------------------------------------------------
  // What acyclicity gives one device

  /** The causal order misses nothing exactly when every parent has arrived. */
  lemma OrderCompleteIffClosed(dag: Dag, sorted: seq<DeltaId>)
    requires dag.Valid() && dag.Acyclic() && IsCausalOrder(dag, sorted)
    ensures dag.CausallyClosed() <==> Elems(sorted) == dag.nodes.Keys
  {
    if dag.CausallyClosed() {
      forall n | n in dag.nodes ensures n in Elems(sorted) {
        AncestorsStored(dag, n);
      }
    } else {
      var g :| g in dag.edges && g.0 !in dag.nodes;
      assert (g.0, g.1) in dag.edges;
      ReachesEdge(dag.edges, g.0, g.1);
      assert g.1 !in sorted && g.1 in dag.nodes;
    }
  }

  lemma AncestorsStored(dag: Dag, n: DeltaId)
    requires dag.Valid() && dag.Acyclic() && dag.CausallyClosed() && n in dag.nodes
    ensures Kahn.Clean(dag.nodes.Keys, dag.edges, n)
  {
    forall a | Reaches(dag.edges, a, n) ensures a in dag.nodes {
      if a != n {
        var u := ReachesFirstEdge(dag.edges, a, n);
        assert (a, u).0 in dag.nodes;
      }
    }
  }

  /** Some tip descends from `n`, or is `n`. */
  ghost predicate Covered(dag: Dag, n: DeltaId) {
    exists t :: dag.IsTip(t) && Reaches(dag.edges, n, t)
  }

  ghost function Below(dag: Dag, n: DeltaId): set<DeltaId> {
    set x | x in dag.nodes && Reaches(dag.edges, n, x)
  }

  /** A child has fewer descendants than its parent, which does not descend from it. */
  lemma BelowShrinks(dag: Dag, n: DeltaId, child: DeltaId)
    requires dag.Acyclic() && (n, child) in dag.edges && n in dag.nodes
    ensures Below(dag, child) < Below(dag, n)
  {
    ReachesEdge(dag.edges, n, child);
    forall x | x in Below(dag, child) ensures x in Below(dag, n) {
      ReachesTransitive(dag.edges, n, child, x);
    }
    ReachesSelf(dag.edges, n);
    if n in Below(dag, child) {
      EdgeBackCycles(dag.edges, n, child);
    }
    assert n in Below(dag, n) && n !in Below(dag, child);
  }

  lemma {:induction false} DescendToTip(dag: Dag, n: DeltaId)
    requires dag.Valid() && dag.Acyclic() && dag.CausallyClosed() && n in dag.nodes
    ensures Covered(dag, n)
    decreases Below(dag, n)
  {
    AncestorsStored(dag, n);
    ReachesSelf(dag.edges, n);
    if g :| g in dag.edges && g.0 == n {
      assert (n, g.1) in dag.edges;
      BelowShrinks(dag, n, g.1);
      DescendToTip(dag, g.1);
      var t :| dag.IsTip(t) && Reaches(dag.edges, g.1, t);
      ReachesEdge(dag.edges, n, g.1);
      ReachesTransitive(dag.edges, n, g.1, t);
    } else {
      assert dag.IsTip(n);
    }
  }

  lemma MissingParentHides(dag: Dag, parent: DeltaId, child: DeltaId)
    requires (parent, child) in dag.edges && parent !in dag.nodes
    ensures !Covered(dag, child)
  {
    if Covered(dag, child) {
      var t :| dag.IsTip(t) && Reaches(dag.edges, child, t);
      ReachesEdge(dag.edges, parent, child);
      ReachesTransitive(dag.edges, parent, child, t);
      assert false;
    }
  }

  /**
    The tips stand for the whole DAG exactly when every parent has arrived.  A node with a missing
    ancestor is no tip and is covered by none, so a delta produced then does not name it.
   */
  lemma TipsCoverIffClosed(dag: Dag)
    requires dag.Valid() && dag.Acyclic()
    ensures dag.CausallyClosed() <==> forall n :: n in dag.nodes ==> Covered(dag, n)
  {
    if dag.CausallyClosed() {
      forall n | n in dag.nodes ensures Covered(dag, n) {
        DescendToTip(dag, n);
      }
    } else {
      var g :| g in dag.edges && g.0 !in dag.nodes;
      assert (g.0, g.1) in dag.edges && g.1 in dag.nodes;
      MissingParentHides(dag, g.0, g.1);
    }
  }

  lemma NewChildDescendsFromAll(dag: Dag, edges: set<(DeltaId, DeltaId)>, parents: seq<DeltaId>, id: DeltaId,
                                n: DeltaId)
    requires dag.Valid() && dag.Acyclic() && dag.CausallyClosed() && n in dag.nodes
    requires forall t :: dag.IsTip(t) ==> t in parents
    requires dag.edges <= edges && forall p :: p in parents ==> (p, id) in edges
    ensures Reaches(edges, n, id)
  {
    TipsCoverIffClosed(dag);
    assert Covered(dag, n);
    var t :| dag.IsTip(t) && Reaches(dag.edges, n, t);
    ReachesMonotone(dag.edges, edges, n, t);
    ReachesEdge(edges, t, id);
    ReachesTransitive(edges, n, t, id);
  }

  /** On a causally closed DAG, a delta produced over the tips descends from everything stored. */
  lemma ProducedDescendsFromAll(e: Engine, delta: Delta, n: DeltaId)
    requires e.Valid() && e.dag.Acyclic() && e.dag.CausallyClosed()
    requires e.ParentsFor([], delta.parents) && n in e.dag.nodes
    ensures Reaches(e.Produced(delta, true).dag.edges, n, delta.id)
  {
    NewChildDescendsFromAll(e.dag, e.Produced(delta, true).dag.edges, delta.parents, delta.id, n);
  }

  // ---------------------------------------------------------------------------
  // A delta that arrives before its parent

  function FreshEngine(hash: SchemaHash): Engine {
    Engine(0, hash, {hash}, map[], {}, [], [], Dag(map[], {}))
  }

  /** One write over listed parents; without any, the device must store nothing yet. */
  lemma Writes(net: Network, d: Did, id: DeltaId, parents: seq<DeltaId>) returns (net': Network, delta: Delta)
    requires d in net.engines && id !in net.sent
    requires parents == [] ==> net.engines[d].dag.nodes == map[]
    requires forall p :: p in parents ==> p in net.engines[d].dag.nodes
    ensures Produces(net, net', d, delta, parents)
    ensures var e := net.engines[d];
      delta == Delta(id, d, true, Genuine, e.currentSchema, Envelope, parents, e.lamport + 1)
  {
    var e := net.engines[d];
    delta := Delta(id, d, true, Genuine, e.currentSchema, Envelope, parents, e.lamport + 1);
    net' := Network(net.engines[d := e.Produced(delta, true)], net.sent[id := delta]);
  }

  lemma ArrivesEarly(net: Network, b: Did, hash: SchemaHash, delta: Delta, parent: DeltaId) returns (net': Network)
    requires b in net.engines && net.engines[b] == FreshEngine(hash) && delta.id in net.sent &&
             net.sent[delta.id] == delta
    requires delta.authorResolves && delta.signature == Genuine && delta.schemaHash == hash
    requires delta.payload == Envelope && delta.parents == [parent] && delta.id != parent
    ensures Delivers(net, net', b, delta, World(true, true)) && b in net'.engines
    ensures delta.id in net'.engines[b].dag.nodes && !Covered(net'.engines[b].dag, delta.id)
  {
    var e' := net.engines[b].Applied(delta, World(true, true));
    net' := net.(engines := net.engines[b := e']);
    assert e'.dag == Dag(map[], {}).Insert(delta.id, NodeOf(delta), [parent]);
    assert (parent, delta.id) in e'.dag.edges;
    MissingParentHides(e'.dag, parent, delta.id);
  }

  /** One device produces a delta and then a child of it; the child arrives first: stored, but covered by no tip. */
  lemma EarlyArrivalIsHidden(a: Did, b: Did, hash: SchemaHash, parent: DeltaId, child: DeltaId)
    returns (run: seq<Network>)
    requires a != b && parent != child
    ensures IsRun(run) && b in run[|run| - 1].engines
    ensures var dag := run[|run| - 1].engines[b].dag; child in dag.nodes && !Covered(dag, child)
  {
    var n0 := Network(map[a := FreshEngine(hash), b := FreshEngine(hash)], map[]);
    var n1, d1 := Writes(n0, a, parent, []);
    assert parent in n1.engines[a].dag.nodes;
    var n2, d2 := Writes(n1, a, child, [parent]);
    var n3 := ArrivesEarly(n2, b, hash, d2, parent);
    run := ThreeSteps(n0, n1, n2, n3);
  }

  lemma ThreeSteps(n0: Network, n1: Network, n2: Network, n3: Network) returns (run: seq<Network>)
    requires Init(n0) && Step(n0, n1) && Step(n1, n2) && Step(n2, n3)
    ensures IsRun(run) && run == [n0, n1, n2, n3]
  {
    run := [n0, n1, n2, n3];
  }
}
