/**
  The Lamport clocks of a network.  A new process starts its clock at 0, so a clock can lie below the
  Lamports its device stores, and a delta can lie no higher than its parent.
 */
module MeshClocks {
  import opened ChangesetDags
  import opened CrdtEngines
  import opened Deltas
  import opened Graphs
  import opened Mesh
  import opened SchemaHashes

  /** Every edge between stored nodes goes from a smaller to a larger Lamport. */
  ghost predicate LamportOrdered(dag: Dag) {
    forall e :: e in dag.edges && e.0 in dag.nodes && e.1 in dag.nodes ==>
        dag.nodes[e.0].lamport < dag.nodes[e.1].lamport
  }

  /** The clock is at least every stored Lamport. */
  ghost predicate Dominates(e: Engine) {
    forall n :: n in e.dag.nodes ==> e.dag.nodes[n].lamport <= e.lamport
  }

  // ---------------------------------------------------------------------------
  // When a clock dominates

  ghost predicate IsReopened(net: Network, net': Network, d: Did) {
    exists hash :: Reopens(net, net', d, hash)
  }

  /** What the last process of `d` found stored when it opened the tables; nothing for the first. */
  ghost function Found(run: seq<Network>, d: Did): set<DeltaId> {
    if |run| <= 1 then {}
    else if IsReopened(run[|run| - 2], run[|run| - 1], d) then run[|run| - 1].engines[d].dag.nodes.Keys
    else Found(run[..|run| - 1], d)
  }

  /** A node of `e` keeps its Lamport in `e'`; without a reopening the clock advances over every new one. */
  ghost predicate Advances(e: Engine, e': Engine) {
    && e.lamport <= e'.lamport
    && (forall n :: n in e.dag.nodes ==> n in e'.dag.nodes && e'.dag.nodes[n] == e.dag.nodes[n])
    && (forall n :: n in e'.dag.nodes && n !in e.dag.nodes ==> e'.dag.nodes[n].lamport <= e'.lamport)
  }

  lemma StepAdvances(net: Network, net': Network, d: Did)
    requires Step(net, net') && d in net'.engines
    ensures d in net.engines && (IsReopened(net, net', d) || Advances(net.engines[d], net'.engines[d]))
    ensures IsReopened(net, net', d) ==> net'.engines[d].dag == net.engines[d].dag && net'.engines[d].lamport == 0
  {
    if x, hash :| Reopens(net, net', x, hash) {
    } else if x, delta, explicit :| Produces(net, net', x, delta, explicit) {
      ProducedAdvances(net.engines[x], delta);
    } else if x, delta, world :| Delivers(net, net', x, delta, world) {
      AppliedAdvances(net.engines[x], delta, world);
    } else if x, op :| Configures(net, net', x, op) {
      ConfiguredAdvances(net.engines[x], op);
    }
  }

  lemma ProducedAdvances(e: Engine, delta: Delta)
    requires delta.lamport == e.lamport + 1
    ensures Advances(e, e.Produced(delta, true))
  {
  }

  lemma ConfiguredAdvances(e: Engine, op: Op)
    requires op.AddKnown? || op.Register? || op.SetCurrent? || op.Revoke?
    ensures Advances(e, CrdtEngines.Next(e, op))
  {
  }

  lemma AppliedAdvances(e: Engine, delta: Delta, world: World)
    ensures Advances(e, e.Applied(delta, world))
  {
  }

  /** Everything stored but what was found lies at or below the clock. */
  ghost predicate DominatesNew(e: Engine, found: set<DeltaId>) {
    found <= e.dag.nodes.Keys && forall n :: n in e.dag.nodes && n !in found ==> e.dag.nodes[n].lamport <= e.lamport
  }

  lemma AdvancesDominates(e: Engine, e': Engine, found: set<DeltaId>)
    requires DominatesNew(e, found) && Advances(e, e')
    ensures DominatesNew(e', found)
  {
  }

  lemma {:induction false} NewNodesDominated(run: seq<Network>, d: Did)
    requires IsRun(run) && d in run[|run| - 1].engines
    ensures DominatesNew(run[|run| - 1].engines[d], Found(run, d))
  {
    if |run| > 1 {
      var init, net, net' := run[..|run| - 1], run[|run| - 2], run[|run| - 1];
      StepAdvances(net, net', d);
      if !IsReopened(net, net', d) {
        NewNodesDominated(init, d);
        AdvancesDominates(net.engines[d], net'.engines[d], Found(init, d));
      }
    }
  }

  /** The clock of the last process has reached every Lamport it found stored at its start. */
  ghost predicate CaughtUp(run: seq<Network>, d: Did)
    requires run != [] && d in run[|run| - 1].engines
  {
    var e := run[|run| - 1].engines[d];
    forall n :: n in Found(run, d) && n in e.dag.nodes ==> e.dag.nodes[n].lamport <= e.lamport
  }

  /** Over every run: a clock dominates if and only if it has caught up with what its process found stored. */
  lemma ClockDominatesIff(run: seq<Network>, d: Did)
    requires IsRun(run) && d in run[|run| - 1].engines
    ensures Dominates(run[|run| - 1].engines[d]) <==> CaughtUp(run, d)
  {
    NewNodesDominated(run, d);
  }

  // ---------------------------------------------------------------------------
  // When the DAGs are ordered by Lamport

  /** A production at this step, if any, finds the clock at or above the Lamport of each parent. */
  ghost predicate Climbs(net: Network, net': Network) {
    forall d, delta, explicit, p :: Produces(net, net', d, delta, explicit) && p in delta.parents ==>
      p in net.engines[d].dag.nodes && net.engines[d].dag.nodes[p].lamport <= net.engines[d].lamport
  }

  ghost predicate SentClimbs(sent: map<DeltaId, Delta>) {
    forall id, p :: id in sent && p in sent[id].parents && p in sent ==> sent[p].lamport < sent[id].lamport
  }

  lemma ProducedClimbsIff(net: Network, net': Network, d: Did, delta: Delta, explicit: seq<DeltaId>)
    requires NetworkInv(net) && Produces(net, net', d, delta, explicit)
    ensures SentClimbs(net'.sent) <==>
            SentClimbs(net.sent) && forall p :: p in delta.parents ==> net.sent[p].lamport <= net.engines[d].lamport
  {
    ParentsStored(net, net', d, delta, explicit);
    if SentClimbs(net'.sent) {
      forall id, p | id in net.sent && p in net.sent[id].parents && p in net.sent
        ensures net.sent[p].lamport < net.sent[id].lamport
      {
        assert net'.sent[id] == net.sent[id] && net'.sent[p] == net.sent[p];
      }
      forall p | p in delta.parents ensures net.sent[p].lamport <= net.engines[d].lamport {
        assert net'.sent[delta.id] == delta && net'.sent[p] == net.sent[p];
      }
    }
  }

  /** A step produces one delta at most. */
  lemma OneProduction(net: Network, net': Network, d: Did, delta: Delta, explicit: seq<DeltaId>,
                      d': Did, delta': Delta, explicit': seq<DeltaId>)
    requires Produces(net, net', d, delta, explicit) && Produces(net, net', d', delta', explicit')
    ensures delta == delta' && net.engines[d].lamport == net.engines[d'].lamport
  {
    assert delta'.id in net'.sent;
  }

  lemma StepClimbsIff(net: Network, net': Network)
    requires NetworkInv(net) && Step(net, net')
    ensures SentClimbs(net'.sent) <==> SentClimbs(net.sent) && Climbs(net, net')
  {
    if d, delta, explicit :| Produces(net, net', d, delta, explicit) {
      ProducedClimbsIff(net, net', d, delta, explicit);
      ParentsStored(net, net', d, delta, explicit);
      forall d', delta', explicit' | Produces(net, net', d', delta', explicit')
        ensures delta' == delta && net.engines[d'].lamport == net.engines[d].lamport
        ensures forall p :: p in delta.parents ==>
          p in net.engines[d'].dag.nodes && net.engines[d'].dag.nodes[p].lamport == net.sent[p].lamport
      {
        OneProduction(net, net', d, delta, explicit, d', delta', explicit');
        ParentsStored(net, net', d', delta', explicit');
      }
    } else {
      assert net'.sent == net.sent;
    }
  }

  /** Every production of the run found its clock high enough. */
  ghost predicate RunClimbs(run: seq<Network>) {
    forall i :: 0 <= i < |run| - 1 ==> Climbs(run[i], run[i + 1])
  }

  lemma RunClimbsPush(init: seq<Network>, last: Network)
    requires init != []
    ensures RunClimbs(init + [last]) <==> RunClimbs(init) && Climbs(init[|init| - 1], last)
  {
    var run := init + [last];
    assert forall i :: 0 <= i < |init| ==> run[i] == init[i];
    if RunClimbs(run) {
      assert Climbs(run[|init| - 1], run[|init|]);
      forall i | 0 <= i < |init| - 1 ensures Climbs(init[i], init[i + 1]) {
        assert Climbs(run[i], run[i + 1]);
      }
    }
  }

  lemma {:induction false} RunClimbsIff(run: seq<Network>)
    requires IsRun(run)
    ensures SentClimbs(run[|run| - 1].sent) <==> RunClimbs(run)
  {
    if |run| > 1 {
      var init, last := run[..|run| - 1], run[|run| - 1];
      assert run == init + [last];
      RunClimbsIff(init);
      RunKeepsInv(init);
      StepClimbsIff(init[|init| - 1], last);
      RunClimbsPush(init, last);
    }
  }

  /** Some device stores the delta together with its parents: its producer does. */
  ghost predicate HeldWhole(net: Network, id: DeltaId)
    requires id in net.sent
  {
    exists d :: HoldsWhole(net, d, id)
  }

  ghost predicate HoldsWhole(net: Network, d: Did, id: DeltaId)
    requires id in net.sent
  {
    && d in net.engines && id in net.engines[d].dag.nodes
    && forall p :: p in net.sent[id].parents ==> p in net.engines[d].dag.nodes
  }

  lemma SentStays(net: Network, net': Network, id: DeltaId)
    requires Step(net, net') && id in net.sent
    ensures id in net'.sent && net'.sent[id] == net.sent[id] && net'.engines.Keys == net.engines.Keys
  {
  }

  lemma StepKeepsHeld(net: Network, net': Network, id: DeltaId)
    requires NetworkInv(net) && Step(net, net') && id in net'.sent && (id in net.sent ==> HeldWhole(net, id))
    ensures HeldWhole(net', id)
  {
    if id in net.sent {
      var d :| HoldsWhole(net, d, id);
      SentStays(net, net', id);
      StepAdvances(net, net', d);
      assert HoldsWhole(net', d, id);
    } else {
      var d, delta, explicit :| Produces(net, net', d, delta, explicit);
      ParentsStored(net, net', d, delta, explicit);
      assert HoldsWhole(net', d, id);
    }
  }

  lemma {:induction false} EverythingHeld(run: seq<Network>, id: DeltaId)
    requires IsRun(run) && id in run[|run| - 1].sent
    ensures HeldWhole(run[|run| - 1], id)
  {
    if |run| > 1 {
      var init, net, net' := run[..|run| - 1], run[|run| - 2], run[|run| - 1];
      assert IsRun(init) && init[|init| - 1] == net && Step(net, net');
      RunKeepsInv(init);
      if id in net.sent {
        EverythingHeld(init, id);
      }
      StepKeepsHeld(net, net', id);
    }
  }

  ghost predicate AllOrdered(net: Network) {
    forall d :: d in net.engines ==> LamportOrdered(net.engines[d].dag)
  }

  /** All devices are ordered by Lamport exactly when the produced deltas are. */
  lemma AllOrderedIff(run: seq<Network>)
    requires IsRun(run)
    ensures AllOrdered(run[|run| - 1]) <==> SentClimbs(run[|run| - 1].sent)
  {
    var net := run[|run| - 1];
    RunKeepsInv(run);
    if SentClimbs(net.sent) {
      forall d | d in net.engines ensures LamportOrdered(net.engines[d].dag) {
        assert EngineInv(net.sent, net.engines[d]);
      }
    }
    if AllOrdered(net) {
      forall id, p | id in net.sent && p in net.sent[id].parents && p in net.sent
        ensures net.sent[p].lamport < net.sent[id].lamport
      {
        EverythingHeld(run, id);
        var d :| HoldsWhole(net, d, id);
        assert EngineInv(net.sent, net.engines[d]) && LamportOrdered(net.engines[d].dag);
        assert (p, id).1 == id && (p, id) in net.engines[d].dag.edges;
      }
    }
  }

  /**
    Over every run: the DAGs of all devices are ordered by Lamport if and only if every production
    found its clock at or above the Lamport of each parent.
   */
  lemma OrderedIffClimbs(run: seq<Network>)
    requires IsRun(run)
    ensures AllOrdered(run[|run| - 1]) <==> RunClimbs(run)
  {
    AllOrderedIff(run);
    RunClimbsIff(run);
  }

  /** A device whose clock dominates produces above all its parents. */
  lemma DominatingClimbs(net: Network, net': Network)
    requires NetworkInv(net) && forall d :: d in net.engines ==> Dominates(net.engines[d])
    ensures Climbs(net, net')
  {
    forall d, delta, explicit, p | Produces(net, net', d, delta, explicit) && p in delta.parents
      ensures p in net.engines[d].dag.nodes && net.engines[d].dag.nodes[p].lamport <= net.engines[d].lamport
    {
      ParentsStored(net, net', d, delta, explicit);
    }
  }

  /** No process of any device found anything stored when it started. */
  ghost predicate OpenedEmpty(run: seq<Network>) {
    forall i, d :: 0 <= i < |run| && d in run[i].engines ==> Found(run[..i + 1], d) == {}
  }

  /** As long as engines are only opened over empty tables, all clocks dominate and all DAGs are ordered. */
  lemma LamportRanksEveryDag(run: seq<Network>, d: Did)
    requires IsRun(run) && OpenedEmpty(run) && d in run[|run| - 1].engines
    ensures LamportOrdered(run[|run| - 1].engines[d].dag) && Dominates(run[|run| - 1].engines[d])
  {
    forall i, x | 0 <= i < |run| && x in run[i].engines ensures Dominates(run[i].engines[x]) {
      NewNodesDominated(run[..i + 1], x);
    }
    forall i | 0 <= i < |run| - 1 ensures Climbs(run[i], run[i + 1]) {
      RunKeepsInv(run[..i + 1]);
      DominatingClimbs(run[i], run[i + 1]);
    }
    OrderedIffClimbs(run);
  }

  // ---------------------------------------------------------------------------
  // What the order gives one device

  lemma {:induction false} LamportClimbs(dag: Dag, p: seq<DeltaId>)
    requires dag.Valid() && LamportOrdered(dag)
    requires IsPath(dag.edges, p) && |p| >= 2 && p[0] in dag.nodes
    ensures p[|p| - 1] in dag.nodes && dag.nodes[p[0]].lamport < dag.nodes[p[|p| - 1]].lamport
  {
    assert (p[0], p[1]) in dag.edges && (p[0], p[1]).1 in dag.nodes;
    if |p| > 2 {
      LamportClimbs(dag, p[1..]);
    }
  }

  /** Only stored nodes have incoming edges, so a cycle would have to climb for ever. */
  lemma LamportAcyclic(dag: Dag)
    requires dag.Valid() && LamportOrdered(dag)
    ensures dag.Acyclic()
  {
    forall a ensures !OnCycle(dag.edges, a) {
      if OnCycle(dag.edges, a) {
        var p :| |p| >= 2 && PathFromTo(dag.edges, p, a, a);
        assert (p[|p| - 2], p[|p| - 1]) in dag.edges && (p[|p| - 2], p[|p| - 1]).1 in dag.nodes;
        LamportClimbs(dag, p);
        assert false;
      }
    }
  }

  // ---------------------------------------------------------------------------
  // A device started again

  /** A device of one stored node is started again: its clock lies below that node. */
  lemma StartsAgain(net: Network, a: Did, hash: SchemaHash, first: DeltaId) returns (net': Network)
    requires a in net.engines && first in net.engines[a].dag.nodes && net.engines[a].dag.nodes[first].lamport == 1
    ensures Reopens(net, net', a, hash) && a in net'.engines && !Dominates(net'.engines[a])
    ensures net'.engines[a] == net.engines[a].Reopened(hash) && net'.sent == net.sent
  {
    net' := net.(engines := net.engines[a := net.engines[a].Reopened(hash)]);
    assert net'.engines[a].dag.nodes[first].lamport == 1;
  }

  /**
    A write, a process start and a write over the first: the clock lies below a stored Lamport, then
    an edge is level.
   */
  lemma ReopenedClockRepeats(a: Did, hash: SchemaHash, first: DeltaId, second: DeltaId) returns (run: seq<Network>)
    requires first != second
    ensures IsRun(run) && |run| == 4 && a in run[2].engines && a in run[3].engines
    ensures !Dominates(run[2].engines[a]) && !LamportOrdered(run[3].engines[a].dag)
  {
    var n0 := Network(map[a := FreshEngine(hash)], map[]);
    var n1, d1 := Writes(n0, a, first, []);
    var n2 := StartsAgain(n1, a, hash, first);
    var n3, d2 := Writes(n2, a, second, [first]);
    run := ThreeSteps(n0, n1, n2, n3);
    var dag := n3.engines[a].dag;
    assert (first, second) in dag.edges && dag.nodes[first].lamport == 1 && dag.nodes[second].lamport == 1;
  }
}
