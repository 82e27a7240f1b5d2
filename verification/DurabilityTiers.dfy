/**
  The tier of a delta over a run: which receipts its tracker was given, when it stands at which tier, and
  how many peers stand behind Tier-1.
 */
module DurabilityTiers {
  import opened CloudQueues
  import opened CloudSync
  import opened Deltas
  import opened Durabilities
  import opened DurabilityEvidence
  import opened DurabilityRuns
  import opened Quorum
  import opened Sequences

  /** The receipts for a delta that were admitted since its last registration, with the tags of the anchor. */
  function HistoryOf(start: Durability, ops: seq<Op>, id: DeltaId): seq<Presented> {
    if ops == [] then []
    else
      var init, op := ops[..|ops| - 1], ops[|ops| - 1];
      var before := Run(start, init);
      if op.Register? && op.id == id then []
      else if op.Receive? && op.id == id && before.Admits(op.receipt, id) then
        HistoryOf(start, init, id) + [Presented(op.receipt.receipt, AttestedTag(before.anchor, op.receipt))]
      else HistoryOf(start, init, id)
  }

  /** A cycle in which the ledger accepts the delta. */
  ghost predicate Acknowledges(d: Durability, op: Op, id: DeltaId) {
    op.Cycle? && exists e :: e in CycleLog(d.queue, op.answers, op.refetch) && e.Sent? && e.ok && e.id == id
  }

  ghost predicate AckedAt(start: Durability, ops: seq<Op>, i: nat, id: DeltaId) {
    i < |ops| && Acknowledges(Run(start, ops[..i]), ops[i], id)
  }

  /** Since the last registration of the delta the ledger accepted it. */
  ghost predicate AckedSince(start: Durability, ops: seq<Op>, id: DeltaId) {
    var r := LastRegistration(ops, id);
    r.Some? && exists i: nat :: r.value < i && AckedAt(start, ops, i, id)
  }

  lemma AckedPush(start: Durability, init: seq<Op>, op: Op, id: DeltaId)
    ensures AckedSince(start, init + [op], id) <==>
            && !(op.Register? && op.id == id) && LastRegistration(init, id).Some?
            && (AckedSince(start, init, id) || Acknowledges(Run(start, init), op, id))
  {
    var ops := init + [op];
    assert ops[..|init|] == init && ops[|init|] == op;
    assert AckedAt(start, ops, |init|, id) == Acknowledges(Run(start, init), op, id);
    forall i: nat | i < |init| ensures AckedAt(start, ops, i, id) == AckedAt(start, init, i, id) {
      assert ops[..i] == init[..i];
    }
    var r := LastRegistration(init, id);
    if r.Some? && !(op.Register? && op.id == id) {
      if i: nat :| r.value < i && AckedAt(start, init, i, id) {
        assert AckedAt(start, ops, i, id);
      }
    }
  }

  /** The tier that the tracker and the acknowledgements give; compaction waits for the step to Tier-1. */
  ghost predicate Stands(state: DeltaState, acked: bool) {
    && (state.tier == Tier2 <==> acked)
    && (state.tier == Tier1 <==> !acked && state.quorum.achieved)
    && (state.tier == Uncommitted <==> !acked && !state.quorum.achieved)
    && (state.compactionPermitted ==> state.quorum.achieved)
    && (state.tier == Tier1 ==> state.compactionPermitted)
  }

  ghost predicate Given(d: Durability, id: DeltaId, history: seq<Presented>, acked: bool) {
    id in d.states ==> d.states[id].quorum == TrackerAfter(d.config, history) && Stands(d.states[id], acked)
  }

  lemma TrackerPush(config: QuorumConfig, history: seq<Presented>, p: Presented)
    ensures TrackerAfter(config, history + [p]) == Added(TrackerAfter(config, history), p.receipt, p.diversityTag)
  {
    assert (history + [p])[..|history|] == history;
  }

  /** An admitted receipt: the tracker takes it, and an Uncommitted delta moves exactly when that achieves it. */
  lemma ReceiveGiven(d: Durability, r: SignedReceipt, id: DeltaId, history: seq<Presented>, acked: bool)
    requires Given(d, id, history, acked) && d.Admits(r, id)
    ensures Given(d.Received(r, id), id, history + [Presented(r.receipt, AttestedTag(d.anchor, r))], acked)
  {
    var tag := AttestedTag(d.anchor, r);
    AdmitsIff(d, r, id);
    TrackerPush(d.config, history, Presented(r.receipt, tag));
    AddedKeeps(d.states[id].quorum, r.receipt, tag);
  }

  lemma AddedKeeps(t: Tracker, r: Receipt, tag: Option<Spatial.Tag>)
    ensures var t' := Added(t, r, tag);
      && t'.config == t.config && (t.achieved ==> t'.achieved)
      && (!t.achieved ==> (Reaches(t, r, tag) <==> t'.achieved))
  {
  }

  lemma CycleGiven(d: Durability, op: Op, id: DeltaId, history: seq<Presented>, acked: bool)
    requires op.Cycle? && Given(d, id, history, acked)
    ensures Given(Next(d, op), id, history, acked || Acknowledges(d, op, id))
  {
    var log := CycleLog(d.queue, op.answers, op.refetch);
    var mid := d.(queue := Without(d.queue, Removed(log)));
    AcknowledgedIff(log, id);
    AckedAllStates(mid, Tally(log).acknowledgedIds);
    AckedAllConfig(mid, Tally(log).acknowledgedIds);
    assert Next(d, op) == mid.AckedAll(Tally(log).acknowledgedIds);
  }

  lemma {:induction false} AckedAllConfig(d: Durability, ids: seq<DeltaId>)
    ensures d.AckedAll(ids).config == d.config
  {
    if ids != [] {
      AckedAllConfig(d, ids[..|ids| - 1]);
    }
  }

  /** The history after one more operation. */
  function HistoryPush(d: Durability, op: Op, id: DeltaId, history: seq<Presented>): seq<Presented> {
    if op.Register? && op.id == id then []
    else if op.Receive? && op.id == id && d.Admits(op.receipt, id) then
      history + [Presented(op.receipt.receipt, AttestedTag(d.anchor, op.receipt))]
    else history
  }

  lemma StepGiven(d: Durability, op: Op, id: DeltaId, history: seq<Presented>, acked: bool)
    requires Given(d, id, history, acked)
    ensures Given(Next(d, op), id, HistoryPush(d, op, id, history),
                  !(op.Register? && op.id == id) && id in d.states && (acked || Acknowledges(d, op, id)))
  {
    match op {
      case Cycle(answers, refetch) =>
        CycleGiven(d, op, id, history, acked);
        AckedAllStates(d.(queue := Without(d.queue, Removed(CycleLog(d.queue, answers, refetch)))),
                       Tally(CycleLog(d.queue, answers, refetch)).acknowledgedIds);
      case Receive(r, x) =>
        if x == id && d.Admits(r, id) {
          ReceiveGiven(d, r, id, history, acked);
        }
      case _ =>
    }
  }

  lemma {:induction false} RunGiven(config: QuorumConfig, anchor: AnchorMode, ops: seq<Op>, id: DeltaId)
    ensures var start := Start(config, anchor);
      && Run(start, ops).config == config
      && Given(Run(start, ops), id, HistoryOf(start, ops, id), AckedSince(start, ops, id))
  {
    if ops != [] {
      var start, init, op := Start(config, anchor), ops[..|ops| - 1], ops[|ops| - 1];
      RunGiven(config, anchor, init, id);
      RunOnFile(config, anchor, init, id, "");
      assert ops == init + [op];
      GivenPush(start, init, op, id);
      NextConfig(Run(start, init), op);
    }
  }

  lemma GivenPush(start: Durability, init: seq<Op>, op: Op, id: DeltaId)
    requires Given(Run(start, init), id, HistoryOf(start, init, id), AckedSince(start, init, id))
    requires id in Run(start, init).states <==> LastRegistration(init, id).Some?
    ensures Given(Run(start, init + [op]), id, HistoryOf(start, init + [op], id), AckedSince(start, init + [op], id))
  {
    var d, history, acked := Run(start, init), HistoryOf(start, init, id), AckedSince(start, init, id);
    AckedPush(start, init, op, id);
    StepGiven(d, op, id, history, acked);
    HistoryStep(start, init, op, id);
  }

  lemma HistoryStep(start: Durability, init: seq<Op>, op: Op, id: DeltaId)
    ensures HistoryOf(start, init + [op], id) == HistoryPush(Run(start, init), op, id, HistoryOf(start, init, id))
    ensures Run(start, init + [op]) == Next(Run(start, init), op)
  {
    assert (init + [op])[..|init|] == init;
  }

  lemma NextConfig(d: Durability, op: Op)
    ensures Next(d, op).config == d.config
  {
    match op {
      case Cycle(answers, refetch) =>
        var log := CycleLog(d.queue, answers, refetch);
        AckedAllConfig(d.(queue := Without(d.queue, Removed(log))), Tally(log).acknowledgedIds);
      case _ =>
    }
  }

  /**
    Over every run a delta is at Tier-2 if and only if the ledger accepted it since its last registration,
    and otherwise at Tier-1 if and only if the receipts admitted since then, each issuer's first, once
    were K and spread.
   */
  lemma TierIff(config: QuorumConfig, anchor: AnchorMode, ops: seq<Op>, id: DeltaId)
    returns (places: seq<nat>, tags: seq<Option<Spatial.Tag>>)
    requires id in Run(Start(config, anchor), ops).states
    ensures var history := HistoryOf(Start(config, anchor), ops, id);
      && FirstPlaces(history, places) && |tags| == |places|
      && forall k :: 0 <= k < |places| ==> CountsUnder(history[places[k]], tags[k])
    ensures var start := Start(config, anchor);
      var tier, acked := Run(start, ops).states[id].tier, AckedSince(start, ops, id);
      var qualified := exists n :: 0 < n <= |tags| && n >= config.k && Spread(config, tags[..n]);
      && (tier == Tier2 <==> acked)
      && (tier == Tier1 <==> !acked && qualified)
      && (tier == Uncommitted <==> !acked && !qualified)
  {
    RunGiven(config, anchor, ops, id);
    places, tags := Tier1Iff(config, HistoryOf(Start(config, anchor), ops, id));
  }

  /** Whoever is at Tier-1, or may be compacted, has the receipts of K different peers, each admitted. */
  lemma Tier1NeedsK(config: QuorumConfig, anchor: AnchorMode, ops: seq<Op>, id: DeltaId)
    requires id in Run(Start(config, anchor), ops).states
    requires var state := Run(Start(config, anchor), ops).states[id]; state.tier == Tier1 || state.compactionPermitted
    ensures var start := Start(config, anchor);
      var seen := Run(start, ops).states[id].quorum.seen;
      |seen| >= config.k && forall peer :: peer in seen <==> AdmittedSince(start, ops, id, peer)
  {
    var start := Start(config, anchor);
    RunGiven(config, anchor, ops, id);
    CountedIssuers(config, HistoryOf(start, ops, id));
    forall peer ensures peer in Run(start, ops).states[id].quorum.seen <==> AdmittedSince(start, ops, id, peer) {
      SeenIffAdmitted(config, anchor, ops, id, peer);
    }
  }

  /** The first entry of an id, or the length of the queue. */
  function PlaceIn(q: seq<QueueEntry>, id: DeltaId): (k: nat)
    ensures k <= |q| && (k < |q| ==> q[k].id == id) && forall j :: 0 <= j < k ==> q[j].id != id
  {
    if q == [] then 0 else if q[0].id == id then 0 else 1 + PlaceIn(q[1..], id)
  }

  /** Everything is as it was but the holders of the first entry of the id, where a new holder comes last. */
  ghost predicate HolderAdded(q: seq<QueueEntry>, q': seq<QueueEntry>, id: DeltaId, holder: Did) {
    var k := PlaceIn(q, id);
    && |q'| == |q| && (forall i :: 0 <= i < |q| && i != k ==> q'[i] == q[i])
    && (k < |q| ==>
          && q'[k].id == q[k].id && q'[k].bytes == q[k].bytes && q'[k].parents == q[k].parents
          && q'[k].compacted == q[k].compacted && q'[k].tier2 == q[k].tier2
          && q'[k].holders == if holder in q[k].holders then q[k].holders else q[k].holders + [holder])
  }

  /**
    What a receipt does: refused, nothing; admitted, its issuer holds the first queued entry of the delta,
    the tracker takes it, and a delta that it takes from Uncommitted to Tier-1 may be compacted and is
    announced.
   */
  lemma ReceivedIs(d: Durability, r: SignedReceipt, id: DeltaId)
    ensures var d' := d.Received(r, id);
      && d'.config == d.config && d'.anchor == d.anchor && d'.states.Keys == d.states.Keys
      && (forall x :: x in d.states && x != id ==> d'.states[x] == d.states[x])
      && (!d.Admits(r, id) ==> d' == d)
      && (d.Admits(r, id) ==>
            var state, state' := d.states[id], d'.states[id];
            var counted := Added(state.quorum, r.receipt, AttestedTag(d.anchor, r));
            var moves := state.tier == Uncommitted && Reaches(state.quorum, r.receipt, AttestedTag(d.anchor, r));
            && HolderAdded(d.queue, d'.queue, id, r.receipt.issuer)
            && state'.quorum == counted && state'.keys == state.keys && state'.stateHash == state.stateHash
            && state'.tier == (if moves then Tier1 else state.tier)
            && (state'.compactionPermitted <==> state.compactionPermitted || moves)
            && d'.events == d.events + if moves then [TierEvent(id, Uncommitted, Tier1)] else [])
  {
    AdmitsIff(d, r, id);
    UpdateFirstAt(d.queue, id, e => Held(e, r.receipt.issuer), PlaceIn(d.queue, id));
  }

  /** A compaction takes the bytes of the first entry of the delta, which can be fetched again from its holders. */
  lemma CompactedIs(d: Durability, id: DeltaId)
    ensures var q, q', k := d.queue, Next(d, Compact(id)).queue, PlaceIn(d.queue, id);
      && |q'| == |q| && (forall i :: 0 <= i < |q| && i != k ==> q'[i] == q[i])
      && (k < |q| ==>
            && q'[k].id == q[k].id && q'[k].bytes == None && q'[k].compacted && q'[k].parents == q[k].parents
            && q'[k].holders == q[k].holders && q'[k].tier2 == q[k].tier2)
  {
    UpdateFirstAt(d.queue, id, Pruned, PlaceIn(d.queue, id));
  }

  /** An acknowledgement: Tier-2 for a tracked delta, no entry of it left, and the tier it had is announced. */
  lemma AckedIs(d: Durability, id: DeltaId)
    ensures var d' := d.Acked(id);
      && d'.config == d.config && d'.anchor == d.anchor && d'.states.Keys == d.states.Keys
      && (forall x :: x in d.states && x != id ==> d'.states[x] == d.states[x])
      && (id in d.states ==>
            && d'.states[id].tier == Tier2 && d'.states[id].quorum == d.states[id].quorum
            && d'.states[id].keys == d.states[id].keys && d'.states[id].stateHash == d.states[id].stateHash
            && d'.states[id].compactionPermitted == d.states[id].compactionPermitted)
      && (forall e :: e in d'.queue <==> e in d.queue && e.id != id)
      && d'.events == d.events + [TierEvent(id, if id in d.states then d.states[id].tier else Uncommitted, Tier2)]
  {
  }

  /**
    A registered delta as it is tracked and queued: nothing counted, and the entry at the end of the queue
    unless that is full.
   */
  lemma RegisteredIs(d: Durability, id: DeltaId, stateHash: nat, bytes: LexOrder.Bytes, parents: seq<DeltaId>,
                     keys: map<Did, Key>)
    ensures var d' := d.Registered(id, stateHash, bytes, parents, keys);
      && id in d'.states && d'.states.Keys == d.states.Keys + {id}
      && (forall x :: x in d.states && x != id ==> d'.states[x] == d.states[x])
      && (var state := d'.states[id];
          && state.stateHash == stateHash && state.tier == Uncommitted && state.keys == keys
          && state.quorum.config == d.config && state.quorum.receipts == [] && state.quorum.seen == {}
          && state.quorum.tags == [] && !state.quorum.achieved && !state.compactionPermitted)
      && (|d.queue| >= 100_000 ==> d'.queue == d.queue)
      && (|d.queue| < 100_000 ==>
            && |d'.queue| == |d.queue| + 1 && (forall i :: 0 <= i < |d.queue| ==> d'.queue[i] == d.queue[i])
            && (var e := d'.queue[|d.queue|];
                && e.id == id && e.bytes == Some(bytes) && e.parents == parents
                && !e.compacted && e.holders == [] && !e.tier2))
      && d'.events == d.events && d'.config == d.config && d'.anchor == d.anchor
  {
  }
}
