/** The two-tier durability subsystem: per-delta tiers, quorum trackers and the cloud queue. */
module Durabilities {
  import opened CloudQueues
  import opened CloudSync
  import opened Deltas
  import opened LexOrder
  import opened Quorum
  import opened Sequences
  import opened Spatial

  datatype Tier = Uncommitted | Tier1 | Tier2 {
    function Rank(): nat {
      match this case Uncommitted => 0 case Tier1 => 1 case Tier2 => 2
    }
  }

  type Key = nat

  /** Beacon tokens are opaque: `valid` is what the beacon registry says of one. */
  datatype BeaconToken = BeaconToken(valid: bool, claim: Tag)

  /** A receipt as it arrives: who issued it, which key signed it over which state hash. */
  datatype SignedReceipt = SignedReceipt(receipt: Receipt, signedBy: Key, stateHash: nat, token: Option<BeaconToken>)

  datatype AnchorMode = Disabled | SquadTagFallback | BeaconAttested

  datatype DeltaState = DeltaState(stateHash: nat, tier: Tier, keys: map<Did, Key>, quorum: Tracker,
                                   compactionPermitted: bool)

  datatype TierEvent = TierEvent(id: DeltaId, previous: Tier, next: Tier)

  datatype Answer = Reached | Accepted | Refused

  datatype Durability = Durability(config: QuorumConfig, anchor: AnchorMode, states: map<DeltaId, DeltaState>,
                                   queue: seq<QueueEntry>, events: seq<TierEvent>)
  {
    /** The tag the anchor makes a verified receipt count under; None is a refusal. */
    function DiversityTag(r: SignedReceipt): Option<Option<Tag>> {
      if anchor != BeaconAttested then Some(None)
      else if r.token.Some? && r.token.value.valid then Some(Some(r.token.value.claim))
      else None
    }

    /** A receipt counts when its issuer's known key signed this delta's state hash and the anchor admits it. */
    predicate Admits(r: SignedReceipt, id: DeltaId) {
      && id in states
      && r.receipt.issuer in states[id].keys && states[id].keys[r.receipt.issuer] == r.signedBy
      && r.stateHash == states[id].stateHash
      && DiversityTag(r).Some?
    }

    function Registered(id: DeltaId, stateHash: nat, bytes: Bytes, parents: seq<DeltaId>,
                        keys: map<Did, Key>): Durability
    {
      var kept := this.(states := states[id := DeltaState(stateHash, Uncommitted, keys, NewTracker(config), false)]);
      if |queue| >= MAX_QUEUE_DEPTH then kept
      else kept.(queue := queue + [QueueEntry(id, Some(bytes), parents, false, [], false)])
    }

    function Received(r: SignedReceipt, id: DeltaId): Durability {
      if !Admits(r, id) then this
      else
        var state, tag := states[id], DiversityTag(r).value;
        var counted := state.(quorum := Added(state.quorum, r.receipt, tag));
        var held := UpdateFirst(queue, id, e => Held(e, r.receipt.issuer));
        if Reaches(state.quorum, r.receipt, tag) && state.tier == Uncommitted then
          this.(states := states[id := counted.(tier := Tier1, compactionPermitted := true)], queue := held,
                events := events + [TierEvent(id, Uncommitted, Tier1)])
        else this.(states := states[id := counted], queue := held)
    }

    function Acked(id: DeltaId): Durability {
      var previous := if id in states then states[id].tier else Uncommitted;
      this.(states := if id in states then states[id := states[id].(tier := Tier2)] else states,
            queue := Without(queue, {id}),
            events := events + [TierEvent(id, previous, Tier2)])
    }

    function AckedAll(ids: seq<DeltaId>): Durability {
      if ids == [] then this else AckedAll(ids[..|ids| - 1]).Acked(ids[|ids| - 1])
    }

    /** After a sync cycle: what was removed is gone, and each fresh acknowledgement is marked. */
    function Synced(log: seq<Event>): Durability {
      this.(queue := Without(queue, Removed(log))).AckedAll(Tally(log).acknowledgedIds)
    }

    function KeyLearned(id: DeltaId, peer: Did, key: Key): Durability {
      if id in states then this.(states := states[id := states[id].(keys := states[id].keys[peer := key])]) else this
    }
  }

  class DurabilitySubsystem {
    const config: QuorumConfig
    const cloudQueue: CloudOutboundQueue
    var anchor: AnchorMode
    var states: map<DeltaId, DeltaState>
    var events: seq<TierEvent>

    function View(): Durability
      reads this, cloudQueue
    {
      Durability(config, anchor, states, cloudQueue.queue, events)
    }

    constructor (config: QuorumConfig, anchor: AnchorMode)
      ensures fresh(cloudQueue) && View() == Durability(config, anchor, map[], [], [])
    {
      this.config, this.anchor := config, anchor;
      cloudQueue := new CloudOutboundQueue();
      states, events := map[], [];
    }

    /** Registers a delta for tracking and queues it; a full queue fails after the state was stored. */
    method RegisterDelta(id: DeltaId, stateHash: nat, bytes: Bytes, parents: seq<DeltaId>, keys: map<Did, Key>)
      returns (ok: bool)
      modifies this, cloudQueue
      ensures View() == old(View()).Registered(id, stateHash, bytes, parents, keys)
      ensures ok <==> |old(cloudQueue.queue)| < MAX_QUEUE_DEPTH
    {
      states := states[id := DeltaState(stateHash, Uncommitted, keys, NewTracker(config), false)];
      ok := cloudQueue.Enqueue(QueueEntry(id, Some(bytes), parents, false, [], false));
    }

    method RegisterPeerKey(id: DeltaId, peer: Did, key: Key)
      modifies this
      ensures View() == old(View()).KeyLearned(id, peer, key)
    {
      if id in states {
        states := states[id := states[id].(keys := states[id].keys[peer := key])];
      }
    }

    /** Verifies a receipt, counts it, and moves the delta to Tier-1 when it completes the quorum. */
    method ReceiveReceipt(r: SignedReceipt, id: DeltaId) returns (answer: Answer)
      modifies this, cloudQueue
      ensures View() == old(View()).Received(r, id)
      ensures answer.Reached? <==>
              id in old(states) && id in states && old(states)[id].tier == Uncommitted && states[id].tier == Tier1
      ensures answer.Refused? <==> id in old(states) && !old(View()).Admits(r, id)
    {
      if id !in states {
        return Accepted;
      }
      var state := states[id];
      if r.receipt.issuer !in state.keys {
        return Refused;
      }
      if state.keys[r.receipt.issuer] != r.signedBy || r.stateHash != state.stateHash {
        return Refused;
      }
      var tag: Option<Tag> := None;
      if anchor == BeaconAttested {
        if r.token.None? || !r.token.value.valid {
          return Refused;
        }
        tag := Some(r.token.value.claim);
      }
      var reached := Reaches(state.quorum, r.receipt, tag);
      state := state.(quorum := Added(state.quorum, r.receipt, tag));
      if reached && state.tier == Uncommitted {
        states := states[id := state.(tier := Tier1, compactionPermitted := true)];
        cloudQueue.AddReceiptHolder(id, r.receipt.issuer);
        events := events + [TierEvent(id, Uncommitted, Tier1)];
        return Answer.Reached;
      }
      states := states[id := state];
      cloudQueue.AddReceiptHolder(id, r.receipt.issuer);
      return Accepted;
    }

    /** The ledger acknowledged a delta: Tier-2, out of the queue, and the listener is told. */
    method OnCloudAck(id: DeltaId)
      modifies this, cloudQueue
      ensures View() == old(View()).Acked(id)
    {
      var previous := if id in states then states[id].tier else Uncommitted;
      if id in states {
        states := states[id := states[id].(tier := Tier2)];
      }
      cloudQueue.Acknowledge(id);
      events := events + [TierEvent(id, previous, Tier2)];
    }

    /** Marks every fresh acknowledgement of a cycle. */
    method MarkAcked(ids: seq<DeltaId>)
      modifies this, cloudQueue
      ensures View() == old(View()).AckedAll(ids)
    {
      ghost var drained := View();
      for i := 0 to |ids|
        invariant View() == drained.AckedAll(ids[..i])
      {
        AckedOneMore(drained, ids, i);
        OnCloudAck(ids[i]);
      }
      assert ids[..|ids|] == ids;
    }

    /** One production cycle: drain the queue, then mark every fresh acknowledgement. */
    method RunCloudSyncCycle(answers: Answers, refetch: Refetch) returns (result: SyncResult, log: seq<Event>)
      modifies this, cloudQueue
      ensures log == CycleLog(old(cloudQueue.queue), answers, refetch) && result == Tally(log)
      ensures View() == old(View()).Synced(log)
    {
      result, log := CloudSyncLoop(cloudQueue, answers, refetch);
      MarkAcked(result.acknowledgedIds);
    }
  }

  lemma AckedOneMore(d: Durability, ids: seq<DeltaId>, i: nat)
    requires i < |ids|
    ensures d.AckedAll(ids[..i + 1]) == d.AckedAll(ids[..i]).Acked(ids[i])
  {
    assert ids[..i + 1][..i] == ids[..i];
  }
}
