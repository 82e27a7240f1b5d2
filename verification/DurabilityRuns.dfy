/**
  Runs of the durability subsystem.  A delta may be registered again, which starts it afresh, and a
  registration may find the queue full, which leaves the delta tracked and not queued.
 */
module DurabilityRuns {
  import opened CloudQueues
  import opened CloudSync
  import opened Deltas
  import opened Durabilities
  import opened LexOrder
  import opened Quorum
  import opened Sequences
  import opened Spatial

  datatype Op =
    | Register(id: DeltaId, stateHash: nat, bytes: Bytes, parents: seq<DeltaId>, keys: map<Did, Key>)
    | LearnKey(id: DeltaId, peer: Did, key: Key)
    | Receive(receipt: SignedReceipt, id: DeltaId)
    | Cycle(answers: Answers, refetch: Refetch)
    | Compact(id: DeltaId)
    | SetAnchor(mode: AnchorMode)

  function Next(d: Durability, op: Op): Durability {
    match op
    case Register(id, stateHash, bytes, parents, keys) => d.Registered(id, stateHash, bytes, parents, keys)
    case LearnKey(id, peer, key) => d.KeyLearned(id, peer, key)
    case Receive(receipt, id) => d.Received(receipt, id)
    case Cycle(answers, refetch) => d.Synced(CycleLog(d.queue, answers, refetch))
    case Compact(id) => d.(queue := UpdateFirst(d.queue, id, Pruned))
    case SetAnchor(mode) => d.(anchor := mode)
  }

  function Run(d: Durability, ops: seq<Op>): Durability {
    if ops == [] then d else Next(Run(d, ops[..|ops| - 1]), ops[|ops| - 1])
  }

  function Start(config: QuorumConfig, anchor: AnchorMode): Durability {
    Durability(config, anchor, map[], [], [])
  }

  /** The tier of a delta as a number; one that is not tracked counts as Uncommitted. */
  function RankOf(d: Durability, id: DeltaId): nat {
    if id in d.states then d.states[id].tier.Rank() else 0
  }

  // ---------------------------------------------------------------------------
  // What a cycle does

  lemma {:induction false} AckedAllQueue(d: Durability, ids: seq<DeltaId>)
    ensures d.AckedAll(ids).queue == Without(d.queue, Elems(ids))
  {
    if ids == [] {
      WithoutNone(d.queue);
      assert Elems(ids) == {};
    } else {
      var init, last := ids[..|ids| - 1], ids[|ids| - 1];
      AckedAllQueue(d, init);
      WithoutTwice(d.queue, Elems(init), {last});
      assert ids == init + [last];
      assert Elems(ids) == Elems(init) + {last};
    }
  }

  /** Acknowledged deltas are Tier-2, the others untouched; Tier-1 is not announced. */
  lemma {:induction false} AckedAllStates(d: Durability, ids: seq<DeltaId>)
    ensures var d' := d.AckedAll(ids);
      && d'.states.Keys == d.states.Keys && Tier1Events(d'.events) == Tier1Events(d.events)
      && (forall id :: id in d.states ==>
            d'.states[id] == if id in ids then d.states[id].(tier := Tier2) else d.states[id])
  {
    if ids != [] {
      var init, last := ids[..|ids| - 1], ids[|ids| - 1];
      AckedAllStates(d, init);
      assert ids == init + [last];
      var mid := d.AckedAll(init);
      EventPush(mid.events, TierEvent(last, if last in mid.states then mid.states[last].tier else Uncommitted, Tier2));
    }
  }

  lemma {:induction false} FreshAcksAreRemovals(log: seq<Event>)
    requires forall i :: 0 <= i < |log| ==> !log[i].Swept?
    ensures Elems(Tally(log).acknowledgedIds) == Removed(log)
  {
    if log != [] {
      var init, last := log[..|log| - 1], log[|log| - 1];
      FreshAcksAreRemovals(init);
      LogOneMore([], init, last);
      assert log == init + [last];
    } else {
      assert Removed(log) == {};
    }
  }

  /** When no entry is flagged Tier-2, a cycle takes out exactly what it acknowledges. */
  lemma CycleRemovesAcked(q: seq<QueueEntry>, answers: Answers, refetch: Refetch, log: seq<Event>)
    requires (forall e :: e in q ==> !e.tier2) && log == CycleLog(q, answers, refetch)
    ensures Elems(Tally(log).acknowledgedIds) == Removed(log)
  {
    LogOfHolds(q, SendOrder(q), answers, refetch, log);
    forall i | 0 <= i < |log| ensures !log[i].Swept? {
      assert Find(q, log[i].id).value in q;
    }
    FreshAcksAreRemovals(log);
  }

  // ---------------------------------------------------------------------------
  // Tiers fall exactly when a delta is registered again

  /** The operation registers `id`, which stands above Uncommitted. */
  predicate Resets(d: Durability, op: Op, id: DeltaId) {
    op.Register? && op.id == id && RankOf(d, id) > 0
  }

  lemma StepFallsIff(d: Durability, op: Op, id: DeltaId)
    ensures RankOf(Next(d, op), id) < RankOf(d, id) <==> Resets(d, op, id)
  {
    match op
    case Cycle(answers, refetch) =>
      var log := CycleLog(d.queue, answers, refetch);
      AckedAllStates(d.(queue := Without(d.queue, Removed(log))), Tally(log).acknowledgedIds);
    case _ =>
  }

  lemma RunPrefix(d: Durability, ops: seq<Op>, k: nat)
    requires k < |ops|
    ensures Run(d, ops[..k + 1]) == Next(Run(d, ops[..k]), ops[k])
  {
    assert ops[..k + 1][..k] == ops[..k];
  }

  lemma StepRank(d: Durability, ops: seq<Op>, k: nat, id: DeltaId)
    requires k < |ops|
    ensures RankOf(Run(d, ops[..k + 1]), id) < RankOf(Run(d, ops[..k]), id) <==> Resets(Run(d, ops[..k]), ops[k], id)
  {
    RunPrefix(d, ops, k);
    StepFallsIff(Run(d, ops[..k]), ops[k], id);
  }

  lemma {:induction false} NoResetNoFall(d: Durability, ops: seq<Op>, i: nat, j: nat, id: DeltaId)
    requires i <= j <= |ops| && forall k :: i <= k < j ==> !Resets(Run(d, ops[..k]), ops[k], id)
    ensures RankOf(Run(d, ops[..i]), id) <= RankOf(Run(d, ops[..j]), id)
  {
    if i < j {
      NoResetNoFall(d, ops, i, j - 1, id);
      StepRank(d, ops, j - 1, id);
    }
  }

  /**
    Between two moments of a run the tier of a delta falls if and only if it was registered again
    above Uncommitted.
   */
  lemma TierFallsIff(d: Durability, ops: seq<Op>, i: nat, j: nat, id: DeltaId)
    requires i <= j <= |ops|
    ensures (exists a, b :: i <= a <= b <= j && RankOf(Run(d, ops[..b]), id) < RankOf(Run(d, ops[..a]), id)) <==>
            (exists k :: i <= k < j && Resets(Run(d, ops[..k]), ops[k], id))
  {
    if a, b :| i <= a <= b <= j && RankOf(Run(d, ops[..b]), id) < RankOf(Run(d, ops[..a]), id) {
      if forall k :: a <= k < b ==> !Resets(Run(d, ops[..k]), ops[k], id) {
        NoResetNoFall(d, ops, a, b, id);
        assert false;
      }
    }
    if k :| i <= k < j && Resets(Run(d, ops[..k]), ops[k], id) {
      StepRank(d, ops, k, id);
      assert RankOf(Run(d, ops[..k + 1]), id) < RankOf(Run(d, ops[..k]), id);
    }
  }

  // ---------------------------------------------------------------------------
  // Announcements of Tier-1

  /** The deltas whose listener was told of Tier-1, in order. */
  function Tier1Events(events: seq<TierEvent>): seq<DeltaId> {
    if events == [] then []
    else
      var last := events[|events| - 1];
      Tier1Events(events[..|events| - 1]) + if last.next == Tier1 then [last.id] else []
  }

  lemma EventPush(events: seq<TierEvent>, e: TierEvent)
    ensures Tier1Events(events + [e]) == Tier1Events(events) + if e.next == Tier1 then [e.id] else []
  {
    assert (events + [e])[..|events|] == events;
  }

  function Announced(d: Durability, id: DeltaId): nat {
    multiset(Tier1Events(d.events))[id]
  }

  /** How often a delta above Uncommitted was registered again. */
  function ResetCount(d: Durability, ops: seq<Op>, id: DeltaId): nat {
    if ops == [] then 0
    else
      var init := ops[..|ops| - 1];
      ResetCount(d, init, id) + if Resets(Run(d, init), ops[|ops| - 1], id) then 1 else 0
  }

  /** Whether a delta can still be announced without being registered again. */
  function Room(d: Durability, id: DeltaId): nat {
    if RankOf(d, id) == 0 then 1 else 0
  }

  /** A receipt leaves the tiers alone, or takes one delta from Uncommitted to Tier-1 and announces it. */
  lemma ReceiveMoves(d: Durability, r: SignedReceipt, x: DeltaId)
    ensures var d' := d.Received(r, x);
      || (d'.events == d.events && forall id :: RankOf(d', id) == RankOf(d, id))
      || (RankOf(d, x) == 0 && RankOf(d', x) == 1 && d'.events == d.events + [TierEvent(x, Uncommitted, Tier1)]
          && forall id :: id != x ==> RankOf(d', id) == RankOf(d, id))
  {
  }

  lemma ReceiveAnnounces(d: Durability, r: SignedReceipt, x: DeltaId, id: DeltaId)
    ensures Announced(d.Received(r, x), id) + Room(d.Received(r, x), id) <= Announced(d, id) + Room(d, id)
  {
    ReceiveMoves(d, r, x);
    EventPush(d.events, TierEvent(x, Uncommitted, Tier1));
  }

  lemma CycleAnnounces(d: Durability, log: seq<Event>, id: DeltaId)
    ensures Announced(d.Synced(log), id) == Announced(d, id) && Room(d.Synced(log), id) <= Room(d, id)
  {
    AckedAllStates(d.(queue := Without(d.queue, Removed(log))), Tally(log).acknowledgedIds);
  }

  lemma StepAnnounces(d: Durability, op: Op, id: DeltaId)
    ensures Announced(Next(d, op), id) + Room(Next(d, op), id) <=
            Announced(d, id) + Room(d, id) + if Resets(d, op, id) then 1 else 0
  {
    match op {
      case Cycle(answers, refetch) => CycleAnnounces(d, CycleLog(d.queue, answers, refetch), id);
      case Receive(receipt, x) => ReceiveAnnounces(d, receipt, x, id);
      case Register(_, _, _, _, _) => RegisterAnnounces(d, op, id);
      case _ =>
        assert Next(d, op).events == d.events && RankOf(Next(d, op), id) == RankOf(d, id);
    }
  }

  lemma RegisterAnnounces(d: Durability, op: Op, id: DeltaId)
    requires op.Register?
    ensures Next(d, op).events == d.events
    ensures Room(Next(d, op), id) <= Room(d, id) + if Resets(d, op, id) then 1 else 0
  {
  }

  /**
    Over every run: Tier-1 is announced at most once, and once more for each time a delta above
    Uncommitted is registered again.
   */
  lemma {:induction false} AnnouncedAtMost(config: QuorumConfig, anchor: AnchorMode, ops: seq<Op>, id: DeltaId)
    ensures var d := Run(Start(config, anchor), ops);
      Announced(d, id) + Room(d, id) <= 1 + ResetCount(Start(config, anchor), ops, id)
  {
    if ops != [] {
      AnnouncedAtMost(config, anchor, ops[..|ops| - 1], id);
      StepAnnounces(Run(Start(config, anchor), ops[..|ops| - 1]), ops[|ops| - 1], id);
    }
  }

  // ---------------------------------------------------------------------------
  // What is not queued

  /** The last registration of a delta in a list of operations. */
  function LastRegistration(ops: seq<Op>, id: DeltaId): (r: Option<nat>)
    ensures r.Some? ==> r.value < |ops| && ops[r.value].Register? && ops[r.value].id == id
    ensures forall k :: 0 <= k < |ops| && ops[k].Register? && ops[k].id == id ==> r.Some? && k <= r.value
  {
    if ops == [] then None
    else if ops[|ops| - 1].Register? && ops[|ops| - 1].id == id then Some(|ops| - 1)
    else LastRegistration(ops[..|ops| - 1], id)
  }

  /** A registration now would find the queue full and no entry of the delta in it. */
  predicate NoPlace(d: Durability, id: DeltaId) {
    |d.queue| >= MAX_QUEUE_DEPTH && id !in Ids(d.queue)
  }

  /** The last registration of the delta found no place. */
  predicate Missed(d: Durability, ops: seq<Op>, id: DeltaId) {
    var k := LastRegistration(ops, id);
    k.Some? && NoPlace(Run(d, ops[..k.value]), id)
  }

  lemma MissedPush(d: Durability, ops: seq<Op>, id: DeltaId)
    requires ops != []
    ensures var init, op := ops[..|ops| - 1], ops[|ops| - 1];
      Missed(d, ops, id) <==> if op.Register? && op.id == id then NoPlace(Run(d, init), id) else Missed(d, init, id)
  {
    var init := ops[..|ops| - 1];
    var k := LastRegistration(init, id);
    if k.Some? {
      assert ops[..k.value] == init[..k.value];
    }
  }

  /** No entry is flagged Tier-2, and a tracked delta below Tier-2 is queued unless it was missed. */
  ghost predicate Placed(d: Durability, missed: bool, id: DeltaId) {
    && (forall e :: e in d.queue ==> !e.tier2)
    && (id in d.states && d.states[id].tier != Tier2 ==> (id !in Ids(d.queue) <==> missed))
  }

  lemma IdsPush(q: seq<QueueEntry>, e: QueueEntry, id: DeltaId)
    ensures id in Ids(q + [e]) <==> id in Ids(q) || id == e.id
  {
    assert Ids(q + [e]) == Ids(q) + [e.id];
  }

  lemma RegisterPlaces(d: Durability, op: Op, missed: bool, id: DeltaId)
    requires op.Register? && Placed(d, missed, id)
    ensures Placed(Next(d, op), if op.id == id then NoPlace(d, id) else missed, id)
  {
    IdsPush(d.queue, QueueEntry(op.id, Some(op.bytes), op.parents, false, [], false), id);
  }

  lemma CyclePlaces(d: Durability, op: Op, missed: bool, id: DeltaId)
    requires op.Cycle? && Placed(d, missed, id)
    ensures Placed(Next(d, op), missed, id)
  {
    var log := CycleLog(d.queue, op.answers, op.refetch);
    assert Next(d, op) == d.Synced(log);
    CycleRemovesAcked(d.queue, op.answers, op.refetch, log);
    SyncedPlaces(d, log, missed, id);
  }

  lemma SyncedPlaces(d: Durability, log: seq<Event>, missed: bool, id: DeltaId)
    requires Placed(d, missed, id) && Elems(Tally(log).acknowledgedIds) == Removed(log)
    ensures Placed(d.Synced(log), missed, id)
  {
    SyncedTakesOut(d, log);
    TakenOutPlaces(d, d.Synced(log), Removed(log), missed, id);
  }

  /** A cycle that acknowledges what it takes out: it leaves the queue and becomes Tier-2. */
  lemma SyncedTakesOut(d: Durability, log: seq<Event>)
    requires Elems(Tally(log).acknowledgedIds) == Removed(log)
    ensures var d' := d.Synced(log);
      && d'.queue == Without(d.queue, Removed(log)) && d'.states.Keys == d.states.Keys
      && forall id :: id in d.states ==>
           d'.states[id] == if id in Removed(log) then d.states[id].(tier := Tier2) else d.states[id]
  {
    var gone, acked := Removed(log), Tally(log).acknowledgedIds;
    var mid := d.(queue := Without(d.queue, gone));
    AckedAllQueue(mid, acked);
    AckedAllStates(mid, acked);
    WithoutTwice(d.queue, gone, gone);
    assert gone + gone == gone;
    assert forall id :: id in acked <==> id in Elems(acked);
  }

  lemma TakenOutPlaces(d: Durability, d': Durability, gone: set<DeltaId>, missed: bool, id: DeltaId)
    requires Placed(d, missed, id) && d'.queue == Without(d.queue, gone)
    requires id in d'.states && d'.states[id].tier != Tier2 ==>
             id in d.states && d.states[id].tier != Tier2 && id !in gone
    ensures Placed(d', missed, id)
  {
    WithoutIds(d.queue, gone, id);
  }

  lemma UpdatePlaces(d: Durability, d': Durability, x: DeltaId, f: QueueEntry -> QueueEntry, missed: bool, id: DeltaId)
    requires Placed(d, missed, id) && forall e :: f(e).id == e.id && f(e).tier2 == e.tier2
    requires d'.queue == UpdateFirst(d.queue, x, f)
    requires id in d'.states && d'.states[id].tier != Tier2 ==> id in d.states && d.states[id].tier != Tier2
    ensures Placed(d', missed, id)
  {
    UpdateKeeps(d.queue, x, f);
  }

  lemma StepPlaces(d: Durability, op: Op, missed: bool, id: DeltaId)
    requires Placed(d, missed, id)
    ensures Placed(Next(d, op), if op.Register? && op.id == id then NoPlace(d, id) else missed, id)
  {
    match op {
      case Register(_, _, _, _, _) => RegisterPlaces(d, op, missed, id);
      case Cycle(_, _) => CyclePlaces(d, op, missed, id);
      case Compact(x) => UpdatePlaces(d, Next(d, op), x, Pruned, missed, id);
      case Receive(r, x) =>
        if d.Admits(r, x) {
          UpdatePlaces(d, Next(d, op), x, e => Held(e, r.receipt.issuer), missed, id);
        }
      case _ =>
    }
  }

  lemma {:induction false} RunPlaces(config: QuorumConfig, anchor: AnchorMode, ops: seq<Op>, id: DeltaId)
    ensures Placed(Run(Start(config, anchor), ops), Missed(Start(config, anchor), ops, id), id)
  {
    if ops != [] {
      var start, init := Start(config, anchor), ops[..|ops| - 1];
      RunPlaces(config, anchor, init, id);
      StepPlaces(Run(start, init), ops[|ops| - 1], Missed(start, init, id), id);
      MissedPush(start, ops, id);
    }
  }

  /**
    Over every run: a tracked delta below Tier-2, compactable or not, is missing from the queue if and
    only if its last registration found the queue full and without an entry of it.
   */
  lemma UnqueuedIff(config: QuorumConfig, anchor: AnchorMode, ops: seq<Op>, id: DeltaId)
    requires var d := Run(Start(config, anchor), ops); id in d.states && d.states[id].tier != Tier2
    ensures id !in Ids(Run(Start(config, anchor), ops).queue) <==> Missed(Start(config, anchor), ops, id)
  {
    RunPlaces(config, anchor, ops, id);
  }

  /** Tier-1 is announced twice only if the delta was registered again above Uncommitted. */
  lemma AnnouncedAgainNeedsReset(config: QuorumConfig, anchor: AnchorMode, ops: seq<Op>, id: DeltaId)
    requires Announced(Run(Start(config, anchor), ops), id) > 1
    ensures exists k :: 0 <= k < |ops| && Resets(Run(Start(config, anchor), ops[..k]), ops[k], id)
  {
    AnnouncedAtMost(config, anchor, ops, id);
    CountedReset(Start(config, anchor), ops, id);
  }

  lemma {:induction false} CountedReset(d: Durability, ops: seq<Op>, id: DeltaId)
    requires ResetCount(d, ops, id) > 0
    ensures exists k :: 0 <= k < |ops| && Resets(Run(d, ops[..k]), ops[k], id)
  {
    var init, n := ops[..|ops| - 1], |ops| - 1;
    if Resets(Run(d, init), ops[n], id) {
      assert Resets(Run(d, ops[..n]), ops[n], id);
    } else {
      CountedReset(d, init, id);
      var k :| 0 <= k < n && Resets(Run(d, init[..k]), init[k], id);
      assert init[..k] == ops[..k] && init[k] == ops[k];
    }
  }

  // ---------------------------------------------------------------------------
  // Inputs on which the plain statements fail

  /** One receipt is enough, and it counts. */
  ghost predicate OneReceiptCounts(d: Durability, r: SignedReceipt, key: Key, stateHash: nat) {
    && d.config.k == 1 && d.config.spatialDiversityMin == 0 && d.anchor == Disabled
    && r.signedBy == key && r.stateHash == stateHash && r.receipt.tag == None
  }

  lemma FreshReceiptReaches(d: Durability, r: SignedReceipt, id: DeltaId)
    requires id in d.states && d.states[id].tier == Uncommitted && d.states[id].quorum == NewTracker(d.config)
    requires r.receipt.issuer in d.states[id].keys &&
             OneReceiptCounts(d, r, d.states[id].keys[r.receipt.issuer], d.states[id].stateHash)
    ensures var d' := d.Received(r, id);
      && RankOf(d', id) == 1 && d'.states.Keys == d.states.Keys && d'.states[id].compactionPermitted &&
         Ids(d'.queue) == Ids(d.queue)
      && d'.events == d.events + [TierEvent(id, Uncommitted, Tier1)] && d'.config == d.config && d'.anchor == d.anchor
  {
    UpdateKeepsIds(d.queue, id, e => Held(e, r.receipt.issuer));
    var tags: seq<Option<Spatial.Tag>> := [None];
    assert TagSet(tags) == {};
    assert [] + [CountedTag(r.receipt, None)] == tags;
    assert Qualifies(d.config, tags);
  }

  /** Registered, qualified, registered again, qualified again: the tier falls and Tier-1 is announced twice. */
  lemma RegisteredAgain(config: QuorumConfig, id: DeltaId, r: SignedReceipt, key: Key, stateHash: nat)
    requires OneReceiptCounts(Start(config, Disabled), r, key, stateHash)
    ensures var reg, rec := Register(id, stateHash, [], [], map[r.receipt.issuer := key]), Receive(r, id);
      var start := Start(config, Disabled);
      && RankOf(Run(start, [reg, rec]), id) == 1 && RankOf(Run(start, [reg, rec, reg]), id) == 0
      && Announced(Run(start, [reg, rec, reg, rec]), id) == 2
  {
    var reg, rec := Register(id, stateHash, [], [], map[r.receipt.issuer := key]), Receive(r, id);
    var start := Start(config, Disabled);
    RegisteredThenReached(start, id, r, key, stateHash);
    var mid := Next(Next(start, reg), rec);
    RegisteredThenReached(mid, id, r, key, stateHash);
    RunTwo(start, reg, rec);
    RunPush(start, [reg, rec], reg);
    RunPush(start, [reg, rec, reg], rec);
    assert [reg, rec] + [reg] == [reg, rec, reg] && [reg, rec, reg] + [rec] == [reg, rec, reg, rec];
  }

  /** A registration and one receipt that suffices: from Uncommitted to Tier-1 with one announcement. */
  lemma RegisteredThenReached(d: Durability, id: DeltaId, r: SignedReceipt, key: Key, stateHash: nat)
    requires OneReceiptCounts(d, r, key, stateHash)
    ensures var d1 := Next(d, Register(id, stateHash, [], [], map[r.receipt.issuer := key]));
      var d2 := Next(d1, Receive(r, id));
      && RankOf(d1, id) == 0 && RankOf(d2, id) == 1 && Announced(d2, id) == Announced(d, id) + 1
      && OneReceiptCounts(d2, r, key, stateHash)
  {
    var d1 := d.Registered(id, stateHash, [], [], map[r.receipt.issuer := key]);
    FreshReceiptReaches(d1, r, id);
    EventPush(d1.events, TierEvent(id, Uncommitted, Tier1));
  }

  lemma {:induction false} RunAppend(d: Durability, a: seq<Op>, b: seq<Op>)
    ensures Run(Run(d, a), b) == Run(d, a + b)
  {
    if b == [] {
      assert a + b == a;
    } else {
      RunAppend(d, a, b[..|b| - 1]);
      assert (a + b)[..|a + b| - 1] == a + b[..|b| - 1];
    }
  }

  /** The queue holds `n` entries, and nothing is queued or tracked but the first `n` ids. */
  ghost predicate FilledTo(d: Durability, n: nat) {
    |d.queue| == n && forall id :: id in Ids(d.queue) || id in d.states ==> id.hash < n
  }

  lemma FillOne(d: Durability, n: nat)
    requires FilledTo(d, n) && n < MAX_QUEUE_DEPTH
    ensures var d' := d.Registered(DeltaId(n), 0, [], [], map[]);
      FilledTo(d', n + 1) && d'.config == d.config && d'.anchor == d.anchor
  {
    var d' := d.Registered(DeltaId(n), 0, [], [], map[]);
    forall id | id in Ids(d'.queue) || id in d'.states ensures id.hash < n + 1 {
      IdsPush(d.queue, QueueEntry(DeltaId(n), Some([]), [], false, [], false), id);
    }
  }

  /** A queue of any length up to the limit is reached by that many registrations. */
  lemma {:induction false} QueueFills(config: QuorumConfig, anchor: AnchorMode, n: nat) returns (ops: seq<Op>)
    requires n <= MAX_QUEUE_DEPTH
    ensures var d := Run(Start(config, anchor), ops); FilledTo(d, n) && d.config == config && d.anchor == anchor
  {
    if n == 0 {
      ops := [];
    } else {
      var before := QueueFills(config, anchor, n - 1);
      var op := Register(DeltaId(n - 1), 0, [], [], map[]);
      ops := before + [op];
      RunPush(Start(config, anchor), before, op);
      FillOne(Run(Start(config, anchor), before), n - 1);
    }
  }

  lemma RunPush(d: Durability, ops: seq<Op>, op: Op)
    ensures Run(d, ops + [op]) == Next(Run(d, ops), op)
  {
    assert (ops + [op])[..|ops|] == ops;
  }

  lemma RunTwo(d: Durability, a: Op, b: Op)
    ensures Run(d, [a, b]) == Next(Next(d, a), b)
  {
    RunPush(d, [], a);
    RunPush(d, [a], b);
    assert [] + [a] == [a] && [a] + [b] == [a, b];
  }

  lemma RefusedThenQualified(d: Durability, id: DeltaId, r: SignedReceipt, key: Key, stateHash: nat, bytes: Bytes)
    requires |d.queue| >= MAX_QUEUE_DEPTH && id !in Ids(d.queue) && OneReceiptCounts(d, r, key, stateHash)
    ensures var d' := d.Registered(id, stateHash, bytes, [], map[r.receipt.issuer := key]).Received(r, id);
      id in d'.states && d'.states[id].tier == Tier1 && d'.states[id].compactionPermitted && id !in Ids(d'.queue)
  {
    FreshReceiptReaches(d.Registered(id, stateHash, bytes, [], map[r.receipt.issuer := key]), r, id);
  }

  /** Registered when the queue is full, a delta is tracked, qualifies and may be compacted, but is not queued. */
  lemma RefusedYetCompactable(config: QuorumConfig, r: SignedReceipt, key: Key, stateHash: nat)
    returns (ops: seq<Op>, id: DeltaId)
    requires OneReceiptCounts(Start(config, Disabled), r, key, stateHash)
    ensures var d := Run(Start(config, Disabled), ops);
      id in d.states && d.states[id].tier == Tier1 && d.states[id].compactionPermitted && id !in Ids(d.queue)
  {
    id := DeltaId(MAX_QUEUE_DEPTH);
    var filling := QueueFills(config, Disabled, MAX_QUEUE_DEPTH);
    var reg, rec := Register(id, stateHash, [], [], map[r.receipt.issuer := key]), Receive(r, id);
    var full := Run(Start(config, Disabled), filling);
    assert FilledTo(full, MAX_QUEUE_DEPTH) && id.hash >= MAX_QUEUE_DEPTH;
    RefusedThenQualified(full, id, r, key, stateHash, []);
    RunTwo(full, reg, rec);
    ops := filling + [reg, rec];
    RunAppend(Start(config, Disabled), filling, [reg, rec]);
  }

  /** A refused registration leaves an older entry in place: registered on a full queue, the delta is still queued. */
  lemma RefusedYetQueued(config: QuorumConfig, anchor: AnchorMode) returns (ops: seq<Op>, id: DeltaId)
    ensures ops != [] && ops[|ops| - 1].Register? && ops[|ops| - 1].id == id
    ensures var before, after := Run(Start(config, anchor), ops[..|ops| - 1]), Run(Start(config, anchor), ops);
      && |before.queue| == MAX_QUEUE_DEPTH && after.queue == before.queue
      && id in after.states && after.states[id].tier == Uncommitted && id in Ids(after.queue)
  {
    var filling := QueueFills(config, anchor, MAX_QUEUE_DEPTH);
    var full := Run(Start(config, anchor), filling);
    id := full.queue[0].id;
    assert Ids(full.queue)[0] == id;
    var op := Register(id, 0, [], [], map[]);
    ops := filling + [op];
    RunPush(Start(config, anchor), filling, op);
    assert ops[..|ops| - 1] == filling;
  }
}
