/** One cloud sync cycle over the outbound queue, for any connection and any refetch behaviour. */
module CloudSync {
  import opened CloudQueues
  import opened Deltas
  import opened LexOrder
  import opened Sequences

  /** The answer to the n-th send and the n-th refetch: any adaptive behaviour of the other side. */
  type Answers = (nat, DeltaId, Bytes) -> bool
  type Refetch = (nat, DeltaId, seq<Did>) -> Option<Bytes>

  /** What happened to one entry: swept because already durable, put off, or sent and answered. */
  datatype Event =
    | Swept(id: DeltaId)
    | Deferred(id: DeltaId)
    | Sent(id: DeltaId, bytes: Bytes, ok: bool)
  {
    predicate Removes() {
      Swept? || (Sent? && ok)
    }
  }

  datatype SyncResult = SyncResult(acknowledged: nat, rejected: nat, deferred: nat, acknowledgedIds: seq<DeltaId>)

  function Find(q: seq<QueueEntry>, id: DeltaId): (r: Option<QueueEntry>)
    ensures r.Some? ==> r.value in q && r.value.id == id
    ensures r.None? ==> forall i :: 0 <= i < |q| ==> q[i].id != id
  {
    if q == [] then None
    else if q[0].id == id then Some(q[0])
    else Find(q[1..], id)
  }

  lemma {:induction false} FindAfterRemoval(q: seq<QueueEntry>, gone: set<DeltaId>, id: DeltaId)
    requires id !in gone
    ensures Find(Without(q, gone), id) == Find(q, id)
  {
    if q != [] {
      FindAfterRemoval(q[1..], gone, id);
    }
  }

  /** The bytes of an entry: its own, or those a receipt holder still has once it is compacted. */
  function BytesOf(e: QueueEntry, n: nat, refetch: Refetch): Option<Bytes> {
    if e.bytes.Some? then e.bytes
    else if e.compacted then refetch(n, e.id, e.holders)
    else None
  }

  function EventOf(e: QueueEntry, n: nat, answers: Answers, refetch: Refetch): Event {
    if e.tier2 then Swept(e.id)
    else match BytesOf(e, n, refetch)
      case None => Deferred(e.id)
      case Some(b) => Sent(e.id, b, answers(n, e.id, b))
  }

  function EventIds(log: seq<Event>): (r: seq<DeltaId>)
    ensures |r| == |log| && forall i :: 0 <= i < |log| ==> r[i] == log[i].id
  {
    seq(|log|, i requires 0 <= i < |log| => log[i].id)
  }

  function Removed(log: seq<Event>): set<DeltaId> {
    set e | e in log && e.Removes() :: e.id
  }

  function SentIds(log: seq<Event>): seq<DeltaId> {
    if log == [] then []
    else
      var last := log[|log| - 1];
      SentIds(log[..|log| - 1]) + if last.Sent? then [last.id] else []
  }

  /** The summary with one more event counted. */
  function Add(t: SyncResult, event: Event): SyncResult {
    match event
    case Swept(_) => t.(acknowledged := t.acknowledged + 1)
    case Deferred(_) => t.(deferred := t.deferred + 1)
    case Sent(id, _, true) => t.(acknowledged := t.acknowledged + 1, acknowledgedIds := t.acknowledgedIds + [id])
    case Sent(_, _, false) => t.(rejected := t.rejected + 1)
  }

  function Tally(log: seq<Event>): SyncResult {
    if log == [] then SyncResult(0, 0, 0, []) else Add(Tally(log[..|log| - 1]), log[|log| - 1])
  }

  /** One entry's turn: sweep it, put it off, or send it and act on the answer. */
  method Attempt(q: CloudOutboundQueue, entry: QueueEntry, n: nat, answers: Answers, refetch: Refetch,
                 soFar: SyncResult)
    returns (result: SyncResult, event: Event)
    modifies q
    ensures event == EventOf(entry, n, answers, refetch)
    ensures result == Add(soFar, event)
    ensures q.queue == if event.Removes() then Without(old(q.queue), {entry.id}) else old(q.queue)
  {
    result := soFar;
    if entry.tier2 {
      q.Acknowledge(entry.id);
      return result.(acknowledged := result.acknowledged + 1), Swept(entry.id);
    }
    var bytes := BytesOf(entry, n, refetch);
    if bytes.None? {
      return result.(deferred := result.deferred + 1), Deferred(entry.id);
    }
    var ok := answers(n, entry.id, bytes.value);
    if ok {
      q.Acknowledge(entry.id);
      result := result.(acknowledged := result.acknowledged + 1,
                        acknowledgedIds := result.acknowledgedIds + [entry.id]);
    } else {
      result := result.(rejected := result.rejected + 1);
    }
    event := Sent(entry.id, bytes.value, ok);
  }

  /** The entry of each logged id, and the event it must have met. */
  ghost predicate Explains(before: seq<QueueEntry>, answers: Answers, refetch: Refetch, log: seq<Event>) {
    forall i :: 0 <= i < |log| ==>
        Find(before, log[i].id).Some? && log[i] == EventOf(Find(before, log[i].id).value, i, answers, refetch)
  }

  /** The log after the turn of one id: an id that is no longer queued is passed over. */
  function Logged(q: seq<QueueEntry>, id: DeltaId, answers: Answers, refetch: Refetch, log: seq<Event>): seq<Event> {
    var found := Find(q, id);
    if found.Some? then log + [EventOf(found.value, |log|, answers, refetch)] else log
  }

  /** One id's turn. */
  method AttemptOne(q: CloudOutboundQueue, id: DeltaId, answers: Answers, refetch: Refetch,
                    ghost before: seq<QueueEntry>,
                    soFar: SyncResult, was: seq<Event>)
    returns (result: SyncResult, log: seq<Event>)
    requires soFar == Tally(was) && q.queue == Without(before, Removed(was))
    modifies q
    ensures result == Tally(log) && q.queue == Without(before, Removed(log))
    ensures log == Logged(Without(before, Removed(was)), id, answers, refetch, was)
  {
    result, log := soFar, was;
    var found := Find(q.queue, id);
    if found.Some? {
      var event;
      result, event := Attempt(q, found.value, |was|, answers, refetch, soFar);
      log := was + [event];
      LogOneMore(before, was, event);
    }
  }

  /** The events of the turns of the listed ids. */
  function LogOf(q: seq<QueueEntry>, ids: seq<DeltaId>, answers: Answers, refetch: Refetch): seq<Event> {
    if ids == [] then []
    else
      var was := LogOf(q, ids[..|ids| - 1], answers, refetch);
      Logged(Without(q, Removed(was)), ids[|ids| - 1], answers, refetch, was)
  }

  /** The events of a whole cycle: each id in send order. */
  function CycleLog(q: seq<QueueEntry>, answers: Answers, refetch: Refetch): seq<Event> {
    LogOf(q, SendOrder(q), answers, refetch)
  }

  /** Nothing happens to an id once it has left the queue. */
  ghost predicate AckedOnce(log: seq<Event>) {
    forall i, j :: 0 <= i < j < |log| && log[i].Removes() ==> log[j].id != log[i].id
  }

  /** Gives each listed id its turn. */
  method AttemptAll(q: CloudOutboundQueue, ids: seq<DeltaId>, answers: Answers, refetch: Refetch)
    returns (result: SyncResult, log: seq<Event>)
    modifies q
    ensures log == LogOf(old(q.queue), ids, answers, refetch)
    ensures result == Tally(log) && q.queue == Without(old(q.queue), Removed(log))
  {
    result, log := SyncResult(0, 0, 0, []), [];
    ghost var before := q.queue;
    WithoutNone(before);
    assert Removed([]) == {};
    for i := 0 to |ids|
      invariant log == LogOf(before, ids[..i], answers, refetch)
      invariant result == Tally(log) && q.queue == Without(before, Removed(log))
    {
      assert ids[..i + 1][..i] == ids[..i];
      result, log := AttemptOne(q, ids[i], answers, refetch, before, result, log);
    }
    assert ids[..|ids|] == ids;
  }

  lemma FindQueued(q: seq<QueueEntry>, gone: set<DeltaId>, id: DeltaId)
    ensures Find(Without(q, gone), id).Some? <==> id in Ids(q) && id !in gone
    ensures id !in gone ==> Find(Without(q, gone), id) == Find(q, id)
  {
    if id !in gone {
      FindAfterRemoval(q, gone, id);
    }
    if Find(q, id).Some? {
      var i :| 0 <= i < |q| && q[i] == Find(q, id).value;
      assert Ids(q)[i] == id;
    }
  }

  lemma ExplainPush(q: seq<QueueEntry>, answers: Answers, refetch: Refetch, was: seq<Event>, id: DeltaId)
    requires Explains(q, answers, refetch, was) && Find(q, id).Some?
    ensures Explains(q, answers, refetch, was + [EventOf(Find(q, id).value, |was|, answers, refetch)])
  {
  }

  lemma AckedPush(was: seq<Event>, event: Event)
    requires AckedOnce(was) && event.id !in Removed(was)
    ensures AckedOnce(was + [event]) && EventIds(was + [event]) == EventIds(was) + [event.id]
  {
    var log := was + [event];
    forall i, j | 0 <= i < j < |log| && log[i].Removes() ensures log[j].id != log[i].id {
      assert log[i] == was[i] && was[i] in was;
    }
  }

  /** What one turn adds: one event, for an id that is queued and was not removed. */
  lemma TurnTaken(q: seq<QueueEntry>, id: DeltaId, answers: Answers, refetch: Refetch, was: seq<Event>, log: seq<Event>)
    requires Explains(q, answers, refetch, was) && AckedOnce(was)
    requires log == Logged(Without(q, Removed(was)), id, answers, refetch, was)
    ensures Explains(q, answers, refetch, log) && AckedOnce(log)
    ensures EventIds(log) == if id in Ids(q) && id !in Removed(was) then EventIds(was) + [id] else EventIds(was)
  {
    FindQueued(q, Removed(was), id);
    if id in Ids(q) && id !in Removed(was) {
      ExplainPush(q, answers, refetch, was, id);
      AckedPush(was, EventOf(Find(q, id).value, |was|, answers, refetch));
    }
  }

  /** The logged ids are the listed ones that are queued. */
  ghost predicate Covers(ids: seq<DeltaId>, queued: seq<DeltaId>, logged: seq<DeltaId>) {
    forall id :: id in logged <==> id in ids && id in queued
  }

  lemma CoversPush(ids: seq<DeltaId>, queued: seq<DeltaId>, was: seq<DeltaId>, removed: set<DeltaId>,
                   logged: seq<DeltaId>)
    requires ids != [] && Covers(ids[..|ids| - 1], queued, was) && forall id :: id in removed ==> id in was
    requires var last := ids[|ids| - 1]; logged == if last in queued && last !in removed then was + [last] else was
    ensures Covers(ids, queued, logged)
  {
    assert ids == ids[..|ids| - 1] + [ids[|ids| - 1]];
  }

  /** Whatever the queue: each event is explained by an entry, and every queued id has its turn. */
  lemma {:induction false} LogOfHolds(q: seq<QueueEntry>, ids: seq<DeltaId>, answers: Answers, refetch: Refetch,
                                      log: seq<Event>)
    requires log == LogOf(q, ids, answers, refetch)
    ensures Explains(q, answers, refetch, log) && AckedOnce(log) && Covers(ids, Ids(q), EventIds(log))
  {
    if ids != [] {
      var init, last := ids[..|ids| - 1], ids[|ids| - 1];
      var was := LogOf(q, init, answers, refetch);
      LogOfHolds(q, init, answers, refetch, was);
      TurnTaken(q, last, answers, refetch, was, log);
      RemovedAreLogged(was);
      CoversPush(ids, Ids(q), EventIds(was), Removed(was), EventIds(log));
    }
  }

  lemma RemovedAreLogged(log: seq<Event>)
    ensures forall id :: id in Removed(log) ==> id in EventIds(log)
  {
    forall id | id in Removed(log) ensures id in EventIds(log) {
      var e :| e in log && e.Removes() && e.id == id;
      var k :| 0 <= k < |log| && log[k] == e;
      assert EventIds(log)[k] == id;
    }
  }

  /** When no id is listed twice, every listed id of the queue meets exactly one event, in order. */
  lemma {:induction false} LogOfDistinct(q: seq<QueueEntry>, ids: seq<DeltaId>, answers: Answers, refetch: Refetch,
                                         log: seq<Event>)
    requires log == LogOf(q, ids, answers, refetch)
    requires NoDup(ids) && forall i :: 0 <= i < |ids| ==> ids[i] in Ids(q)
    ensures EventIds(log) == ids
  {
    if ids != [] {
      var init, last := ids[..|ids| - 1], ids[|ids| - 1];
      var was := LogOf(q, init, answers, refetch);
      LogOfDistinct(q, init, answers, refetch, was);
      LogOfHolds(q, init, answers, refetch, was);
      TurnTaken(q, last, answers, refetch, was, log);
      RemovedAreLogged(was);
      LastIsNew(ids, Ids(q), Removed(was));
    }
  }

  lemma LastIsNew(ids: seq<DeltaId>, queued: seq<DeltaId>, removed: set<DeltaId>)
    requires ids != [] && NoDup(ids) && forall i :: 0 <= i < |ids| ==> ids[i] in queued
    requires forall id :: id in removed ==> id in ids[..|ids| - 1]
    ensures ids[|ids| - 1] in queued && ids[|ids| - 1] !in removed
    ensures ids[..|ids| - 1] + [ids[|ids| - 1]] == ids
  {
    assert ids[|ids| - 1] !in ids[..|ids| - 1];
  }

  /** The send order of a queue with distinct ids, and the cycle it gives. */
  ghost predicate InSendOrder(before: seq<QueueEntry>, log: seq<Event>) {
    EventIds(log) == SendOrder(before) && IsCausal(before, EventIds(log))
  }

  method CloudSyncLoop(q: CloudOutboundQueue, answers: Answers, refetch: Refetch)
    returns (result: SyncResult, log: seq<Event>)
    modifies q
    ensures log == CycleLog(old(q.queue), answers, refetch)
    ensures result == Tally(log) && q.queue == Without(old(q.queue), Removed(log))
    ensures Elems(EventIds(log)) == Elems(Ids(old(q.queue)))
    ensures Summed(log, result, q.queue)
    ensures Distinct(old(q.queue)) ==> InSendOrder(old(q.queue), log)
    ensures Distinct(old(q.queue)) ==> Conserved(old(q.queue), log, result, q.queue)
  {
    var ids := q.TopologicalSortQueue();
    ghost var before := q.queue;
    CausalCovers(before, ids);
    if Distinct(before) {
      CausalIsPermutation(before, ids);
    }
    result, log := AttemptAll(q, ids, answers, refetch);
    CycleHolds(before, ids, answers, refetch, log);
  }

  /** What the turns of all queued ids amount to. */
  lemma CycleHolds(before: seq<QueueEntry>, ids: seq<DeltaId>, answers: Answers, refetch: Refetch, log: seq<Event>)
    requires Elems(ids) == Elems(Ids(before)) && log == LogOf(before, ids, answers, refetch)
    ensures Elems(EventIds(log)) == Elems(Ids(before))
    ensures Summed(log, Tally(log), Without(before, Removed(log)))
    ensures Distinct(before) && NoDup(ids) ==>
      EventIds(log) == ids && Conserved(before, log, Tally(log), Without(before, Removed(log)))
  {
    LogOfHolds(before, ids, answers, refetch, log);
    forall id ensures id in Elems(EventIds(log)) <==> id in Elems(Ids(before)) {
      assert id in ids <==> id in Elems(ids);
    }
    LogSums(before, log);
    if Distinct(before) && NoDup(ids) {
      forall i | 0 <= i < |ids| ensures ids[i] in Ids(before) {
        assert ids[i] in Elems(ids);
      }
      LogOfDistinct(before, ids, answers, refetch, log);
      CycleConserves(before, log);
    }
  }

  lemma LogOneMore(before: seq<QueueEntry>, log: seq<Event>, event: Event)
    ensures Tally(log + [event]) == Add(Tally(log), event)
    ensures Removed(log + [event]) == if event.Removes() then Removed(log) + {event.id} else Removed(log)
    ensures Without(Without(before, Removed(log)), {event.id}) == Without(before, Removed(log) + {event.id})
  {
    assert (log + [event])[..|log|] == log;
    WithoutTwice(before, Removed(log), {event.id});
  }

  // ---------------------------------------------------------------------------
  // Conservation

  /** For any queue: each event is counted once, and each acknowledged id once and gone. */
  ghost predicate Summed(log: seq<Event>, t: SyncResult, after: seq<QueueEntry>) {
    && t.acknowledged + t.rejected + t.deferred == |log|
    && NoDup(t.acknowledgedIds) && forall id :: id in t.acknowledgedIds ==> id !in Ids(after)
  }

  lemma LogSums(before: seq<QueueEntry>, log: seq<Event>)
    requires AckedOnce(log)
    ensures Summed(log, Tally(log), Without(before, Removed(log)))
  {
    TallyCounts(log);
    forall id | id in Tally(log).acknowledgedIds ensures id !in Ids(Without(before, Removed(log))) {
      WithoutIds(before, Removed(log), id);
    }
  }

  /** The queue splits into acknowledged, rejected and deferred; only the first kind leaves it. */
  ghost predicate Conserved(before: seq<QueueEntry>, log: seq<Event>, t: SyncResult, after: seq<QueueEntry>) {
    && t.acknowledged + t.rejected + t.deferred == |before|
    && |after| == t.rejected + t.deferred
    && Distinct(after) && NoDup(SentIds(log))
    && forall e :: e in before ==>
       (e in after <==> exists i :: 0 <= i < |log| && log[i].id == e.id && !log[i].Removes())
  }

  /** When each entry of the queue meets exactly one event, nothing is lost or counted twice. */
  lemma CycleConserves(before: seq<QueueEntry>, log: seq<Event>)
    requires Distinct(before) && NoDup(EventIds(log)) && Elems(EventIds(log)) == Elems(Ids(before))
    ensures Conserved(before, log, Tally(log), Without(before, Removed(log)))
  {
    LogConserves(before, log);
    SentOnce(log);
    WithoutDistinct(before, Removed(log));
    forall e | e in before
      ensures e in Without(before, Removed(log)) <==>
              exists i :: 0 <= i < |log| && log[i].id == e.id && !log[i].Removes()
    {
      KeptIffNotRemoved(before, log, e);
    }
  }

  lemma LogConserves(before: seq<QueueEntry>, log: seq<Event>)
    requires Distinct(before) && NoDup(EventIds(log)) && Elems(EventIds(log)) == Elems(Ids(before))
    ensures var t := Tally(log);
      && t.acknowledged + t.rejected + t.deferred == |before|
      && |Without(before, Removed(log))| == t.rejected + t.deferred
  {
    DistinctIds(before);
    NoDupSize(EventIds(log));
    NoDupSize(Ids(before));
    forall i, j | 0 <= i < j < |log| ensures log[i].id != log[j].id {
      assert EventIds(log)[i] != EventIds(log)[j];
    }
    TallyCounts(log);
    RemovedAreLogged(log);
    assert Removed(log) <= Elems(Ids(before));
    WithoutSize(before, Removed(log));
  }

  /** The summary counts every event once and names each fresh acknowledgement once. */
  ghost predicate Counts(log: seq<Event>) {
    CountsAll(log) && NamesAcks(log)
  }

  ghost predicate CountsAll(log: seq<Event>) {
    var t := Tally(log);
    t.acknowledged + t.rejected + t.deferred == |log| && t.acknowledged == |Removed(log)|
  }

  ghost predicate NamesAcks(log: seq<Event>) {
    NoDup(Tally(log).acknowledgedIds) && forall id :: id in Tally(log).acknowledgedIds ==> id in Removed(log)
  }

  lemma {:induction false} TallyCounts(log: seq<Event>)
    requires AckedOnce(log)
    ensures Counts(log)
  {
    if log != [] {
      var init, last := log[..|log| - 1], log[|log| - 1];
      TallyCounts(init);
      assert log == init + [last];
      assert last.id !in Removed(init);
      TallyOneMore(init, last);
    }
  }

  lemma TallyOneMore(log: seq<Event>, event: Event)
    requires Counts(log) && event.id !in Removed(log)
    ensures Counts(log + [event])
  {
    LogOneMore([], log, event);
    if event.Sent? && event.ok {
      NoDupAppend(Tally(log).acknowledgedIds, [event.id]);
    }
  }

  lemma {:induction false} SentOnce(log: seq<Event>)
    requires NoDup(EventIds(log))
    ensures NoDup(SentIds(log)) && forall id :: id in SentIds(log) ==> id in EventIds(log)
  {
    if log != [] {
      var init, last := log[..|log| - 1], log[|log| - 1];
      assert EventIds(log) == EventIds(init) + [last.id];
      SentOnce(init);
      if last.Sent? {
        assert last.id !in EventIds(init);
        NoDupAppend(SentIds(init), [last.id]);
      }
    }
  }

  lemma KeptIffNotRemoved(before: seq<QueueEntry>, log: seq<Event>, e: QueueEntry)
    requires NoDup(EventIds(log)) && Elems(EventIds(log)) == Elems(Ids(before)) && e in before
    ensures e in Without(before, Removed(log)) <==> exists i :: 0 <= i < |log| && log[i].id == e.id && !log[i].Removes()
  {
    var j :| 0 <= j < |before| && before[j] == e;
    assert Ids(before)[j] == e.id;
    assert e.id in Elems(EventIds(log));
    var k :| 0 <= k < |log| && EventIds(log)[k] == e.id;
    if e.id in Removed(log) {
      var r :| r in log && r.Removes() && r.id == e.id;
      var l :| 0 <= l < |log| && log[l] == r;
      assert EventIds(log)[l] == EventIds(log)[k];
      forall i | 0 <= i < |log| && log[i].id == e.id ensures log[i].Removes() {
        assert EventIds(log)[i] == EventIds(log)[l];
      }
    } else {
      assert log[k] in log;
    }
  }

  /** On an acyclic queue no entry is attempted before its queued parents. */
  lemma AttemptsFollowParents(before: seq<QueueEntry>, log: seq<Event>, i: nat, p: DeltaId)
    requires IsCausal(before, EventIds(log)) && i < |log|
    requires AcyclicQueue(before) && (p, log[i].id) in QueueEdges(before, Elems(Ids(before)))
    ensures exists k :: 0 <= k < i && log[k].id == p
  {
    var order := EventIds(log);
    assert order[i] == log[i].id;
    var e, q :| e in before && q in e.parents && q in Elems(Ids(before)) && (p, log[i].id) == (q, e.id);
    var j :| 0 <= j < |before| && before[j] == e;
    assert Ids(before)[j] == e.id;
    OrderlyFollowParents(before, order, i, p);
    var k :| 0 <= k < i && order[..i][k] == p;
    assert EventIds(log)[k] == p;
  }

  // ---------------------------------------------------------------------------
  // What the events and the summary say

  /** The entry that is found for an id is its first one. */
  lemma {:induction false} FindFirst(q: seq<QueueEntry>, id: DeltaId) returns (k: nat)
    requires Find(q, id).Some?
    ensures k < |q| && q[k] == Find(q, id).value && forall j :: 0 <= j < k ==> q[j].id != id
  {
    if q[0].id == id {
      k := 0;
    } else {
      k := FindFirst(q[1..], id);
      k := k + 1;
    }
  }

  /**
    The i-th event of a cycle, from the first entry of its id: already durable entries are swept, entries
    without bytes are put off unless they are compacted and a holder still has them, the others are sent.
   */
  lemma EventIsDue(q: seq<QueueEntry>, answers: Answers, refetch: Refetch, i: nat) returns (k: nat)
    requires i < |CycleLog(q, answers, refetch)|
    ensures k < |q| && forall j :: 0 <= j < k ==> q[j].id != q[k].id
    ensures var e, event, held := q[k], CycleLog(q, answers, refetch)[i], refetch(i, q[k].id, q[k].holders);
      && event.id == e.id
      && (event.Swept? <==> e.tier2)
      && (event.Deferred? <==> !e.tier2 && e.bytes == None && (!e.compacted || held == None))
      && (event.Sent? ==>
            && (event.ok <==> answers(i, e.id, event.bytes))
            && (e.bytes == Some(event.bytes) || (e.bytes == None && e.compacted && held == Some(event.bytes))))
  {
    var log := CycleLog(q, answers, refetch);
    LogOfHolds(q, SendOrder(q), answers, refetch, log);
    k := FindFirst(q, log[i].id);
  }

  /** How many of the first events are of a kind, by their places. */
  ghost function Places(log: seq<Event>, kind: Event -> bool): set<nat> {
    set i: nat | i < |log| && kind(log[i])
  }

  lemma PlacesPush(init: seq<Event>, last: Event, kind: Event -> bool)
    ensures |Places(init + [last], kind)| == |Places(init, kind)| + if kind(last) then 1 else 0
  {
    var before, now := Places(init, kind), Places(init + [last], kind);
    if kind(last) {
      assert now == before + {|init|};
    } else {
      assert now == before;
    }
  }

  predicate Durable(e: Event) { e.Swept? || (e.Sent? && e.ok) }

  predicate RefusedSend(e: Event) { e.Sent? && !e.ok }

  predicate PutOff(e: Event) { e.Deferred? }

  function AcceptedOf(id: DeltaId): Event -> bool {
    (e: Event) => e.Sent? && e.ok && e.id == id
  }

  /** The summary counts what was swept or accepted, what was refused and what was put off, each on its own. */
  lemma {:induction false} SummaryCounts(log: seq<Event>, id: DeltaId)
    ensures var t := Tally(log);
      && t.acknowledged == |Places(log, Durable)|
      && t.rejected == |Places(log, RefusedSend)|
      && t.deferred == |Places(log, PutOff)|
      && multiset(t.acknowledgedIds)[id] == |Places(log, AcceptedOf(id))|
  {
    if log == [] {
      assert Places(log, Durable) == Places(log, RefusedSend) == Places(log, PutOff) == {};
      assert Places(log, AcceptedOf(id)) == {};
    } else {
      var init, last := log[..|log| - 1], log[|log| - 1];
      SummaryCounts(init, id);
      assert log == init + [last];
      PlacesPush(init, last, Durable);
      PlacesPush(init, last, RefusedSend);
      PlacesPush(init, last, PutOff);
      PlacesPush(init, last, AcceptedOf(id));
    }
  }

  /** The listed acknowledgements are the accepted sends. */
  lemma AcknowledgedIff(log: seq<Event>, id: DeltaId)
    ensures id in Tally(log).acknowledgedIds <==> exists e :: e in log && e.Sent? && e.ok && e.id == id
  {
    SummaryCounts(log, id);
    var places, ids := Places(log, AcceptedOf(id)), Tally(log).acknowledgedIds;
    assert id in ids <==> multiset(ids)[id] > 0;
    if e :| e in log && e.Sent? && e.ok && e.id == id {
      var i :| 0 <= i < |log| && log[i] == e;
      assert i in places;
    } else {
      assert places == {};
    }
  }
}
