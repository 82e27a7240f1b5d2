/**
  The append-only cloud ledger, which merges deltas with an engine of its own, and the queue and the
  ledger together over any run in which a connection may commit a delta and still report failure.
 */
module CloudLedgers {
  import opened CloudQueues
  import opened CloudSync
  import opened CrdtEngines
  import opened Deltas
  import opened LexOrder
  import opened SchemaHashes
  import opened Sequences

  datatype ReceiveOutcome = Committed | AlreadyCommitted | Refused | Error {
    predicate Acked() { Committed? || AlreadyCommitted? }
  }

  /** The committed set, the ledger's own engine, and the rejection log. */
  datatype Ledger = Ledger(committed: set<DeltaId>, engine: Engine, rejections: seq<DeltaId>) {
    /** The changes the engine has merged into its document, in order. */
    function Merges(): seq<DeltaId> {
      engine.doc
    }
  }

  /** Everything the ledger held before, it still holds, in the same order. */
  ghost predicate AppendOnly(before: Ledger, after: Ledger) {
    && before.committed <= after.committed && before.rejections <= after.rejections
    && before.Merges() <= after.Merges() && before.engine.dag.nodes.Keys <= after.engine.dag.nodes.Keys
  }

  /** The ledger after one delta: a committed one is left alone, any other goes through the engine. */
  ghost function Receive(l: Ledger, delta: Delta, world: World): Ledger {
    if delta.id in l.committed then l
    else
      var after := l.(engine := l.engine.Applied(delta, world));
      match l.engine.ApplyOutcome(delta, world)
      case Merged(_) => after.(committed := l.committed + {delta.id})
      case Quarantined(_) => after.(committed := l.committed + {delta.id})
      case Rejected(_) => after.(rejections := l.rejections + [delta.id])
      case Failed => after
  }

  /**
    What one arrival does to the ledger: merged and quarantined deltas are committed, a rejected one goes to
    the rejection log, and only a delta that is not committed yet reaches the engine.
   */
  lemma ReceivedIs(l: Ledger, delta: Delta, world: World)
    ensures var l', outcome := Receive(l, delta, world), l.engine.ApplyOutcome(delta, world);
      && (delta.id in l.committed ==> l' == l)
      && (delta.id !in l.committed ==> l'.engine == l.engine.Applied(delta, world))
      && (delta.id in l'.committed <==> delta.id in l.committed || outcome.Merged? || outcome.Quarantined?)
      && (forall x :: x != delta.id ==> (x in l'.committed <==> x in l.committed))
      && l'.rejections == l.rejections +
                          (if delta.id !in l.committed && outcome.Rejected? then [delta.id] else [])
  {
  }

  class CloudLedger {
    const engine: CrdtEngine
    var committed: set<DeltaId>
    var rejections: seq<DeltaId>

    ghost function View(): Ledger
      reads this, engine, engine.dag
    {
      Ledger(committed, engine.View(), rejections)
    }

    ghost predicate Valid()
      reads this, engine, engine.dag
    {
      engine.Valid()
    }

    constructor (author: Did, hash: SchemaHash)
      ensures Valid() && fresh(engine) && fresh(engine.dag)
      ensures View().committed == {} && View().rejections == [] && View().Merges() == []
    {
      var tables := new ChangesetDags.ChangesetDag();
      engine := new CrdtEngine(author, hash, tables);
      committed, rejections := {}, [];
    }

    /** Receives one delta: a committed one is acknowledged without touching the engine. */
    method ReceiveDelta(delta: Delta, world: World) returns (outcome: ReceiveOutcome)
      requires Valid()
      modifies this, engine, engine.dag
      ensures Valid() && AppendOnly(old(View()), View())
      ensures View() == Receive(old(View()), delta, world)
      ensures outcome.Acked() <==> delta.id in committed
      ensures outcome.AlreadyCommitted? <==> delta.id in old(committed)
    {
      if delta.id in committed {
        return AlreadyCommitted;
      }
      var applied := engine.Apply(delta, world);
      match applied {
        case Merged(_) =>
          committed := committed + {delta.id};
          return Committed;
        case Quarantined(_) =>
          committed := committed + {delta.id};
          return Committed;
        case Rejected(_) =>
          rejections := rejections + [delta.id];
          return Refused;
        case Failed =>
          return Error;
      }
    }

    /** The production connection: decode the bytes, hand them to the ledger, acknowledge what is committed. */
    method SendDelta(bytes: Bytes, decode: Bytes -> Option<Delta>, world: World) returns (ok: bool)
      requires Valid()
      modifies this, engine, engine.dag
      ensures Valid() && AppendOnly(old(View()), View())
      ensures View() == if decode(bytes).Some? then Receive(old(View()), decode(bytes).value, world) else old(View())
      ensures ok <==> decode(bytes).Some? && decode(bytes).value.id in committed
    {
      var delta := decode(bytes);
      if delta.None? {
        return false;
      }
      var outcome := ReceiveDelta(delta.value, world);
      return outcome.Acked();
    }
  }

  // ---------------------------------------------------------------------------
  // How often a ledger merges one delta

  /** One delta received, and what the document library and the store did then. */
  datatype Arrival = Arrival(delta: Delta, world: World)

  ghost function After(l: Ledger, arrivals: seq<Arrival>): Ledger {
    if arrivals == [] then l
    else
      var last := arrivals[|arrivals| - 1];
      Receive(After(l, arrivals[..|arrivals| - 1]), last.delta, last.world)
  }

  /** The arrival puts `id` into the ledger's document. */
  ghost predicate Merges(l: Ledger, a: Arrival, id: DeltaId) {
    a.delta.id == id && id !in l.committed && a.delta.payload == Changeset && PastMerge(l.engine, a.delta, a.world)
  }

  /** The arrival merges `id`, and then the store write fails: the answer is an error, nothing is committed. */
  ghost predicate FailsAfterMerge(l: Ledger, a: Arrival, id: DeltaId) {
    Merges(l, a, id) && !a.world.storeWorks
  }

  ghost predicate Commits(l: Ledger, a: Arrival, id: DeltaId) {
    id !in l.committed && id in Receive(l, a.delta, a.world).committed
  }

  lemma ReceiveGrows(l: Ledger, a: Arrival)
    ensures AppendOnly(l, Receive(l, a.delta, a.world))
  {
  }

  lemma {:induction false} LedgerGrows(l: Ledger, arrivals: seq<Arrival>, i: nat)
    requires i <= |arrivals|
    ensures AppendOnly(After(l, arrivals[..i]), After(l, arrivals))
  {
    if i < |arrivals| {
      var init := arrivals[..|arrivals| - 1];
      LedgerGrows(l, init, i);
      assert init[..i] == arrivals[..i];
      ReceiveGrows(After(l, init), arrivals[|arrivals| - 1]);
    } else {
      assert arrivals[..i] == arrivals;
    }
  }

  /** Each delta is committed at most once. */
  lemma CommittedOnce(l: Ledger, arrivals: seq<Arrival>, i: nat, j: nat, id: DeltaId)
    requires i < j < |arrivals| && Commits(After(l, arrivals[..i]), arrivals[i], id)
    ensures !Commits(After(l, arrivals[..j]), arrivals[j], id)
  {
    assert arrivals[..i + 1][..i] == arrivals[..i];
    LedgerGrows(l, arrivals[..j], i + 1);
    assert arrivals[..j][..i + 1] == arrivals[..i + 1];
  }

  /** The effect of one arrival on one id. */
  lemma ReceiveEffect(l: Ledger, a: Arrival, id: DeltaId)
    ensures var l' := Receive(l, a.delta, a.world);
      && multiset(l'.Merges())[id] == multiset(l.Merges())[id] + (if Merges(l, a, id) then 1 else 0)
      && (Merges(l, a, id) && a.world.storeWorks ==> id in l'.committed)
      && (id in l.committed ==> id in l'.committed)
  {
  }

  ghost predicate MergedIn(l: Ledger, arrivals: seq<Arrival>, id: DeltaId) {
    exists i :: 0 <= i < |arrivals| && Merges(After(l, arrivals[..i]), arrivals[i], id)
  }

  /** An arrival of `id` failed after its merge, and a later one merged it again. */
  ghost predicate MergedAgain(l: Ledger, arrivals: seq<Arrival>, id: DeltaId) {
    exists i, j :: 0 <= i < j < |arrivals|
      && FailsAfterMerge(After(l, arrivals[..i]), arrivals[i], id) && Merges(After(l, arrivals[..j]), arrivals[j], id)
  }

  /** Every merge of `id` so far was followed by a failing write. */
  ghost predicate AllFailed(l: Ledger, arrivals: seq<Arrival>, id: DeltaId) {
    forall i :: 0 <= i < |arrivals| && Merges(After(l, arrivals[..i]), arrivals[i], id) ==>
        !arrivals[i].world.storeWorks
  }

  lemma SameBefore(l: Ledger, init: seq<Arrival>, a: Arrival, id: DeltaId)
    ensures (init + [a])[..|init|] == init && (init + [a])[|init|] == a
    ensures forall i :: 0 <= i < |init| ==> (init + [a])[..i] == init[..i] && (init + [a])[i] == init[i]
  {
  }

  lemma MergedInPush(l: Ledger, init: seq<Arrival>, a: Arrival, id: DeltaId)
    ensures MergedIn(l, init + [a], id) <==> MergedIn(l, init, id) || Merges(After(l, init), a, id)
    ensures AllFailed(l, init + [a], id) <==>
            AllFailed(l, init, id) && (Merges(After(l, init), a, id) ==> !a.world.storeWorks)
  {
    var all := init + [a];
    SameBefore(l, init, a, id);
    forall i | 0 <= i < |init|
      ensures Merges(After(l, all[..i]), all[i], id) == Merges(After(l, init[..i]), init[i], id)
    {
    }
    if Merges(After(l, init), a, id) {
      assert Merges(After(l, all[..|init|]), all[|init|], id);
    }
  }

  lemma MergedAgainGrows(l: Ledger, init: seq<Arrival>, a: Arrival, id: DeltaId)
    requires AllFailed(l, init, id) || !Merges(After(l, init), a, id)
    requires MergedAgain(l, init, id) || (MergedIn(l, init, id) && Merges(After(l, init), a, id))
    ensures MergedAgain(l, init + [a], id)
  {
    var all := init + [a];
    SameBefore(l, init, a, id);
    if MergedAgain(l, init, id) {
      var i, j :| 0 <= i < j < |init| && FailsAfterMerge(After(l, init[..i]), init[i], id) &&
          Merges(After(l, init[..j]), init[j], id);
      assert FailsAfterMerge(After(l, all[..i]), all[i], id) && Merges(After(l, all[..j]), all[j], id);
    } else {
      var i :| 0 <= i < |init| && Merges(After(l, init[..i]), init[i], id);
      assert FailsAfterMerge(After(l, all[..i]), all[i], id) && Merges(After(l, all[..|init|]), all[|init|], id);
    }
  }

  lemma MergedAgainPush(l: Ledger, init: seq<Arrival>, a: Arrival, id: DeltaId)
    requires AllFailed(l, init, id) || !Merges(After(l, init), a, id)
    ensures MergedAgain(l, init + [a], id) <==>
            MergedAgain(l, init, id) || (MergedIn(l, init, id) && Merges(After(l, init), a, id))
  {
    var all := init + [a];
    SameBefore(l, init, a, id);
    if MergedAgain(l, init, id) || (MergedIn(l, init, id) && Merges(After(l, init), a, id)) {
      MergedAgainGrows(l, init, a, id);
    }
    if MergedAgain(l, all, id) {
      var i, j :| 0 <= i < j < |all| && FailsAfterMerge(After(l, all[..i]), all[i], id) &&
          Merges(After(l, all[..j]), all[j], id);
      assert Merges(After(l, init[..i]), init[i], id);
      if j < |init| {
        assert FailsAfterMerge(After(l, init[..i]), init[i], id) && Merges(After(l, init[..j]), init[j], id);
      }
    }
  }

  lemma {:induction false} MergeCounts(l: Ledger, arrivals: seq<Arrival>, id: DeltaId)
    requires id !in l.Merges()
    ensures var n := multiset(After(l, arrivals).Merges())[id];
      && (n > 0 <==> MergedIn(l, arrivals, id)) && (n > 1 <==> MergedAgain(l, arrivals, id))
      && (id in After(l, arrivals).committed || AllFailed(l, arrivals, id))
  {
    if arrivals != [] {
      var init, a := arrivals[..|arrivals| - 1], arrivals[|arrivals| - 1];
      assert arrivals == init + [a];
      MergeCounts(l, init, id);
      ReceiveEffect(After(l, init), a, id);
      MergedInPush(l, init, a, id);
      MergedAgainPush(l, init, a, id);
    } else {
      assert id !in multiset(l.Merges());
    }
  }

  /**
    The ledger merges a delta more than once if and only if an arrival of it failed at the store
    write, after its merge, and a later arrival was merged again.
   */
  lemma MergedTwiceIff(l: Ledger, arrivals: seq<Arrival>, id: DeltaId)
    requires id !in l.Merges()
    ensures multiset(After(l, arrivals).Merges())[id] > 1 <==> MergedAgain(l, arrivals, id)
  {
    MergeCounts(l, arrivals, id);
  }

  /** One delta sent twice over a store whose first write fails. */
  lemma FailingWriteMergesTwice(author: Did, hash: SchemaHash, id: DeltaId)
    ensures var delta := Delta(id, author, true, Genuine, hash, Changeset, [], 1);
      var l := Ledger({}, Engine(0, hash, {hash}, map[], {}, [], [], ChangesetDags.Dag(map[], {})), []);
      var l' := After(l, [Arrival(delta, World(true, false)), Arrival(delta, World(true, true))]);
      l.engine.Valid() && l'.Merges() == [id, id] && l'.committed == {id}
  {
    var delta := Delta(id, author, true, Genuine, hash, Changeset, [], 1);
    var first, second := Arrival(delta, World(true, false)), Arrival(delta, World(true, true));
    var l := Ledger({}, Engine(0, hash, {hash}, map[], {}, [], [], ChangesetDags.Dag(map[], {})), []);
    assert [first, second][..1] == [first] && [first][..0] == [];
    assert After(l, [first]) == Receive(l, delta, World(true, false));
    assert Receive(l, delta, World(true, false)).Merges() == [id];
    assert After(l, [first, second]) == Receive(After(l, [first]), delta, World(true, true));
  }

  // ---------------------------------------------------------------------------
  // The queue and the ledger together

  /** The deltas that the sends of a log hand to the ledger, whatever the sender was told. */
  function ArrivalsOf(log: seq<Event>, decode: Bytes -> Option<Delta>, worlds: nat -> World): seq<Arrival> {
    if log == [] then []
    else
      var before, last := ArrivalsOf(log[..|log| - 1], decode, worlds), log[|log| - 1];
      if last.Sent? && decode(last.bytes).Some? then before + [Arrival(decode(last.bytes).value, worlds(|log| - 1))]
      else before
  }

  /** The ledger after the sends of a log. */
  ghost function LedgerAfter(l: Ledger, log: seq<Event>, decode: Bytes -> Option<Delta>, worlds: nat -> World): Ledger {
    After(l, ArrivalsOf(log, decode, worlds))
  }

  /** A positive answer is never a lie: the ledger holds the delta by then.  A negative one may be. */
  ghost predicate HonestAcks(l: Ledger, log: seq<Event>, decode: Bytes -> Option<Delta>, worlds: nat -> World) {
    forall i :: 0 <= i < |log| && log[i].Sent? && log[i].ok ==>
      decode(log[i].bytes).Some? &&
          decode(log[i].bytes).value.id in LedgerAfter(l, log[..i + 1], decode, worlds).committed
  }

  /** Every send carries bytes that decode to the id it is sent under. */
  ghost predicate OwnBytes(log: seq<Event>, decode: Bytes -> Option<Delta>) {
    forall i :: 0 <= i < |log| && log[i].Sent? ==>
        decode(log[i].bytes).Some? && decode(log[i].bytes).value.id == log[i].id
  }

  lemma LedgerPush(l: Ledger, log: seq<Event>, event: Event, decode: Bytes -> Option<Delta>, worlds: nat -> World)
    ensures LedgerAfter(l, log + [event], decode, worlds) ==
      if event.Sent? && decode(event.bytes).Some?
      then Receive(LedgerAfter(l, log, decode, worlds), decode(event.bytes).value, worlds(|log|))
      else LedgerAfter(l, log, decode, worlds)
  {
    var more := log + [event];
    assert more[..|more| - 1] == log;
    if event.Sent? && decode(event.bytes).Some? {
      var before, a := ArrivalsOf(log, decode, worlds), Arrival(decode(event.bytes).value, worlds(|log|));
      assert (before + [a])[..|before|] == before;
    }
  }

  /** The bytes decode to a delta that the ledger holds. */
  ghost predicate Holds(l: Ledger, bytes: Bytes, decode: Bytes -> Option<Delta>) {
    decode(bytes).Some? && decode(bytes).value.id in l.committed
  }

  /** A send is acknowledged exactly when its reply is heard and the ledger then holds the delta. */
  ghost predicate HeardAcks(l: Ledger, log: seq<Event>, decode: Bytes -> Option<Delta>, worlds: nat -> World,
                            heard: nat -> bool)
  {
    forall i :: 0 <= i < |log| && log[i].Sent? ==>
        (log[i].ok <==> heard(i) && Holds(LedgerAfter(l, log[..i + 1], decode, worlds), log[i].bytes, decode))
  }

  lemma HeardPush(l: Ledger, log: seq<Event>, event: Event, decode: Bytes -> Option<Delta>, worlds: nat -> World,
                  heard: nat -> bool)
    requires HeardAcks(l, log, decode, worlds, heard)
    requires event.Sent? ==>
      (event.ok <==> heard(|log|) && Holds(LedgerAfter(l, log + [event], decode, worlds), event.bytes, decode))
    ensures HeardAcks(l, log + [event], decode, worlds, heard)
  {
    var more := log + [event];
    forall i | 0 <= i < |more| && more[i].Sent?
      ensures more[i].ok <==>
              heard(i) && Holds(LedgerAfter(l, more[..i + 1], decode, worlds), more[i].bytes, decode)
    {
      if i < |log| {
        assert more[..i + 1] == log[..i + 1];
      } else {
        assert more[..i + 1] == more;
      }
    }
  }

  lemma HeardIsHonest(l: Ledger, log: seq<Event>, decode: Bytes -> Option<Delta>, worlds: nat -> World,
                      heard: nat -> bool)
    requires HeardAcks(l, log, decode, worlds, heard)
    ensures HonestAcks(l, log, decode, worlds)
  {
    forall i | 0 <= i < |log| && log[i].Sent? && log[i].ok
      ensures decode(log[i].bytes).Some? &&
              decode(log[i].bytes).value.id in LedgerAfter(l, log[..i + 1], decode, worlds).committed
    {
      assert Holds(LedgerAfter(l, log[..i + 1], decode, worlds), log[i].bytes, decode);
    }
  }

  lemma TurnAgrees(q: seq<QueueEntry>, id: DeltaId, a: Answers, b: Answers, refetch: Refetch, was: seq<Event>)
    requires forall n: nat, x, bytes :: n < |Logged(q, id, a, refetch, was)| ==> a(n, x, bytes) == b(n, x, bytes)
    ensures Logged(q, id, a, refetch, was) == Logged(q, id, b, refetch, was)
  {
  }

  /** A log does not depend on answers that were never given. */
  lemma {:induction false} LogAgrees(q: seq<QueueEntry>, ids: seq<DeltaId>, a: Answers, b: Answers, refetch: Refetch,
                                     log: seq<Event>)
    requires log == LogOf(q, ids, a, refetch)
    requires forall n: nat, id, bytes :: n < |log| ==> a(n, id, bytes) == b(n, id, bytes)
    ensures LogOf(q, ids, b, refetch) == log
  {
    if ids != [] {
      var was := LogOf(q, ids[..|ids| - 1], a, refetch);
      LogAgrees(q, ids[..|ids| - 1], a, b, refetch, was);
      TurnAgrees(Without(q, Removed(was)), ids[|ids| - 1], a, b, refetch, was);
    }
  }

  /** Hands the bytes of an entry, if it has any to send, to the ledger; the reply may get lost. */
  method Deliver(ledger: CloudLedger, entry: QueueEntry, n: nat, decode: Bytes -> Option<Delta>, world: World,
                 heard: bool, refetch: Refetch)
    returns (ok: bool)
    requires ledger.Valid()
    modifies ledger, ledger.engine, ledger.engine.dag
    ensures ledger.Valid()
    ensures var event := EventOf(entry, n, (_, _, _) => ok, refetch);
      && ledger.View() == Delivered(old(ledger.View()), event, decode, world)
      && (event.Sent? ==> (event.ok <==> heard && Holds(ledger.View(), event.bytes, decode)))
  {
    ok := false;
    if !entry.tier2 {
      var bytes := BytesOf(entry, n, refetch);
      if bytes.Some? {
        var sent := ledger.SendDelta(bytes.value, decode, world);
        ok := sent && heard;
      }
    }
  }

  ghost function Delivered(l: Ledger, event: Event, decode: Bytes -> Option<Delta>, world: World): Ledger {
    if event.Sent? && decode(event.bytes).Some? then Receive(l, decode(event.bytes).value, world) else l
  }

  /** The answers given so far, and the next one. */
  function Extended(answers: Answers, n: nat, ok: bool): Answers {
    (m: nat, id, bytes) => if m < n then answers(m, id, bytes) else ok
  }

  lemma ExtendedTurn(q: seq<QueueEntry>, ids: seq<DeltaId>, answers: Answers, refetch: Refetch, ok: bool,
                     was: seq<Event>)
    requires ids != [] && was == LogOf(q, ids[..|ids| - 1], answers, refetch)
    ensures LogOf(q, ids, Extended(answers, |was|, ok), refetch) ==
            Logged(Without(q, Removed(was)), ids[|ids| - 1], (_, _, _) => ok, refetch, was)
  {
    LogAgrees(q, ids[..|ids| - 1], answers, Extended(answers, |was|, ok), refetch, was);
    ExtendedAgrees(Without(q, Removed(was)), ids[|ids| - 1], answers, refetch, ok, was);
  }

  lemma ExtendedAgrees(q: seq<QueueEntry>, id: DeltaId, answers: Answers, refetch: Refetch, ok: bool, was: seq<Event>)
    ensures Logged(q, id, Extended(answers, |was|, ok), refetch, was) == Logged(q, id, (_, _, _) => ok, refetch, was)
  {
  }

  /** The ledger has taken in the sends of the log, and acknowledged what it holds as far as it was heard. */
  ghost predicate InStep(before: Ledger, ledger: Ledger, log: seq<Event>, decode: Bytes -> Option<Delta>,
                         worlds: nat -> World, heard: nat -> bool)
  {
    ledger == LedgerAfter(before, log, decode, worlds) && HeardAcks(before, log, decode, worlds, heard)
  }

  lemma InStepPush(before: Ledger, ledger: Ledger, log: seq<Event>, event: Event, decode: Bytes -> Option<Delta>,
                   worlds: nat -> World, heard: nat -> bool)
    requires InStep(before, ledger, log, decode, worlds, heard)
    requires event.Sent? ==>
      (event.ok <==> heard(|log|) && Holds(Delivered(ledger, event, decode, worlds(|log|)), event.bytes, decode))
    ensures InStep(before, Delivered(ledger, event, decode, worlds(|log|)), log + [event], decode, worlds, heard)
  {
    LedgerPush(before, log, event, decode, worlds);
    HeardPush(before, log, event, decode, worlds, heard);
  }

  /** The turn of one id over the production connection. */
  method DeliverOne(q: CloudOutboundQueue, ledger: CloudLedger, id: DeltaId, decode: Bytes -> Option<Delta>,
                    worlds: nat -> World, heard: nat -> bool, refetch: Refetch,
                    ghost queued: seq<QueueEntry>, ghost before: Ledger, soFar: SyncResult, was: seq<Event>)
    returns (result: SyncResult, log: seq<Event>, ghost ok: bool)
    requires ledger.Valid() && InStep(before, ledger.View(), was, decode, worlds, heard)
    requires soFar == Tally(was) && q.queue == Without(queued, Removed(was))
    modifies q, ledger, ledger.engine, ledger.engine.dag
    ensures ledger.Valid() && InStep(before, ledger.View(), log, decode, worlds, heard)
    ensures result == Tally(log) && q.queue == Without(queued, Removed(log))
    ensures log == Logged(Without(queued, Removed(was)), id, (_, _, _) => ok, refetch, was)
  {
    var found := Find(q.queue, id);
    var answer := false;
    ghost var l := ledger.View();
    if found.Some? {
      answer := Deliver(ledger, found.value, |was|, decode, worlds(|was|), heard(|was|), refetch);
      InStepPush(before, l, was, EventOf(found.value, |was|, (_, _, _) => answer, refetch), decode, worlds, heard);
    }
    ok := answer;
    result, log := AttemptOne(q, id, (_, _, _) => answer, refetch, queued, soFar, was);
  }

  method DeliverAll(q: CloudOutboundQueue, ledger: CloudLedger, ids: seq<DeltaId>, decode: Bytes -> Option<Delta>,
                    worlds: nat -> World, heard: nat -> bool, refetch: Refetch)
    returns (result: SyncResult, log: seq<Event>, ghost answers: Answers)
    requires ledger.Valid()
    modifies q, ledger, ledger.engine, ledger.engine.dag
    ensures ledger.Valid() && InStep(old(ledger.View()), ledger.View(), log, decode, worlds, heard)
    ensures log == LogOf(old(q.queue), ids, answers, refetch)
    ensures result == Tally(log) && q.queue == Without(old(q.queue), Removed(log))
  {
    ghost var before, queued := ledger.View(), q.queue;
    result, log := SyncResult(0, 0, 0, []), [];
    answers := (_, _, _) => false;
    WithoutNone(queued);
    assert Removed([]) == {};
    for i := 0 to |ids|
      invariant ledger.Valid() && InStep(before, ledger.View(), log, decode, worlds, heard)
      invariant log == LogOf(queued, ids[..i], answers, refetch)
      invariant result == Tally(log) && q.queue == Without(queued, Removed(log))
    {
      ghost var was, ok := log, false;
      result, log, ok := DeliverOne(q, ledger, ids[i], decode, worlds, heard, refetch, queued, before, result, log);
      NextTurn(queued, ids, i, answers, refetch, ok, was);
      answers := Extended(answers, |was|, ok);
    }
    assert ids[..|ids|] == ids;
  }

  lemma NextTurn(q: seq<QueueEntry>, ids: seq<DeltaId>, i: nat, answers: Answers, refetch: Refetch, ok: bool,
                 was: seq<Event>)
    requires i < |ids| && was == LogOf(q, ids[..i], answers, refetch)
    ensures LogOf(q, ids[..i + 1], Extended(answers, |was|, ok), refetch) ==
            Logged(Without(q, Removed(was)), ids[i], (_, _, _) => ok, refetch, was)
  {
    assert ids[..i + 1][..i] == ids[..i];
    ExtendedTurn(q, ids[..i + 1], answers, refetch, ok, was);
  }

  /** The sync cycle over the production connection is a cycle of the queue with honest answers. */
  method SyncToLedger(q: CloudOutboundQueue, ledger: CloudLedger, decode: Bytes -> Option<Delta>, worlds: nat -> World,
                      heard: nat -> bool, refetch: Refetch)
    returns (result: SyncResult, log: seq<Event>, ghost answers: Answers)
    requires ledger.Valid()
    modifies q, ledger, ledger.engine, ledger.engine.dag
    ensures ledger.Valid() && InStep(old(ledger.View()), ledger.View(), log, decode, worlds, heard)
    ensures HonestAcks(old(ledger.View()), log, decode, worlds)
    ensures log == CycleLog(old(q.queue), answers, refetch)
    ensures result == Tally(log) && q.queue == Without(old(q.queue), Removed(log))
  {
    var ids := q.TopologicalSortQueue();
    ghost var before := ledger.View();
    result, log, answers := DeliverAll(q, ledger, ids, decode, worlds, heard, refetch);
    HeardIsHonest(before, log, decode, worlds, heard);
  }

  // ---------------------------------------------------------------------------
  // Every run

  /** The queue, the ledger, the ids whose enqueueing was accepted, and the deltas handed to the ledger. */
  datatype System = System(queue: seq<QueueEntry>, ledger: Ledger, enqueued: set<DeltaId>, arrivals: seq<Arrival>)

  /** Any entry is enqueued, also one whose id is queued or was enqueued before; a full queue refuses it. */
  ghost predicate Enqueues(s: System, s': System, entry: QueueEntry) {
    && !entry.tier2
    && s' == if |s.queue| >= MAX_QUEUE_DEPTH then s
             else s.(queue := s.queue + [entry], enqueued := s.enqueued + {entry.id})
  }

  ghost predicate Cycles(s: System, s': System, answers: Answers, refetch: Refetch, decode: Bytes -> Option<Delta>,
                         worlds: nat -> World)
  {
    var log := CycleLog(s.queue, answers, refetch);
    && OwnBytes(log, decode) && HonestAcks(s.ledger, log, decode, worlds)
    && s' == System(Without(s.queue, Removed(log)), LedgerAfter(s.ledger, log, decode, worlds), s.enqueued,
                    s.arrivals + ArrivalsOf(log, decode, worlds))
  }

  ghost predicate Maintains(s: System, s': System, id: DeltaId, holder: Did) {
    || s' == s.(queue := UpdateFirst(s.queue, id, Pruned))
    || s' == s.(queue := UpdateFirst(s.queue, id, e => Held(e, holder)))
  }

  ghost predicate Step(s: System, s': System, decode: Bytes -> Option<Delta>) {
    || (exists entry :: Enqueues(s, s', entry))
    || (exists answers, refetch, worlds :: Cycles(s, s', answers, refetch, decode, worlds))
    || (exists id, holder :: Maintains(s, s', id, holder))
  }

  /** A run starts with an empty queue and a ledger that has received nothing. */
  ghost predicate IsRun(run: seq<System>, decode: Bytes -> Option<Delta>) {
    && run != [] && run[0].queue == [] && run[0].enqueued == {} && run[0].arrivals == []
    && run[0].ledger.committed == {} && run[0].ledger.Merges() == []
    && forall i :: 0 <= i < |run| - 1 ==> Step(run[i], run[i + 1], decode)
  }

  /** Nothing enqueued is lost: it waits in the queue or the ledger has committed it. */
  ghost predicate Inv(s: System, first: Ledger) {
    && s.ledger == After(first, s.arrivals)
    && (forall e :: e in s.queue ==> !e.tier2)
    && (forall id :: id in s.enqueued ==> id in Ids(s.queue) || id in s.ledger.committed)
  }

  lemma {:induction false} AfterAppend(l: Ledger, a: seq<Arrival>, b: seq<Arrival>)
    ensures After(After(l, a), b) == After(l, a + b)
  {
    if b == [] {
      assert a + b == a;
    } else {
      AfterAppend(l, a, b[..|b| - 1]);
      assert (a + b)[..|a + b| - 1] == a + b[..|b| - 1];
    }
  }

  lemma {:induction false} ArrivalsPrefix(log: seq<Event>, i: nat, decode: Bytes -> Option<Delta>, worlds: nat -> World)
    requires i <= |log|
    ensures ArrivalsOf(log[..i], decode, worlds) <= ArrivalsOf(log, decode, worlds)
  {
    if i < |log| {
      ArrivalsPrefix(log[..|log| - 1], i, decode, worlds);
      assert log[..|log| - 1][..i] == log[..i];
    } else {
      assert log[..i] == log;
    }
  }

  lemma LedgerKeepsPrefix(l: Ledger, log: seq<Event>, i: nat, decode: Bytes -> Option<Delta>, worlds: nat -> World)
    requires i <= |log|
    ensures LedgerAfter(l, log[..i], decode, worlds).committed <= LedgerAfter(l, log, decode, worlds).committed
  {
    var all, some := ArrivalsOf(log, decode, worlds), ArrivalsOf(log[..i], decode, worlds);
    ArrivalsPrefix(log, i, decode, worlds);
    assert all[..|some|] == some;
    LedgerGrows(l, all, |some|);
  }

  /** Whatever a cycle takes out of the queue is in the ledger when the cycle ends. */
  lemma RemovedIsCommitted(queue: seq<QueueEntry>, l: Ledger, answers: Answers, refetch: Refetch, log: seq<Event>,
                           decode: Bytes -> Option<Delta>, worlds: nat -> World, id: DeltaId)
    requires forall e :: e in queue ==> !e.tier2
    requires Explains(queue, answers, refetch, log)
    requires OwnBytes(log, decode) && HonestAcks(l, log, decode, worlds)
    requires id in Removed(log)
    ensures id in LedgerAfter(l, log, decode, worlds).committed
  {
    var e :| e in log && e.Removes() && e.id == id;
    var i :| 0 <= i < |log| && log[i] == e;
    assert Find(queue, log[i].id).value in queue;
    assert log[i].Sent? && log[i].ok;
    LedgerKeepsPrefix(l, log, i + 1, decode, worlds);
  }

  lemma CycleKeepsInv(s: System, s': System, answers: Answers, refetch: Refetch, decode: Bytes -> Option<Delta>,
                      worlds: nat -> World, first: Ledger)
    requires Inv(s, first) && Cycles(s, s', answers, refetch, decode, worlds)
    ensures Inv(s', first)
  {
    var log := CycleLog(s.queue, answers, refetch);
    LogOfHolds(s.queue, SendOrder(s.queue), answers, refetch, log);
    AfterAppend(first, s.arrivals, ArrivalsOf(log, decode, worlds));
    forall id | id in s'.enqueued ensures id in Ids(s'.queue) || id in s'.ledger.committed {
      StillSomewhere(s, log, answers, refetch, decode, worlds, id);
    }
  }

  lemma StillSomewhere(s: System, log: seq<Event>, answers: Answers, refetch: Refetch, decode: Bytes -> Option<Delta>,
                       worlds: nat -> World, id: DeltaId)
    requires forall e :: e in s.queue ==> !e.tier2
    requires Explains(s.queue, answers, refetch, log)
    requires OwnBytes(log, decode) && HonestAcks(s.ledger, log, decode, worlds)
    requires id in Ids(s.queue) || id in s.ledger.committed
    ensures id in Ids(Without(s.queue, Removed(log))) || id in LedgerAfter(s.ledger, log, decode, worlds).committed
  {
    assert log[..0] == [];
    LedgerKeepsPrefix(s.ledger, log, 0, decode, worlds);
    if id in Removed(log) {
      RemovedIsCommitted(s.queue, s.ledger, answers, refetch, log, decode, worlds, id);
    } else {
      WithoutIds(s.queue, Removed(log), id);
    }
  }

  lemma EnqueueKeepsInv(s: System, s': System, entry: QueueEntry, first: Ledger)
    requires Inv(s, first) && Enqueues(s, s', entry)
    ensures Inv(s', first)
  {
    if s' != s {
      assert Ids(s'.queue) == Ids(s.queue) + [entry.id];
    }
  }

  lemma MaintainKeepsInv(s: System, s': System, id: DeltaId, holder: Did, first: Ledger)
    requires Inv(s, first) && Maintains(s, s', id, holder)
    ensures Inv(s', first)
  {
    UpdateKeeps(s.queue, id, Pruned);
    UpdateKeeps(s.queue, id, e => Held(e, holder));
  }

  lemma StepKeepsInv(s: System, s': System, decode: Bytes -> Option<Delta>, first: Ledger)
    requires Inv(s, first) && Step(s, s', decode)
    ensures Inv(s', first) && s.enqueued <= s'.enqueued && s.arrivals <= s'.arrivals
  {
    if entry :| Enqueues(s, s', entry) {
      EnqueueKeepsInv(s, s', entry, first);
    } else if answers, refetch, worlds :| Cycles(s, s', answers, refetch, decode, worlds) {
      CycleKeepsInv(s, s', answers, refetch, decode, worlds, first);
    } else {
      var id, holder :| Maintains(s, s', id, holder);
      MaintainKeepsInv(s, s', id, holder, first);
    }
  }

  lemma {:induction false} RunKeepsInv(run: seq<System>, decode: Bytes -> Option<Delta>, i: nat)
    requires IsRun(run, decode) && i < |run|
    ensures var last := run[|run| - 1];
      Inv(last, run[0].ledger) && run[i].enqueued <= last.enqueued && run[i].arrivals <= last.arrivals
    decreases |run|
  {
    if |run| > 1 {
      var init := run[..|run| - 1];
      RunKeepsInv(init, decode, if i < |init| then i else 0);
      StepKeepsInv(init[|init| - 1], run[|run| - 1], decode, run[0].ledger);
    }
  }

  /**
    Over every run, with ids enqueued again and replies lost: nothing enqueued is lost, the ledger
    only grows, and a delta is merged twice exactly when an arrival of it failed after its merge and
    a later one was merged again.
   */
  lemma NothingLost(run: seq<System>, decode: Bytes -> Option<Delta>, i: nat, id: DeltaId)
    requires IsRun(run, decode) && i < |run|
    ensures var last, first := run[|run| - 1], run[0].ledger;
      && run[i].enqueued <= last.enqueued && AppendOnly(run[i].ledger, last.ledger)
      && (id in last.enqueued ==> id in Ids(last.queue) || id in last.ledger.committed)
      && last.ledger == After(first, last.arrivals)
      && (multiset(last.ledger.Merges())[id] > 1 <==> MergedAgain(first, last.arrivals, id))
  {
    var last, first := run[|run| - 1], run[0].ledger;
    RunKeepsInv(run, decode, i);
    RunKeepsInv(run[..i + 1], decode, 0);
    var n := |run[i].arrivals|;
    assert last.arrivals[..n] == run[i].arrivals;
    LedgerGrows(first, last.arrivals, n);
    MergedTwiceIff(first, last.arrivals, id);
  }
}
