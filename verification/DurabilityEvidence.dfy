/**
  What counts for a delta: which receipts its tracker holds, and when a delta that was registered again
  can be announced again.
 */
module DurabilityEvidence {
  import opened CloudQueues
  import opened CloudSync
  import opened Deltas
  import opened Durabilities
  import opened DurabilityRuns
  import opened Quorum
  import opened Sequences
  import opened Spatial

  // ---------------------------------------------------------------------------
  // Counted issuers

  /** The key on file for a peer and a delta: the last one learned since the delta's last registration, or its own. */
  function KeyInForce(ops: seq<Op>, id: DeltaId, peer: Did): Option<Key> {
    if ops == [] then None
    else
      var init, op := ops[..|ops| - 1], ops[|ops| - 1];
      if op.Register? && op.id == id then (if peer in op.keys then Some(op.keys[peer]) else None)
      else if op.LearnKey? && op.id == id && op.peer == peer && LastRegistration(init, id).Some? then Some(op.key)
      else KeyInForce(init, id, peer)
  }

  /** What is on file for a delta follows its last registration. */
  ghost predicate OnFile(d: Durability, ops: seq<Op>, id: DeltaId, peer: Did) {
    var r := LastRegistration(ops, id);
    && (id in d.states <==> r.Some?)
    && (id in d.states ==>
          && d.states[id].stateHash == ops[r.value].stateHash
          && KeyInForce(ops, id, peer) ==
             if peer in d.states[id].keys then Some(d.states[id].keys[peer]) else None)
  }

  lemma NextTracks(d: Durability, op: Op, id: DeltaId, peer: Did)
    ensures id in Next(d, op).states <==> id in d.states || (op.Register? && op.id == id)
    ensures op.Register? && op.id == id ==>
      var state := Next(d, op).states[id];
      peer !in state.quorum.seen && state.keys == op.keys && state.stateHash == op.stateHash
  {
    match op {
      case Cycle(answers, refetch) =>
        var log := CycleLog(d.queue, answers, refetch);
        AckedAllStates(d.(queue := Without(d.queue, Removed(log))), Tally(log).acknowledgedIds);
      case _ =>
    }
  }

  /** Only learning a key for the delta changes what is on file, until it is registered again. */
  lemma NextKeys(d: Durability, op: Op, id: DeltaId)
    requires id in d.states && !(op.Register? && op.id == id)
    ensures id in Next(d, op).states && Next(d, op).states[id].stateHash == d.states[id].stateHash
    ensures Next(d, op).states[id].keys ==
            if op.LearnKey? && op.id == id then d.states[id].keys[op.peer := op.key] else d.states[id].keys
  {
    match op {
      case Cycle(answers, refetch) =>
        var log := CycleLog(d.queue, answers, refetch);
        AckedAllStates(d.(queue := Without(d.queue, Removed(log))), Tally(log).acknowledgedIds);
      case _ =>
    }
  }

  lemma FilePush(init: seq<Op>, op: Op, id: DeltaId, peer: Did)
    ensures var ops, registers := init + [op], op.Register? && op.id == id;
      && LastRegistration(ops, id) == (if registers then Some(|init|) else LastRegistration(init, id))
      && KeyInForce(ops, id, peer) ==
         if registers then (if peer in op.keys then Some(op.keys[peer]) else None)
         else if op.LearnKey? && op.id == id && op.peer == peer && LastRegistration(init, id).Some? then Some(op.key)
         else KeyInForce(init, id, peer)
  {
    assert (init + [op])[..|init|] == init;
  }

  lemma StepOnFile(d: Durability, init: seq<Op>, op: Op, id: DeltaId, peer: Did)
    requires OnFile(d, init, id, peer)
    ensures OnFile(Next(d, op), init + [op], id, peer)
  {
    FilePush(init, op, id, peer);
    NextTracks(d, op, id, peer);
    if id in d.states && !(op.Register? && op.id == id) {
      NextKeys(d, op, id);
      assert (init + [op])[LastRegistration(init, id).value] == init[LastRegistration(init, id).value];
    }
  }

  lemma {:induction false} RunOnFile(config: QuorumConfig, anchor: AnchorMode, ops: seq<Op>, id: DeltaId, peer: Did)
    ensures OnFile(Run(Start(config, anchor), ops), ops, id, peer)
  {
    if ops != [] {
      var init := ops[..|ops| - 1];
      RunOnFile(config, anchor, init, id, peer);
      StepOnFile(Run(Start(config, anchor), init), init, ops[|ops| - 1], id, peer);
      assert ops == init + [ops[|ops| - 1]];
    }
  }

  /** Operation `i` is a receipt of the peer for the delta that the state before it admits. */
  ghost predicate AdmittedAt(start: Durability, ops: seq<Op>, i: nat, id: DeltaId, peer: Did) {
    && i < |ops| && ops[i].Receive? && ops[i].id == id && ops[i].receipt.receipt.issuer == peer
    && Run(start, ops[..i]).Admits(ops[i].receipt, id)
  }

  /** Since the last registration of the delta, a receipt of the peer was admitted. */
  ghost predicate AdmittedSince(start: Durability, ops: seq<Op>, id: DeltaId, peer: Did) {
    var r := LastRegistration(ops, id);
    r.Some? && exists i: nat :: r.value < i && AdmittedAt(start, ops, i, id, peer)
  }

  /** The operation is a receipt of the peer for the delta that the state admits. */
  ghost predicate AdmitsOf(d: Durability, op: Op, id: DeltaId, peer: Did) {
    op.Receive? && op.id == id && op.receipt.receipt.issuer == peer && d.Admits(op.receipt, id)
  }

  lemma AdmittedPush(start: Durability, init: seq<Op>, op: Op, id: DeltaId, peer: Did)
    ensures AdmittedSince(start, init + [op], id, peer) <==>
            && !(op.Register? && op.id == id) && LastRegistration(init, id).Some?
            && (AdmittedSince(start, init, id, peer) || AdmitsOf(Run(start, init), op, id, peer))
  {
    var ops := init + [op];
    assert ops[..|init|] == init && ops[|init|] == op;
    assert AdmittedAt(start, ops, |init|, id, peer) == AdmitsOf(Run(start, init), op, id, peer);
    forall i: nat | i < |init| ensures AdmittedAt(start, ops, i, id, peer) == AdmittedAt(start, init, i, id, peer) {
      assert ops[..i] == init[..i];
    }
    var r := LastRegistration(init, id);
    if r.Some? && !(op.Register? && op.id == id) {
      if i: nat :| r.value < i && AdmittedAt(start, init, i, id, peer) {
        assert AdmittedAt(start, ops, i, id, peer);
      }
    }
  }

  lemma ReceiveCounts(d: Durability, r: SignedReceipt, x: DeltaId, id: DeltaId, peer: Did)
    requires id in d.states
    ensures var d' := d.Received(r, x);
      && id in d'.states
      && (peer in d'.states[id].quorum.seen <==>
            peer in d.states[id].quorum.seen || (x == id && r.receipt.issuer == peer && d.Admits(r, id)))
  {
  }

  /** Only an admitted receipt of the peer counts it, until the delta is registered again. */
  lemma NextCounts(d: Durability, op: Op, id: DeltaId, peer: Did)
    requires id in d.states && !(op.Register? && op.id == id)
    ensures id in Next(d, op).states
    ensures peer in Next(d, op).states[id].quorum.seen <==>
            peer in d.states[id].quorum.seen || AdmitsOf(d, op, id, peer)
  {
    match op {
      case Cycle(answers, refetch) =>
        var log := CycleLog(d.queue, answers, refetch);
        AckedAllStates(d.(queue := Without(d.queue, Removed(log))), Tally(log).acknowledgedIds);
      case Receive(r, x) => ReceiveCounts(d, r, x, id, peer);
      case _ =>
    }
  }

  /** The tracker holds the peer exactly when `admitted` says so. */
  ghost predicate Holds(d: Durability, id: DeltaId, peer: Did, admitted: bool) {
    id in d.states ==> (peer in d.states[id].quorum.seen <==> admitted)
  }

  lemma StepCounts(d: Durability, op: Op, id: DeltaId, peer: Did, before: bool, after: bool)
    requires Holds(d, id, peer, before)
    requires after <==> !(op.Register? && op.id == id) && id in d.states && (before || AdmitsOf(d, op, id, peer))
    ensures Holds(Next(d, op), id, peer, after)
  {
    NextTracks(d, op, id, peer);
    if id in d.states && !(op.Register? && op.id == id) {
      NextCounts(d, op, id, peer);
    }
  }

  lemma {:induction false} SeenIffAdmitted(config: QuorumConfig, anchor: AnchorMode, ops: seq<Op>, id: DeltaId,
                                           peer: Did)
    ensures var start := Start(config, anchor);
      Holds(Run(start, ops), id, peer, AdmittedSince(start, ops, id, peer))
  {
    if ops != [] {
      var start, init, op := Start(config, anchor), ops[..|ops| - 1], ops[|ops| - 1];
      assert ops == init + [op];
      SeenIffAdmitted(config, anchor, init, id, peer);
      RunOnFile(config, anchor, init, id, peer);
      AdmittedPush(start, init, op, id, peer);
      var before, after := AdmittedSince(start, init, id, peer), AdmittedSince(start, ops, id, peer);
      assert after <==> !(op.Register? && op.id == id) && id in Run(start, init).states &&
                        (before || AdmitsOf(Run(start, init), op, id, peer));
      StepCounts(Run(start, init), op, id, peer, before, after);
    }
  }

  /** Where locations have to be attested, the receipt brings a valid beacon token. */
  predicate Attested(anchor: AnchorMode, r: SignedReceipt) {
    anchor == BeaconAttested ==> r.token.Some? && r.token.value.valid
  }

  /** The location that the anchor vouches for, if any: the claim of the token, never the receipt's own tag. */
  function AttestedTag(anchor: AnchorMode, r: SignedReceipt): Option<Tag> {
    if anchor == BeaconAttested && r.token.Some? then Some(r.token.value.claim) else None
  }

  /** The gate of the receipts, written out, and the tag an admitted receipt is to be counted under. */
  lemma AdmitsIff(d: Durability, r: SignedReceipt, id: DeltaId)
    ensures d.Admits(r, id) <==>
            && id in d.states && r.receipt.issuer in d.states[id].keys
            && r.signedBy == d.states[id].keys[r.receipt.issuer] && r.stateHash == d.states[id].stateHash
            && Attested(d.anchor, r)
    ensures d.Admits(r, id) ==> d.DiversityTag(r) == Some(AttestedTag(d.anchor, r))
  {
  }

  /** Operation `i` is a receipt of the peer signed by the key then in force over the registered state hash. */
  ghost predicate SignedAt(start: Durability, ops: seq<Op>, i: nat, id: DeltaId, peer: Did) {
    && i < |ops| && ops[i].Receive? && ops[i].id == id && ops[i].receipt.receipt.issuer == peer
    && KeyInForce(ops[..i], id, peer) == Some(ops[i].receipt.signedBy)
    && LastRegistration(ops[..i], id).Some?
    && ops[LastRegistration(ops[..i], id).value].stateHash == ops[i].receipt.stateHash
    && Attested(Run(start, ops[..i]).anchor, ops[i].receipt)
  }

  /**
    Over every run: the tracker of a delta counts a peer if and only if, since the last registration of
    the delta, a receipt of the peer came that was signed by the key then in force over the registered
    state hash and that the anchor let pass.
   */
  lemma CountedIffSigned(config: QuorumConfig, anchor: AnchorMode, ops: seq<Op>, id: DeltaId, peer: Did)
    requires id in Run(Start(config, anchor), ops).states
    ensures var r := LastRegistration(ops, id);
      r.Some? &&
      (peer in Run(Start(config, anchor), ops).states[id].quorum.seen <==>
       exists i: nat :: r.value < i && SignedAt(Start(config, anchor), ops, i, id, peer))
  {
    var start := Start(config, anchor);
    RunOnFile(config, anchor, ops, id, peer);
    SeenIffAdmitted(config, anchor, ops, id, peer);
    forall i: nat | i < |ops| ensures SignedAt(start, ops, i, id, peer) == AdmittedAt(start, ops, i, id, peer) {
      RunOnFile(config, anchor, ops[..i], id, peer);
    }
  }

  // ---------------------------------------------------------------------------
  // When a configuration can qualify

  /** Attested receipts are all tagged; with no share allowed to any sector they need a higher minimum. */
  predicate CanQualify(config: QuorumConfig, anchor: AnchorMode) {
    anchor != BeaconAttested || config.maxSingleSectorFraction > 0.0 || config.spatialDiversityMin >= 2
  }

  function Letters(n: nat): (s: string)
    ensures |s| == n
  {
    seq(n, _ => 'a')
  }

  function Untagged(n: nat): (r: seq<Option<Tag>>)
    ensures |r| == n && forall i :: 0 <= i < n ==> r[i] == None
  {
    seq(n, _ => None)
  }

  function OneSector(n: nat): (r: seq<Option<Tag>>)
    ensures |r| == n && forall i :: 0 <= i < n ==> r[i] == Some("")
  {
    seq(n, _ => Some(""))
  }

  function Apart(n: nat): (r: seq<Option<Tag>>)
    ensures |r| == n && forall i :: 0 <= i < n ==> r[i] == Some(Letters(i))
  {
    seq(n, (i: nat) => Some(Letters(i)))
  }

  lemma UntaggedQualify(config: QuorumConfig, n: nat)
    requires n > 0 && n >= config.k
    ensures Qualifies(config, Untagged(n))
  {
    assert TagSet(Untagged(n)) == {};
  }

  lemma OneSectorQualifies(config: QuorumConfig, n: nat)
    requires n > 0 && n >= config.k && config.spatialDiversityMin >= 2
    ensures Qualifies(config, OneSector(n))
  {
    assert OneSector(n)[0] == Some("");
    assert TagSet(OneSector(n)) == {""};
  }

  lemma {:induction false} ApartCountsOnce(n: nat, t: Tag)
    ensures Count(Apart(n), t) <= if |t| < n then 1 else 0
  {
    if n > 0 {
      ApartCountsOnce(n - 1, t);
      assert Apart(n) == Apart(n - 1) + [Some(Letters(n - 1))];
      CountPush(Apart(n - 1), Some(Letters(n - 1)), t);
    }
  }

  lemma ApartQualify(config: QuorumConfig, n: nat)
    requires n > 0 && n >= config.k && n as real * config.maxSingleSectorFraction >= 1.0
    ensures Qualifies(config, Apart(n))
  {
    TimesIsProduct(n, config.maxSingleSectorFraction);
    forall t | t in TagSet(Apart(n)) ensures Count(Apart(n), t) as real <= Times(n, config.maxSingleSectorFraction) {
      ApartCountsOnce(n, t);
    }
  }

  /** Enough receipts that a share of `cap` is a whole receipt. */
  lemma EnoughForCap(k: nat, cap: real) returns (n: nat)
    requires cap > 0.0
    ensures n > 0 && n >= k && n as real * cap >= 1.0
  {
    var least := (1.0 / cap).Floor + 1;
    assert least as real > 1.0 / cap > 0.0;
    assert (1.0 / cap) * cap == 1.0;
    ProductGrows(1.0 / cap, least as real, cap);
    n := if least < k then k else least;
    ProductGrows(least as real, n as real, cap);
  }

  lemma ProductGrows(a: real, b: real, c: real)
    requires a <= b && c > 0.0
    ensures a * c <= b * c
  {
  }

  /** A configuration that can qualify does so on some list of tags, all of them tagged if they must be. */
  lemma QualifyingTags(config: QuorumConfig, anchor: AnchorMode) returns (tags: seq<Option<Tag>>)
    requires CanQualify(config, anchor)
    ensures tags != [] && Qualifies(config, tags)
    ensures anchor == BeaconAttested ==> forall t :: t in tags ==> t.Some?
  {
    if anchor != BeaconAttested {
      tags := Untagged(config.k + 1);
      UntaggedQualify(config, config.k + 1);
    } else if config.maxSingleSectorFraction > 0.0 {
      var n := EnoughForCap(config.k, config.maxSingleSectorFraction);
      tags := Apart(n);
      ApartQualify(config, n);
    } else {
      tags := OneSector(config.k + 1);
      OneSectorQualifies(config, config.k + 1);
    }
  }

  lemma TaggedNeverQualify(config: QuorumConfig, tags: seq<Option<Tag>>)
    requires !CanQualify(config, BeaconAttested) && tags != [] && forall t :: t in tags ==> t.Some?
    ensures !Qualifies(config, tags)
  {
    var t := tags[0].value;
    assert tags[0] in tags && t in TagSet(tags);
    assert {t} <= TagSet(tags);
    SubsetSize({t}, TagSet(tags));
    CountPositive(tags, t);
    TimesIsProduct(|tags|, config.maxSingleSectorFraction);
    NotPositive(|tags|, config.maxSingleSectorFraction);
  }

  lemma NotPositive(n: nat, cap: real)
    requires cap <= 0.0
    ensures n as real * cap <= 0.0
  {
  }

  // ---------------------------------------------------------------------------
  // After a registration

  /** A delta that was just registered: nothing counted yet. */
  ghost predicate Starts(d: Durability, id: DeltaId) {
    id in d.states && d.states[id].tier == Uncommitted && d.states[id].quorum == NewTracker(d.config)
  }

  /** A receipt of a peer of its own that counts under the tag in every anchor mode. */
  function Evidence(j: nat, tag: Option<Tag>, stateHash: nat): SignedReceipt {
    SignedReceipt(Receipt(Letters(j), tag), 0, stateHash,
                  if tag.Some? then Some(BeaconToken(true, tag.value)) else None)
  }

  /** For each tag a new peer's key and a receipt of it. */
  function Presenting(id: DeltaId, stateHash: nat, tags: seq<Option<Tag>>): seq<Op> {
    if tags == [] then []
    else
      var j := |tags| - 1;
      Presenting(id, stateHash, tags[..j]) + [LearnKey(id, Letters(j), 0), Receive(Evidence(j, tags[j], stateHash), id)]
  }

  /** Either the delta was announced, or its tracker holds exactly the tags and they do not qualify. */
  ghost predicate PresentedSoFar(d: Durability, d': Durability, id: DeltaId, tags: seq<Option<Tag>>) {
    && d'.config == d.config && d'.anchor == d.anchor
    && id in d.states && id in d'.states && d'.states[id].stateHash == d.states[id].stateHash
    && if d'.states[id].tier != Uncommitted then Announced(d', id) == Announced(d, id) + 1
       else
         var t := d'.states[id].quorum;
         && t.config == d.config && t.tags == tags && !t.achieved && Announced(d', id) == Announced(d, id)
         && (forall p :: p in t.seen ==> |p| < |tags|)
         && (tags != [] ==> !Qualifies(d.config, tags))
  }

  lemma ReceivedElsewhere(d: Durability, r: SignedReceipt, x: DeltaId, id: DeltaId)
    requires x != id && id in d.states
    ensures var d' := d.Received(r, x);
      && d'.config == d.config && d'.anchor == d.anchor && id in d'.states && d'.states[id] == d.states[id]
      && Announced(d', id) == Announced(d, id)
  {
    EventPush(d.events, TierEvent(x, Uncommitted, Tier1));
  }

  lemma ReceivedUnreached(d: Durability, r: SignedReceipt, id: DeltaId)
    requires d.Admits(r, id) && !Reaches(d.states[id].quorum, r.receipt, d.DiversityTag(r).value)
    ensures var d', quorum := d.Received(r, id), Added(d.states[id].quorum, r.receipt, d.DiversityTag(r).value);
      && d'.config == d.config && d'.anchor == d.anchor && d'.events == d.events
      && id in d'.states && d'.states[id] == d.states[id].(quorum := quorum)
  {
  }

  lemma ReceivedReached(d: Durability, r: SignedReceipt, id: DeltaId)
    requires d.Admits(r, id) && Reaches(d.states[id].quorum, r.receipt, d.DiversityTag(r).value)
    requires d.states[id].tier == Uncommitted
    ensures var d' := d.Received(r, id);
      && d'.config == d.config && d'.anchor == d.anchor && Announced(d', id) == Announced(d, id) + 1
      && id in d'.states && d'.states[id].tier == Tier1 && d'.states[id].stateHash == d.states[id].stateHash
  {
    EventPush(d.events, TierEvent(id, Uncommitted, Tier1));
  }

  /** The receipt of a new issuer under its tag: achieved now, or the tags with it do not qualify. */
  lemma AddedPresents(t: Tracker, r: Receipt, diversityTag: Option<Tag>, tag: Option<Tag>)
    requires !t.achieved && r.issuer !in t.seen && CountedTag(r, diversityTag) == tag
    ensures var t' := Added(t, r, diversityTag);
      && t'.config == t.config && t'.tags == t.tags + [tag] && t'.seen == t.seen + {r.issuer}
      && (t'.achieved <==> Qualifies(t.config, t'.tags)) && (Reaches(t, r, diversityTag) <==> t'.achieved)
  {
  }

  lemma PresentOne(d: Durability, mid: Durability, id: DeltaId, init: seq<Option<Tag>>, tag: Option<Tag>)
    requires PresentedSoFar(d, mid, id, init) && (d.anchor == BeaconAttested ==> tag.Some?)
    ensures var j, stateHash := |init|, d.states[id].stateHash;
      PresentedSoFar(d, mid.KeyLearned(id, Letters(j), 0).Received(Evidence(j, tag, stateHash), id), id, init + [tag])
  {
    var j, r := |init|, Evidence(|init|, tag, d.states[id].stateHash);
    var learned := mid.KeyLearned(id, Letters(j), 0);
    assert learned.Admits(r, id);
    assert CountedTag(r.receipt, learned.DiversityTag(r).value) == tag;
    if mid.states[id].tier == Uncommitted {
      AddedPresents(mid.states[id].quorum, r.receipt, learned.DiversityTag(r).value, tag);
      if Reaches(mid.states[id].quorum, r.receipt, learned.DiversityTag(r).value) {
        ReceivedReached(learned, r, id);
      } else {
        ReceivedUnreached(learned, r, id);
      }
    }
  }

  lemma RunTwoMore(d: Durability, ops: seq<Op>, a: Op, b: Op)
    ensures Run(d, ops + [a, b]) == Next(Next(Run(d, ops), a), b)
  {
    RunTwo(Run(d, ops), a, b);
    RunAppend(d, ops, [a, b]);
  }

  lemma {:induction false} AllPresented(d: Durability, id: DeltaId, tags: seq<Option<Tag>>)
    requires Starts(d, id) && (d.anchor == BeaconAttested ==> forall t :: t in tags ==> t.Some?)
    ensures PresentedSoFar(d, Run(d, Presenting(id, d.states[id].stateHash, tags)), id, tags)
  {
    if tags != [] {
      var init, j, stateHash := tags[..|tags| - 1], |tags| - 1, d.states[id].stateHash;
      AllPresented(d, id, init);
      var before := Presenting(id, stateHash, init);
      var a, b := LearnKey(id, Letters(j), 0), Receive(Evidence(j, tags[j], stateHash), id);
      assert tags == init + [tags[j]];
      PresentOne(d, Run(d, before), id, init, tags[j]);
      RunTwoMore(d, before, a, b);
    }
  }

  /** Only keys and receipts come in. */
  ghost predicate PeersOnly(ops: seq<Op>) {
    forall op :: op in ops ==> op.LearnKey? || op.Receive?
  }

  lemma {:induction false} PresentingIsPeers(id: DeltaId, stateHash: nat, tags: seq<Option<Tag>>)
    ensures PeersOnly(Presenting(id, stateHash, tags))
  {
    if tags != [] {
      PresentingIsPeers(id, stateHash, tags[..|tags| - 1]);
    }
  }

  /** With all evidence tagged and no way to qualify, the delta stays Uncommitted and unannounced. */
  ghost predicate Stuck(d: Durability, d': Durability, id: DeltaId) {
    && d'.config == d.config && d'.anchor == d.anchor && id in d'.states && d'.states[id].tier == Uncommitted
    && Announced(d', id) == Announced(d, id)
    && var t := d'.states[id].quorum; t.config == d.config && !t.achieved && forall x :: x in t.tags ==> x.Some?
  }

  /** An attested tracker that cannot qualify counts on without being achieved. */
  ghost predicate OnlyTagged(t: Tracker) {
    !CanQualify(t.config, BeaconAttested) && !t.achieved && forall x :: x in t.tags ==> x.Some?
  }

  lemma AddedStuck(t: Tracker, receipt: Receipt, attested: Tag)
    requires OnlyTagged(t)
    ensures var t' := Added(t, receipt, Some(attested));
      OnlyTagged(t') && t'.config == t.config && !Reaches(t, receipt, Some(attested))
  {
    TaggedNeverQualify(t.config, t.tags + [Some(attested)]);
  }

  lemma ReceiveStuck(d: Durability, mid: Durability, id: DeltaId, r: SignedReceipt, x: DeltaId)
    requires !CanQualify(d.config, d.anchor) && Stuck(d, mid, id)
    ensures Stuck(d, mid.Received(r, x), id)
  {
    if x != id {
      ReceivedElsewhere(mid, r, x, id);
    } else if mid.Admits(r, id) {
      AddedStuck(mid.states[id].quorum, r.receipt, mid.DiversityTag(r).value.value);
      ReceivedUnreached(mid, r, id);
    }
  }

  lemma {:induction false} StaysStuck(d: Durability, id: DeltaId, more: seq<Op>)
    requires Starts(d, id) && !CanQualify(d.config, d.anchor) && PeersOnly(more)
    ensures Stuck(d, Run(d, more), id)
  {
    if more != [] {
      var init, op := more[..|more| - 1], more[|more| - 1];
      StaysStuck(d, id, init);
      assert op in more;
      match op {
        case Receive(r, x) => ReceiveStuck(d, Run(d, init), id, r, x);
        case LearnKey(_, _, _) =>
      }
    }
  }

  /**
    Just after a registration, keys and receipts can bring an announcement exactly when the
    configuration can qualify.
   */
  lemma StartAnnouncesIff(d: Durability, id: DeltaId)
    requires Starts(d, id)
    ensures (exists more :: PeersOnly(more) && Announced(Run(d, more), id) == Announced(d, id) + 1) <==>
            CanQualify(d.config, d.anchor)
  {
    if CanQualify(d.config, d.anchor) {
      var tags := QualifyingTags(d.config, d.anchor);
      var more := Presenting(id, d.states[id].stateHash, tags);
      AllPresented(d, id, tags);
      PresentingIsPeers(id, d.states[id].stateHash, tags);
      assert PeersOnly(more) && Announced(Run(d, more), id) == Announced(d, id) + 1;
    } else {
      forall more | PeersOnly(more) ensures Announced(Run(d, more), id) == Announced(d, id) {
        StaysStuck(d, id, more);
      }
    }
  }

  /**
    In every reachable state in which a delta has just been registered above Uncommitted, further keys and
    receipts can announce Tier-1 for it once more if and only if the configuration can qualify.
   */
  lemma ResetAnnouncesAgainIff(config: QuorumConfig, anchor: AnchorMode, ops: seq<Op>, id: DeltaId)
    requires ops != [] && Resets(Run(Start(config, anchor), ops[..|ops| - 1]), ops[|ops| - 1], id)
    ensures var d := Run(Start(config, anchor), ops);
      (exists more :: PeersOnly(more) && Announced(Run(d, more), id) == Announced(d, id) + 1) <==>
      CanQualify(d.config, d.anchor)
  {
    StartAnnouncesIff(Run(Start(config, anchor), ops), id);
  }
}
