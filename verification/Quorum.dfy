/** Tier-1 quorum: K of N receipts from distinct issuers under the diversity rule. */
module Quorum {
  import opened Deltas
  import opened Sequences
  import opened Spatial

  datatype QuorumConfig = QuorumConfig(k: nat, n: nat, spatialDiversityMin: nat, maxSingleSectorFraction: real)

  datatype Receipt = Receipt(issuer: Did, tag: Option<Tag>)

  /** A tracker: the counted receipts, the tags they were counted under, and the counters of those. */
  datatype Tracker = Tracker(config: QuorumConfig, receipts: seq<Receipt>, seen: set<Did>, tags: seq<Option<Tag>>,
                             tagCounts: map<Tag, nat>, untagged: nat, achieved: bool)

  function NewTracker(config: QuorumConfig): Tracker {
    Tracker(config, [], {}, [], map[], 0, false)
  }

  /** The configured minimum, or by default no more sectors than there are. */
  function EffectiveMin(config: QuorumConfig, distinct: nat): nat {
    if config.spatialDiversityMin == 0 then (if config.k < distinct then config.k else distinct)
    else config.spatialDiversityMin
  }

  function Issuers(receipts: seq<Receipt>): set<Did> {
    set r | r in receipts :: r.issuer
  }

  /** The rule a set of receipts has to pass, stated on the tags they are counted under. */
  predicate Qualifies(config: QuorumConfig, tags: seq<Option<Tag>>) {
    && |tags| >= config.k
    && Diverse(tags, EffectiveMin(config, |TagSet(tags)|), config.maxSingleSectorFraction)
  }

  /** The counters belong to the tags, one tag per receipt. */
  ghost predicate Tracks(t: Tracker) {
    && IsCount(t.tags, t.tagCounts, t.untagged)
    && |t.tags| == |t.receipts|
    && t.seen == Issuers(t.receipts)
  }

  /** The tag a receipt is counted under: the verified location if one is given, else its own. */
  function CountedTag(receipt: Receipt, diversityTag: Option<Tag>): Option<Tag> {
    if diversityTag.Some? then diversityTag else receipt.tag
  }

  /** The tracker after one more receipt; a second receipt of an issuer is ignored. */
  function Added(t: Tracker, receipt: Receipt, diversityTag: Option<Tag>): Tracker {
    if receipt.issuer in t.seen then t
    else
      var tag := CountedTag(receipt, diversityTag);
      var (counts, untagged) := Recorded(t.tagCounts, t.untagged, tag);
      Tracker(t.config, t.receipts + [receipt], t.seen + {receipt.issuer}, t.tags + [tag], counts, untagged,
              t.achieved || Qualifies(t.config, t.tags + [tag]))
  }

  /** What adding the receipt answers: whether it reached the quorum; for a repeat, whether it was reached. */
  function Reaches(t: Tracker, receipt: Receipt, diversityTag: Option<Tag>): bool {
    Added(t, receipt, diversityTag).achieved && (t.achieved ==> receipt.issuer in t.seen)
  }

  class Tier1QuorumTracker {
    const config: QuorumConfig
    const spatial: SpatialDiversityTracker
    var receipts: seq<Receipt>
    var seenIssuers: set<Did>
    var tier1Achieved: bool

    ghost function View(): Tracker
      reads this, spatial
    {
      Tracker(config, receipts, seenIssuers, spatial.tags, spatial.tagCounts, spatial.untagged, tier1Achieved)
    }

    ghost predicate Valid()
      reads this, spatial
    {
      spatial.Valid() && Tracks(View())
    }

    constructor (config: QuorumConfig)
      ensures Valid() && fresh(spatial) && View() == NewTracker(config)
    {
      this.config := config;
      spatial := new SpatialDiversityTracker();
      receipts, seenIssuers, tier1Achieved := [], {}, false;
    }

    /** Counts the receipt of a new issuer under its verified tag, or else its own. */
    method Record(receipt: Receipt, diversityTag: Option<Tag>)
      requires Valid() && receipt.issuer !in seenIssuers
      modifies this, spatial
      ensures Valid()
      ensures View() == Added(old(View()), receipt, diversityTag).(achieved := old(tier1Achieved))
    {
      spatial.Add(if diversityTag.Some? then diversityTag else receipt.tag);
      IssuersPush(receipts, receipt);
      seenIssuers := seenIssuers + {receipt.issuer};
      receipts := receipts + [receipt];
    }

    method DiversityMet() returns (ok: bool)
      requires Valid()
      ensures ok <==> Diverse(spatial.tags, EffectiveMin(config, |TagSet(spatial.tags)|),
                              config.maxSingleSectorFraction)
    {
      var minTags := EffectiveMin(config, |spatial.tagCounts|);
      ok := spatial.SatisfiesDiversity(minTags, config.maxSingleSectorFraction, |receipts|);
    }

    /**
      Adds a verified receipt.  The answer is true when this receipt reached the quorum, and for a
      repeated issuer whenever the quorum was reached before.
     */
    method AddReceiptWithTag(receipt: Receipt, diversityTag: Option<Tag>) returns (reached: bool)
      requires Valid()
      modifies this, spatial
      ensures Valid()
      ensures View() == Added(old(View()), receipt, diversityTag)
      ensures reached <==> Reaches(old(View()), receipt, diversityTag)
    {
      if receipt.issuer in seenIssuers {
        return tier1Achieved;
      }
      Record(receipt, diversityTag);
      if !tier1Achieved && |receipts| >= config.k {
        var ok := DiversityMet();
        if ok {
          tier1Achieved := true;
          return true;
        }
      }
      return false;
    }
  }

  // ---------------------------------------------------------------------------
  // Tier-1 as a fact about the history of receipts

  /** A presented receipt and the tag it is to be counted under. */
  datatype Presented = Presented(receipt: Receipt, diversityTag: Option<Tag>)

  /** The first receipt of each issuer, in order. */
  function FirstPerIssuer(history: seq<Presented>): seq<Presented> {
    if history == [] then []
    else
      var before, last := FirstPerIssuer(history[..|history| - 1]), history[|history| - 1];
      if exists p :: p in before && p.receipt.issuer == last.receipt.issuer then before else before + [last]
  }

  function FirstIssuers(ps: seq<Presented>): set<Did> {
    set p | p in ps :: p.receipt.issuer
  }

  function TagsOf(ps: seq<Presented>): (r: seq<Option<Tag>>)
    ensures |r| == |ps|
  {
    seq(|ps|, i requires 0 <= i < |ps| => CountedTag(ps[i].receipt, ps[i].diversityTag))
  }

  function TrackerAfter(config: QuorumConfig, history: seq<Presented>): Tracker {
    if history == [] then NewTracker(config)
    else
      var last := history[|history| - 1];
      Added(TrackerAfter(config, history[..|history| - 1]), last.receipt, last.diversityTag)
  }

  /** A tracker counts exactly the first receipt of each issuer. */
  lemma {:induction false} HistoryTracked(config: QuorumConfig, history: seq<Presented>)
    ensures var t, firsts := TrackerAfter(config, history), FirstPerIssuer(history);
      && t.config == config && Tracks(t)
      && t.tags == TagsOf(firsts) && t.seen == FirstIssuers(firsts)
  {
    if history != [] {
      var init, last := history[..|history| - 1], history[|history| - 1];
      var t, firsts := TrackerAfter(config, init), FirstPerIssuer(init);
      HistoryTracked(config, init);
      if last.receipt.issuer !in t.seen {
        var tag := CountedTag(last.receipt, last.diversityTag);
        RecordedCounts(t.tags, t.tagCounts, t.untagged, tag);
        assert TagsOf(firsts + [last]) == TagsOf(firsts) + [tag];
        IssuersPush(t.receipts, last.receipt);
      }
    }
  }

  lemma IssuersPush(receipts: seq<Receipt>, r: Receipt)
    ensures Issuers(receipts + [r]) == Issuers(receipts) + {r.issuer}
  {
    var more := receipts + [r];
    assert r in more;
    assert forall x :: x in receipts ==> x in more;
    assert forall x :: x in more ==> x in receipts || x == r;
  }

  /** Some non-empty prefix of the deduplicated receipts passed the rule at that moment. */
  ghost predicate QualifiedOnce(config: QuorumConfig, firsts: seq<Presented>) {
    exists n :: 0 < n <= |firsts| && Qualifies(config, TagsOf(firsts[..n]))
  }

  lemma QualifiedOncePush(config: QuorumConfig, firsts: seq<Presented>, last: Presented)
    ensures QualifiedOnce(config, firsts + [last]) <==>
            QualifiedOnce(config, firsts) || Qualifies(config, TagsOf(firsts + [last]))
  {
    var more := firsts + [last];
    assert more[..|more|] == more;
    assert forall n :: 0 <= n <= |firsts| ==> more[..n] == firsts[..n];
    if QualifiedOnce(config, firsts) {
      var n :| 0 < n <= |firsts| && Qualifies(config, TagsOf(firsts[..n]));
      assert Qualifies(config, TagsOf(more[..n]));
    }
    if QualifiedOnce(config, more) {
      var n :| 0 < n <= |more| && Qualifies(config, TagsOf(more[..n]));
      if n <= |firsts| {
        assert Qualifies(config, TagsOf(firsts[..n]));
      }
    }
  }

  /** Tier-1 holds exactly when the history once qualified; repeats of an issuer never matter. */
  lemma {:induction false} Tier1IsHistory(config: QuorumConfig, history: seq<Presented>)
    ensures TrackerAfter(config, history).achieved <==> QualifiedOnce(config, FirstPerIssuer(history))
  {
    if history != [] {
      var init, last := history[..|history| - 1], history[|history| - 1];
      Tier1IsHistory(config, init);
      HistoryTracked(config, init);
      var firsts := FirstPerIssuer(init);
      if last.receipt.issuer !in TrackerAfter(config, init).seen {
        QualifiedOncePush(config, firsts, last);
        assert TagsOf(firsts + [last]) == TagsOf(firsts) + [CountedTag(last.receipt, last.diversityTag)];
      }
    }
  }

  // ---------------------------------------------------------------------------
  // The rule written out

  /** No sector holds more receipts than that. */
  predicate NoSectorAbove(tags: seq<Option<Tag>>, limit: real) {
    forall x :: x in tags && x.Some? ==> multiset(tags)[x] as real <= limit
  }

  /**
    The receipts spread: fewer sectors than a configured minimum, which the code lets pass, or no sector
    with more than the capped share of them.
   */
  predicate Spread(config: QuorumConfig, tags: seq<Option<Tag>>) {
    || |set x | x in tags && x.Some? :: x.value| < config.spatialDiversityMin
    || NoSectorAbove(tags, |tags| as real * config.maxSingleSectorFraction)
  }

  lemma {:induction false} CountIsMultiplicity(tags: seq<Option<Tag>>, t: Tag)
    ensures Count(tags, t) == multiset(tags)[Some(t)]
  {
    if tags != [] {
      var init, last := tags[..|tags| - 1], tags[|tags| - 1];
      CountIsMultiplicity(init, t);
      assert tags == init + [last];
    }
  }

  lemma AtMostIff(tags: seq<Option<Tag>>, limit: real)
    ensures AtMost(tags, limit) <==> NoSectorAbove(tags, limit)
  {
    forall t ensures Count(tags, t) == multiset(tags)[Some(t)] {
      CountIsMultiplicity(tags, t);
    }
    forall x | x in tags && x.Some? ensures x == Some(x.value) && x.value in TagSet(tags) {
    }
    if AtMost(tags, limit) {
      forall x | x in tags && x.Some? ensures multiset(tags)[x] as real <= limit {
        assert Count(tags, x.value) as real <= limit;
      }
    }
  }

  lemma MinimumIff(config: QuorumConfig, distinct: nat)
    ensures distinct < EffectiveMin(config, distinct) <==> distinct < config.spatialDiversityMin
  {
  }

  /** Spread out: few sectors, or the cap. */
  lemma SpreadBy(config: QuorumConfig, tags: seq<Option<Tag>>, limit: real, few: bool, capped: bool)
    requires few == (|TagSet(tags)| < config.spatialDiversityMin) && capped == NoSectorAbove(tags, limit)
    requires limit == Times(|tags|, config.maxSingleSectorFraction)
    ensures Spread(config, tags) <==> few || capped
  {
    TimesIsProduct(|tags|, config.maxSingleSectorFraction);
    assert TagSet(tags) == set x | x in tags && x.Some? :: x.value;
  }

  lemma QualifiesBy(config: QuorumConfig, tags: seq<Option<Tag>>, few: bool, capped: bool)
    requires few == (|TagSet(tags)| < config.spatialDiversityMin) && tags != []
    requires capped == AtMost(tags, Times(|tags|, config.maxSingleSectorFraction))
    ensures Qualifies(config, tags) <==> |tags| >= config.k && (few || capped)
  {
    MinimumIff(config, |TagSet(tags)|);
  }

  lemma QualifiesIff(config: QuorumConfig, tags: seq<Option<Tag>>)
    requires tags != []
    ensures Qualifies(config, tags) <==> |tags| >= config.k && Spread(config, tags)
  {
    var limit := Times(|tags|, config.maxSingleSectorFraction);
    var few, capped := |TagSet(tags)| < config.spatialDiversityMin, AtMost(tags, limit);
    AtMostIff(tags, limit);
    QualifiesBy(config, tags, few, capped);
    SpreadBy(config, tags, limit, few, capped);
  }

  predicate Presents(history: seq<Presented>, issuer: Did) {
    exists p :: p in history && p.receipt.issuer == issuer
  }

  /** No receipt of the same issuer came earlier. */
  predicate IsFirst(history: seq<Presented>, i: nat)
    requires i < |history|
  {
    !Presents(history[..i], history[i].receipt.issuer)
  }

  /** The places of the first receipts of each issuer, in order. */
  ghost predicate FirstPlaces(history: seq<Presented>, places: seq<nat>) {
    && (forall k :: 0 <= k < |places| ==> places[k] < |history|)
    && (forall a, b :: 0 <= a < b < |places| ==> places[a] < places[b])
    && (forall i: nat :: i in places <==> i < |history| && IsFirst(history, i))
  }

  lemma PresentsPush(init: seq<Presented>, last: Presented, issuer: Did)
    ensures Presents(init + [last], issuer) <==> Presents(init, issuer) || issuer == last.receipt.issuer
  {
    assert last in init + [last];
    if p :| p in init && p.receipt.issuer == issuer {
      assert p in init + [last];
    }
  }

  lemma FirstPlacesPush(init: seq<Presented>, last: Presented, before: seq<nat>)
    requires FirstPlaces(init, before)
    ensures var repeated := Presents(init, last.receipt.issuer);
      FirstPlaces(init + [last], if repeated then before else before + [|init|])
  {
    var history, places := init + [last], if Presents(init, last.receipt.issuer) then before else before + [|init|];
    assert history[..|init|] == init;
    forall i: nat ensures i in places <==> i < |history| && IsFirst(history, i) {
      if i < |init| {
        assert history[..i] == init[..i];
        assert i in before <==> IsFirst(init, i);
      }
    }
  }

  /** The deduplicated history is made of the first receipts of its issuers, and of nothing else. */
  lemma {:induction false} FirstsAreFirst(history: seq<Presented>) returns (places: seq<nat>)
    ensures FirstPlaces(history, places) && ListsPlaces(history, places, FirstPerIssuer(history))
    ensures forall d :: Presents(FirstPerIssuer(history), d) <==> Presents(history, d)
  {
    places := [];
    if history != [] {
      var init, last := history[..|history| - 1], history[|history| - 1];
      var before := FirstsAreFirst(init);
      assert history == init + [last];
      FirstPlacesPush(init, last, before);
      places := if Presents(init, last.receipt.issuer) then before else before + [|init|];
      FirstsPush(init, last);
      ListsPush(init, last, before, FirstPerIssuer(init));
    }
  }

  ghost predicate ListsPlaces(history: seq<Presented>, places: seq<nat>, firsts: seq<Presented>) {
    |firsts| == |places| && forall k :: 0 <= k < |places| ==> places[k] < |history| && firsts[k] == history[places[k]]
  }

  lemma ListsPush(init: seq<Presented>, last: Presented, places: seq<nat>, firsts: seq<Presented>)
    requires ListsPlaces(init, places, firsts)
    ensures ListsPlaces(init + [last], places, firsts)
    ensures ListsPlaces(init + [last], places + [|init|], firsts + [last])
  {
  }

  lemma FirstsPush(init: seq<Presented>, last: Presented)
    requires forall d :: Presents(FirstPerIssuer(init), d) <==> Presents(init, d)
    ensures var firsts := FirstPerIssuer(init);
      FirstPerIssuer(init + [last]) == if Presents(init, last.receipt.issuer) then firsts else firsts + [last]
    ensures forall d :: Presents(FirstPerIssuer(init + [last]), d) <==> Presents(init + [last], d)
  {
    assert (init + [last])[..|init|] == init;
    assert Presents(FirstPerIssuer(init), last.receipt.issuer) <==> Presents(init, last.receipt.issuer);
    forall d ensures Presents(FirstPerIssuer(init + [last]), d) <==> Presents(init + [last], d) {
      PresentsPush(init, last, d);
      PresentsPush(FirstPerIssuer(init), last, d);
    }
  }

  /** The tag a presented receipt counts under. */
  predicate CountsUnder(p: Presented, tag: Option<Tag>) {
    tag == if p.diversityTag.Some? then p.diversityTag else p.receipt.tag
  }

  /**
    Tier-1 over a history of receipts: take the first receipt of each issuer, in order; Tier-1 is reached
    if and only if at some moment there were K of them and their sectors were spread.
   */
  lemma Tier1Iff(config: QuorumConfig, history: seq<Presented>) returns (places: seq<nat>, tags: seq<Option<Tag>>)
    ensures FirstPlaces(history, places) && |tags| == |places|
    ensures forall k :: 0 <= k < |places| ==> CountsUnder(history[places[k]], tags[k])
    ensures TrackerAfter(config, history).achieved <==>
            exists n :: 0 < n <= |tags| && n >= config.k && Spread(config, tags[..n])
  {
    var firsts := FirstPerIssuer(history);
    places := FirstsAreFirst(history);
    tags := TagsOf(firsts);
    Tier1IsHistory(config, history);
    forall n | 0 < n <= |tags| ensures Qualifies(config, TagsOf(firsts[..n])) <==>
                                       n >= config.k && Spread(config, tags[..n])
    {
      assert TagsOf(firsts[..n]) == tags[..n];
      QualifiesIff(config, tags[..n]);
    }
  }

  /** A tracker counts as many issuers as receipts, and Tier-1 stands on K of them. */
  lemma {:induction false} CountedIssuers(config: QuorumConfig, history: seq<Presented>)
    ensures var t := TrackerAfter(config, history);
      |t.seen| == |t.receipts| == |t.tags| && (t.achieved ==> |t.seen| >= config.k)
    ensures forall d :: d in TrackerAfter(config, history).seen <==> Presents(history, d)
  {
    if history != [] {
      var init, last := history[..|history| - 1], history[|history| - 1];
      CountedIssuers(config, init);
      HistoryTracked(config, init);
      assert history == init + [last];
      forall d ensures Presents(history, d) <==> d == last.receipt.issuer || Presents(init, d) {
        PresentsPush(init, last, d);
      }
    }
  }

  /**
    The answer to a receipt: a repeated issuer hears whether the quorum stands, a new one whether its own
    receipt completed it.
   */
  lemma AnswerIff(config: QuorumConfig, history: seq<Presented>, p: Presented)
    ensures var before, after := TrackerAfter(config, history).achieved, TrackerAfter(config, history + [p]).achieved;
      var repeated := Presents(history, p.receipt.issuer);
      Reaches(TrackerAfter(config, history), p.receipt, p.diversityTag) <==>
      if repeated then before else !before && after
  {
    assert (history + [p])[..|history|] == history;
    CountedIssuers(config, history);
  }
}
