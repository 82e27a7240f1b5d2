/**
  Spatial diversity of durability receipts.  The fraction cap is a real number: rounding of the
  floating-point comparison is not modelled.
 */
module Spatial {
  import opened Deltas
  import opened Sequences

  type Tag = string

  function TagSet(tags: seq<Option<Tag>>): set<Tag> {
    set t | t in tags && t.Some? :: t.value
  }

  /** How many of the receipts carry a tag of `wanted`. */
  function CountIn(tags: seq<Option<Tag>>, wanted: set<Tag>): (n: nat)
    ensures n <= |tags|
  {
    if tags == [] then 0
    else
      var last := tags[|tags| - 1];
      CountIn(tags[..|tags| - 1], wanted) + if last.Some? && last.value in wanted then 1 else 0
  }

  function Count(tags: seq<Option<Tag>>, t: Tag): nat {
    CountIn(tags, {t})
  }

  lemma {:induction false} CountInSplits(tags: seq<Option<Tag>>, a: set<Tag>, b: set<Tag>)
    requires a !! b
    ensures CountIn(tags, a + b) == CountIn(tags, a) + CountIn(tags, b)
  {
    if tags != [] {
      CountInSplits(tags[..|tags| - 1], a, b);
    }
  }

  lemma {:induction false} CountPositive(tags: seq<Option<Tag>>, t: Tag)
    ensures Count(tags, t) > 0 <==> t in TagSet(tags)
  {
    if tags != [] {
      var init, last := tags[..|tags| - 1], tags[|tags| - 1];
      CountPositive(init, t);
      assert tags == init + [last];
      if t in TagSet(tags) && t !in TagSet(init) {
        assert Some(t) in tags;
        assert last == Some(t);
      }
      if last == Some(t) {
        assert last in tags;
      }
      if t in TagSet(init) {
        assert Some(t) in init;
      }
    }
  }

  /** One more receipt raises the count of its own tag by one and no other. */
  lemma CountPush(tags: seq<Option<Tag>>, tag: Option<Tag>, t: Tag)
    ensures Count(tags + [tag], t) == Count(tags, t) + if tag == Some(t) then 1 else 0
  {
    assert (tags + [tag])[..|tags|] == tags;
  }

  // ---------------------------------------------------------------------------
  // The diversity rule

  /** `n` times `limit`, by addition, which the solver handles better than a product of variables. */
  function Times(n: nat, limit: real): real {
    if n == 0 then 0.0 else Times(n - 1, limit) + limit
  }

  lemma {:induction false} TimesIsProduct(n: nat, limit: real)
    ensures Times(n, limit) == n as real * limit
  {
    if n > 0 {
      TimesIsProduct(n - 1, limit);
      assert n as real * limit == (n - 1) as real * limit + limit;
    }
  }

  /** No sector holds more than `limit` receipts. */
  predicate AtMost(tags: seq<Option<Tag>>, limit: real) {
    forall t :: t in TagSet(tags) ==> Count(tags, t) as real <= limit
  }

  /** No sector holds more than the capped share. */
  predicate Capped(tags: seq<Option<Tag>>, cap: real) {
    AtMost(tags, Times(|tags|, cap))
  }

  /** Fewer sectors than asked for: fall back to counting receipts.  Otherwise the cap decides. */
  predicate Diverse(tags: seq<Option<Tag>>, minTags: nat, cap: real) {
    |TagSet(tags)| < minTags || (tags != [] && Capped(tags, cap))
  }

  /** A non-degraded success leaves the promised share after the loss of any one sector. */
  lemma SurvivesSectorLoss(tags: seq<Option<Tag>>, minTags: nat, cap: real, lost: Tag)
    requires Diverse(tags, minTags, cap) && |TagSet(tags)| >= minTags && cap >= 0.0
    ensures (|tags| - Count(tags, lost)) as real >= (1.0 - cap) * |tags| as real
  {
    var total := |tags| as real;
    TimesIsProduct(|tags|, cap);
    CountPositive(tags, lost);
    assert Count(tags, lost) as real <= total * cap;
    assert (1.0 - cap) * total == total - total * cap;
  }

  lemma {:induction false} CountAll(tags: seq<Option<Tag>>, wanted: set<Tag>)
    requires forall t :: t in tags ==> t.Some? && t.value in wanted
    ensures CountIn(tags, wanted) == |tags|
  {
    if tags != [] {
      assert tags[|tags| - 1] in tags;
      CountAll(tags[..|tags| - 1], wanted);
    }
  }

  /** Sectors that hold at most `limit` receipts each hold at most `limit` times their number together. */
  lemma {:induction false} CountAtMost(tags: seq<Option<Tag>>, wanted: set<Tag>, limit: real)
    requires forall t :: t in wanted ==> Count(tags, t) as real <= limit
    ensures CountIn(tags, wanted) as real <= Times(|wanted|, limit)
    decreases wanted
  {
    if wanted == {} {
      CountNone(tags);
    } else {
      var t :| t in wanted;
      var rest := wanted - {t};
      CountAtMost(tags, rest, limit);
      CountInSplits(tags, rest, {t});
      assert rest + {t} == wanted;
    }
  }

  lemma {:induction false} CountNone(tags: seq<Option<Tag>>)
    ensures CountIn(tags, {}) == 0
  {
    if tags != [] {
      CountNone(tags[..|tags| - 1]);
    }
  }

  /** When every receipt is tagged, the cap forces at least 1/cap distinct sectors. */
  lemma CapForcesSpread(tags: seq<Option<Tag>>, minTags: nat, cap: real)
    requires Diverse(tags, minTags, cap) && |TagSet(tags)| >= minTags
    requires forall t :: t in tags ==> t.Some?
    ensures |TagSet(tags)| as real * cap >= 1.0
  {
    var sectors := TagSet(tags);
    AllTogether(tags, cap);
    TimesIsProduct(|tags|, cap);
    TimesIsProduct(|sectors|, Times(|tags|, cap));
  }

  lemma AllTogether(tags: seq<Option<Tag>>, cap: real)
    requires Capped(tags, cap) && forall t :: t in tags ==> t.Some?
    ensures |tags| as real <= Times(|TagSet(tags)|, Times(|tags|, cap))
  {
    forall t | t in tags ensures t.value in TagSet(tags) {
    }
    CountAll(tags, TagSet(tags));
    CountAtMost(tags, TagSet(tags), Times(|tags|, cap));
  }

  // ---------------------------------------------------------------------------
  // The tracker

  class SpatialDiversityTracker {
    var tagCounts: map<Tag, nat>
    var untagged: nat
    ghost var tags: seq<Option<Tag>>

    /** The counters are those of the receipts recorded so far. */
    ghost predicate Valid()
      reads this
    {
      IsCount(tags, tagCounts, untagged)
    }

    constructor ()
      ensures Valid() && tags == [] && tagCounts == map[] && untagged == 0
    {
      tagCounts, untagged, tags := map[], 0, [];
    }

    method Add(tag: Option<Tag>)
      requires Valid()
      modifies this
      ensures Valid() && tags == old(tags) + [tag]
      ensures (tagCounts, untagged) == Recorded(old(tagCounts), old(untagged), tag)
    {
      RecordedCounts(tags, tagCounts, untagged, tag);
      match tag {
        case Some(t) =>
          tagCounts := tagCounts[t := (if t in tagCounts then tagCounts[t] else 0) + 1];
        case None =>
          untagged := untagged + 1;
      }
      tags := tags + [tag];
    }

    /** Sums the counters; with the untagged ones they account for every receipt. */
    method TaggedReceiptCount() returns (sum: nat)
      requires Valid()
      ensures sum + untagged == |tags|
    {
      var keys := Listing(tagCounts.Keys);
      sum := 0;
      CountNone(tags);
      assert Elems(keys[..0]) == {};
      for i := 0 to |keys|
        invariant sum == CountIn(tags, Elems(keys[..i]))
      {
        assert keys[..i + 1] == keys[..i] + [keys[i]];
        assert Elems(keys[..i + 1]) == Elems(keys[..i]) + {keys[i]};
        CountInSplits(tags, Elems(keys[..i]), {keys[i]});
        assert keys[i] in Elems(keys);
        sum := sum + tagCounts[keys[i]];
      }
      assert keys[..|keys|] == keys;
      UntaggedRest(tags);
    }

    /** The diversity check over the counters decides the diversity rule over the receipts. */
    method SatisfiesDiversity(minTags: nat, cap: real, total: nat) returns (ok: bool)
      requires Valid() && total == |tags|
      ensures ok <==> Diverse(tags, minTags, cap)
    {
      if |tagCounts| < minTags {
        return true;
      }
      if total == 0 {
        return false;
      }
      ok := NoSectorOver(cap, total);
    }

    method NoSectorOver(cap: real, total: nat) returns (ok: bool)
      requires Valid() && total > 0
      ensures ok <==> AtMost(tags, Times(total, cap))
    {
      ghost var limit := Times(total, cap);
      var keys := Listing(tagCounts.Keys);
      assert forall t :: t in TagSet(tags) <==> t in Elems(keys);
      for i := 0 to |keys|
        invariant forall k :: 0 <= k < i ==> Count(tags, keys[k]) as real <= limit
      {
        assert keys[i] in Elems(keys);
        ShareIsCapped(tagCounts[keys[i]], total, cap, limit);
        if tagCounts[keys[i]] as real / total as real > cap {
          return false;
        }
      }
      return true;
    }
  }

  lemma ShareIsCapped(count: nat, total: nat, cap: real, limit: real)
    requires total > 0 && limit == Times(total, cap)
    ensures count as real / total as real > cap <==> count as real > limit
  {
    TimesIsProduct(total, cap);
  }

  function UntaggedCount(tags: seq<Option<Tag>>): nat {
    if tags == [] then 0
    else UntaggedCount(tags[..|tags| - 1]) + if tags[|tags| - 1].None? then 1 else 0
  }

  lemma {:induction false} UntaggedRestIn(tags: seq<Option<Tag>>, wanted: set<Tag>)
    requires forall t :: t in tags && t.Some? ==> t.value in wanted
    ensures CountIn(tags, wanted) + UntaggedCount(tags) == |tags|
  {
    if tags != [] {
      assert tags[|tags| - 1] in tags;
      UntaggedRestIn(tags[..|tags| - 1], wanted);
    }
  }

  lemma UntaggedRest(tags: seq<Option<Tag>>)
    ensures CountIn(tags, TagSet(tags)) + UntaggedCount(tags) == |tags|
  {
    UntaggedRestIn(tags, TagSet(tags));
  }

  ghost predicate IsCount(tags: seq<Option<Tag>>, tagCounts: map<Tag, nat>, untagged: nat) {
    && tagCounts.Keys == TagSet(tags) && untagged == UntaggedCount(tags)
    && forall t :: t in tagCounts ==> tagCounts[t] == Count(tags, t)
  }

  function Recorded(tagCounts: map<Tag, nat>, untagged: nat, tag: Option<Tag>): (map<Tag, nat>, nat) {
    match tag
    case Some(t) => (tagCounts[t := (if t in tagCounts then tagCounts[t] else 0) + 1], untagged)
    case None => (tagCounts, untagged + 1)
  }

  lemma RecordedCounts(tags: seq<Option<Tag>>, tagCounts: map<Tag, nat>, untagged: nat, tag: Option<Tag>)
    requires IsCount(tags, tagCounts, untagged)
    ensures var (c, u) := Recorded(tagCounts, untagged, tag); IsCount(tags + [tag], c, u)
  {
    assert (tags + [tag])[..|tags|] == tags;
    forall t ensures Count(tags + [tag], t) == Count(tags, t) + if tag == Some(t) then 1 else 0 {
      CountPush(tags, tag, t);
    }
    if tag.Some? && tag.value !in tagCounts {
      CountPositive(tags, tag.value);
    }
  }
}
