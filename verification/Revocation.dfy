/**
  M-of-N revocation: partial signatures accumulate in any order and batching; the effects fire once.
  Signatures are opaque: `valid` says whether the manager's resolved key verifies it for the target.
 */
module Revocation {
  import opened Deltas
  import opened Sequences

  datatype ManagerSignature = ManagerSignature(manager: Did, resolves: bool, verifies: bool) {
    predicate Genuine() { resolves && verifies }
  }

  datatype RevocationDelta = RevocationDelta(target: Did, signatures: seq<ManagerSignature>)

  datatype Status = Pending(collected: nat, required: nat) | Applied

  datatype Result = Ok(status: Status) | Malformed | ThresholdNotMet | AuthorisationFailed | CryptoFailed

  function Managers(sigs: seq<ManagerSignature>): set<Did> {
    set s | s in sigs :: s.manager
  }

  ghost predicate DistinctManagers(sigs: seq<ManagerSignature>) {
    forall i, j :: 0 <= i < j < |sigs| ==> sigs[i].manager != sigs[j].manager
  }

  /** One effect of a completed revocation: the complete delta that is gossiped. */
  datatype Subsystem = Subsystem(m: nat, pending: map<Did, seq<ManagerSignature>>, revoked: seq<Did>,
                                 gossiped: seq<RevocationDelta>)
  {
    /** The accumulation state of a target. */
    function StatusOf(target: Did): Option<Status> {
      if target !in pending then None
      else if |pending[target]| >= m then Some(Applied)
      else Some(Pending(|pending[target]|, m))
    }

    /** A signature counts when it is genuine and its manager is not revoked. */
    predicate Accepts(sig: ManagerSignature) {
      sig.manager !in revoked && sig.Genuine()
    }

    /** The pending signatures of a target after one more contribution. */
    function Contributed(target: Did, sig: ManagerSignature): Subsystem {
      if !Accepts(sig) then this
      else
        var have := if target in pending then pending[target] else [];
        if sig.manager in Managers(have) || |have| >= m then this.(pending := pending[target := have])
        else this.(pending := pending[target := have + [sig]])
    }

    /** What a contribution answers. */
    function ContributionResult(target: Did, sig: ManagerSignature): Result {
      if sig.manager in revoked then AuthorisationFailed
      else if !sig.Genuine() then CryptoFailed
      else
        var have := if target in pending then pending[target] else [];
        if sig.manager in Managers(have) then AuthorisationFailed
        else Ok(Contributed(target, sig).StatusOf(target).value)
    }

    function ContributedAll(target: Did, sigs: seq<ManagerSignature>): Subsystem {
      if sigs == [] then this
      else ContributedAll(target, sigs[..|sigs| - 1]).Contributed(target, sigs[|sigs| - 1])
    }

    /** The subsystem after a whole incoming delta. */
    function Processed(delta: RevocationDelta): Subsystem {
      if delta.target == "" || delta.signatures == [] then this
      else
        var s := ContributedAll(delta.target, delta.signatures);
        if s.StatusOf(delta.target) == Some(Applied) && delta.target !in s.revoked then
          s.(revoked := s.revoked + [delta.target],
             gossiped := s.gossiped + [RevocationDelta(delta.target, s.pending[delta.target])])
        else s
    }
  }

  class RevocationSubsystem {
    const thresholdM: nat
    var pending: map<Did, seq<ManagerSignature>>
    var revokedDids: seq<Did>
    var gossiped: seq<RevocationDelta>

    function View(): Subsystem
      reads this
    {
      Subsystem(thresholdM, pending, revokedDids, gossiped)
    }

    constructor (m: nat)
      ensures View() == Subsystem(m, map[], [], [])
    {
      thresholdM, pending, revokedDids, gossiped := m, map[], [], [];
    }

    /** Adds one manager signature for a target. */
    method AddSignature(target: Did, sig: ManagerSignature) returns (result: Result)
      modifies this
      ensures View() == old(View()).Contributed(target, sig)
      ensures result == old(View()).ContributionResult(target, sig)
    {
      if sig.manager in revokedDids {
        return AuthorisationFailed;
      }
      if !sig.resolves || !sig.verifies {
        return CryptoFailed;
      }
      if target !in pending {
        pending := pending[target := []];
      }
      for i := 0 to |pending[target]|
        invariant target in pending &&
                  pending == old(pending)[target := if target in old(pending) then old(pending)[target] else []]
        invariant forall k :: 0 <= k < i ==> pending[target][k].manager != sig.manager
      {
        if pending[target][i].manager == sig.manager {
          assert pending[target][i] in pending[target];
          return AuthorisationFailed;
        }
      }
      assert sig.manager !in Managers(pending[target]);
      if |pending[target]| >= thresholdM {
        return Ok(Applied);
      }
      pending := pending[target := pending[target] + [sig]];
      if |pending[target]| >= thresholdM {
        return Ok(Applied);
      }
      return Ok(Pending(|pending[target]|, thresholdM));
    }

    /** Processes a partial or complete delta; the effects of a completed revocation fire once. */
    method ProcessIncomingDelta(delta: RevocationDelta) returns (result: Result)
      modifies this
      ensures View() == old(View()).Processed(delta)
      ensures delta.target == "" ==> result == Malformed
      ensures delta.target != "" && delta.signatures == [] ==> result == ThresholdNotMet
      ensures delta.target != "" && delta.signatures != [] ==>
        result == match View().StatusOf(delta.target) case None => ThresholdNotMet case Some(status) => Ok(status)
    {
      if delta.target == "" {
        return Malformed;
      }
      if delta.signatures == [] {
        return ThresholdNotMet;
      }
      var target, sigs := delta.target, delta.signatures;
      var lastStatus: Option<Status> := None;
      for i := 0 to |sigs|
        invariant View() == old(View()).ContributedAll(target, sigs[..i])
        invariant revokedDids == old(revokedDids)
        invariant lastStatus.Some? ==> lastStatus == View().StatusOf(target)
      {
        assert sigs[..i + 1][..i] == sigs[..i];
        ContributionKeepsStatus(View(), target, sigs[i]);
        var r := AddSignature(target, sigs[i]);
        if r.Ok? {
          lastStatus := Some(r.status);
        }
      }
      assert sigs[..|sigs|] == sigs;
      var current := lastStatus;
      if current.None? {
        if target !in pending {
          return ThresholdNotMet;
        }
        current := Some(if |pending[target]| >= thresholdM then Applied else Pending(|pending[target]|, thresholdM));
      }
      if current.value == Applied && target !in revokedDids {
        revokedDids := revokedDids + [target];
        gossiped := gossiped + [RevocationDelta(target, pending[target])];
      }
      return Ok(current.value);
    }

    /** Checks a delta without effects: M distinct, genuine, unrevoked signers. */
    method ValidateRevocationDelta(delta: RevocationDelta) returns (accepted: bool)
      ensures accepted <==> Validates(View(), delta)
    {
      if delta.target == "" {
        return false;
      }
      var count := CountValid(delta.signatures, revokedDids, View());
      accepted := count >= thresholdM;
    }
  }

  // ---------------------------------------------------------------------------
  // Who signs

  lemma ManagersPush(sigs: seq<ManagerSignature>, sig: ManagerSignature)
    ensures Managers(sigs + [sig]) == Managers(sigs) + {sig.manager}
  {
    var more := sigs + [sig];
    assert sig in more;
    assert forall x :: x in sigs ==> x in more;
    assert forall x :: x in more ==> x in sigs || x == sig;
  }

  /** The unrevoked managers with a genuine signature in the list. */
  function GenuineSigners(s: Subsystem, sigs: seq<ManagerSignature>): set<Did> {
    set x | x in sigs && s.Accepts(x) :: x.manager
  }

  lemma GenuinePush(s: Subsystem, sigs: seq<ManagerSignature>, sig: ManagerSignature)
    ensures GenuineSigners(s, sigs + [sig]) == GenuineSigners(s, sigs) + if s.Accepts(sig) then {sig.manager} else {}
  {
    var more := sigs + [sig];
    assert sig in more;
    assert forall x :: x in sigs ==> x in more;
    assert forall x :: x in more ==> x in sigs || x == sig;
  }

  /** The managers the validation counts: those whose first listed signature is genuine. */
  function CountedSigners(s: Subsystem, sigs: seq<ManagerSignature>): set<Did> {
    if sigs == [] then {}
    else
      var init, last := sigs[..|sigs| - 1], sigs[|sigs| - 1];
      CountedSigners(s, init) + if s.Accepts(last) && last.manager !in Managers(init) then {last.manager} else {}
  }

  function UnrevokedManagers(s: Subsystem, sigs: seq<ManagerSignature>): set<Did> {
    set d | d in Managers(sigs) && d !in s.revoked
  }

  /** The managers seen in a list, and how many of them count. */
  ghost predicate Counting(s: Subsystem, sigs: seq<ManagerSignature>, seen: set<Did>, count: nat) {
    seen == UnrevokedManagers(s, sigs) && count == |CountedSigners(s, sigs)|
  }

  lemma CountOneMore(s: Subsystem, sigs: seq<ManagerSignature>, sig: ManagerSignature, seen: set<Did>, count: nat)
    requires Counting(s, sigs, seen, count)
    ensures sig.manager in s.revoked || sig.manager in seen ==> Counting(s, sigs + [sig], seen, count)
    ensures sig.manager !in s.revoked && sig.manager !in seen ==>
      Counting(s, sigs + [sig], seen + {sig.manager}, if s.Accepts(sig) then count + 1 else count)
  {
    assert (sigs + [sig])[..|sigs|] == sigs;
    ManagersPush(sigs, sig);
    CountedAreGenuine(s, sigs);
  }

  lemma CountNone(s: Subsystem)
    ensures Counting(s, [], {}, 0)
  {
    assert Managers([]) == {};
  }

  /** Counts distinct valid signers: skip revoked managers and repeats, then verify. */
  method CountValid(sigs: seq<ManagerSignature>, revoked: seq<Did>, ghost s: Subsystem) returns (count: nat)
    requires revoked == s.revoked
    ensures count == |CountedSigners(s, sigs)|
  {
    var seen: set<Did> := {};
    count := 0;
    ghost var done: seq<ManagerSignature> := [];
    CountNone(s);
    for i := 0 to |sigs|
      invariant done == sigs[..i]
      invariant Counting(s, done, seen, count)
    {
      CountOneMore(s, done, sigs[i], seen, count);
      done := done + [sigs[i]];
      if sigs[i].manager in revoked {
        continue;
      }
      if sigs[i].manager in seen {
        continue;
      }
      seen := seen + {sigs[i].manager};
      if sigs[i].resolves && sigs[i].verifies {
        count := count + 1;
      }
    }
    assert done == sigs;
  }

  predicate Validates(s: Subsystem, delta: RevocationDelta) {
    delta.target != "" && |CountedSigners(s, delta.signatures)| >= s.m
  }

  lemma {:induction false} CountedAreGenuine(s: Subsystem, sigs: seq<ManagerSignature>)
    ensures CountedSigners(s, sigs) <= GenuineSigners(s, sigs)
  {
    if sigs != [] {
      var init, last := sigs[..|sigs| - 1], sigs[|sigs| - 1];
      CountedAreGenuine(s, init);
      GenuinePush(s, init, last);
      assert sigs == init + [last];
    }
  }

  /** The first signature listed for a manager is genuine. */
  predicate FirstIsGenuine(sigs: seq<ManagerSignature>, d: Did) {
    exists i :: 0 <= i < |sigs| && sigs[i].manager == d && sigs[i].Genuine() &&
                forall j :: 0 <= j < i ==> sigs[j].manager != d
  }

  lemma FirstPush(init: seq<ManagerSignature>, last: ManagerSignature, d: Did)
    ensures FirstIsGenuine(init + [last], d) <==>
            FirstIsGenuine(init, d) || (last.manager == d && last.Genuine() && d !in Managers(init))
  {
    var sigs := init + [last];
    if FirstIsGenuine(init, d) {
      var i :| 0 <= i < |init| && init[i].manager == d && init[i].Genuine() &&
               forall j :: 0 <= j < i ==> init[j].manager != d;
      assert sigs[i] == init[i] && forall j :: 0 <= j < i ==> sigs[j] == init[j];
    }
    if last.manager == d && last.Genuine() && d !in Managers(init) {
      forall j | 0 <= j < |init| ensures sigs[j].manager != d {
        assert sigs[j] in init;
      }
      assert sigs[|init|] == last;
    }
    if i :| 0 <= i < |sigs| && sigs[i].manager == d && sigs[i].Genuine() &&
            forall j :: 0 <= j < i ==> sigs[j].manager != d
    {
      if i < |init| {
        assert init[i] == sigs[i] && forall j :: 0 <= j < i ==> init[j] == sigs[j];
      } else {
        forall x | x in init ensures x.manager != d {
          var j :| 0 <= j < |init| && init[j] == x;
          assert sigs[j] == x;
        }
      }
    }
  }

  /** The validation counts exactly the unrevoked managers whose first listed signature is genuine. */
  lemma {:induction false} CountedIffFirst(s: Subsystem, sigs: seq<ManagerSignature>, d: Did)
    ensures d in CountedSigners(s, sigs) <==> d !in s.revoked && FirstIsGenuine(sigs, d)
  {
    if sigs != [] {
      var init, last := sigs[..|sigs| - 1], sigs[|sigs| - 1];
      assert sigs == init + [last];
      CountedIffFirst(s, init, d);
      FirstPush(init, last, d);
    }
  }

  /** The genuine signers hidden by an earlier signature of their own that is not genuine. */
  function Hidden(s: Subsystem, sigs: seq<ManagerSignature>): set<Did> {
    set d | d in GenuineSigners(s, sigs) && !FirstIsGenuine(sigs, d)
  }

  /** The validation misses exactly the hidden signers. */
  lemma CountedAreVisible(s: Subsystem, sigs: seq<ManagerSignature>)
    ensures CountedSigners(s, sigs) == GenuineSigners(s, sigs) - Hidden(s, sigs)
    ensures |CountedSigners(s, sigs)| == |GenuineSigners(s, sigs)| - |Hidden(s, sigs)|
  {
    CountedAreGenuine(s, sigs);
    forall d ensures d in CountedSigners(s, sigs) <==> d in GenuineSigners(s, sigs) - Hidden(s, sigs) {
      CountedIffFirst(s, sigs, d);
      if d in GenuineSigners(s, sigs) {
        var x :| x in sigs && s.Accepts(x) && x.manager == d;
      }
    }
  }

  /** Validation and processing count the same signers if and only if no genuine signer is hidden. */
  lemma AllCountIff(s: Subsystem, sigs: seq<ManagerSignature>)
    ensures CountedSigners(s, sigs) == GenuineSigners(s, sigs) <==>
            forall d :: d in GenuineSigners(s, sigs) ==> FirstIsGenuine(sigs, d)
  {
    CountedAreVisible(s, sigs);
    if forall d :: d in GenuineSigners(s, sigs) ==> FirstIsGenuine(sigs, d) {
      assert Hidden(s, sigs) == {};
    } else {
      var d :| d in GenuineSigners(s, sigs) && !FirstIsGenuine(sigs, d);
      assert d in Hidden(s, sigs);
    }
  }

  lemma ValidatesIff(s: Subsystem, delta: RevocationDelta)
    ensures Validates(s, delta) <==>
            delta.target != "" && |GenuineSigners(s, delta.signatures)| - |Hidden(s, delta.signatures)| >= s.m
  {
    CountedAreVisible(s, delta.signatures);
  }

  /** When no manager is listed twice, the validation counts every genuine signer. */
  lemma DistinctManagersAllCount(s: Subsystem, sigs: seq<ManagerSignature>)
    requires DistinctManagers(sigs)
    ensures CountedSigners(s, sigs) == GenuineSigners(s, sigs)
  {
    forall d | d in GenuineSigners(s, sigs) ensures FirstIsGenuine(sigs, d) {
      var x :| x in sigs && s.Accepts(x) && x.manager == d;
      var i :| 0 <= i < |sigs| && sigs[i] == x;
    }
    AllCountIff(s, sigs);
  }

  // ---------------------------------------------------------------------------
  // Accumulation

  /** What a target has collected, as far as `presented` managers have signed for it. */
  ghost predicate Collected(s: Subsystem, target: Did, presented: set<Did>) {
    && (target in s.pending <==> presented != {})
    && (target in s.pending ==>
          var have := s.pending[target];
          && DistinctManagers(have)
          && (forall x :: x in have ==> x.Genuine())
          && |have| <= s.m
          && Managers(have) <= presented
          && (|have| < s.m ==> Managers(have) == presented))
  }

  /** Nothing but the collection of one target differs. */
  ghost predicate OnlyCollects(s: Subsystem, s': Subsystem, target: Did) {
    && s'.m == s.m && s'.revoked == s.revoked && s'.gossiped == s.gossiped
    && (forall t :: t != target ==>
          (t in s'.pending <==> t in s.pending) && (t in s.pending ==> s'.pending[t] == s.pending[t]))
  }

  lemma ContributionKeepsStatus(s: Subsystem, target: Did, sig: ManagerSignature)
    ensures var s' := s.Contributed(target, sig);
      && OnlyCollects(s, s', target)
      && (s.ContributionResult(target, sig).Ok? ==>
          s'.StatusOf(target) == Some(s.ContributionResult(target, sig).status))
      && (!s.ContributionResult(target, sig).Ok? && s.StatusOf(target).Some? ==>
          s'.StatusOf(target) == s.StatusOf(target))
  {
  }

  lemma ContributionCollects(s: Subsystem, target: Did, sig: ManagerSignature, presented: set<Did>)
    requires Collected(s, target, presented)
    ensures Collected(s.Contributed(target, sig), target, presented + if s.Accepts(sig) then {sig.manager} else {})
  {
    if s.Accepts(sig) {
      var have := if target in s.pending then s.pending[target] else [];
      ManagersPush(have, sig);
      assert Managers([]) == {};
      if sig.manager !in Managers(have) {
        forall i | 0 <= i < |have| ensures have[i].manager != sig.manager {
          assert have[i] in have;
        }
      } else {
        assert sig.manager in presented;
        assert presented + {sig.manager} == presented;
      }
    } else {
      assert presented + {} == presented;
    }
  }

  lemma {:induction false} BatchCollects(s: Subsystem, target: Did, sigs: seq<ManagerSignature>, presented: set<Did>)
    requires Collected(s, target, presented)
    ensures var s' := s.ContributedAll(target, sigs);
      && OnlyCollects(s, s', target)
      && Collected(s', target, presented + GenuineSigners(s, sigs))
  {
    if sigs == [] {
      assert presented + GenuineSigners(s, []) == presented;
    } else {
      var init, last := sigs[..|sigs| - 1], sigs[|sigs| - 1];
      assert sigs == init + [last];
      BatchCollects(s, target, init, presented);
      BatchStep(s, s.ContributedAll(target, init), target, init, last, presented);
    }
  }

  lemma BatchStep(s: Subsystem, mid: Subsystem, target: Did, init: seq<ManagerSignature>, last: ManagerSignature,
                  presented: set<Did>)
    requires OnlyCollects(s, mid, target) && Collected(mid, target, presented + GenuineSigners(s, init))
    ensures OnlyCollects(s, mid.Contributed(target, last), target)
    ensures Collected(mid.Contributed(target, last), target, presented + GenuineSigners(s, init + [last]))
  {
    ContributionKeepsStatus(mid, target, last);
    ContributionCollects(mid, target, last, presented + GenuineSigners(s, init));
    SignersPush(s, mid, init, last, presented);
    OnlyCollectsTwice(s, mid, mid.Contributed(target, last), target);
  }

  lemma OnlyCollectsTwice(s: Subsystem, mid: Subsystem, s': Subsystem, target: Did)
    requires OnlyCollects(s, mid, target) && OnlyCollects(mid, s', target)
    ensures OnlyCollects(s, s', target)
  {
  }

  lemma SignersPush(s: Subsystem, mid: Subsystem, init: seq<ManagerSignature>, last: ManagerSignature,
                    presented: set<Did>)
    requires mid.revoked == s.revoked
    ensures presented + GenuineSigners(s, init) + (if mid.Accepts(last) then {last.manager} else {}) ==
            presented + GenuineSigners(s, init + [last])
  {
    GenuinePush(s, init, last);
  }

  // ---------------------------------------------------------------------------
  // Every sequence of incoming deltas

  function Run(m: nat, deltas: seq<RevocationDelta>): Subsystem {
    if deltas == [] then Subsystem(m, map[], [], [])
    else Run(m, deltas[..|deltas| - 1]).Processed(deltas[|deltas| - 1])
  }

  /** The managers who presented a genuine signature for `target` while they were not revoked. */
  function Presented(m: nat, deltas: seq<RevocationDelta>, target: Did): set<Did> {
    if deltas == [] then {}
    else
      var init, last := deltas[..|deltas| - 1], deltas[|deltas| - 1];
      Presented(m, init, target) +
      if last.target == target && target != "" then GenuineSigners(Run(m, init), last.signatures) else {}
  }

  /** The threshold in force: with M = 0 one signature is still needed to start. */
  function Threshold(m: nat): nat {
    if m == 0 then 1 else m
  }

  ghost predicate Inv(s: Subsystem) {
    && NoDup(s.revoked)
    && |s.gossiped| == |s.revoked|
    && (forall i :: 0 <= i < |s.revoked| ==> s.gossiped[i].target == s.revoked[i] && Complete(s, s.gossiped[i]))
    && (forall t :: t in s.revoked <==> s.StatusOf(t) == Some(Applied))
  }

  /** A complete revocation: exactly M signatures, all genuine, from distinct managers. */
  ghost predicate Complete(s: Subsystem, delta: RevocationDelta) {
    && delta.target != "" && |delta.signatures| == s.m
    && DistinctManagers(delta.signatures)
    && (forall x :: x in delta.signatures ==> x.Genuine())
  }

  lemma ProcessKeeps(s: Subsystem, delta: RevocationDelta, presented: set<Did>)
    requires Inv(s) && Collected(s, delta.target, presented)
    ensures Inv(s.Processed(delta)) && s.Processed(delta).m == s.m && s.revoked <= s.Processed(delta).revoked
    ensures Collected(s.Processed(delta), delta.target,
              presented + if delta.target != "" then GenuineSigners(s, delta.signatures) else {})
    ensures var s' := s.Processed(delta);
      forall t :: t != delta.target ==>
          (t in s'.pending <==> t in s.pending) && (t in s.pending ==> s'.pending[t] == s.pending[t])
  {
    if delta.target == "" || delta.signatures == [] {
      assert presented + {} == presented;
      assert GenuineSigners(s, []) == {};
    } else {
      BatchCollects(s, delta.target, delta.signatures, presented);
      var mid := s.ContributedAll(delta.target, delta.signatures);
      AppliedStays(s, delta.target, delta.signatures);
      forall t ensures t in s.Processed(delta).revoked <==> s.Processed(delta).StatusOf(t) == Some(Applied) {
        if t != delta.target {
          assert mid.StatusOf(t) == s.StatusOf(t);
        }
      }
    }
  }

  /** An applied target stays applied under further contributions. */
  lemma {:induction false} AppliedStays(s: Subsystem, target: Did, sigs: seq<ManagerSignature>)
    ensures s.StatusOf(target) == Some(Applied) ==> s.ContributedAll(target, sigs).StatusOf(target) == Some(Applied)
    ensures s.ContributedAll(target, sigs).m == s.m
  {
    if sigs != [] {
      AppliedStays(s, target, sigs[..|sigs| - 1]);
    }
  }

  lemma {:induction false} RunCollects(m: nat, deltas: seq<RevocationDelta>, target: Did)
    ensures var s := Run(m, deltas);
      s.m == m && Inv(s) && Collected(s, target, Presented(m, deltas, target))
  {
    if deltas != [] {
      var init, last := deltas[..|deltas| - 1], deltas[|deltas| - 1];
      RunCollects(m, init, target);
      RunCollects(m, init, last.target);
      ProcessKeeps(Run(m, init), last, Presented(m, init, last.target));
      if target != last.target {
        assert Presented(m, deltas, target) == Presented(m, init, target);
      }
    }
  }

  /**
    M-of-N, whatever the order and batching: a target is revoked exactly when enough distinct
    managers, each unrevoked at the time, have presented a genuine signature for it; and each
    revoked target was gossiped exactly once.
   */
  lemma RevokedIffThreshold(m: nat, deltas: seq<RevocationDelta>, target: Did)
    ensures var s := Run(m, deltas);
      && (target in s.revoked <==> |Presented(m, deltas, target)| >= Threshold(m))
      && NoDup(s.revoked)
      && |s.gossiped| == |s.revoked| && (forall i :: 0 <= i < |s.revoked| ==> s.gossiped[i].target == s.revoked[i])
  {
    RunCollects(m, deltas, target);
    var s, presented := Run(m, deltas), Presented(m, deltas, target);
    if target in s.pending {
      var have := s.pending[target];
      ManagersSize(have);
      SubsetSize(Managers(have), presented);
      assert presented != {};
    }
  }

  /**
    What a target is told: nothing before anyone has signed, Applied from the threshold on, and in between
    how many have signed and how many must.
   */
  lemma StatusIff(m: nat, deltas: seq<RevocationDelta>, target: Did)
    ensures var status, count := Run(m, deltas).StatusOf(target), |Presented(m, deltas, target)|;
      && (status == None <==> count == 0)
      && (status == Some(Applied) <==> count > 0 && count >= m)
      && (0 < count < m ==> status == Some(Pending(count, m)))
  {
    RunCollects(m, deltas, target);
    var s, presented := Run(m, deltas), Presented(m, deltas, target);
    if target in s.pending {
      var have := s.pending[target];
      ManagersSize(have);
      SubsetSize(Managers(have), presented);
    }
  }

  /** Who counts for a list of signatures: its unrevoked managers whose key resolves and verifies one of them. */
  lemma SignersAre(s: Subsystem, sigs: seq<ManagerSignature>, d: Did)
    ensures d in GenuineSigners(s, sigs) <==>
            && d !in s.revoked
            && exists i :: 0 <= i < |sigs| && sigs[i].manager == d && sigs[i].resolves && sigs[i].verifies
  {
    if x :| x in sigs && s.Accepts(x) && x.manager == d {
      var i :| 0 <= i < |sigs| && sigs[i] == x;
    }
  }

  /**
    The answer to one signature over every run: a revoked manager and a repeated one are refused, a
    signature that does not verify fails, and the others hear how far the target has come.
   */
  lemma AnswerIff(m: nat, deltas: seq<RevocationDelta>, target: Did, sig: ManagerSignature)
    ensures var s, presented := Run(m, deltas), Presented(m, deltas, target);
      var answer, count := s.ContributionResult(target, sig), |presented + {sig.manager}|;
      && (sig.manager in s.revoked ==> answer == AuthorisationFailed)
      && (sig.manager !in s.revoked && !(sig.resolves && sig.verifies) ==> answer == CryptoFailed)
      && (sig.manager !in s.revoked && sig.resolves && sig.verifies ==>
            && (|presented| < m && sig.manager in presented ==> answer == AuthorisationFailed)
            && (|presented| < m && sig.manager !in presented ==>
                  answer == Ok(if count >= m then Applied else Pending(count, m)))
            && (|presented| >= m && sig.manager !in presented ==> answer == Ok(Applied)))
  {
    RunCollects(m, deltas, target);
    if sig.manager !in Run(m, deltas).revoked && sig.resolves && sig.verifies {
      AnswerWhen(Run(m, deltas), target, sig, Presented(m, deltas, target));
    }
  }

  lemma AnswerWhen(s: Subsystem, target: Did, sig: ManagerSignature, presented: set<Did>)
    requires Collected(s, target, presented) && s.Accepts(sig)
    ensures var answer, count := s.ContributionResult(target, sig), |presented + {sig.manager}|;
      && (|presented| < s.m && sig.manager in presented ==> answer == AuthorisationFailed)
      && (|presented| < s.m && sig.manager !in presented ==>
            answer == Ok(if count >= s.m then Applied else Pending(count, s.m)))
      && (|presented| >= s.m && sig.manager !in presented ==> answer == Ok(Applied))
  {
    HaveOf(s, target, presented);
    AnswerFor(s, target, sig, Have(s, target));
    if sig.manager !in presented {
      OneMoreManager(presented, sig.manager);
    }
  }

  lemma OneMoreManager(presented: set<Did>, d: Did)
    requires d !in presented
    ensures |presented + {d}| == |presented| + 1
  {
  }

  /** What has been collected for a target. */
  function Have(s: Subsystem, target: Did): seq<ManagerSignature> {
    if target in s.pending then s.pending[target] else []
  }

  lemma HaveOf(s: Subsystem, target: Did, presented: set<Did>)
    requires Collected(s, target, presented)
    ensures var have := Have(s, target);
      && |have| <= s.m && |have| <= |presented| && Managers(have) <= presented
      && (|have| < s.m ==> |have| == |presented| && Managers(have) == presented)
  {
    assert Managers([]) == {};
    ManagersSize(Have(s, target));
    SubsetSize(Managers(Have(s, target)), presented);
  }

  lemma AnswerFor(s: Subsystem, target: Did, sig: ManagerSignature, have: seq<ManagerSignature>)
    requires s.Accepts(sig) && have == Have(s, target)
    ensures var answer := s.ContributionResult(target, sig);
      && (sig.manager in Managers(have) ==> answer == AuthorisationFailed)
      && (sig.manager !in Managers(have) && |have| + 1 >= s.m ==> answer == Ok(Applied))
      && (sig.manager !in Managers(have) && |have| + 1 < s.m ==> answer == Ok(Pending(|have| + 1, s.m)))
  {
  }

  lemma LastManagerIsNew(init: seq<ManagerSignature>, last: ManagerSignature)
    requires DistinctManagers(init + [last])
    ensures last.manager !in Managers(init) && DistinctManagers(init)
  {
    var all := init + [last];
    assert all[|init|] == last && forall i :: 0 <= i < |init| ==> all[i] == init[i];
  }

  lemma {:induction false} ManagersSize(sigs: seq<ManagerSignature>)
    requires DistinctManagers(sigs)
    ensures |Managers(sigs)| == |sigs|
  {
    if sigs != [] {
      var init, last := sigs[..|sigs| - 1], sigs[|sigs| - 1];
      assert sigs == init + [last];
      LastManagerIsNew(init, last);
      ManagersSize(init);
      ManagersPush(init, last);
    } else {
      assert Managers(sigs) == {};
    }
  }

  /** Revocation is for ever: later deltas only extend the list. */
  lemma {:induction false} RevokedStays(m: nat, deltas: seq<RevocationDelta>, more: seq<RevocationDelta>)
    ensures Run(m, deltas).revoked <= Run(m, deltas + more).revoked
  {
    if more == [] {
      assert deltas + more == deltas;
    } else {
      var init, last := more[..|more| - 1], more[|more| - 1];
      RevokedStays(m, deltas, init);
      assert (deltas + more)[..|deltas + more| - 1] == deltas + init;
      RunCollects(m, deltas + init, last.target);
      ProcessKeeps(Run(m, deltas + init), last, Presented(m, deltas + init, last.target));
    }
  }

  // ---------------------------------------------------------------------------
  // Validation against processing

  /** A delta with M genuine signers is applied at once, whatever had been collected before. */
  lemma EnoughSignersApply(m: nat, deltas: seq<RevocationDelta>, delta: RevocationDelta)
    requires m >= 1 && delta.target != "" && |GenuineSigners(Run(m, deltas), delta.signatures)| >= m
    ensures delta.target in Run(m, deltas).Processed(delta).revoked
  {
    var all := deltas + [delta];
    assert all[..|all| - 1] == deltas;
    RevokedIffThreshold(m, all, delta.target);
    SubsetSize(GenuineSigners(Run(m, deltas), delta.signatures), Presented(m, all, delta.target));
  }

  /** After processing, the target is revoked if and only if enough managers have signed for it by then. */
  lemma ProcessAppliesIff(m: nat, deltas: seq<RevocationDelta>, delta: RevocationDelta)
    ensures var s := Run(m, deltas);
      delta.target in s.Processed(delta).revoked <==>
      delta.target != "" && |Presented(m, deltas, delta.target) + GenuineSigners(s, delta.signatures)| >= Threshold(m)
  {
    var all := deltas + [delta];
    assert all[..|all| - 1] == deltas;
    RevokedIffThreshold(m, all, delta.target);
    if delta.target == "" {
      NobodyForNoTarget(m, all);
    }
  }

  lemma {:induction false} NobodyForNoTarget(m: nat, deltas: seq<RevocationDelta>)
    ensures Presented(m, deltas, "") == {}
  {
    if deltas != [] {
      NobodyForNoTarget(m, deltas[..|deltas| - 1]);
    }
  }

  /**
    The validation accepts what the processing does not apply only for M = 0: a named target, not yet
    revoked, without a genuine signer.
   */
  lemma AcceptedNotAppliedIff(m: nat, deltas: seq<RevocationDelta>, delta: RevocationDelta)
    ensures var s := Run(m, deltas);
      Validates(s, delta) && delta.target !in s.Processed(delta).revoked <==>
      m == 0 && delta.target != "" && delta.target !in s.revoked && GenuineSigners(s, delta.signatures) == {}
  {
    var s, presented := Run(m, deltas), Presented(m, deltas, delta.target);
    RunCollects(m, deltas, "");
    ProcessAppliesIff(m, deltas, delta);
    RevokedIffThreshold(m, deltas, delta.target);
    if m > 0 && Validates(s, delta) {
      ValidatedIsApplied(m, deltas, delta);
    }
    var signed := presented + GenuineSigners(s, delta.signatures);
    assert signed == {} <==> presented == {} && GenuineSigners(s, delta.signatures) == {};
    assert |signed| >= 1 <==> signed != {};
    assert |presented| >= 1 <==> presented != {};
  }

  /**
    The processing applies what the validation refuses exactly when the visible signers of the delta
    are too few and all who signed are enough.
   */
  lemma AppliedNotAcceptedIff(m: nat, deltas: seq<RevocationDelta>, delta: RevocationDelta)
    ensures var s := Run(m, deltas);
      !Validates(s, delta) && delta.target in s.Processed(delta).revoked <==>
      && delta.target != ""
      && |GenuineSigners(s, delta.signatures)| - |Hidden(s, delta.signatures)| < m
      && |Presented(m, deltas, delta.target) + GenuineSigners(s, delta.signatures)| >= Threshold(m)
  {
    RunCollects(m, deltas, "");
    ProcessAppliesIff(m, deltas, delta);
    ValidatesIff(Run(m, deltas), delta);
  }

  /** For M at least one, what the validation accepts the processing applies. */
  lemma ValidatedIsApplied(m: nat, deltas: seq<RevocationDelta>, delta: RevocationDelta)
    requires m >= 1 && Validates(Run(m, deltas), delta)
    ensures delta.target in Run(m, deltas).Processed(delta).revoked
    ensures Run(m, deltas).Processed(delta).StatusOf(delta.target) == Some(Applied)
  {
    RunCollects(m, deltas, delta.target);
    CountedAreGenuine(Run(m, deltas), delta.signatures);
    SubsetSize(CountedSigners(Run(m, deltas), delta.signatures), GenuineSigners(Run(m, deltas), delta.signatures));
    EnoughSignersApply(m, deltas, delta);
    ProcessKeeps(Run(m, deltas), delta, Presented(m, deltas, delta.target));
  }

  /** A gossiped delta holds M distinct genuine signers, and one such delta convinces any peer that trusts them. */
  lemma GossipConvincesPeers(m: nat, deltas: seq<RevocationDelta>, i: nat, peer: seq<RevocationDelta>)
    requires m >= 1 && i < |Run(m, deltas).gossiped|
    requires forall x :: x in Run(m, deltas).gossiped[i].signatures ==> x.manager !in Run(m, peer).revoked
    ensures var g := Run(m, deltas).gossiped[i];
      && |Managers(g.signatures)| == |g.signatures| == m
      && Validates(Run(m, peer), g)
      && g.target in Run(m, peer).Processed(g).revoked
  {
    RunCollects(m, deltas, "");
    RunCollects(m, peer, "");
    var g, p := Run(m, deltas).gossiped[i], Run(m, peer);
    assert Complete(Run(m, deltas), g);
    ManagersSize(g.signatures);
    DistinctManagersAllCount(p, g.signatures);
    assert GenuineSigners(p, g.signatures) == Managers(g.signatures);
    ValidatedIsApplied(m, peer, g);
  }

  /** The converse fails: a forged signature listed before a manager's genuine one hides it from the validation only. */
  lemma ForgedFirstHidesSigner()
    ensures var d := RevocationDelta("device",
                                     [ManagerSignature("mgr", true, false), ManagerSignature("mgr", true, true)]);
      && !Validates(Run(1, []), d)
      && "device" in Run(1, []).Processed(d).revoked
  {
    var forged, genuine := ManagerSignature("mgr", true, false), ManagerSignature("mgr", true, true);
    var d, s := RevocationDelta("device", [forged, genuine]), Run(1, []);
    assert d.signatures[..1] == [forged] && [forged][..0] == [];
    assert forged in [forged] && CountedSigners(s, []) == {};
    assert CountedSigners(s, [forged]) == {};
    assert CountedSigners(s, d.signatures) == {};
    assert genuine in d.signatures && "mgr" in GenuineSigners(s, d.signatures);
    SubsetSize({"mgr"}, GenuineSigners(s, d.signatures));
    EnoughSignersApply(1, [], d);
  }

  /** With M = 0 the validation accepts an empty list, which the processing refuses. */
  lemma ZeroThresholdDisagrees()
    ensures Validates(Run(0, []), RevocationDelta("device", []))
    ensures "device" !in Run(0, []).Processed(RevocationDelta("device", [])).revoked
  {
  }
}
