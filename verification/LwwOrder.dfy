/** The last-writer-wins rule: higher Lamport first, then the greater actor bytes. */
module LwwOrder {
  import opened ChangesetDags
  import opened CrdtEngines
  import opened Deltas
  import opened LexOrder
  import opened Mesh
  import opened MeshClocks
  import opened Sequences

  function IncomingWins(incomingLamport: nat, incomingActor: Bytes, currentLamport: nat, currentActor: Bytes): bool {
    if incomingLamport > currentLamport then true
    else if incomingLamport < currentLamport then false
    else Less(currentActor, incomingActor)
  }

  datatype Write = Write(lamport: nat, actor: Bytes)

  predicate Beats(a: Write, b: Write) {
    IncomingWins(a.lamport, a.actor, b.lamport, b.actor)
  }

  predicate Loses(a: Write, b: Write) {
    Beats(b, a)
  }

  /** The rule is a strict total order. */
  lemma BeatsIsStrictTotal()
    ensures StrictTotalOrder(Beats) && StrictTotalOrder(Loses)
  {
    LessIsStrictTotal();
  }

  /** A higher Lamport wins; on equal Lamports the actor with the greater bytes does. */
  lemma BeatsIff(a: Write, b: Write)
    ensures Beats(a, b) <==>
            || a.lamport > b.lamport
            || (a.lamport == b.lamport && exists k: nat :: SmallerAt(b.actor, a.actor, k))
  {
    LessIff(b.actor, a.actor);
  }

  /** Applying writes one after another, each against the current winner. */
  function Winner(writes: seq<Write>): (w: Write)
    requires writes != []
  {
    if |writes| == 1 then writes[0]
    else
      var current, incoming := Winner(writes[..|writes| - 1]), writes[|writes| - 1];
      if Beats(incoming, current) then incoming else current
  }

  ghost predicate IsGreatest(w: Write, writes: seq<Write>) {
    w in writes && forall x :: x in writes && x != w ==> Beats(w, x)
  }

  lemma {:induction false} WinnerIsGreatest(writes: seq<Write>)
    requires writes != []
    ensures IsGreatest(Winner(writes), writes)
  {
    BeatsIsStrictTotal();
    if |writes| > 1 {
      var init := writes[..|writes| - 1];
      WinnerIsGreatest(init);
      assert writes == init + [writes[|writes| - 1]];
    }
  }

  /** The winner has the greatest Lamport, and of the writes with that Lamport the greatest actor bytes. */
  lemma WinnerIsNewest(writes: seq<Write>, x: Write)
    requires x in writes
    ensures Winner(writes) in writes && x.lamport <= Winner(writes).lamport
    ensures x.lamport == Winner(writes).lamport ==>
            x.actor == Winner(writes).actor || exists k: nat :: SmallerAt(x.actor, Winner(writes).actor, k)
  {
    WinnerIsGreatest(writes);
    if x != Winner(writes) {
      BeatsIff(Winner(writes), x);
    }
  }

  /** The winner depends on which writes there are, not on their order or repetition. */
  lemma WinnerOrderIndependent(s: seq<Write>, t: seq<Write>)
    requires s != [] && t != [] && Elems(s) == Elems(t)
    ensures Winner(s) == Winner(t)
  {
    BeatsIsStrictTotal();
    WinnerIsGreatest(s);
    WinnerIsGreatest(t);
    assert Winner(s) in Elems(s) && Winner(t) in Elems(t);
    assert Winner(s) in t && Winner(t) in s;
  }

  lemma BeatsChain(a: Write, b: Write, c: Write)
    requires (a == b || Beats(a, b)) && (b == c || Beats(b, c))
    ensures a == c || Beats(a, c)
  {
    BeatsIsStrictTotal();
  }

  lemma GreatestUnique(a: Write, b: Write, writes: seq<Write>)
    requires IsGreatest(a, writes) && IsGreatest(b, writes)
    ensures a == b
  {
    BeatsIsStrictTotal();
  }

  /** Merging the winners of two groups gives the winner of all. */
  lemma WinnerGroups(s: seq<Write>, t: seq<Write>)
    requires s != [] && t != []
    ensures Winner([Winner(s), Winner(t)]) == Winner(s + t)
  {
    var pair, all := [Winner(s), Winner(t)], s + t;
    WinnerIsGreatest(s);
    WinnerIsGreatest(t);
    WinnerIsGreatest(pair);
    WinnerIsGreatest(all);
    var w := Winner(pair);
    assert pair[0] in pair && pair[1] in pair;
    forall x | x in all && x != w ensures Beats(w, x) {
      BeatsChain(w, if x in s then Winner(s) else Winner(t), x);
    }
    GreatestUnique(w, Winner(all), all);
  }

  /** Every write above the clock of `e` beats every write `e` has stored, whoever made them. */
  ghost predicate AboveClockBeatsAll(e: Engine) {
    forall incoming: Write, n, actor :: n in e.dag.nodes && incoming.lamport > e.lamport ==>
      Beats(incoming, Write(e.dag.nodes[n].lamport, actor))
  }

  lemma AboveClockIff(e: Engine)
    ensures AboveClockBeatsAll(e) <==> Dominates(e)
  {
    if n :| n in e.dag.nodes && e.dag.nodes[n].lamport > e.lamport {
      assert !Less([], []);
      assert !Beats(Write(e.lamport + 1, []), Write(e.dag.nodes[n].lamport, []));
    }
  }

  /**
    Over every run, devices started again included: writes above a device's clock beat everything it
    has stored if and only if the clock has caught up with what its process found stored.
   */
  lemma DefinitiveBeatsAll(run: seq<Network>, d: Did)
    requires IsRun(run) && d in run[|run| - 1].engines
    ensures AboveClockBeatsAll(run[|run| - 1].engines[d]) <==> CaughtUp(run, d)
  {
    AboveClockIff(run[|run| - 1].engines[d]);
    ClockDominatesIff(run, d);
  }
}
