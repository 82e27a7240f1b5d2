/**
  The CRDT engine: the Lamport clock, the gates an incoming delta passes, and the merge.  The
  document is the list of changesets merged into it.
 */
module CrdtEngines {
  import opened ChangesetDags
  import opened Deltas
  import opened LexOrder
  import opened SchemaDiffs
  import opened SchemaHashes
  import opened Sequences

  datatype Signature = Absent | Forged | Genuine
  datatype Payload = NoBytes | Envelope | Changeset

  datatype Delta = Delta(id: DeltaId, author: Did, authorResolves: bool, signature: Signature, schemaHash: SchemaHash,
                         payload: Payload, parents: seq<DeltaId>, lamport: nat)

  datatype RejectionCode = RevokedAuthor | MissingSignature | DidResolutionFailed | SignatureVerificationFailed
  datatype Rejection = Rejection(code: RejectionCode, author: Did, id: DeltaId)
  const MAX_REJECTION_RECORDS := 1024

  datatype SchemaClass = Known | Additive | Breaking | Unknown
  datatype Outcome =
    | Merged(newLamport: nat)
    | Quarantined(breaking: bool)
    | Rejected(code: RejectionCode)
    | Failed

  /** What the world decides during one merge: whether the document merge and the store write work. */
  datatype World = World(mergeWorks: bool, storeWorks: bool)

  datatype Engine = Engine(lamport: nat, currentSchema: SchemaHash, known: set<SchemaHash>,
                           definitions: map<SchemaHash, Schema>, revoked: set<Did>,
                           rejections: seq<Rejection>, doc: seq<DeltaId>, dag: Dag)
  {
    /** Definitions are filed under their own hash and the deployed schema is accepted. */
    ghost predicate Valid() {
      && dag.Valid()
      && currentSchema in known
      && (forall h :: h in definitions ==> HashOf(definitions[h]) == h)
      && |rejections| <= MAX_REJECTION_RECORDS
    }

    /** What the schema gate makes of an incoming hash, by inclusion of structures. */
    ghost function Classify(hash: SchemaHash): SchemaClass {
      if hash in known then Known
      else if currentSchema !in definitions || hash !in definitions then Unknown
      else ByStructure(currentSchema, hash)
    }

    /** The one gate a delta fails first, if any. */
    ghost function Gate(delta: Delta): Option<Outcome> {
      if delta.author in revoked then Some(Rejected(RevokedAuthor))
      else if Classify(delta.schemaHash) == Breaking then Some(Quarantined(true))
      else if Classify(delta.schemaHash) == Unknown then Some(Quarantined(false))
      else if delta.signature == Absent then Some(Rejected(MissingSignature))
      else if !delta.authorResolves then Some(Rejected(DidResolutionFailed))
      else if delta.signature == Forged then Some(Rejected(SignatureVerificationFailed))
      else None
    }

    function Recorded(r: Rejection): seq<Rejection> {
      var all := rejections + [r];
      if |all| > MAX_REJECTION_RECORDS then all[1..] else all
    }

    /** The engine after an incoming delta. */
    ghost function Applied(delta: Delta, world: World): Engine {
      match Gate(delta)
      case Some(Rejected(code)) => this.(rejections := Recorded(Rejection(code, delta.author, delta.id)))
      case Some(_) => this
      case None => this.(known := known + {delta.schemaHash}).Admitted(delta, world)
    }

    /** The engine after merging, counting and storing a delta that passed the gates. */
    ghost function Admitted(delta: Delta, world: World): Engine {
      if delta.payload == Changeset && !world.mergeWorks then this
      else
        var merged := this.(doc := if delta.payload == Changeset then doc + [delta.id] else doc,
                            lamport := Max(lamport, delta.lamport) + 1);
        if world.storeWorks then merged.(dag := dag.Insert(delta.id, NodeOf(delta), delta.parents)) else merged
    }

    ghost function ApplyOutcome(delta: Delta, world: World): Outcome {
      match Gate(delta)
      case Some(outcome) => outcome
      case None =>
        if (delta.payload == Changeset && !world.mergeWorks) || !world.storeWorks then Failed
        else Merged(Max(lamport, delta.lamport) + 1)
    }

    /** The engine after producing `delta`; `kept` says whether the node could be stored. */
    ghost function Produced(delta: Delta, kept: bool): Engine {
      var ticked := this.(lamport := lamport + 1);
      if kept then ticked.(dag := dag.Insert(delta.id, NodeOf(delta), delta.parents)) else ticked
    }

    /** The engine a new process opens over the same tables: they stay, everything else starts afresh. */
    function Reopened(hash: SchemaHash): Engine {
      Engine(0, hash, {hash}, map[], {}, [], [], dag)
    }

    /** The causal parents of a locally produced delta. */
    ghost predicate ParentsFor(explicit: seq<DeltaId>, parents: seq<DeltaId>) {
      if explicit != [] then parents == explicit
      else NoDup(parents) && forall n :: n in parents <==> dag.IsTip(n)
    }
  }

  /** The class of a hash whose definition is at hand: structures that agree leave it unknown. */
  ghost function ByStructure(current: SchemaHash, hash: SchemaHash): SchemaClass {
    if !Includes(StructureOf(current), StructureOf(hash)) then Breaking
    else if StructureOf(current) != StructureOf(hash) then Additive
    else Unknown
  }

  function Max(a: nat, b: nat): nat {
    if a < b then b else a
  }

  function NodeOf(delta: Delta): DagNode {
    DagNode(delta.lamport, delta.author)
  }

  class CrdtEngine {
    const author: Did
    const dag: ChangesetDag
    var lamport: nat
    var currentSchema: SchemaHash
    var known: set<SchemaHash>
    var definitions: map<SchemaHash, Schema>
    var revoked: set<Did>
    var rejections: seq<Rejection>
    var doc: seq<DeltaId>

    ghost function View(): Engine
      reads this, dag
    {
      Engine(lamport, currentSchema, known, definitions, revoked, rejections, doc, dag.View())
    }

    ghost predicate Valid()
      reads this, dag
    {
      View().Valid()
    }

    /** Opens an engine over tables that may hold the nodes of an earlier process; the clock is not read back. */
    constructor (author: Did, schemaHash: SchemaHash, dag: ChangesetDag)
      requires dag.Valid()
      ensures Valid() && this.dag == dag && this.author == author
      ensures View() == Engine(0, schemaHash, {schemaHash}, map[], {}, [], [], dag.View())
      ensures forall e: Engine :: e.dag == dag.View() ==> View() == e.Reopened(schemaHash)
    {
      this.author, this.dag := author, dag;
      lamport, currentSchema, known, definitions := 0, schemaHash, {schemaHash}, map[];
      revoked, rejections, doc := {}, [], [];
    }

    method AddKnownSchema(hash: SchemaHash)
      requires Valid()
      modifies this
      ensures Valid() && View() == old(View()).(known := old(known) + {hash})
    {
      known := known + {hash};
    }

    /** Files a definition under its hash; a definition that hashes differently is refused. */
    method RegisterSchemaDefinition(expected: SchemaHash, schema: Schema) returns (ok: bool)
      requires Valid()
      modifies this
      ensures Valid() && (ok <==> HashOf(schema) == expected)
      ensures View() == if ok then old(View()).(definitions := old(definitions)[expected := schema]) else old(View())
    {
      ok := HashOf(schema) == expected;
      if ok {
        definitions := definitions[expected := schema];
      }
    }

    method SetCurrentSchema(hash: SchemaHash)
      requires Valid()
      modifies this
      ensures Valid() && View() == old(View()).(currentSchema := hash, known := old(known) + {hash})
    {
      currentSchema := hash;
      known := known + {hash};
    }

    method MarkDidRevoked(did: Did)
      requires Valid()
      modifies this
      ensures Valid() && View() == old(View()).(revoked := old(revoked) + {did})
    {
      revoked := revoked + {did};
    }

    /** The schema gate by field-level diff. */
    method ClassifyIncomingSchema(hash: SchemaHash) returns (c: SchemaClass)
      requires Valid()
      ensures c == View().Classify(hash)
    {
      if hash in known {
        return Known;
      }
      if currentSchema !in definitions || hash !in definitions {
        return Unknown;
      }
      var diff := DiffSchemas(definitions[currentSchema], definitions[hash]);
      HashHasStructure(definitions[currentSchema]);
      HashHasStructure(definitions[hash]);
      Trichotomy(StructureOf(currentSchema), StructureOf(hash), diff);
      if diff.IsAdditive() {
        c := Additive;
      } else if diff.IsBreaking() {
        c := Breaking;
      } else {
        c := Unknown;
      }
    }

    method RecordRejection(code: RejectionCode, delta: Delta)
      requires Valid()
      modifies this
      ensures Valid() &&
              View() == old(View()).(rejections := old(View()).Recorded(Rejection(code, delta.author, delta.id)))
    {
      rejections := rejections + [Rejection(code, delta.author, delta.id)];
      if |rejections| > MAX_REJECTION_RECORDS {
        rejections := rejections[1..];
      }
    }

    /** Applies an incoming delta: gates, adoption of an additive schema, merge, clock, DAG. */
    method Apply(delta: Delta, world: World) returns (outcome: Outcome)
      requires Valid()
      modifies this, dag
      ensures Valid()
      ensures View() == old(View()).Applied(delta, world)
      ensures outcome == old(View()).ApplyOutcome(delta, world)
    {
      if delta.author in revoked {
        RecordRejection(RevokedAuthor, delta);
        return Rejected(RevokedAuthor);
      }
      var class_ := ClassifyIncomingSchema(delta.schemaHash);
      if class_ == Breaking {
        return Quarantined(true);
      }
      if class_ == Unknown {
        return Quarantined(false);
      }
      if delta.signature == Absent {
        RecordRejection(MissingSignature, delta);
        return Rejected(MissingSignature);
      }
      if !delta.authorResolves {
        RecordRejection(DidResolutionFailed, delta);
        return Rejected(DidResolutionFailed);
      }
      if delta.signature == Forged {
        RecordRejection(SignatureVerificationFailed, delta);
        return Rejected(SignatureVerificationFailed);
      }
      if class_ == Additive {
        known := known + {delta.schemaHash};
      }
      assert known == old(known) + {delta.schemaHash};
      outcome := Admit(delta, world);
    }

    /** The steps behind the gates: merge the changeset, advance the clock, store the node. */
    method Admit(delta: Delta, world: World) returns (outcome: Outcome)
      requires Valid()
      modifies this`doc, this`lamport, dag
      ensures Valid()
      ensures View() == old(View()).Admitted(delta, world)
      ensures outcome == if (delta.payload == Changeset && !world.mergeWorks) || !world.storeWorks then Failed
                         else Merged(Max(old(lamport), delta.lamport) + 1)
    {
      if delta.payload == Changeset {
        if !world.mergeWorks {
          return Failed;
        }
        doc := doc + [delta.id];
      }
      lamport := Max(lamport, delta.lamport) + 1;
      var stored := dag.Insert(delta.id, NodeOf(delta), delta.parents, world.storeWorks);
      return if stored then Merged(lamport) else Failed;
    }

    /**
      Produces a delta for a local write: tick the clock, take the parents, sign, name it by its
      hash `id`, store the node.
     */
    method ProduceDelta(explicit: seq<DeltaId>, payload: Payload, id: DeltaId, signs: bool, storeWorks: bool)
      returns (produced: Option<Delta>)
      requires Valid()
      modifies this, dag
      ensures Valid()
      ensures produced.Some? <==> signs && storeWorks
      ensures produced.Some? ==>
        && View() == old(View()).Produced(produced.value, true)
        && produced.value == Delta(id, author, true, Genuine, currentSchema, payload, produced.value.parents, lamport)
        && old(View()).ParentsFor(explicit, produced.value.parents)
        && (explicit != [] ==> produced.value.parents == explicit)
        && (explicit == [] ==>
              && NoDup(produced.value.parents)
              && forall n :: n in produced.value.parents <==> old(View()).dag.IsTip(n))
      ensures produced.None? ==> View() == old(View()).(lamport := old(lamport) + 1)
    {
      lamport := lamport + 1;
      var parents := explicit;
      if explicit == [] {
        parents := dag.Tips();
      }
      if !signs {
        return None;
      }
      var delta := Delta(id, author, true, Genuine, currentSchema, payload, parents, lamport);
      var stored := dag.Insert(delta.id, NodeOf(delta), delta.parents, storeWorks);
      return if stored then Some(delta) else None;
    }
  }

  // ---------------------------------------------------------------------------
  // The defensive fallback of the schema gate

  /**
    Against a current schema whose definition is at hand, no other schema with distinct names falls
    through the gate unclassified if and only if the current one repeats no name.
   */
  lemma NeverUnknownIff(current: Schema)
    ensures DistinctSchema(current.tables) <==>
      forall b: Schema :: DistinctSchema(b.tables) && HashOf(b) != HashOf(current) ==>
        ByStructure(HashOf(current), HashOf(b)) != Unknown
  {
    HashHasStructure(current);
    StructureTellsHashIff(current);
    forall b: Schema ensures StructureOf(HashOf(b)) == ShapeOf(b.tables) {
      HashHasStructure(b);
    }
    if !DistinctSchema(current.tables) {
      var b: Schema :| DistinctSchema(b.tables) && ShapeOf(b.tables) == ShapeOf(current.tables) &&
          HashOf(b) != HashOf(current);
      assert ByStructure(HashOf(current), HashOf(b)) == Unknown;
    }
  }

  /**
    A field declared twice: another hash, the same structure, and a valid engine that quarantines the
    delta as unknown.
   */
  lemma RepeatedFieldIsUnknown(table: Name, field: Name, delta: Delta)
    requires delta.schemaHash == HashOf(Schema([TableDef(table, [FieldDef(field, Text), FieldDef(field, Text)])]))
    ensures var once := Schema([TableDef(table, [FieldDef(field, Text)])]);
      var twice := Schema([TableDef(table, [FieldDef(field, Text), FieldDef(field, Text)])]);
      var e := Engine(0, HashOf(once), {HashOf(once)}, map[HashOf(once) := once, HashOf(twice) := twice],
                      {}, [], [], Dag(map[], {}));
      e.Valid() && e.Gate(delta) == Some(Quarantined(false))
  {
    DeclaredTwice(table, FieldDef(field, Text));
  }

  lemma DeclaredTwice(table: Name, f: FieldDef)
    ensures var once, twice := Schema([TableDef(table, [f])]), Schema([TableDef(table, [f, f])]);
      HashOf(once) != HashOf(twice) && StructureOf(HashOf(once)) == StructureOf(HashOf(twice))
  {
    var once, twice := Schema([TableDef(table, [f])]), Schema([TableDef(table, [f, f])]);
    assert !DistinctBy(FieldName, [f, f]) by {
      assert [f, f][0].name == [f, f][1].name;
    }
    assert twice.tables[0] in twice.tables;
    assert DistinctSchema(once.tables);
    if HashOf(once) == HashOf(twice) {
      HashShowsRepeats(twice, once);
      assert false;
    }
    assert FieldsOf([f, f]) == FieldsOf([f]) by {
      assert [f, f][..1] == [f] && [f][..0] == [];
    }
    ShapeOfSameFields(once.tables, twice.tables);
    HashHasStructure(once);
    HashHasStructure(twice);
  }

  // ---------------------------------------------------------------------------
  // The gate, for one delta and over every run

  /** The schema passes: it is accepted already, or its definition at hand strictly includes the current one. */
  ghost predicate SchemaPasses(e: Engine, hash: SchemaHash) {
    || hash in e.known
    || (&& e.currentSchema in e.definitions && hash in e.definitions
        && StrictlyIncludes(e.currentSchema, hash))
  }

  /** The definitions at hand show that the schema drops or retypes something of the current one. */
  ghost predicate SchemaBreaks(e: Engine, hash: SchemaHash) {
    && hash !in e.known && e.currentSchema in e.definitions && hash in e.definitions
    && !Includes(StructureOf(e.currentSchema), StructureOf(hash))
  }

  /** The answer to a delta, gate by gate: each gate speaks only when all before it let the delta through. */
  lemma OutcomeIff(e: Engine, delta: Delta, world: World)
    ensures var outcome := e.ApplyOutcome(delta, world);
      var trusted, passes := delta.author !in e.revoked, SchemaPasses(e, delta.schemaHash);
      && (outcome == Rejected(RevokedAuthor) <==> delta.author in e.revoked)
      && (outcome == Quarantined(true) <==> trusted && SchemaBreaks(e, delta.schemaHash))
      && (outcome == Quarantined(false) <==> trusted && !passes && !SchemaBreaks(e, delta.schemaHash))
      && (outcome == Rejected(MissingSignature) <==> trusted && passes && delta.signature == Absent)
      && (outcome == Rejected(DidResolutionFailed) <==>
            trusted && passes && delta.signature != Absent && !delta.authorResolves)
      && (outcome == Rejected(SignatureVerificationFailed) <==>
            trusted && passes && delta.authorResolves && delta.signature == Forged)
      && (outcome == Failed <==>
            && trusted && passes && delta.authorResolves && delta.signature == Genuine
            && ((delta.payload == Changeset && !world.mergeWorks) || !world.storeWorks))
      && (outcome.Merged? <==>
            && trusted && passes && delta.authorResolves && delta.signature == Genuine
            && (delta.payload == Changeset ==> world.mergeWorks) && world.storeWorks)
  {
  }

  /** The parts of an engine that a delta is meant to move. */
  ghost predicate Untouched(e: Engine, e': Engine) {
    e'.doc == e.doc && e'.dag == e.dag && e'.lamport == e.lamport && e'.known == e.known
  }

  /** Whatever moves is moved by an unrevoked author whose DID resolves and whose signature is genuine. */
  lemma OnlyTrustedMove(e: Engine, delta: Delta, world: World)
    requires !Untouched(e, e.Applied(delta, world))
    ensures delta.author !in e.revoked && delta.authorResolves && delta.signature == Genuine
    ensures SchemaPasses(e, delta.schemaHash)
  {
    OutcomeIff(e, delta, world);
  }

  /** A merged delta: its change at the end of the document, the clock past both, its node and edges stored. */
  lemma MergedMoves(e: Engine, delta: Delta, world: World)
    requires e.ApplyOutcome(delta, world).Merged?
    ensures var e', clock := e.Applied(delta, world), e.ApplyOutcome(delta, world).newLamport;
      && e'.lamport == clock && clock > e.lamport && clock > delta.lamport
      && (clock == e.lamport + 1 || clock == delta.lamport + 1)
      && e'.doc == e.doc + (if delta.payload == Changeset then [delta.id] else [])
      && e'.known == e.known + {delta.schemaHash}
      && delta.id in e'.dag.nodes && (forall p :: p in delta.parents ==> (p, delta.id) in e'.dag.edges)
      && (delta.id !in e.dag.nodes ==> e'.dag.nodes[delta.id] == DagNode(delta.lamport, delta.author))
      && (forall n :: n in e.dag.nodes ==> n in e'.dag.nodes && e'.dag.nodes[n] == e.dag.nodes[n])
      && (forall n :: n in e'.dag.nodes ==> n in e.dag.nodes || n == delta.id)
      && (forall g :: g in e'.dag.edges <==> g in e.dag.edges || (g.1 == delta.id && g.0 in delta.parents))
      && e'.currentSchema == e.currentSchema && e'.definitions == e.definitions && e'.revoked == e.revoked
      && e'.rejections == e.rejections
  {
  }

  /** A production ticks the clock by one and stores its own node with the recorded parents, or only ticks. */
  lemma ProducedMoves(e: Engine, delta: Delta, kept: bool)
    ensures var e' := e.Produced(delta, kept);
      && e'.lamport == e.lamport + 1
      && (!kept ==> e'.dag == e.dag)
      && (kept && delta.id !in e.dag.nodes ==>
            && e'.dag.nodes == e.dag.nodes[delta.id := DagNode(delta.lamport, delta.author)]
            && (forall g :: g in e'.dag.edges <==> g in e.dag.edges || (g.1 == delta.id && g.0 in delta.parents)))
      && e'.doc == e.doc && e'.known == e.known && e'.currentSchema == e.currentSchema
      && e'.definitions == e.definitions && e'.revoked == e.revoked && e'.rejections == e.rejections
  {
  }

  /** The newest records are kept: all of them while there is room, all but the oldest when there is none. */
  lemma RejectionsKept(e: Engine, delta: Delta, world: World)
    requires e.Valid() && e.ApplyOutcome(delta, world).Rejected?
    ensures var r, r' := e.rejections, e.Applied(delta, world).rejections;
      && |r'| <= 1024 && r'[|r'| - 1] == Rejection(e.ApplyOutcome(delta, world).code, delta.author, delta.id)
      && (|r| < 1024 ==> |r'| == |r| + 1 && forall i :: 0 <= i < |r| ==> r'[i] == r[i])
      && (|r| == 1024 ==> |r'| == 1024 && forall i :: 1 <= i < 1024 ==> r'[i - 1] == r[i])
  {
  }

  /** A rejected or quarantined delta leaves clock, schemas, document and DAG alone. */
  lemma RefusalChangesNothing(e: Engine, delta: Delta, world: World)
    requires e.ApplyOutcome(delta, world).Rejected? || e.ApplyOutcome(delta, world).Quarantined?
    ensures var e' := e.Applied(delta, world);
      e' == e.(rejections := e'.rejections)
    ensures e.ApplyOutcome(delta, world).Quarantined? ==> e.Applied(delta, world) == e
    ensures e.ApplyOutcome(delta, world).Rejected? ==>
      var r := e.Applied(delta, world).rejections;
      r != [] && r[|r| - 1] == Rejection(e.ApplyOutcome(delta, world).code, delta.author, delta.id)
  {
  }

  /** The document merge is behind the engine: the gates let the delta through and the merge, if any, worked. */
  ghost predicate PastMerge(e: Engine, delta: Delta, world: World) {
    e.Gate(delta).None? && (delta.payload != Changeset || world.mergeWorks)
  }

  /**
    What a delta that is not merged leaves behind: its schema, if new, whenever the gates let it
    through; its changeset and a later clock exactly when only the store write failed; never a node.
   */
  lemma UnmergedLeaves(e: Engine, delta: Delta, world: World)
    requires !e.ApplyOutcome(delta, world).Merged?
    ensures var e' := e.Applied(delta, world);
      && (e'.known != e.known <==> e.Gate(delta).None? && delta.schemaHash !in e.known)
      && (e'.lamport != e.lamport <==> PastMerge(e, delta, world) && !world.storeWorks)
      && (e'.doc != e.doc <==> PastMerge(e, delta, world) && !world.storeWorks && delta.payload == Changeset)
      && (PastMerge(e, delta, world) && !world.storeWorks ==>
            && e'.lamport > e.lamport && e'.lamport > delta.lamport
            && (e'.lamport == e.lamport + 1 || e'.lamport == delta.lamport + 1)
            && e'.doc == e.doc + (if delta.payload == Changeset then [delta.id] else []))
      && e.known <= e'.known <= e.known + {delta.schemaHash}
      && e'.dag == e.dag && e'.currentSchema == e.currentSchema && e'.definitions == e.definitions
  {
    if e.Gate(delta).None? && delta.payload == Changeset {
      assert e.doc + [delta.id] != e.doc;
    }
  }

  /** A failing store write: the answer is Failed, yet schema, document and clock have moved on. */
  lemma FailedWriteLeavesTraces(table: Name, field: Name, author: Did, id: DeltaId)
    ensures var old_ := Schema([]); var new_ := Schema([TableDef(table, [FieldDef(field, Text)])]);
      var e := Engine(0, HashOf(old_), {HashOf(old_)}, map[HashOf(old_) := old_, HashOf(new_) := new_],
                      {}, [], [], Dag(map[], {}));
      var delta := Delta(id, author, true, Genuine, HashOf(new_), Changeset, [], 1);
      var world := World(true, false);
      && e.Valid() && e.ApplyOutcome(delta, world) == Failed
      && e.Applied(delta, world) == e.(known := e.known + {HashOf(new_)}, doc := [id], lamport := 2)
  {
    var old_, new_ := Schema([]), Schema([TableDef(table, [FieldDef(field, Text)])]);
    HashHasStructure(old_);
    HashHasStructure(new_);
    assert |Canonical(old_.tables)| == 0 && |Canonical(new_.tables)| == 1;
    assert table in ShapeOf(new_.tables);
    assert [] + [id] == [id];
  }

  /** What a host can do to an engine. */
  datatype Op =
    | AddKnown(hash: SchemaHash)
    | Register(hash: SchemaHash, schema: Schema)
    | SetCurrent(hash: SchemaHash)
    | Revoke(did: Did)
    | Produce(delta: Delta, kept: bool)
    | Apply(delta: Delta, world: World)
    | Reopen(hash: SchemaHash)

  ghost function Next(e: Engine, op: Op): Engine {
    match op
    case AddKnown(h) => e.(known := e.known + {h})
    case Register(h, s) => if HashOf(s) == h then e.(definitions := e.definitions[h := s]) else e
    case SetCurrent(h) => e.(currentSchema := h, known := e.known + {h})
    case Revoke(did) => e.(revoked := e.revoked + {did})
    case Produce(delta, kept) => e.Produced(delta, kept)
    case Apply(delta, world) => e.Applied(delta, world)
    case Reopen(h) => e.Reopened(h)
  }

  ghost function Run(e: Engine, ops: seq<Op>): Engine {
    if ops == [] then e else Next(Run(e, ops[..|ops| - 1]), ops[|ops| - 1])
  }

  /** The structure behind `hash` has all of the current one, and more. */
  ghost predicate StrictlyIncludes(current: SchemaHash, hash: SchemaHash) {
    Includes(StructureOf(current), StructureOf(hash)) && StructureOf(current) != StructureOf(hash)
  }

  /** What one operation does to the parts an engine's validity speaks about. */
  lemma AppliedKeeps(e: Engine, delta: Delta, world: World)
    requires e.Valid()
    ensures e.Applied(delta, world).Valid()
    ensures var e' := e.Applied(delta, world);
      e'.currentSchema == e.currentSchema && e.known <= e'.known <= e.known + {delta.schemaHash}
    ensures delta.schemaHash !in e.known && delta.schemaHash in e.Applied(delta, world).known ==>
      && delta.signature == Genuine && delta.author !in e.revoked
      && StrictlyIncludes(e.currentSchema, delta.schemaHash)
  {
  }

  lemma NextKeeps(e: Engine, op: Op)
    requires e.Valid()
    ensures Next(e, op).Valid()
  {
    match op
    case Apply(delta, world) => AppliedKeeps(e, delta, world);
    case _ =>
  }

  lemma {:induction false} RunValid(e: Engine, ops: seq<Op>)
    requires e.Valid()
    ensures Run(e, ops).Valid()
  {
    if ops != [] {
      RunValid(e, ops[..|ops| - 1]);
      NextKeeps(Run(e, ops[..|ops| - 1]), ops[|ops| - 1]);
    }
  }

  /** The reasons for which operation `op` may make an engine accept `h`. */
  ghost predicate Adopts(before: Engine, op: Op, h: SchemaHash) {
    && h !in before.known
    && (|| op == AddKnown(h)
        || op == SetCurrent(h)
        || op == Reopen(h)
        || (&& op.Apply? && op.delta.schemaHash == h && op.delta.signature == Genuine
            && op.delta.author !in before.revoked
            && StrictlyIncludes(before.currentSchema, h)))
  }

  lemma NextAdopts(e: Engine, op: Op, h: SchemaHash)
    requires e.Valid() && h !in e.known && h in Next(e, op).known
    ensures Adopts(e, op, h)
  {
    match op
    case Apply(delta, world) => AppliedKeeps(e, delta, world);
    case _ =>
  }

  /** Every schema an engine accepts was there at the start or adopted for one of these reasons. */
  lemma {:induction false} AdoptionsAreAdditive(e: Engine, ops: seq<Op>, h: SchemaHash)
    requires e.Valid() && h in Run(e, ops).known
    ensures h in e.known || exists i :: 0 <= i < |ops| && Adopts(Run(e, ops[..i]), ops[i], h)
  {
    if ops != [] {
      var init := ops[..|ops| - 1];
      RunValid(e, init);
      if h in Run(e, init).known {
        AdoptionsAreAdditive(e, init, h);
        if h !in e.known {
          var i :| 0 <= i < |init| && Adopts(Run(e, init[..i]), init[i], h);
          assert ops[..i] == init[..i] && ops[i] == init[i];
        }
      } else {
        NextAdopts(Run(e, init), ops[|ops| - 1], h);
      }
    }
  }

  lemma {:induction false} RevokedUntilReopen(e: Engine, ops: seq<Op>, did: Did)
    requires did in e.revoked && NoReopen(ops)
    ensures did in Run(e, ops).revoked
  {
    if ops != [] {
      var init := ops[..|ops| - 1];
      assert ops == init + [ops[|ops| - 1]];
      RevokedUntilReopen(e, init, did);
    }
  }

  /** Once an author is revoked and until the engine is opened again, nothing of that author moves anything. */
  lemma RevokedNeverMoves(e: Engine, did: Did, ops: seq<Op>, delta: Delta, world: World)
    requires NoReopen(ops) && delta.author == did
    ensures var before := Run(Next(e, Revoke(did)), ops);
      && before.ApplyOutcome(delta, world) == Rejected(RevokedAuthor)
      && Untouched(before, Next(before, Apply(delta, world)))
  {
    RevokedUntilReopen(Next(e, Revoke(did)), ops, did);
    OutcomeIff(Run(Next(e, Revoke(did)), ops), delta, world);
    RefusalChangesNothing(Run(Next(e, Revoke(did)), ops), delta, world);
  }

  // ---------------------------------------------------------------------------
  // Merged changes without a node

  /** The operation puts `id` into the document and fails to store its node. */
  ghost predicate MergesUnfiled(before: Engine, op: Op, id: DeltaId) {
    && op.Apply? && op.delta.id == id && op.delta.payload == Changeset
    && PastMerge(before, op.delta, op.world) && !op.world.storeWorks
  }

  /** The operation stores a node for `id`. */
  ghost predicate Files(before: Engine, op: Op, id: DeltaId) {
    || (op.Produce? && op.kept && op.delta.id == id)
    || (op.Apply? && op.delta.id == id && before.ApplyOutcome(op.delta, op.world).Merged?)
  }

  lemma NextFiles(e: Engine, op: Op, id: DeltaId)
    ensures id in Next(e, op).dag.nodes <==> id in e.dag.nodes || Files(e, op, id)
    ensures id in e.doc && !op.Reopen? ==> id in Next(e, op).doc
    ensures op.Reopen? ==> id !in Next(e, op).doc
    ensures MergesUnfiled(e, op, id) ==> id in Next(e, op).doc
    ensures id in Next(e, op).doc && id !in e.doc ==> MergesUnfiled(e, op, id) || Files(e, op, id)
  {
  }

  ghost predicate FiledIn(e: Engine, ops: seq<Op>, id: DeltaId) {
    exists i :: 0 <= i < |ops| && Files(Run(e, ops[..i]), ops[i], id)
  }

  /** Since the engine was last opened, some operation merged `id` past a failing write. */
  ghost predicate MergedUnfiledIn(e: Engine, ops: seq<Op>, id: DeltaId) {
    exists i :: 0 <= i < |ops| && MergesUnfiled(Run(e, ops[..i]), ops[i], id) && NoReopen(ops[i..])
  }

  predicate NoReopen(ops: seq<Op>) {
    forall op :: op in ops ==> !op.Reopen?
  }

  lemma FiledPush(e: Engine, init: seq<Op>, op: Op, id: DeltaId)
    ensures FiledIn(e, init + [op], id) <==> FiledIn(e, init, id) || Files(Run(e, init), op, id)
  {
    var ops := init + [op];
    assert ops[..|init|] == init && ops[|init|] == op;
    forall i | 0 <= i < |init|
      ensures Files(Run(e, ops[..i]), ops[i], id) == Files(Run(e, init[..i]), init[i], id)
    {
      assert ops[..i] == init[..i];
    }
    if Files(Run(e, init), op, id) {
      assert Files(Run(e, ops[..|init|]), ops[|init|], id);
    }
  }

  lemma MergedUnfiledPush(e: Engine, init: seq<Op>, op: Op, id: DeltaId)
    ensures MergedUnfiledIn(e, init + [op], id) <==>
            (MergedUnfiledIn(e, init, id) && !op.Reopen?) || MergesUnfiled(Run(e, init), op, id)
  {
    var ops := init + [op];
    assert ops[..|init|] == init && ops[|init|] == op;
    forall i | 0 <= i < |init|
      ensures MergesUnfiled(Run(e, ops[..i]), ops[i], id) == MergesUnfiled(Run(e, init[..i]), init[i], id)
      ensures NoReopen(ops[i..]) <==> NoReopen(init[i..]) && !op.Reopen?
    {
      assert ops[..i] == init[..i] && ops[i..] == init[i..] + [op];
    }
    if MergesUnfiled(Run(e, init), op, id) {
      assert MergesUnfiled(Run(e, ops[..|init|]), ops[|init|], id) && ops[|init|..] == [op];
    }
  }

  lemma {:induction false} RunFiles(e: Engine, ops: seq<Op>, id: DeltaId)
    requires id !in e.doc && id !in e.dag.nodes
    ensures id in Run(e, ops).dag.nodes <==> FiledIn(e, ops, id)
    ensures MergedUnfiledIn(e, ops, id) ==> id in Run(e, ops).doc
    ensures id in Run(e, ops).doc ==> MergedUnfiledIn(e, ops, id) || FiledIn(e, ops, id)
  {
    if ops != [] {
      var init, op := ops[..|ops| - 1], ops[|ops| - 1];
      assert ops == init + [op];
      RunFiles(e, init, id);
      NextFiles(Run(e, init), op, id);
      FiledPush(e, init, op, id);
      MergedUnfiledPush(e, init, op, id);
    }
  }

  /**
    Over every run: a change is in the document without a node exactly when it was merged past a
    failing write since the engine was last opened, and never filed.
   */
  lemma UnfiledIff(e: Engine, ops: seq<Op>, id: DeltaId)
    requires id !in e.doc && id !in e.dag.nodes
    ensures id in Run(e, ops).doc && id !in Run(e, ops).dag.nodes <==>
      MergedUnfiledIn(e, ops, id) && !FiledIn(e, ops, id)
  {
    RunFiles(e, ops, id);
  }
}
