/**
  The schema hash: an ideal hash of the declarations, sorted.  Unlike the diff, which collects names
  into maps, the hash sees every declaration, also one whose name is declared again.
 */
module SchemaHashes {
  import opened LexOrder
  import opened SchemaDiffs
  import opened Sequences

  // ---------------------------------------------------------------------------
  // The hash

  function SortedTable(t: TableDef): TableDef {
    TableDef(t.name, SortBy(FieldName, t.fields))
  }

  /** The declarations in the order they are hashed: tables by name, fields by name. */
  function Canonical(tables: seq<TableDef>): (r: seq<TableDef>)
    ensures |r| == |tables|
  {
    var sorted := SortBy(TableName, tables);
    seq(|sorted|, i requires 0 <= i < |sorted| => SortedTable(sorted[i]))
  }

  datatype SchemaHash = SchemaHash(declarations: seq<TableDef>)

  function HashOf(s: Schema): SchemaHash {
    SchemaHash(Canonical(s.tables))
  }

  /** The structure behind a hash. */
  function StructureOf(h: SchemaHash): Shape {
    ShapeOf(h.declarations)
  }

  lemma {:induction false} FieldsOfInsert(s: seq<FieldDef>, x: FieldDef)
    ensures FieldsOf(InsertBy(FieldName, s, x)) == FieldsOf(s)[x.name := x.fieldType]
  {
    if s != [] && Less(x.name, s[|s| - 1].name) {
      FieldsOfInsert(s[..|s| - 1], x);
      LessAsymmetric(x.name, s[|s| - 1].name);
    }
  }

  lemma {:induction false} FieldsOfSort(s: seq<FieldDef>)
    ensures FieldsOf(SortBy(FieldName, s)) == FieldsOf(s)
  {
    if s != [] {
      FieldsOfSort(s[..|s| - 1]);
      FieldsOfInsert(SortBy(FieldName, s[..|s| - 1]), s[|s| - 1]);
    }
  }

  lemma UpdatesCommute<K, V>(m: map<K, V>, a: K, x: V, b: K, y: V)
    requires a != b
    ensures m[a := x][b := y] == m[b := y][a := x]
  {
  }

  lemma {:induction false} ShapeOfInsert(s: seq<TableDef>, x: TableDef)
    ensures ShapeOf(InsertBy(TableName, s, x)) == ShapeOf(s)[x.name := FieldsOf(x.fields)]
  {
    if s == [] || !Less(x.name, s[|s| - 1].name) {
      ShapePush(s, x);
    } else {
      var init, last := s[..|s| - 1], s[|s| - 1];
      ShapeOfInsert(init, x);
      LessAsymmetric(x.name, last.name);
      ShapePush(InsertBy(TableName, init, x), last);
      UpdatesCommute(ShapeOf(init), x.name, FieldsOf(x.fields), last.name, FieldsOf(last.fields));
    }
  }

  lemma FieldsPush(s: seq<FieldDef>, x: FieldDef)
    ensures FieldsOf(s + [x]) == FieldsOf(s)[x.name := x.fieldType]
  {
    assert (s + [x])[..|s|] == s;
  }

  lemma ShapePush(s: seq<TableDef>, x: TableDef)
    ensures ShapeOf(s + [x]) == ShapeOf(s)[x.name := FieldsOf(x.fields)]
  {
    assert (s + [x])[..|s|] == s;
  }

  lemma {:induction false} ShapeOfSort(s: seq<TableDef>)
    ensures ShapeOf(SortBy(TableName, s)) == ShapeOf(s)
  {
    if s != [] {
      ShapeOfSort(s[..|s| - 1]);
      ShapeOfInsert(SortBy(TableName, s[..|s| - 1]), s[|s| - 1]);
    }
  }

  lemma {:induction false} ShapeOfSameFields(s: seq<TableDef>, t: seq<TableDef>)
    requires |s| == |t|
    requires forall i :: 0 <= i < |s| ==> s[i].name == t[i].name && FieldsOf(s[i].fields) == FieldsOf(t[i].fields)
    ensures ShapeOf(s) == ShapeOf(t)
  {
    if s != [] {
      ShapeOfSameFields(s[..|s| - 1], t[..|t| - 1]);
    }
  }

  /** The hash determines the structure, repeated names or not. */
  lemma HashHasStructure(s: Schema)
    ensures StructureOf(HashOf(s)) == ShapeOf(s.tables)
  {
    var sorted := SortBy(TableName, s.tables);
    forall i | 0 <= i < |sorted| ensures FieldsOf(SortedTable(sorted[i]).fields) == FieldsOf(sorted[i].fields) {
      FieldsOfSort(sorted[i].fields);
    }
    ShapeOfSameFields(Canonical(s.tables), sorted);
    ShapeOfSort(s.tables);
  }

  // ---------------------------------------------------------------------------
  // When the structure determines the hash

  /** No table is declared twice, and no field twice in one table. */
  ghost predicate DistinctSchema(tables: seq<TableDef>) {
    DistinctBy(TableName, tables) && forall t :: t in tables ==> DistinctBy(FieldName, t.fields)
  }

  lemma FieldIsListed(fields: seq<FieldDef>, x: FieldDef)
    requires DistinctBy(FieldName, fields)
    ensures x in fields <==> x.name in FieldsOf(fields) && FieldsOf(fields)[x.name] == x.fieldType
  {
    FieldKeys(fields, x.name);
    if i :| 0 <= i < |fields| && fields[i].name == x.name {
      FieldLooksUp(fields, i);
    }
  }

  lemma SameFieldsSort(f: seq<FieldDef>, g: seq<FieldDef>)
    requires DistinctBy(FieldName, f) && DistinctBy(FieldName, g) && FieldsOf(f) == FieldsOf(g)
    ensures SortBy(FieldName, f) == SortBy(FieldName, g)
  {
    forall x ensures x in SortBy(FieldName, f) <==> x in SortBy(FieldName, g) {
      FieldIsListed(f, x);
      FieldIsListed(g, x);
      SortHolds(FieldName, f, x);
      SortHolds(FieldName, g, x);
    }
    SortSorts(FieldName, f);
    SortSorts(FieldName, g);
    SortDistinct(FieldName, f);
    SortDistinct(FieldName, g);
    SortedSame(FieldName, SortBy(FieldName, f), SortBy(FieldName, g));
  }

  lemma TableIsListed(tables: seq<TableDef>, x: TableDef)
    requires DistinctBy(TableName, tables) && x in tables
    ensures x.name in ShapeOf(tables) && ShapeOf(tables)[x.name] == FieldsOf(x.fields)
  {
    var i :| 0 <= i < |tables| && tables[i] == x;
    ShapeLooksUp(tables, i);
  }

  /** With distinct names, a table of one schema is hashed alike in every schema of the same structure. */
  lemma SameTableHashed(s: seq<TableDef>, t: seq<TableDef>, x: TableDef)
    requires DistinctSchema(s) && DistinctSchema(t) && ShapeOf(s) == ShapeOf(t) && x in Canonical(s)
    ensures x in Canonical(t)
  {
    var i :| 0 <= i < |s| && Canonical(s)[i] == x;
    var a := SortBy(TableName, s)[i];
    SortHolds(TableName, s, a);
    TableIsListed(s, a);
    ShapeKeys(t, a.name);
    var j :| 0 <= j < |t| && t[j].name == a.name;
    TableIsListed(t, t[j]);
    SameFieldsSort(a.fields, t[j].fields);
    SortHolds(TableName, t, t[j]);
    var k :| 0 <= k < |t| && SortBy(TableName, t)[k] == t[j];
    assert Canonical(t)[k] == SortedTable(t[j]) == x;
  }

  lemma CanonicalSorted(s: seq<TableDef>)
    requires DistinctBy(TableName, s)
    ensures SortedBy(TableName, Canonical(s)) && DistinctBy(TableName, Canonical(s))
  {
    SortSorts(TableName, s);
    SortDistinct(TableName, s);
    var sorted := SortBy(TableName, s);
    assert forall i :: 0 <= i < |s| ==> Canonical(s)[i].name == sorted[i].name;
  }

  /** Schemas with distinct names have one hash exactly when they have one structure. */
  lemma DistinctHashIffStructure(a: Schema, b: Schema)
    requires DistinctSchema(a.tables) && DistinctSchema(b.tables)
    ensures HashOf(a) == HashOf(b) <==> ShapeOf(a.tables) == ShapeOf(b.tables)
  {
    HashHasStructure(a);
    HashHasStructure(b);
    if ShapeOf(a.tables) == ShapeOf(b.tables) {
      var s, t := Canonical(a.tables), Canonical(b.tables);
      forall x ensures x in s <==> x in t {
        if x in s {
          SameTableHashed(a.tables, b.tables, x);
        }
        if x in t {
          SameTableHashed(b.tables, a.tables, x);
        }
      }
      CanonicalSorted(a.tables);
      CanonicalSorted(b.tables);
      SortedSame(TableName, s, t);
    }
  }

  // ---------------------------------------------------------------------------
  // A repeated name is seen by the hash and not by the diff

  /** The entries whose key is not `k`. */
  function DropKey<T>(key: T -> Name, s: seq<T>, k: Name): seq<T> {
    if s == [] then []
    else
      var rest, last := DropKey(key, s[..|s| - 1], k), s[|s| - 1];
      if key(last) == k then rest else rest + [last]
  }

  /** The last declaration of each name. */
  function LastOf<T>(key: T -> Name, s: seq<T>): seq<T> {
    if s == [] then []
    else DropKey(key, LastOf(key, s[..|s| - 1]), key(s[|s| - 1])) + [s[|s| - 1]]
  }

  lemma {:induction false} DropKeyHolds<T>(key: T -> Name, s: seq<T>, k: Name)
    requires DistinctBy(key, s)
    ensures DistinctBy(key, DropKey(key, s, k)) && KeySet(key, DropKey(key, s, k)) == KeySet(key, s) - {k}
    ensures forall x :: x in DropKey(key, s, k) ==> x in s
  {
    if s != [] {
      var init, last := s[..|s| - 1], s[|s| - 1];
      DropKeyHolds(key, init, k);
      assert s == init + [last];
      DistinctPush(key, init, last);
      DistinctPush(key, DropKey(key, init, k), last);
    }
  }

  lemma {:induction false} LastOfHolds<T>(key: T -> Name, s: seq<T>)
    ensures DistinctBy(key, LastOf(key, s)) && forall x :: x in LastOf(key, s) ==> x in s
  {
    if s != [] {
      var init, last := s[..|s| - 1], s[|s| - 1];
      LastOfHolds(key, init);
      DropKeyHolds(key, LastOf(key, init), key(last));
      DistinctPush(key, DropKey(key, LastOf(key, init), key(last)), last);
    }
  }

  lemma {:induction false} FieldsOfDrop(s: seq<FieldDef>, k: Name, v: FieldType)
    ensures FieldsOf(DropKey(FieldName, s, k))[k := v] == FieldsOf(s)[k := v]
  {
    if s != [] {
      var init, last := s[..|s| - 1], s[|s| - 1];
      FieldsOfDrop(init, k, v);
      if last.name != k {
        FieldsPush(DropKey(FieldName, init, k), last);
        UpdatesCommute(FieldsOf(DropKey(FieldName, init, k)), last.name, last.fieldType, k, v);
        UpdatesCommute(FieldsOf(init), last.name, last.fieldType, k, v);
      }
    }
  }

  lemma {:induction false} FieldsOfLast(s: seq<FieldDef>)
    ensures FieldsOf(LastOf(FieldName, s)) == FieldsOf(s)
  {
    if s != [] {
      var init, last := s[..|s| - 1], s[|s| - 1];
      FieldsOfLast(init);
      FieldsOfDrop(LastOf(FieldName, init), last.name, last.fieldType);
    }
  }

  lemma {:induction false} ShapeOfDrop(s: seq<TableDef>, k: Name, v: Fields)
    ensures ShapeOf(DropKey(TableName, s, k))[k := v] == ShapeOf(s)[k := v]
  {
    if s != [] {
      var init, last := s[..|s| - 1], s[|s| - 1];
      ShapeOfDrop(init, k, v);
      if last.name != k {
        ShapePush(DropKey(TableName, init, k), last);
        UpdatesCommute(ShapeOf(DropKey(TableName, init, k)), last.name, FieldsOf(last.fields), k, v);
        UpdatesCommute(ShapeOf(init), last.name, FieldsOf(last.fields), k, v);
      }
    }
  }

  lemma {:induction false} ShapeOfLast(s: seq<TableDef>)
    ensures ShapeOf(LastOf(TableName, s)) == ShapeOf(s)
  {
    if s != [] {
      var init, last := s[..|s| - 1], s[|s| - 1];
      ShapeOfLast(init);
      ShapePush(DropKey(TableName, LastOf(TableName, init), last.name), last);
      ShapeOfDrop(LastOf(TableName, init), last.name, FieldsOf(last.fields));
    }
  }

  /** The schema without its overridden declarations. */
  function Deduplicated(s: Schema): Schema {
    var tables := LastOf(TableName, s.tables);
    Schema(seq(|tables|, i requires 0 <= i < |tables| => TableDef(tables[i].name, LastOf(FieldName, tables[i].fields))))
  }

  lemma DeduplicatedHolds(s: Schema)
    ensures DistinctSchema(Deduplicated(s).tables) && ShapeOf(Deduplicated(s).tables) == ShapeOf(s.tables)
  {
    var last, tables := LastOf(TableName, s.tables), Deduplicated(s).tables;
    LastOfHolds(TableName, s.tables);
    forall i | 0 <= i < |tables|
      ensures DistinctBy(FieldName, tables[i].fields) && FieldsOf(tables[i].fields) == FieldsOf(last[i].fields)
    {
      LastOfHolds(FieldName, last[i].fields);
      FieldsOfLast(last[i].fields);
    }
    ShapeOfSameFields(tables, last);
    ShapeOfLast(s.tables);
  }

  /** A repeated name shows in what is hashed. */
  lemma HashShowsRepeats(a: Schema, b: Schema)
    requires HashOf(a) == HashOf(b) && DistinctSchema(b.tables)
    ensures DistinctSchema(a.tables)
  {
    var sorted, other := SortBy(TableName, a.tables), SortBy(TableName, b.tables);
    SortDistinct(TableName, a.tables);
    SortDistinct(TableName, b.tables);
    assert forall i :: 0 <= i < |sorted| ==> SortedTable(sorted[i]) == Canonical(a.tables)[i] == SortedTable(other[i]);
    assert forall i :: 0 <= i < |sorted| ==> sorted[i].name == SortedTable(sorted[i]).name == other[i].name;
    assert DistinctBy(TableName, sorted);
    forall t | t in a.tables ensures DistinctBy(FieldName, t.fields) {
      SortHolds(TableName, a.tables, t);
      var i :| 0 <= i < |sorted| && sorted[i] == t;
      SortHolds(TableName, b.tables, other[i]);
      assert SortedTable(t).fields == SortedTable(other[i]).fields;
      SortDistinct(FieldName, t.fields);
      SortDistinct(FieldName, other[i].fields);
    }
  }

  /** The structure of a schema tells its hash exactly when no name is repeated in it. */
  lemma StructureTellsHashIff(a: Schema)
    ensures DistinctSchema(a.tables) <==>
      forall b: Schema :: DistinctSchema(b.tables) && ShapeOf(b.tables) == ShapeOf(a.tables) ==> HashOf(b) == HashOf(a)
  {
    if DistinctSchema(a.tables) {
      forall b: Schema | DistinctSchema(b.tables) && ShapeOf(b.tables) == ShapeOf(a.tables)
        ensures HashOf(b) == HashOf(a)
      {
        DistinctHashIffStructure(a, b);
      }
    } else {
      DeduplicatedHolds(a);
      if HashOf(Deduplicated(a)) == HashOf(a) {
        HashShowsRepeats(a, Deduplicated(a));
        assert false;
      }
    }
  }
}
