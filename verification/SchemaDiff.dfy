/**
  The field-level schema diff and its three-way classification.  Only table names, field names and
  field types take part.
 */
module SchemaDiffs {
  import opened LexOrder
  import opened Sequences

  type Name = Bytes

  datatype FieldType = Text | Integer | Real | Blob | Boolean
  datatype FieldDef = FieldDef(name: Name, fieldType: FieldType)
  datatype TableDef = TableDef(name: Name, fields: seq<FieldDef>)
  datatype Schema = Schema(tables: seq<TableDef>)

  type Fields = map<Name, FieldType>
  type Shape = map<Name, Fields>

  /** Collecting into a hash map: a later declaration of the same name replaces an earlier one. */
  function FieldsOf(fields: seq<FieldDef>): Fields {
    if fields == [] then map[]
    else
      var last := fields[|fields| - 1];
      FieldsOf(fields[..|fields| - 1])[last.name := last.fieldType]
  }

  /** The structure of a schema: everything that its hash and the diff look at. */
  function ShapeOf(tables: seq<TableDef>): Shape {
    if tables == [] then map[]
    else
      var last := tables[|tables| - 1];
      ShapeOf(tables[..|tables| - 1])[last.name := FieldsOf(last.fields)]
  }

  datatype FieldRef = FieldRef(table: Name, field: Name)
  datatype RetypedField = RetypedField(table: Name, field: Name, from: FieldType, to: FieldType)

  datatype SchemaDiff = SchemaDiff(addedTables: seq<Name>, removedTables: seq<Name>,
                                   addedFields: seq<FieldRef>, removedFields: seq<FieldRef>,
                                   retypedFields: seq<RetypedField>)
  {
    predicate IsIdentical() {
      addedTables == [] && removedTables == [] && addedFields == [] && removedFields == [] && retypedFields == []
    }

    predicate IsAdditive() {
      !IsIdentical() && removedTables == [] && removedFields == [] && retypedFields == []
    }

    predicate IsBreaking() {
      removedTables != [] || removedFields != [] || retypedFields != []
    }
  }

  predicate RefLess(a: FieldRef, b: FieldRef) {
    Less(a.table, b.table) || (a.table == b.table && Less(a.field, b.field))
  }

  function RefOf(r: RetypedField): FieldRef {
    FieldRef(r.table, r.field)
  }

  predicate RetypedLess(a: RetypedField, b: RetypedField) {
    RefLess(RefOf(a), RefOf(b))
  }

  lemma RefLessIsStrictTotal()
    ensures StrictTotalOrder(RefLess)
  {
    LessIsStrictTotal();
  }

  // ---------------------------------------------------------------------------
  // What a diff lists

  predicate Removed(base: Shape, incoming: Shape, r: FieldRef) {
    r.table in base && r.table in incoming && r.field in base[r.table] && r.field !in incoming[r.table]
  }

  predicate FieldRetyped(base: Fields, incoming: Fields, r: RetypedField) {
    && r.field in base && r.field in incoming
    && r.from == base[r.field] && r.to == incoming[r.field] && r.from != r.to
  }

  predicate Retyped(base: Shape, incoming: Shape, r: RetypedField) {
    r.table in base && r.table in incoming && FieldRetyped(base[r.table], incoming[r.table], r)
  }

  /** `diff` lists exactly the differences, each list sorted by (table, field). */
  ghost predicate IsDiff(base: Shape, incoming: Shape, diff: SchemaDiff) {
    && Sorted(Less, diff.addedTables) && (forall t :: t in diff.addedTables <==> t in incoming && t !in base)
    && Sorted(Less, diff.removedTables) && (forall t :: t in diff.removedTables <==> t in base && t !in incoming)
    && Sorted(RefLess, diff.addedFields) && (forall r :: r in diff.addedFields <==> Removed(incoming, base, r))
    && Sorted(RefLess, diff.removedFields) && (forall r :: r in diff.removedFields <==> Removed(base, incoming, r))
    && Sorted(RetypedLess, diff.retypedFields) && (forall r :: r in diff.retypedFields <==> Retyped(base, incoming, r))
  }

  /** What a diff lists, in terms of the two structures: what only one side has, and both types of what changed. */
  lemma DiffLists(base: Shape, incoming: Shape, diff: SchemaDiff, t: Name, f: Name)
    requires IsDiff(base, incoming, diff)
    ensures t in diff.addedTables <==> t in incoming && t !in base
    ensures t in diff.removedTables <==> t in base && t !in incoming
    ensures FieldRef(t, f) in diff.addedFields <==>
            t in base && t in incoming && f in incoming[t] && f !in base[t]
    ensures FieldRef(t, f) in diff.removedFields <==>
            t in base && t in incoming && f in base[t] && f !in incoming[t]
    ensures forall was, now :: RetypedField(t, f, was, now) in diff.retypedFields <==>
              && t in base && t in incoming && f in base[t] && f in incoming[t]
              && base[t][f] == was && incoming[t][f] == now && was != now
    ensures forall i, j :: 0 <= i < j < |diff.addedTables| ==> Less(diff.addedTables[i], diff.addedTables[j])
  {
  }

  /** The fields one table has lost, sorted. */
  method LostFields(table: Name, have: Fields, lack: Fields) returns (refs: seq<FieldRef>)
    ensures Sorted(RefLess, refs)
    ensures forall r :: r in refs <==> r.table == table && r.field in have && r.field !in lack
  {
    var names := SortNames(have.Keys);
    refs := [];
    for i := 0 to |names|
      invariant Sorted(RefLess, refs)
      invariant forall r :: r in refs <==> r.table == table && r.field in names[..i] && r.field !in lack
    {
      assert names[..i + 1] == names[..i] + [names[i]];
      if names[i] !in lack {
        SortedPush(RefLess, refs, FieldRef(table, names[i]));
        refs := refs + [FieldRef(table, names[i])];
      }
    }
    assert names[..|names|] == names;
    assert forall n :: n in names <==> n in Elems(names);
  }

  ghost predicate RetypedDone(table: Name, base: Fields, incoming: Fields, done: seq<Name>, refs: seq<RetypedField>) {
    && Sorted(RetypedLess, refs)
    && forall r :: r in refs <==> r.table == table && r.field in done && FieldRetyped(base, incoming, r)
  }

  lemma RetypedStep(table: Name, base: Fields, incoming: Fields, done: seq<Name>, fname: Name, refs: seq<RetypedField>)
    requires RetypedDone(table, base, incoming, done, refs)
    requires fname in base && forall n :: n in done ==> Less(n, fname)
    ensures RetypedDone(table, base, incoming, done + [fname],
              if fname in incoming && base[fname] != incoming[fname]
              then refs + [RetypedField(table, fname, base[fname], incoming[fname])] else refs)
  {
    if fname in incoming && base[fname] != incoming[fname] {
      SortedPush(RetypedLess, refs, RetypedField(table, fname, base[fname], incoming[fname]));
    }
  }

  /** The fields of one table whose type changed, sorted. */
  method RetypedIn(table: Name, base: Fields, incoming: Fields) returns (refs: seq<RetypedField>)
    ensures Sorted(RetypedLess, refs)
    ensures forall r :: r in refs <==> r.table == table && FieldRetyped(base, incoming, r)
  {
    var names := SortNames(base.Keys);
    refs := [];
    for i := 0 to |names|
      invariant RetypedDone(table, base, incoming, names[..i], refs)
    {
      var fname := names[i];
      assert fname in Elems(names);
      assert names[..i + 1] == names[..i] + [fname];
      RetypedStep(table, base, incoming, names[..i], fname, refs);
      if fname in incoming && base[fname] != incoming[fname] {
        refs := refs + [RetypedField(table, fname, base[fname], incoming[fname])];
      }
    }
    assert names[..|names|] == names;
    assert forall n :: n in names <==> n in Elems(names);
  }

  /** The names of `have` that `lack` does not have, sorted. */
  method LostTables(have: Shape, lack: Shape) returns (lost: seq<Name>)
    ensures Sorted(Less, lost) && forall t :: t in lost <==> t in have && t !in lack
  {
    var names := SortNames(have.Keys);
    lost := [];
    for i := 0 to |names|
      invariant Sorted(Less, lost)
      invariant forall t :: t in lost <==> t in names[..i] && t !in lack
    {
      assert names[..i + 1] == names[..i] + [names[i]];
      if names[i] !in lack {
        SortedPush(Less, lost, names[i]);
        lost := lost + [names[i]];
      }
    }
    assert names[..|names|] == names;
    assert forall n :: n in names <==> n in Elems(names);
  }

  /** The field lists are sorted and complete for the tables in `done`. */
  ghost predicate FieldsDone(base: Shape, incoming: Shape, done: seq<Name>,
                             added: seq<FieldRef>, removed: seq<FieldRef>, retyped: seq<RetypedField>) {
    && Sorted(RefLess, added) && (forall r :: r in added <==> r.table in done && Removed(incoming, base, r))
    && Sorted(RefLess, removed) && (forall r :: r in removed <==> r.table in done && Removed(base, incoming, r))
    && Sorted(RetypedLess, retyped) && (forall r :: r in retyped <==> r.table in done && Retyped(base, incoming, r))
  }

  lemma OneTableMore(base: Shape, incoming: Shape, done: seq<Name>, name: Name,
                     added: seq<FieldRef>, removed: seq<FieldRef>, retyped: seq<RetypedField>,
                     gained: seq<FieldRef>, lost: seq<FieldRef>, changed: seq<RetypedField>)
    requires FieldsDone(base, incoming, done, added, removed, retyped)
    requires name in base && name in incoming && forall t :: t in done ==> Less(t, name)
    requires Sorted(RefLess, gained)
    requires forall r :: r in gained <==> r.table == name && r.field in incoming[name] && r.field !in base[name]
    requires Sorted(RefLess, lost)
    requires forall r :: r in lost <==> r.table == name && r.field in base[name] && r.field !in incoming[name]
    requires Sorted(RetypedLess, changed)
    requires forall r :: r in changed <==> r.table == name && FieldRetyped(base[name], incoming[name], r)
    ensures FieldsDone(base, incoming, done + [name], added + gained, removed + lost, retyped + changed)
  {
    forall i, j | 0 <= i < |added| && 0 <= j < |gained| ensures RefLess(added[i], gained[j]) {
      assert added[i] in added && gained[j] in gained;
    }
    forall i, j | 0 <= i < |removed| && 0 <= j < |lost| ensures RefLess(removed[i], lost[j]) {
      assert removed[i] in removed && lost[j] in lost;
    }
    forall i, j | 0 <= i < |retyped| && 0 <= j < |changed| ensures RetypedLess(retyped[i], changed[j]) {
      assert retyped[i] in retyped && changed[j] in changed;
    }
  }

  lemma TableGone(base: Shape, incoming: Shape, done: seq<Name>, name: Name,
                  added: seq<FieldRef>, removed: seq<FieldRef>, retyped: seq<RetypedField>)
    requires FieldsDone(base, incoming, done, added, removed, retyped) && name !in incoming
    ensures FieldsDone(base, incoming, done + [name], added, removed, retyped)
  {
  }

  /** The field lists over all tables both schemas have. */
  method DiffFields(b: Shape, inc: Shape)
    returns (added: seq<FieldRef>, removed: seq<FieldRef>, retyped: seq<RetypedField>)
    ensures Sorted(RefLess, added) && forall r :: r in added <==> Removed(inc, b, r)
    ensures Sorted(RefLess, removed) && forall r :: r in removed <==> Removed(b, inc, r)
    ensures Sorted(RetypedLess, retyped) && forall r :: r in retyped <==> Retyped(b, inc, r)
  {
    var names := SortNames(b.Keys);
    assert forall n :: n in names <==> n in Elems(names);
    added, removed, retyped := [], [], [];
    for i := 0 to |names|
      invariant FieldsDone(b, inc, names[..i], added, removed, retyped)
    {
      var name := names[i];
      assert names[..i + 1] == names[..i] + [name];
      if name !in inc {
        TableGone(b, inc, names[..i], name, added, removed, retyped);
        continue;
      }
      var lost := LostFields(name, b[name], inc[name]);
      var gained := LostFields(name, inc[name], b[name]);
      var changed := RetypedIn(name, b[name], inc[name]);
      assert forall t :: t in names[..i] ==> Less(t, name);
      OneTableMore(b, inc, names[..i], name, added, removed, retyped, gained, lost, changed);
      removed, added, retyped := removed + lost, added + gained, retyped + changed;
    }
    assert names[..|names|] == names;
    AllTablesDone(b, inc, names, added, removed, retyped);
  }

  lemma AllTablesDone(base: Shape, incoming: Shape, done: seq<Name>,
                      added: seq<FieldRef>, removed: seq<FieldRef>, retyped: seq<RetypedField>)
    requires FieldsDone(base, incoming, done, added, removed, retyped) && forall n :: n in base ==> n in done
    ensures forall r :: r in added <==> Removed(incoming, base, r)
    ensures forall r :: r in removed <==> Removed(base, incoming, r)
    ensures forall r :: r in retyped <==> Retyped(base, incoming, r)
  {
  }

  method DiffSchemas(base: Schema, incoming: Schema) returns (diff: SchemaDiff)
    ensures IsDiff(ShapeOf(base.tables), ShapeOf(incoming.tables), diff)
  {
    var b, inc := ShapeOf(base.tables), ShapeOf(incoming.tables);
    var removedTables := LostTables(b, inc);
    var addedTables := LostTables(inc, b);
    var added, removed, retyped := DiffFields(b, inc);
    diff := SchemaDiff(addedTables, removedTables, added, removed, retyped);
  }

  // ---------------------------------------------------------------------------
  // What the classification means

  /** `incoming` keeps every table and field of `base` with its type. */
  ghost predicate Includes(base: Shape, incoming: Shape) {
    forall t :: t in base ==>
      t in incoming && forall f :: f in base[t] ==> f in incoming[t] && incoming[t][f] == base[t][f]
  }

  lemma IncludesBothWays(a: Shape, b: Shape)
    requires Includes(a, b) && Includes(b, a)
    ensures a == b
  {
    forall t | t in a ensures a[t] == b[t] {
    }
  }

  lemma NonInclusionShows(base: Shape, incoming: Shape, diff: SchemaDiff, t: Name)
    requires IsDiff(base, incoming, diff) && t in base
    requires !(t in incoming && forall f :: f in base[t] ==> f in incoming[t] && incoming[t][f] == base[t][f])
    ensures diff.IsBreaking()
  {
    if t !in incoming {
      assert t in diff.removedTables;
    } else {
      var f :| f in base[t] && !(f in incoming[t] && incoming[t][f] == base[t][f]);
      if f !in incoming[t] {
        assert FieldRef(t, f) in diff.removedFields;
      } else {
        assert RetypedField(t, f, base[t][f], incoming[t][f]) in diff.retypedFields;
      }
    }
  }

  /** No field is lost or retyped exactly when the base is included. */
  lemma BreakingIsNonInclusion(base: Shape, incoming: Shape, diff: SchemaDiff)
    requires IsDiff(base, incoming, diff)
    ensures diff.IsBreaking() <==> !Includes(base, incoming)
  {
    if diff.IsBreaking() {
      if diff.removedTables != [] {
        assert diff.removedTables[0] in diff.removedTables;
      } else if diff.removedFields != [] {
        assert diff.removedFields[0] in diff.removedFields;
      } else {
        assert diff.retypedFields[0] in diff.retypedFields;
      }
    } else if !Includes(base, incoming) {
      var t :| t in base &&
          !(t in incoming && forall f :: f in base[t] ==> f in incoming[t] && incoming[t][f] == base[t][f]);
      NonInclusionShows(base, incoming, diff, t);
    }
  }

  lemma NothingAddedIsReverseInclusion(base: Shape, incoming: Shape, diff: SchemaDiff)
    requires IsDiff(base, incoming, diff) && Includes(base, incoming)
    ensures diff.addedTables == [] && diff.addedFields == [] <==> Includes(incoming, base)
  {
    if diff.addedTables == [] && diff.addedFields == [] {
      forall t | t in incoming
        ensures t in base && forall f :: f in incoming[t] ==> f in base[t] && base[t][f] == incoming[t][f]
      {
        assert t !in diff.addedTables;
        forall f | f in incoming[t]
          ensures f in base[t] && base[t][f] == incoming[t][f]
        {
          assert FieldRef(t, f) !in diff.addedFields;
        }
      }
    } else if diff.addedTables != [] {
      assert diff.addedTables[0] in diff.addedTables;
    } else {
      assert diff.addedFields[0] in diff.addedFields;
    }
  }

  /** Exactly one of the three classes holds: equality, strict inclusion, non-inclusion. */
  lemma Trichotomy(base: Shape, incoming: Shape, diff: SchemaDiff)
    requires IsDiff(base, incoming, diff)
    ensures diff.IsIdentical() <==> base == incoming
    ensures diff.IsAdditive() <==> Includes(base, incoming) && base != incoming
    ensures diff.IsBreaking() <==> !Includes(base, incoming)
  {
    BreakingIsNonInclusion(base, incoming, diff);
    if Includes(base, incoming) {
      NothingAddedIsReverseInclusion(base, incoming, diff);
      if Includes(incoming, base) {
        IncludesBothWays(base, incoming);
      }
    } else {
      assert base != incoming;
    }
  }

  /** The diff depends on the structure only, never on the order of declaration. */
  lemma DiffIsDetermined(base: Shape, incoming: Shape, d: SchemaDiff, e: SchemaDiff)
    requires IsDiff(base, incoming, d) && IsDiff(base, incoming, e)
    ensures d == e
  {
    LessIsStrictTotal();
    RefLessIsStrictTotal();
    SortedUnique(Less, d.addedTables, e.addedTables);
    SortedUnique(Less, d.removedTables, e.removedTables);
    SortedUnique(RefLess, d.addedFields, e.addedFields);
    SortedUnique(RefLess, d.removedFields, e.removedFields);
    RetypedUnique(base, incoming, d.retypedFields, e.retypedFields);
  }

  lemma RetypedUnique(base: Shape, incoming: Shape, s: seq<RetypedField>, t: seq<RetypedField>)
    requires Sorted(RetypedLess, s) && Sorted(RetypedLess, t)
    requires forall r :: r in s <==> Retyped(base, incoming, r)
    requires forall r :: r in t <==> Retyped(base, incoming, r)
    ensures s == t
  {
    var u, v := seq(|s|, i requires 0 <= i < |s| => RefOf(s[i])), seq(|t|, i requires 0 <= i < |t| => RefOf(t[i]));
    RefLessIsStrictTotal();
    forall x ensures x in u <==> x in v {
      if x in u {
        var i :| 0 <= i < |u| && u[i] == x;
        assert s[i] in s && s[i] in t;
        var j :| 0 <= j < |t| && t[j] == s[i];
        assert v[j] == x;
      }
      if x in v {
        var i :| 0 <= i < |v| && v[i] == x;
        assert t[i] in t && t[i] in s;
        var j :| 0 <= j < |s| && s[j] == t[i];
        assert u[j] == x;
      }
    }
    SortedUnique(RefLess, u, v);
    forall i | 0 <= i < |s| ensures s[i] == t[i] {
      assert s[i] in s && t[i] in t && u[i] == v[i];
    }
  }

  function FieldName(f: FieldDef): Name { f.name }

  function TableName(t: TableDef): Name { t.name }

  lemma {:induction false} FieldLooksUp(fields: seq<FieldDef>, i: nat)
    requires i < |fields|
    requires forall j :: i < j < |fields| ==> fields[j].name != fields[i].name
    ensures fields[i].name in FieldsOf(fields) && FieldsOf(fields)[fields[i].name] == fields[i].fieldType
  {
    if i < |fields| - 1 {
      FieldLooksUp(fields[..|fields| - 1], i);
    }
  }

  lemma {:induction false} FieldKeys(fields: seq<FieldDef>, name: Name)
    ensures name in FieldsOf(fields) <==> exists i :: 0 <= i < |fields| && fields[i].name == name
  {
    if fields != [] {
      var init := fields[..|fields| - 1];
      FieldKeys(init, name);
      if name in FieldsOf(init) {
        var i :| 0 <= i < |init| && init[i].name == name;
        assert fields[i].name == name;
      }
    }
  }

  lemma FieldOrderIrrelevant(f: seq<FieldDef>, g: seq<FieldDef>)
    requires DistinctBy(FieldName, f) && DistinctBy(FieldName, g)
    requires forall x :: x in f <==> x in g
    ensures FieldsOf(f) == FieldsOf(g)
  {
    forall name ensures name in FieldsOf(f) <==> name in FieldsOf(g) {
      FieldKeys(f, name);
      FieldKeys(g, name);
      if i :| 0 <= i < |f| && f[i].name == name {
        assert f[i] in g;
      }
      if i :| 0 <= i < |g| && g[i].name == name {
        assert g[i] in f;
      }
    }
    forall name | name in FieldsOf(f) ensures FieldsOf(f)[name] == FieldsOf(g)[name] {
      FieldKeys(f, name);
      var i :| 0 <= i < |f| && f[i].name == name;
      assert f[i] in g;
      var j :| 0 <= j < |g| && g[j] == f[i];
      FieldLooksUp(f, i);
      FieldLooksUp(g, j);
    }
  }

  lemma {:induction false} ShapeLooksUp(tables: seq<TableDef>, i: nat)
    requires i < |tables|
    requires forall j :: i < j < |tables| ==> tables[j].name != tables[i].name
    ensures tables[i].name in ShapeOf(tables) && ShapeOf(tables)[tables[i].name] == FieldsOf(tables[i].fields)
  {
    if i < |tables| - 1 {
      ShapeLooksUp(tables[..|tables| - 1], i);
    }
  }

  lemma {:induction false} ShapeKeys(tables: seq<TableDef>, name: Name)
    ensures name in ShapeOf(tables) <==> exists i :: 0 <= i < |tables| && tables[i].name == name
  {
    if tables != [] {
      var init := tables[..|tables| - 1];
      ShapeKeys(init, name);
      if name in ShapeOf(init) {
        var i :| 0 <= i < |init| && init[i].name == name;
        assert tables[i].name == name;
      }
    }
  }

  /** The same table, its fields declared in any order. */
  ghost predicate SameTable(a: TableDef, b: TableDef) {
    && a.name == b.name && DistinctBy(FieldName, a.fields) && DistinctBy(FieldName, b.fields)
    && forall x :: x in a.fields <==> x in b.fields
  }

  ghost predicate ListsTables(s: seq<TableDef>, t: seq<TableDef>) {
    forall i :: 0 <= i < |s| ==> exists j :: 0 <= j < |t| && SameTable(s[i], t[j])
  }

  lemma ListedTable(s: seq<TableDef>, t: seq<TableDef>, name: Name)
    requires DistinctBy(TableName, s) && DistinctBy(TableName, t) && ListsTables(s, t) && name in ShapeOf(s)
    ensures name in ShapeOf(t) && ShapeOf(t)[name] == ShapeOf(s)[name]
  {
    ShapeKeys(s, name);
    var i :| 0 <= i < |s| && s[i].name == name;
    var j :| 0 <= j < |t| && SameTable(s[i], t[j]);
    ShapeLooksUp(s, i);
    ShapeLooksUp(t, j);
    FieldOrderIrrelevant(s[i].fields, t[j].fields);
  }

  /** Two declarations of the same tables, and of the same fields in each, in any order, have one shape. */
  lemma DeclarationOrderIrrelevant(s: seq<TableDef>, t: seq<TableDef>)
    requires DistinctBy(TableName, s) && DistinctBy(TableName, t)
    requires ListsTables(s, t) && ListsTables(t, s)
    ensures ShapeOf(s) == ShapeOf(t)
  {
    forall name | name in ShapeOf(s) ensures name in ShapeOf(t) && ShapeOf(t)[name] == ShapeOf(s)[name] {
      ListedTable(s, t, name);
    }
    forall name | name in ShapeOf(t) ensures name in ShapeOf(s) {
      ListedTable(t, s, name);
    }
  }

  /** Additive steps compose. */
  lemma AdditiveTransitive(a: Shape, b: Shape, c: Shape, ab: SchemaDiff, bc: SchemaDiff, ac: SchemaDiff)
    requires IsDiff(a, b, ab) && IsDiff(b, c, bc) && IsDiff(a, c, ac)
    requires ab.IsAdditive() && bc.IsAdditive()
    ensures ac.IsAdditive()
  {
    Trichotomy(a, b, ab);
    Trichotomy(b, c, bc);
    Trichotomy(a, c, ac);
    if a == c {
      IncludesBothWays(a, b);
    }
  }
}
