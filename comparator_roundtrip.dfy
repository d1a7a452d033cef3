/**
 * Comparing a definition with the database built from it records nothing. The database is
 * seen the way the analyzers read it back: foreign keys keyed by constraint name, pointing
 * into a named schema, and without the reverse-relation fields, which no database stores.
 */
module ComparatorRoundTrip {
  import opened Wrappers
  import opened OrderedMaps
  import opened Config
  import opened ChangeSets
  import opened Comparator
  import opened ComparatorProperties
  import opened ComparatorTheorems

  /** A foreign key as the analyzer reads it back. */
  function Introspected(f: Foreign, s: string): Foreign {
    ClearReverse(FillSchema(f, s))
  }

  function IntrospectedForeignKeys(m: OMap<string, Foreign>, s: string): (r: OMap<string, Foreign>)
    ensures |r| == |m| && forall i :: 0 <= i < |m| ==> r[i] == (m[i].1.name.GetOr(""), Introspected(m[i].1, s))
  {
    seq(|m|, i requires 0 <= i < |m| => (m[i].1.name.GetOr(""), Introspected(m[i].1, s)))
  }

  function DeployedTable(t: Table, s: string): Table {
    t.(foreignKeys := IntrospectedForeignKeys(t.foreignKeys, s))
  }

  function DeployedTables(m: OMap<string, Table>, s: string): (r: OMap<string, Table>)
    ensures |r| == |m| && forall i :: 0 <= i < |m| ==> r[i] == (m[i].0, DeployedTable(m[i].1, s))
  {
    seq(|m|, i requires 0 <= i < |m| => (m[i].0, DeployedTable(m[i].1, s)))
  }

  function DeployedSchemas(m: OMap<string, Schema>): (r: OMap<string, Schema>)
    ensures |r| == |m| && forall i :: 0 <= i < |m| ==> r[i] == (m[i].0, m[i].1.(tables := DeployedTables(m[i].1.tables, m[i].1.name)))
  {
    seq(|m|, i requires 0 <= i < |m| => (m[i].0, m[i].1.(tables := DeployedTables(m[i].1.tables, m[i].1.name))))
  }

  /** The definition an analyzer reads back from a database built from `d`. */
  function Deployed(d: Definition): Definition {
    Definition(DeployedSchemas(d.schemas))
  }

  /** A `new` table as `compare` sees it, once foreign-key schemas are filled in. */
  function FilledTable(t: Table, s: string): Table {
    t.(foreignKeys := FilledForeignKeys(t.foreignKeys, s))
  }

  /**
   * A table as the configuration builds it: every element keyed as PHP keys it, a primary
   * key, and foreign keys named (as `Foreign::process` guarantees) with distinct names.
   */
  predicate DeployableTable(t: Table) {
    t.primaryKey.Some?
    && DistinctKeys(t.columns) && (forall j :: 0 <= j < |t.columns| ==> t.columns[j].0 == t.columns[j].1.name)
    && DistinctKeys(t.indexes) && (forall j :: 0 <= j < |t.indexes| ==> t.indexes[j].0 == NameKey(t.indexes[j].1.name))
    && DistinctKeys(t.uniqueKeys) && (forall j :: 0 <= j < |t.uniqueKeys| ==> t.uniqueKeys[j].0 == t.uniqueKeys[j].1.name)
    && DistinctKeys(t.foreignKeys)
    && (forall j :: 0 <= j < |t.foreignKeys| ==> t.foreignKeys[j].0 == t.foreignKeys[j].1.keyColumn && t.foreignKeys[j].1.name.Some?)
    && (forall j, k :: 0 <= j < k < |t.foreignKeys| ==> t.foreignKeys[j].1.name != t.foreignKeys[k].1.name)
  }

  predicate Deployable(d: Definition) {
    WellFormed(d)
    && forall i, j :: 0 <= i < |d.schemas| && 0 <= j < |d.schemas[i].1.tables| ==> DeployableTable(d.schemas[i].1.tables[j].1)
  }

  // ---------------------------------------------------------------------------------------
  // Element lists that line up with their counterparts record nothing.

  lemma MissingAligned<T, U>(items: seq<T>, others: OMap<string, U>, key: T -> string, rec: T -> string)
    requires |items| == |others| && forall i :: 0 <= i < |items| ==> key(items[i]) == others[i].0
    ensures Missing(items, others, key, rec) == []
  {
    forall i | 0 <= i < |items| ensures HasKey(others, key(items[i])) {
      assert others[i].0 == key(items[i]);
    }
    MissingNone(items, others, key, rec);
  }

  lemma ChangedAligned<T>(items: seq<T>, olds: OMap<string, T>, key: T -> string, rec: T -> string, same: (T, T) -> bool)
    requires |items| == |olds| && DistinctKeys(olds)
    requires forall i :: 0 <= i < |items| ==> key(items[i]) == olds[i].0 && same(items[i], olds[i].1)
    ensures Changed(items, olds, key, rec, same) == []
  {
    forall i | 0 <= i < |items| ensures HasKey(olds, key(items[i])) && same(items[i], Lookup(olds, key(items[i])).value) {
      LookupDistinct(olds, i);
    }
    ChangedNone(items, olds, key, rec, same);
  }

  lemma IntrospectedDistinct(m: OMap<string, Foreign>, s: string)
    requires forall j, k :: 0 <= j < k < |m| ==> m[j].1.name != m[k].1.name
    requires forall j :: 0 <= j < |m| ==> m[j].1.name.Some?
    ensures DistinctKeys(IntrospectedForeignKeys(m, s))
  {
    var r := IntrospectedForeignKeys(m, s);
    forall j, k | 0 <= j < k < |r| ensures r[j].0 != r[k].0 {
      assert r[j].0 == m[j].1.name.value && r[k].0 == m[k].1.name.value;
    }
  }

  lemma ColumnsRoundTrip(t: Table, s: string)
    requires DeployableTable(t)
    ensures var nt := FilledTable(t, s); var ot := DeployedTable(t, s);
            Missing(ValuesOf(nt.columns), ot.columns, ColumnKey, ColumnKey) == []
            && Changed(ValuesOf(nt.columns), ot.columns, ColumnKey, ColumnKey, SameColumn) == []
            && Missing(ValuesOf(ot.columns), nt.columns, ColumnKey, ColumnKey) == []
  {
    var cs := t.columns;
    MissingAligned(ValuesOf(cs), cs, ColumnKey, ColumnKey);
    ChangedAligned(ValuesOf(cs), cs, ColumnKey, ColumnKey, SameColumn);
  }

  /** The new side's foreign keys, reverse fields cleared, are exactly the read-back ones, in order. */
  lemma ForeignKeysAligned(t: Table, s: string)
    ensures var fks := ValuesOf(MapValues(FilledTable(t, s).foreignKeys, ClearReverse));
            var ot := DeployedTable(t, s);
            |fks| == |ot.foreignKeys| && forall i :: 0 <= i < |fks| ==> fks[i] == ot.foreignKeys[i].1
  {
  }

  lemma ForeignKeysRoundTrip(t: Table, s: string)
    requires DeployableTable(t)
    ensures var nt := FilledTable(t, s); var ot := DeployedTable(t, s);
            var fks := ValuesOf(MapValues(nt.foreignKeys, ClearReverse));
            Missing(fks, ot.foreignKeys, ForeignNameKey, ForeignKeyColumn) == []
            && Changed(fks, ot.foreignKeys, ForeignNameKey, ForeignKeyColumn, SameForeign) == []
  {
    var ot := DeployedTable(t, s);
    var fks := ValuesOf(MapValues(FilledTable(t, s).foreignKeys, ClearReverse));
    IntrospectedDistinct(t.foreignKeys, s);
    ForeignKeysAligned(t, s);
    MissingAligned(fks, ot.foreignKeys, ForeignNameKey, ForeignKeyColumn);
    ChangedAligned(fks, ot.foreignKeys, ForeignNameKey, ForeignKeyColumn, SameForeign);
  }

  lemma ForeignKeysRemoveRoundTrip(t: Table, s: string)
    requires DeployableTable(t)
    ensures Missing(ValuesOf(DeployedTable(t, s).foreignKeys), FilledTable(t, s).foreignKeys, ForeignKeyColumn, ForeignNameKey) == []
  {
    MissingAligned(ValuesOf(DeployedTable(t, s).foreignKeys), FilledTable(t, s).foreignKeys, ForeignKeyColumn, ForeignNameKey);
  }

  lemma KeysRoundTrip(t: Table)
    requires DeployableTable(t)
    ensures Missing(ValuesOf(t.indexes), t.indexes, IndexKey, IndexKey) == []
            && Changed(ValuesOf(t.indexes), t.indexes, IndexKey, IndexKey, SameIndex) == []
            && Missing(ValuesOf(t.uniqueKeys), t.uniqueKeys, UniqueKey, UniqueKey) == []
            && Changed(ValuesOf(t.uniqueKeys), t.uniqueKeys, UniqueKey, UniqueKey, SameUnique) == []
  {
    MissingAligned(ValuesOf(t.indexes), t.indexes, IndexKey, IndexKey);
    ChangedAligned(ValuesOf(t.indexes), t.indexes, IndexKey, IndexKey, SameIndex);
    MissingAligned(ValuesOf(t.uniqueKeys), t.uniqueKeys, UniqueKey, UniqueKey);
    ChangedAligned(ValuesOf(t.uniqueKeys), t.uniqueKeys, UniqueKey, UniqueKey, SameUnique);
  }

  /** A deployable table and the table read back from the database: no entry in any list. */
  lemma TableRoundTrip(t: Table, s: string)
    requires DeployableTable(t)
    ensures CreatedEntry(FilledTable(t, s), DeployedTable(t, s)) == NoTableChange
    ensures UpdatedEntry(FilledTable(t, s), DeployedTable(t, s)) == NoTableChange
    ensures RemovedEntry(DeployedTable(t, s), FilledTable(t, s)) == NoTableChange
  {
    ColumnsRoundTrip(t, s);
    ForeignKeysRoundTrip(t, s);
    ForeignKeysRemoveRoundTrip(t, s);
    KeysRoundTrip(t);
  }

  /** Within one schema, every table of the definition meets its read-back counterpart and records nothing. */
  lemma SchemaRoundTrip(m: OMap<string, Table>, s: string, sc: Schema, os: Schema, t: string)
    requires NamedTables(m) && forall j :: 0 <= j < |m| ==> DeployableTable(m[j].1)
    requires sc.tables == FilledTables(m, s) && os.tables == DeployedTables(m, s)
    ensures CreatedAt(sc, os, t) == NoTableChange && UpdatedAt(sc, os, t) == NoTableChange
    ensures RemovedAt(os, sc, t) == NoTableChange
  {
    assert forall j :: 0 <= j < |m| ==> sc.tables[j].0 == m[j].0 && os.tables[j].0 == m[j].0;
    assert DistinctKeys(sc.tables) && DistinctKeys(os.tables);
    if HasKey(m, t) {
      var j := IndexOf(m, t);
      assert sc.tables[j].0 == t && os.tables[j].0 == t;
      LookupDistinct(sc.tables, j);
      LookupDistinct(os.tables, j);
      TableRoundTrip(m[j].1, s);
    } else {
      assert !HasKey(sc.tables, t) && !HasKey(os.tables, t);
    }
  }

  lemma DeployedWellFormed(d: Definition)
    requires Deployable(d)
    ensures WellFormed(Deployed(d)) && AllKeysPresent(d.schemas, Deployed(d))
    ensures forall s :: HasKey(Deployed(d).schemas, s) <==> HasKey(d.schemas, s)
  {
    var m := d.schemas;
    var r := Deployed(d).schemas;
    assert forall i :: 0 <= i < |m| ==> r[i].0 == m[i].0 && r[i].1.name == m[i].1.name;
    forall i | 0 <= i < |m| ensures NamedTables(r[i].1.tables) {
      assert forall j :: 0 <= j < |m[i].1.tables| ==> r[i].1.tables[j].0 == m[i].1.tables[j].0;
    }
    forall i | 0 <= i < |m| ensures SchemaKeysPresent(m[i].1, Deployed(d)) {
      assert forall j :: 0 <= j < |m[i].1.tables| ==> DeployableTable(m[i].1.tables[j].1);
    }
  }

  /** The `i`-th schema of the definition, as `compare` sees it and as it is read back. */
  lemma SchemaPairRoundTrip(d: Definition, i: nat, t: string)
    requires Deployable(d) && i < |d.schemas|
    ensures var sc := FillSchemas(d).schemas[i].1; var os := Deployed(d).schemas[i].1;
            sc.name == os.name == d.schemas[i].0
            && CreatedAt(sc, os, t) == NoTableChange && UpdatedAt(sc, os, t) == NoTableChange
            && RemovedAt(os, sc, t) == NoTableChange
  {
    var x := d.schemas[i].1;
    assert forall j :: 0 <= j < |x.tables| ==> DeployableTable(x.tables[j].1);
    SchemaRoundTrip(x.tables, x.name, FillSchemas(d).schemas[i].1, Deployed(d).schemas[i].1, t);
  }

  /** Comparing a definition with its read-back never fails on a missing schema. */
  lemma CompareDeployedOk(d: Definition)
    requires Deployable(d)
    ensures Compare(d, Deployed(d)).Ok?
  {
    DeployedWellFormed(d);
    CompareEffect(d, Deployed(d));
  }

  /** Each entry of the change set of `d` against its read-back is empty. */
  lemma CompareDeployedAt(d: Definition, r: ChangeSet, op: Op, s: string, t: string)
    requires Deployable(d) && Compare(d, Deployed(d)) == Ok(r)
    ensures TableAt(r, op, s, t) == NoTableChange && !SchemaAt(r, op, s).all
  {
    var current := Deployed(d);
    var n := FillSchemas(d);
    DeployedWellFormed(d);
    CompareEffect(d, current);
    FillSchemasKeeps(d, current);
    if HasKey(d.schemas, s) {
      var i := IndexOf(d.schemas, s);
      assert n.schemas[i].0 == s && current.schemas[i].0 == s;
      LookupDistinct(n.schemas, i);
      LookupDistinct(current.schemas, i);
      SchemaPairRoundTrip(d, i, t);
    }
  }

  /** A change set that records nothing: no entry marked whole, no name in any list. */
  ghost predicate Empty(r: ChangeSet) {
    (forall op, s :: !SchemaAt(r, op, s).all)
    && (forall op, s, t :: TableAt(r, op, s, t) == NoTableChange)
  }

  /**
   * Comparing a definition with the database built from it succeeds and records nothing:
   * no schema or table is marked whole, and every table entry is empty under every operation.
   */
  lemma CompareDeployed(d: Definition)
    requires Deployable(d)
    ensures Compare(d, Deployed(d)).Ok? && Empty(Compare(d, Deployed(d)).value)
  {
    CompareDeployedOk(d);
    DeployedEmpty(d, Compare(d, Deployed(d)).value);
  }

  lemma DeployedEmpty(d: Definition, r: ChangeSet)
    requires Deployable(d) && Compare(d, Deployed(d)) == Ok(r)
    ensures Empty(r)
  {
    forall op, s ensures !SchemaAt(r, op, s).all {
      CompareDeployedAt(d, r, op, s, "");
    }
    forall op, s, t ensures TableAt(r, op, s, t) == NoTableChange {
      CompareDeployedAt(d, r, op, s, t);
    }
  }
}
