/**
 * The whole of `Comparator::compare`, characterised entry by entry: for every operation,
 * schema and table, what the change set holds, and when the comparison fails. Definitions
 * are taken as PHP leaves them: every array key is the name of the schema or table under it.
 */
module ComparatorTheorems {
  import opened Wrappers
  import opened OrderedMaps
  import opened Config
  import opened ChangeSets
  import opened Comparator
  import opened ComparatorProperties

  /** A table map as `Schema` builds it: keyed by table name. */
  predicate NamedTables(m: OMap<string, Table>) {
    DistinctKeys(m) && forall i :: 0 <= i < |m| ==> m[i].0 == m[i].1.name
  }

  /** A schema map as `Definition` builds it: keyed by schema name, with named tables. */
  predicate NamedSchemas(m: OMap<string, Schema>) {
    DistinctKeys(m) && forall i :: 0 <= i < |m| ==> m[i].0 == m[i].1.name && NamedTables(m[i].1.tables)
  }

  predicate WellFormed(d: Definition) {
    NamedSchemas(d.schemas)
  }

  /** Every `new` table that `old` also has carries a primary key, so `isSameAs` is never called on null. */
  predicate PrimaryKeysPresent(m: OMap<string, Table>, os: Schema) {
    forall i :: 0 <= i < |m| && HasKey(os.tables, m[i].1.name) ==> m[i].1.primaryKey.Some?
  }

  predicate SchemaKeysPresent(sc: Schema, current: Definition) {
    match Lookup(current.schemas, sc.name)
    case None => true
    case Some(os) => PrimaryKeysPresent(sc.tables, os)
  }

  /** Changes outside tables `m` of schema `s` under `ops`: none. */
  ghost predicate TablesFrame<V>(a: ChangeSet, b: ChangeSet, ops: set<Op>, s: string, m: OMap<string, V>) {
    (forall op2, s2, t2 :: op2 !in ops || s2 != s || !HasKey(m, t2) ==> TableAt(b, op2, s2, t2) == TableAt(a, op2, s2, t2))
    && SameOutside(a, b, ops, s) && SameFlags(a, b)
  }

  /** Changes outside schemas `m` under `ops`: none. */
  ghost predicate SchemasFrame<V>(a: ChangeSet, b: ChangeSet, ops: set<Op>, m: OMap<string, V>) {
    forall op2, s2 :: op2 !in ops || !HasKey(m, s2) ==> SchemaAt(b, op2, s2) == SchemaAt(a, op2, s2)
  }

  /** The `create` entry of table `t` of a `new` schema whose `old` counterpart is `os`. */
  function CreatedAt(sc: Schema, os: Schema, t: string): TableChange {
    match Lookup(sc.tables, t)
    case None => NoTableChange
    case Some(nt) => TableCreated(nt, os)
  }

  /** The `update` entry of table `t` of a `new` schema whose `old` counterpart is `os`. */
  function UpdatedAt(sc: Schema, os: Schema, t: string): TableChange {
    match Lookup(sc.tables, t)
    case None => NoTableChange
    case Some(nt) => TableUpdated(nt, os)
  }

  /** The `remove` entry of table `t` of an `old` schema whose `new` counterpart is `ns`. */
  function RemovedAt(osc: Schema, ns: Schema, t: string): TableChange {
    match Lookup(osc.tables, t)
    case None => NoTableChange
    case Some(ot) => TableRemoved(ot, ns)
  }

  /** What the first pass records for `new` schema `sc`: all of it when `old` lacks it, else table by table. */
  ghost predicate SchemaCreated(r: ChangeSet, sc: Schema, current: Definition) {
    match Lookup(current.schemas, sc.name)
    case None =>
      SchemaAt(r, Create, sc.name) == NoSchemaChange.(all := true) && SchemaAt(r, Update, sc.name) == NoSchemaChange
    case Some(os) =>
      !SchemaAt(r, Create, sc.name).all && !SchemaAt(r, Update, sc.name).all
      && forall t :: TableAt(r, Create, sc.name, t) == CreatedAt(sc, os, t) && TableAt(r, Update, sc.name, t) == UpdatedAt(sc, os, t)
  }

  /** What the second pass records for `old` schema `osc`: all of it when `new` lacks it, else table by table. */
  ghost predicate SchemaRemoved(r: ChangeSet, osc: Schema, target: Definition) {
    match Lookup(target.schemas, osc.name)
    case None => SchemaAt(r, Remove, osc.name) == NoSchemaChange.(all := true)
    case Some(ns) =>
      !SchemaAt(r, Remove, osc.name).all && forall t :: TableAt(r, Remove, osc.name, t) == RemovedAt(osc, ns, t)
  }

  // ---------------------------------------------------------------------------------------
  // Folds over the tables of a schema.

  lemma NamedTablesPrefix(m: OMap<string, Table>)
    requires NamedTables(m) && |m| > 0
    ensures NamedTables(m[..|m| - 1]) && !HasKey(m[..|m| - 1], m[|m| - 1].1.name)
    ensures ValuesOf(m)[..|m| - 1] == ValuesOf(m[..|m| - 1])
  {
  }

  lemma TablesFrameSnoc<V>(a: ChangeSet, b: ChangeSet, c: ChangeSet, ops: set<Op>, s: string, m: OMap<string, V>)
    requires DistinctKeys(m) && |m| > 0
    requires TablesFrame(a, b, ops, s, m[..|m| - 1]) && Frame(b, c, ops, s, m[|m| - 1].0)
    ensures TablesFrame(a, c, ops, s, m)
  {
    forall t2 ensures HasKey(m, t2) <==> t2 == m[|m| - 1].0 || HasKey(m[..|m| - 1], t2) {
      LookupSnoc(m, t2);
    }
  }

  /**
   * The first pass over the tables of a schema `old` also has fills the entry of every table
   * as `TableCreated`/`TableUpdated` say, touches no other entry, and fails exactly when a
   * table both sides have lacks a primary key in `new`.
   */
  lemma {:induction false} CreateTablesEffect(cs: ChangeSet, s: string, m: OMap<string, Table>, os: Schema)
    requires NamedTables(m)
    requires forall t :: HasKey(m, t) ==> TableAt(cs, Create, s, t) == NoTableChange && TableAt(cs, Update, s, t) == NoTableChange
    ensures var r := CreateTables(cs, s, ValuesOf(m), os);
            (r.Ok? <==> PrimaryKeysPresent(m, os))
            && (r.Ok? ==>
                  TablesFrame(cs, r.value, {Create, Update}, s, m)
                  && forall t :: HasKey(m, t) ==>
                       TableAt(r.value, Create, s, t) == TableCreated(Lookup(m, t).value, os)
                       && TableAt(r.value, Update, s, t) == TableUpdated(Lookup(m, t).value, os))
    decreases |m|
  {
    if m != [] {
      var pre := m[..|m| - 1];
      var x := m[|m| - 1].1;
      NamedTablesPrefix(m);
      forall t | HasKey(pre, t) ensures HasKey(m, t) {
        LookupSnoc(m, t);
      }
      CreateTablesEffect(cs, s, pre, os);
      var acc := CreateTables(cs, s, ValuesOf(pre), os);
      assert CreateTables(cs, s, ValuesOf(m), os) == if acc.Err? then acc else CreateTable(acc.value, s, x, os);
      PrimaryKeysPresentSnoc(m, os);
      if acc.Ok? {
        CreateTablesOkStep(cs, s, m, os, acc.value);
      }
    }
  }

  lemma PrimaryKeysPresentSnoc(m: OMap<string, Table>, os: Schema)
    requires |m| > 0
    ensures PrimaryKeysPresent(m, os) <==>
              PrimaryKeysPresent(m[..|m| - 1], os) && (HasKey(os.tables, m[|m| - 1].1.name) ==> m[|m| - 1].1.primaryKey.Some?)
  {
    var pre := m[..|m| - 1];
    assert forall i :: 0 <= i < |pre| ==> pre[i] == m[i];
  }

  /** The last table of `m`, once the others went through: its entries are filled, the earlier ones kept. */
  lemma CreateTablesOkStep(cs: ChangeSet, s: string, m: OMap<string, Table>, os: Schema, acc: ChangeSet)
    requires NamedTables(m) && |m| > 0
    requires forall t :: HasKey(m, t) ==> TableAt(cs, Create, s, t) == NoTableChange && TableAt(cs, Update, s, t) == NoTableChange
    requires TablesFrame(cs, acc, {Create, Update}, s, m[..|m| - 1])
    requires forall t :: HasKey(m[..|m| - 1], t) ==>
               TableAt(acc, Create, s, t) == TableCreated(Lookup(m[..|m| - 1], t).value, os)
               && TableAt(acc, Update, s, t) == TableUpdated(Lookup(m[..|m| - 1], t).value, os)
    ensures var x := m[|m| - 1].1;
            var r := CreateTable(acc, s, x, os);
            (r.Ok? <==> (HasKey(os.tables, x.name) ==> x.primaryKey.Some?))
            && (r.Ok? ==>
                  TablesFrame(cs, r.value, {Create, Update}, s, m)
                  && forall t :: HasKey(m, t) ==>
                       TableAt(r.value, Create, s, t) == TableCreated(Lookup(m, t).value, os)
                       && TableAt(r.value, Update, s, t) == TableUpdated(Lookup(m, t).value, os))
  {
    var x := m[|m| - 1].1;
    NamedTablesPrefix(m);
    LookupSnoc(m, x.name);
    CreateTableEffect(acc, s, x, os);
    var r := CreateTable(acc, s, x, os);
    if r.Ok? {
      TablesFrameSnoc(cs, acc, r.value, {Create, Update}, s, m);
      forall t | HasKey(m, t)
        ensures TableAt(r.value, Create, s, t) == TableCreated(Lookup(m, t).value, os)
        ensures TableAt(r.value, Update, s, t) == TableUpdated(Lookup(m, t).value, os)
      {
        LookupSnoc(m, t);
        if t != x.name {
          assert HasKey(m[..|m| - 1], t) && Lookup(m, t) == Lookup(m[..|m| - 1], t);
          assert TableAt(r.value, Create, s, t) == TableAt(acc, Create, s, t);
          assert TableAt(r.value, Update, s, t) == TableAt(acc, Update, s, t);
        }
      }
    }
  }

  /** The second pass over the tables of a schema `new` also has fills the entry of every table as `TableRemoved` says. */
  lemma {:induction false} RemoveTablesEffect(cs: ChangeSet, s: string, m: OMap<string, Table>, ns: Schema)
    requires NamedTables(m)
    requires forall t :: HasKey(m, t) ==> TableAt(cs, Remove, s, t) == NoTableChange
    ensures var r := RemoveTables(cs, s, ValuesOf(m), ns);
            TablesFrame(cs, r, {Remove}, s, m)
            && forall t :: HasKey(m, t) ==> TableAt(r, Remove, s, t) == TableRemoved(Lookup(m, t).value, ns)
    decreases |m|
  {
    if m != [] {
      var pre := m[..|m| - 1];
      var x := m[|m| - 1].1;
      NamedTablesPrefix(m);
      forall t | HasKey(pre, t) ensures HasKey(m, t) {
        LookupSnoc(m, t);
      }
      RemoveTablesEffect(cs, s, pre, ns);
      var acc := RemoveTables(cs, s, ValuesOf(pre), ns);
      assert RemoveTables(cs, s, ValuesOf(m), ns) == RemoveTable(acc, s, x, ns);
      LookupSnoc(m, x.name);
      RemoveTableEffect(acc, s, x, ns);
      var r := RemoveTable(acc, s, x, ns);
      TablesFrameSnoc(cs, acc, r, {Remove}, s, m);
      forall t | HasKey(m, t) ensures TableAt(r, Remove, s, t) == TableRemoved(Lookup(m, t).value, ns) {
        LookupSnoc(m, t);
      }
    }
  }

  // ---------------------------------------------------------------------------------------
  // One schema.

  /** An empty schema entry has empty table entries. */
  lemma EmptySchemaTables(cs: ChangeSet, op: Op, s: string)
    requires SchemaAt(cs, op, s) == NoSchemaChange
    ensures forall t :: TableAt(cs, op, s, t) == NoTableChange
  {
  }

  /** The first pass on one `new` schema fills its entries as `SchemaCreated` says and touches no other schema. */
  lemma CreateSchemaEffect(cs: ChangeSet, sc: Schema, current: Definition)
    requires NamedTables(sc.tables)
    requires SchemaAt(cs, Create, sc.name) == NoSchemaChange && SchemaAt(cs, Update, sc.name) == NoSchemaChange
    ensures var r := CreateSchema(cs, sc, current);
            (r.Ok? <==> SchemaKeysPresent(sc, current))
            && (r.Ok? ==> SchemaCreated(r.value, sc, current) && SameOutside(cs, r.value, {Create, Update}, sc.name))
  {
    EmptySchemaTables(cs, Create, sc.name);
    EmptySchemaTables(cs, Update, sc.name);
    match Lookup(current.schemas, sc.name) {
      case None =>
        MarkSchemaAllFrame(cs, Create, sc.name);
      case Some(os) =>
        CreateTablesEffect(cs, sc.name, sc.tables, os);
        var r := CreateTables(cs, sc.name, ValuesOf(sc.tables), os);
        if r.Ok? {
          forall t ensures TableAt(r.value, Create, sc.name, t) == CreatedAt(sc, os, t)
                     && TableAt(r.value, Update, sc.name, t) == UpdatedAt(sc, os, t)
          {
          }
        }
    }
  }

  /** The second pass on one `old` schema fills its entry as `SchemaRemoved` says and touches no other schema. */
  lemma RemoveSchemaEffect(cs: ChangeSet, osc: Schema, target: Definition)
    requires NamedTables(osc.tables)
    requires SchemaAt(cs, Remove, osc.name) == NoSchemaChange
    ensures var r := RemoveSchema(cs, osc, target);
            SchemaRemoved(r, osc, target) && SameOutside(cs, r, {Remove}, osc.name)
  {
    EmptySchemaTables(cs, Remove, osc.name);
    match Lookup(target.schemas, osc.name) {
      case None =>
        MarkSchemaAllFrame(cs, Remove, osc.name);
      case Some(ns) =>
        RemoveTablesEffect(cs, osc.name, osc.tables, ns);
    }
  }

  // ---------------------------------------------------------------------------------------
  // Folds over the schemas of a definition.

  lemma NamedSchemasPrefix(m: OMap<string, Schema>)
    requires NamedSchemas(m) && |m| > 0
    ensures NamedSchemas(m[..|m| - 1]) && !HasKey(m[..|m| - 1], m[|m| - 1].1.name)
    ensures NamedTables(m[|m| - 1].1.tables) && m[|m| - 1].0 == m[|m| - 1].1.name
    ensures ValuesOf(m)[..|m| - 1] == ValuesOf(m[..|m| - 1])
    ensures forall s :: HasKey(m[..|m| - 1], s) ==> HasKey(m, s)
  {
    forall s | HasKey(m[..|m| - 1], s) ensures HasKey(m, s) {
      LookupSnoc(m, s);
    }
  }

  lemma CreateSchemasUnfold(cs: ChangeSet, m: OMap<string, Schema>, current: Definition)
    requires |m| > 0
    ensures var acc := CreateSchemas(cs, ValuesOf(m[..|m| - 1]), current);
            CreateSchemas(cs, ValuesOf(m), current) == if acc.Err? then acc else CreateSchema(acc.value, m[|m| - 1].1, current)
  {
    assert ValuesOf(m)[..|m| - 1] == ValuesOf(m[..|m| - 1]);
  }

  lemma SchemasFrameSnoc<V>(a: ChangeSet, b: ChangeSet, c: ChangeSet, ops: set<Op>, m: OMap<string, V>)
    requires DistinctKeys(m) && |m| > 0
    requires SchemasFrame(a, b, ops, m[..|m| - 1]) && SameOutside(b, c, ops, m[|m| - 1].0)
    ensures SchemasFrame(a, c, ops, m)
  {
    forall s2 ensures HasKey(m, s2) <==> s2 == m[|m| - 1].0 || HasKey(m[..|m| - 1], s2) {
      LookupSnoc(m, s2);
    }
  }

  /** A schema frame leaves the operations outside `ops` alone. */
  lemma SchemasFrameAt<V>(a: ChangeSet, b: ChangeSet, ops: set<Op>, m: OMap<string, V>, op: Op, s: string)
    requires SchemasFrame(a, b, ops, m) && (op !in ops || !HasKey(m, s))
    ensures SchemaAt(b, op, s) == SchemaAt(a, op, s)
  {
  }

  /** `SchemaCreated` reads only the `create` and `update` entries of its schema. */
  lemma SchemaCreatedFrame(a: ChangeSet, b: ChangeSet, sc: Schema, current: Definition)
    requires SchemaCreated(a, sc, current)
    requires SchemaAt(b, Create, sc.name) == SchemaAt(a, Create, sc.name) && SchemaAt(b, Update, sc.name) == SchemaAt(a, Update, sc.name)
    ensures SchemaCreated(b, sc, current)
  {
  }

  /** `SchemaRemoved` reads only the `remove` entry of its schema. */
  lemma SchemaRemovedFrame(a: ChangeSet, b: ChangeSet, osc: Schema, target: Definition)
    requires SchemaRemoved(a, osc, target)
    requires SchemaAt(b, Remove, osc.name) == SchemaAt(a, Remove, osc.name)
    ensures SchemaRemoved(b, osc, target)
  {
  }

  /** Every `new` table compared against an `old` one has a primary key, across the schemas of `m`. */
  predicate AllKeysPresent(m: OMap<string, Schema>, current: Definition) {
    forall i :: 0 <= i < |m| ==> SchemaKeysPresent(m[i].1, current)
  }

  lemma AllKeysPresentSnoc(m: OMap<string, Schema>, current: Definition)
    requires |m| > 0
    ensures AllKeysPresent(m, current) <==> AllKeysPresent(m[..|m| - 1], current) && SchemaKeysPresent(m[|m| - 1].1, current)
  {
    var pre := m[..|m| - 1];
    assert forall i :: 0 <= i < |pre| ==> pre[i] == m[i];
  }

  /** The first pass over the schemas of `new`: every schema as `SchemaCreated` says, nothing else touched. */
  lemma {:induction false} CreateSchemasEffect(cs: ChangeSet, m: OMap<string, Schema>, current: Definition)
    requires NamedSchemas(m)
    requires forall s :: HasKey(m, s) ==> SchemaAt(cs, Create, s) == NoSchemaChange && SchemaAt(cs, Update, s) == NoSchemaChange
    ensures var r := CreateSchemas(cs, ValuesOf(m), current);
            (r.Ok? <==> AllKeysPresent(m, current))
            && (r.Ok? ==>
                  SchemasFrame(cs, r.value, {Create, Update}, m)
                  && forall s :: HasKey(m, s) ==> SchemaCreated(r.value, Lookup(m, s).value, current))
    decreases |m|
  {
    if m != [] {
      var pre := m[..|m| - 1];
      var x := m[|m| - 1].1;
      NamedSchemasPrefix(m);
      CreateSchemasEffect(cs, pre, current);
      var acc := CreateSchemas(cs, ValuesOf(pre), current);
      CreateSchemasUnfold(cs, m, current);
      AllKeysPresentSnoc(m, current);
      if acc.Ok? {
        CreateSchemasOkStep(cs, m, current, acc.value);
      }
    }
  }

  lemma CreateSchemasOkStep(cs: ChangeSet, m: OMap<string, Schema>, current: Definition, acc: ChangeSet)
    requires NamedSchemas(m) && |m| > 0
    requires forall s :: HasKey(m, s) ==> SchemaAt(cs, Create, s) == NoSchemaChange && SchemaAt(cs, Update, s) == NoSchemaChange
    requires SchemasFrame(cs, acc, {Create, Update}, m[..|m| - 1])
    requires var pre := m[..|m| - 1]; forall s :: HasKey(pre, s) ==> SchemaCreated(acc, Lookup(pre, s).value, current)
    ensures var x := m[|m| - 1].1;
            var r := CreateSchema(acc, x, current);
            (r.Ok? <==> SchemaKeysPresent(x, current))
            && (r.Ok? ==>
                  SchemasFrame(cs, r.value, {Create, Update}, m)
                  && forall s :: HasKey(m, s) ==> SchemaCreated(r.value, Lookup(m, s).value, current))
  {
    var x := m[|m| - 1].1;
    NamedSchemasPrefix(m);
    LookupSnoc(m, x.name);
    CreateSchemaEffect(acc, x, current);
    var r := CreateSchema(acc, x, current);
    if r.Ok? {
      SchemasFrameSnoc(cs, acc, r.value, {Create, Update}, m);
      forall s | HasKey(m, s) ensures SchemaCreated(r.value, Lookup(m, s).value, current) {
        LookupSnoc(m, s);
        if s != x.name {
          SchemaCreatedFrame(acc, r.value, Lookup(m, s).value, current);
        }
      }
    }
  }

  /** The second pass over the schemas of `old`: every schema as `SchemaRemoved` says, nothing else touched. */
  lemma {:induction false} RemoveSchemasEffect(cs: ChangeSet, m: OMap<string, Schema>, target: Definition)
    requires NamedSchemas(m)
    requires forall s :: HasKey(m, s) ==> SchemaAt(cs, Remove, s) == NoSchemaChange
    ensures var r := RemoveSchemas(cs, ValuesOf(m), target);
            SchemasFrame(cs, r, {Remove}, m)
            && forall s :: HasKey(m, s) ==> SchemaRemoved(r, Lookup(m, s).value, target)
    decreases |m|
  {
    if m != [] {
      var pre := m[..|m| - 1];
      var x := m[|m| - 1].1;
      NamedSchemasPrefix(m);
      forall s | HasKey(pre, s) ensures HasKey(m, s) {
        LookupSnoc(m, s);
      }
      RemoveSchemasEffect(cs, pre, target);
      var acc := RemoveSchemas(cs, ValuesOf(pre), target);
      assert RemoveSchemas(cs, ValuesOf(m), target) == RemoveSchema(acc, x, target);
      LookupSnoc(m, x.name);
      RemoveSchemaEffect(acc, x, target);
      var r := RemoveSchema(acc, x, target);
      SchemasFrameSnoc(cs, acc, r, {Remove}, m);
      forall s | HasKey(m, s) ensures SchemaRemoved(r, Lookup(m, s).value, target) {
        LookupSnoc(m, s);
        if s != x.name {
          SchemaRemovedFrame(acc, r, Lookup(m, s).value, target);
        }
      }
    }
  }

  // ---------------------------------------------------------------------------------------
  // The whole comparison.

  /** Filling foreign-key schemas keeps every key, name and primary key. */
  lemma FillSchemasKeeps(d: Definition, current: Definition)
    requires WellFormed(d)
    ensures WellFormed(FillSchemas(d))
    ensures forall s :: HasKey(FillSchemas(d).schemas, s) <==> HasKey(d.schemas, s)
    ensures AllKeysPresent(FillSchemas(d).schemas, current) <==> AllKeysPresent(d.schemas, current)
  {
    var m := d.schemas;
    var n := FillSchemas(d).schemas;
    forall i | 0 <= i < |m| ensures NamedTables(n[i].1.tables) && SchemaKeysPresent(n[i].1, current) == SchemaKeysPresent(m[i].1, current) {
      var ts := m[i].1.tables;
      var fs := n[i].1.tables;
      assert forall j :: 0 <= j < |ts| ==> fs[j].0 == ts[j].0 && fs[j].1.name == ts[j].1.name && fs[j].1.primaryKey == ts[j].1.primaryKey;
    }
    forall s ensures HasKey(n, s) <==> HasKey(m, s) {
      assert forall i :: 0 <= i < |m| ==> n[i].0 == m[i].0;
    }
  }

  /**
   * `compare` fails exactly when a table present on both sides has no primary key in `new`;
   * otherwise every schema of `new` is recorded as `SchemaCreated` says, every schema of `old`
   * as `SchemaRemoved` says, and every other schema entry stays empty.
   */
  lemma CompareEffect(target: Definition, current: Definition)
    requires WellFormed(target) && WellFormed(current)
    ensures Compare(target, current).Ok? <==> AllKeysPresent(target.schemas, current)
    ensures Compare(target, current).Ok? ==>
              var r := Compare(target, current).value;
              var n := FillSchemas(target);
              (forall s :: HasKey(n.schemas, s) ==> SchemaCreated(r, Lookup(n.schemas, s).value, current))
              && (forall s :: !HasKey(target.schemas, s) ==> SchemaAt(r, Create, s) == NoSchemaChange && SchemaAt(r, Update, s) == NoSchemaChange)
              && (forall s :: HasKey(current.schemas, s) ==> SchemaRemoved(r, Lookup(current.schemas, s).value, n))
              && (forall s :: !HasKey(current.schemas, s) ==> SchemaAt(r, Remove, s) == NoSchemaChange)
  {
    var n := FillSchemas(target);
    FillSchemasKeeps(target, current);
    forall s ensures SchemaAt([], Create, s) == NoSchemaChange && SchemaAt([], Update, s) == NoSchemaChange {
    }
    CreateSchemasEffect([], n.schemas, current);
    var first := CreateSchemas([], ValuesOf(n.schemas), current);
    if first.Ok? {
      var cs := first.value;
      forall s ensures SchemaAt(cs, Remove, s) == NoSchemaChange {
        SchemasFrameAt([], cs, {Create, Update}, n.schemas, Remove, s);
      }
      RemoveSchemasEffect(cs, current.schemas, n);
      var r := RemoveSchemas(cs, ValuesOf(current.schemas), n);
      forall s ensures SchemaAt(r, Create, s) == SchemaAt(cs, Create, s) && SchemaAt(r, Update, s) == SchemaAt(cs, Update, s) {
        SchemasFrameAt(cs, r, {Remove}, current.schemas, Create, s);
        SchemasFrameAt(cs, r, {Remove}, current.schemas, Update, s);
      }
      forall s | HasKey(n.schemas, s) ensures SchemaCreated(r, Lookup(n.schemas, s).value, current) {
        SchemaCreatedFrame(cs, r, Lookup(n.schemas, s).value, current);
      }
      forall s | !HasKey(target.schemas, s)
        ensures SchemaAt(r, Create, s) == NoSchemaChange && SchemaAt(r, Update, s) == NoSchemaChange
      {
        SchemasFrameAt([], cs, {Create, Update}, n.schemas, Create, s);
        SchemasFrameAt([], cs, {Create, Update}, n.schemas, Update, s);
      }
      forall s | !HasKey(current.schemas, s) ensures SchemaAt(r, Remove, s) == NoSchemaChange {
        SchemasFrameAt(cs, r, {Remove}, current.schemas, Remove, s);
      }
    }
  }

  /**
   * At schema level: `create` marks exactly the schemas only `new` has, `remove` exactly the
   * schemas only `old` has, and `update` never marks a whole schema.
   */
  lemma CompareSchemas(target: Definition, current: Definition, s: string)
    requires WellFormed(target) && WellFormed(current) && Compare(target, current).Ok?
    ensures var r := Compare(target, current).value;
            (SchemaAt(r, Create, s).all <==> HasKey(target.schemas, s) && !HasKey(current.schemas, s))
            && (SchemaAt(r, Remove, s).all <==> HasKey(current.schemas, s) && !HasKey(target.schemas, s))
            && !SchemaAt(r, Update, s).all
  {
    CompareEffect(target, current);
    FillSchemasKeeps(target, current);
    var r := Compare(target, current).value;
    var n := FillSchemas(target);
    if HasKey(n.schemas, s) {
      LookupKeyedName(n.schemas, s);
      CreatedWhole(r, Lookup(n.schemas, s).value, current);
    }
    if HasKey(current.schemas, s) {
      LookupKeyedName(current.schemas, s);
      RemovedWhole(r, Lookup(current.schemas, s).value, n);
    }
  }

  /** A `new` schema is created whole exactly when `old` lacks it, and never updated whole. */
  lemma CreatedWhole(r: ChangeSet, sc: Schema, current: Definition)
    requires SchemaCreated(r, sc, current)
    ensures SchemaAt(r, Create, sc.name).all <==> !HasKey(current.schemas, sc.name)
    ensures !SchemaAt(r, Update, sc.name).all
  {
  }

  /** An `old` schema is removed whole exactly when `new` lacks it. */
  lemma RemovedWhole(r: ChangeSet, osc: Schema, target: Definition)
    requires SchemaRemoved(r, osc, target)
    ensures SchemaAt(r, Remove, osc.name).all <==> !HasKey(target.schemas, osc.name)
  {
  }

  /**
   * Only `update` entries carry the primary-key flag, and `update` never marks a whole table:
   * a table is created or removed whole, and changed only piece by piece.
   */
  lemma CompareTableFlags(target: Definition, current: Definition, s: string, t: string)
    requires WellFormed(target) && WellFormed(current) && Compare(target, current).Ok?
    ensures var r := Compare(target, current).value;
            !TableAt(r, Update, s, t).all && !TableAt(r, Create, s, t).primaryKey && !TableAt(r, Remove, s, t).primaryKey
  {
    CompareEffect(target, current);
    FillSchemasKeeps(target, current);
    var r := Compare(target, current).value;
    var n := FillSchemas(target);
    if HasKey(n.schemas, s) {
      LookupKeyedName(n.schemas, s);
      CreatedFlags(r, Lookup(n.schemas, s).value, current, t);
    }
    if HasKey(current.schemas, s) {
      LookupKeyedName(current.schemas, s);
      RemovedFlags(r, Lookup(current.schemas, s).value, n, t);
    }
  }

  /** A `new` schema's tables: `update` never marks a whole table, `create` never the primary key. */
  lemma CreatedFlags(r: ChangeSet, sc: Schema, current: Definition, t: string)
    requires SchemaCreated(r, sc, current)
    ensures !TableAt(r, Update, sc.name, t).all && !TableAt(r, Create, sc.name, t).primaryKey
  {
  }

  /** An `old` schema's tables: `remove` never carries the primary-key flag. */
  lemma RemovedFlags(r: ChangeSet, osc: Schema, target: Definition, t: string)
    requires SchemaRemoved(r, osc, target)
    ensures !TableAt(r, Remove, osc.name, t).primaryKey
  {
  }

  /** In a schema map keyed by name, the schema found under `s` is named `s`. */
  lemma LookupKeyedName(m: OMap<string, Schema>, s: string)
    requires NamedSchemas(m) && HasKey(m, s)
    ensures Lookup(m, s).value.name == s
  {
  }
}
