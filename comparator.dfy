/**
 * `Comparator::compare`: the difference between the target definition (`new`) and the
 * current one (`old`) as a change set. A first pass over `new` records what to create and
 * what to update, a second pass over `old` records what to remove. On the way, the
 * comparator fills in the schema of every foreign key of `new` that has none, and clears
 * `reverseName`/`reverseOrder` on the foreign keys of every `new` table that `old` also has.
 */
module Comparator {
  import opened Wrappers
  import opened OrderedMaps
  import opened Config
  import opened ChangeSets

  /** Calling `isSameAs` on a table's missing primary key is a fatal error. */
  datatype CompareError = NullPrimaryKey(schema: string, table: string)

  // ---------------------------------------------------------------------------------------
  // How each kind of element is compared.

  predicate SameIndex(a: Index, b: Index) { a == b }

  predicate SameUnique(a: Unique, b: Unique) { a == b }

  // ---------------------------------------------------------------------------------------
  // Specification of the two passes.

  /**
   * One `foreach` of the first pass over a table's elements: an element whose key `old`
   * lacks goes to `create`, one that differs from its `old` counterpart goes to `update`.
   */
  function DiffNew<T>(cs: ChangeSet, s: string, t: string, k: Kind, items: seq<T>, olds: OMap<string, T>,
                      key: T -> string, rec: T -> string, same: (T, T) -> bool): ChangeSet
    decreases |items|
  {
    if items == [] then cs
    else
      DiffNewStep(DiffNew(cs, s, t, k, items[..|items| - 1], olds, key, rec, same), s, t, k, items[|items| - 1], olds, key, rec, same)
  }

  /** One more element is one more step. */
  lemma DiffNewSnoc<T>(cs: ChangeSet, s: string, t: string, k: Kind, items: seq<T>, x: T, olds: OMap<string, T>,
                       key: T -> string, rec: T -> string, same: (T, T) -> bool)
    ensures DiffNew(cs, s, t, k, items + [x], olds, key, rec, same)
            == DiffNewStep(DiffNew(cs, s, t, k, items, olds, key, rec, same), s, t, k, x, olds, key, rec, same)
  {
    assert (items + [x])[..|items|] == items;
  }

  /** The body of that `foreach` for one element `x`. */
  function DiffNewStep<T>(cs: ChangeSet, s: string, t: string, k: Kind, x: T, olds: OMap<string, T>,
                          key: T -> string, rec: T -> string, same: (T, T) -> bool): ChangeSet
  {
    match Lookup(olds, key(x))
    case None => AppendName(cs, Create, s, t, k, rec(x))
    case Some(o) => if same(x, o) then cs else AppendName(cs, Update, s, t, k, rec(x))
  }

  /** One `foreach` of the second pass: an `old` element whose key `new` lacks goes to `remove`. */
  function DiffOld<T, U>(cs: ChangeSet, s: string, t: string, k: Kind, items: seq<T>, news: OMap<string, U>,
                         key: T -> string, rec: T -> string): ChangeSet
    decreases |items|
  {
    if items == [] then cs
    else
      var acc := DiffOld(cs, s, t, k, items[..|items| - 1], news, key, rec);
      var x := items[|items| - 1];
      if HasKey(news, key(x)) then acc else AppendName(acc, Remove, s, t, k, rec(x))
  }

  /** A foreign key with its reverse-relation fields cleared, as the first pass leaves it. */
  function ClearReverse(f: Foreign): Foreign {
    f.(reverseName := None, reverseOrder := None)
  }

  /** The first pass on a table present on both sides. */
  function CreateTableEntry(cs: ChangeSet, s: string, nt: Table, ot: Table): Result<ChangeSet, CompareError> {
    var c1 := DiffNew(cs, s, nt.name, Columns, ValuesOf(nt.columns), ot.columns, ColumnKey, ColumnKey, SameColumn);
    var c2 := DiffNew(c1, s, nt.name, ForeignKeys, ValuesOf(MapValues(nt.foreignKeys, ClearReverse)), ot.foreignKeys,
                      ForeignNameKey, ForeignKeyColumn, SameForeign);
    var c3 := DiffNew(c2, s, nt.name, Indexes, ValuesOf(nt.indexes), ot.indexes, IndexKey, IndexKey, SameIndex);
    var c4 := DiffNew(c3, s, nt.name, UniqueKeys, ValuesOf(nt.uniqueKeys), ot.uniqueKeys, UniqueKey, UniqueKey, SameUnique);
    match nt.primaryKey
    case None => Err(NullPrimaryKey(s, nt.name))
    case Some(p) => Ok(if ot.primaryKey == Some(p) then c4 else MarkPrimary(c4, Update, s, nt.name))
  }

  /** The first pass over the tables of a schema present on both sides. */
  function CreateTables(cs: ChangeSet, s: string, ts: seq<Table>, os: Schema): Result<ChangeSet, CompareError>
    decreases |ts|
  {
    if ts == [] then Ok(cs)
    else
      var acc := CreateTables(cs, s, ts[..|ts| - 1], os);
      if acc.Err? then acc else CreateTable(acc.value, s, ts[|ts| - 1], os)
  }

  /** The first pass on one table of a schema present on both sides. */
  function CreateTable(cs: ChangeSet, s: string, t: Table, os: Schema): Result<ChangeSet, CompareError> {
    match Lookup(os.tables, t.name)
    case None => Ok(MarkTableAll(cs, Create, s, t.name))
    case Some(ot) => CreateTableEntry(cs, s, t, ot)
  }

  /** The first pass over the schemas of `new`. */
  function CreateSchemas(cs: ChangeSet, ss: seq<Schema>, current: Definition): Result<ChangeSet, CompareError>
    decreases |ss|
  {
    if ss == [] then Ok(cs)
    else
      var acc := CreateSchemas(cs, ss[..|ss| - 1], current);
      if acc.Err? then acc else CreateSchema(acc.value, ss[|ss| - 1], current)
  }

  /** The first pass on one schema of `new`. */
  function CreateSchema(cs: ChangeSet, sc: Schema, current: Definition): Result<ChangeSet, CompareError> {
    match Lookup(current.schemas, sc.name)
    case None => Ok(MarkSchemaAll(cs, Create, sc.name))
    case Some(os) => CreateTables(cs, sc.name, ValuesOf(sc.tables), os)
  }

  /** The second pass on a table present on both sides. */
  function RemoveTableEntry(cs: ChangeSet, s: string, ot: Table, nt: Table): ChangeSet {
    var c1 := DiffOld(cs, s, ot.name, Columns, ValuesOf(ot.columns), nt.columns, ColumnKey, ColumnKey);
    var c2 := DiffOld(c1, s, ot.name, ForeignKeys, ValuesOf(ot.foreignKeys), nt.foreignKeys, ForeignKeyColumn, ForeignNameKey);
    var c3 := DiffOld(c2, s, ot.name, Indexes, ValuesOf(ot.indexes), nt.indexes, IndexKey, IndexKey);
    DiffOld(c3, s, ot.name, UniqueKeys, ValuesOf(ot.uniqueKeys), nt.uniqueKeys, UniqueKey, UniqueKey)
  }

  function RemoveTables(cs: ChangeSet, s: string, ts: seq<Table>, ns: Schema): ChangeSet
    decreases |ts|
  {
    if ts == [] then cs
    else
      RemoveTable(RemoveTables(cs, s, ts[..|ts| - 1], ns), s, ts[|ts| - 1], ns)
  }

  /** The second pass on one table of a schema present on both sides. */
  function RemoveTable(cs: ChangeSet, s: string, t: Table, ns: Schema): ChangeSet {
    match Lookup(ns.tables, t.name)
    case None => MarkTableAll(cs, Remove, s, t.name)
    case Some(nt) => RemoveTableEntry(cs, s, t, nt)
  }

  function RemoveSchemas(cs: ChangeSet, ss: seq<Schema>, target: Definition): ChangeSet
    decreases |ss|
  {
    if ss == [] then cs
    else
      RemoveSchema(RemoveSchemas(cs, ss[..|ss| - 1], target), ss[|ss| - 1], target)
  }

  /** The second pass on one schema of `old`. */
  function RemoveSchema(cs: ChangeSet, sc: Schema, target: Definition): ChangeSet {
    match Lookup(target.schemas, sc.name)
    case None => MarkSchemaAll(cs, Remove, sc.name)
    case Some(ns) => RemoveTables(cs, sc.name, ValuesOf(sc.tables), ns)
  }

  /** The schema a foreign key of schema `s` points into, once defaulted. */
  function FillSchema(f: Foreign, s: string): Foreign {
    if f.schema == None then f.(schema := Some(s)) else f
  }

  function FilledForeignKeys(m: OMap<string, Foreign>, s: string): (r: OMap<string, Foreign>)
    ensures |r| == |m| && forall i :: 0 <= i < |m| ==> r[i] == (m[i].0, FillSchema(m[i].1, s))
  {
    seq(|m|, i requires 0 <= i < |m| => (m[i].0, FillSchema(m[i].1, s)))
  }

  function FilledTables(m: OMap<string, Table>, s: string): (r: OMap<string, Table>)
    ensures |r| == |m|
    ensures forall i :: 0 <= i < |m| ==> r[i] == (m[i].0, m[i].1.(foreignKeys := FilledForeignKeys(m[i].1.foreignKeys, s)))
  {
    seq(|m|, i requires 0 <= i < |m| => (m[i].0, m[i].1.(foreignKeys := FilledForeignKeys(m[i].1.foreignKeys, s))))
  }

  function FilledSchemas(m: OMap<string, Schema>): (r: OMap<string, Schema>)
    ensures |r| == |m|
    ensures forall i :: 0 <= i < |m| ==> r[i] == (m[i].0, m[i].1.(tables := FilledTables(m[i].1.tables, m[i].1.name)))
  {
    seq(|m|, i requires 0 <= i < |m| => (m[i].0, m[i].1.(tables := FilledTables(m[i].1.tables, m[i].1.name))))
  }

  /** `new` after the schema-filling loop that opens `compare`. */
  function FillSchemas(d: Definition): Definition {
    Definition(FilledSchemas(d.schemas))
  }

  /** A `new` table after the first pass: reverse fields cleared when `old` has the table. */
  function ClearedTable(t: Table, os: Schema): Table {
    if HasKey(os.tables, t.name) then t.(foreignKeys := MapValues(t.foreignKeys, ClearReverse)) else t
  }

  function ClearedTables(m: OMap<string, Table>, os: Schema): (r: OMap<string, Table>)
    ensures |r| == |m| && forall i :: 0 <= i < |m| ==> r[i] == (m[i].0, ClearedTable(m[i].1, os))
  {
    seq(|m|, i requires 0 <= i < |m| => (m[i].0, ClearedTable(m[i].1, os)))
  }

  function ClearedSchema(sc: Schema, current: Definition): Schema {
    match Lookup(current.schemas, sc.name)
    case None => sc
    case Some(os) => sc.(tables := ClearedTables(sc.tables, os))
  }

  function ClearedSchemas(m: OMap<string, Schema>, current: Definition): (r: OMap<string, Schema>)
    ensures |r| == |m| && forall i :: 0 <= i < |m| ==> r[i] == (m[i].0, ClearedSchema(m[i].1, current))
  {
    seq(|m|, i requires 0 <= i < |m| => (m[i].0, ClearedSchema(m[i].1, current)))
  }

  lemma ClearedTablesNext(m: OMap<string, Table>, i: nat, os: Schema)
    requires i < |m|
    ensures ClearedTables(m[..i + 1], os) == ClearedTables(m[..i], os) + [(m[i].0, ClearedTable(m[i].1, os))]
  {
  }

  lemma ClearedSchemasNext(m: OMap<string, Schema>, i: nat, current: Definition)
    requires i < |m|
    ensures ClearedSchemas(m[..i + 1], current) == ClearedSchemas(m[..i], current) + [(m[i].0, ClearedSchema(m[i].1, current))]
  {
  }

  /** `new` as `compare` leaves it. */
  function Normalized(target: Definition, current: Definition): Definition {
    Definition(ClearedSchemas(FillSchemas(target).schemas, current))
  }

  /** The whole comparison: the change set, or the error the first pass stops on. */
  function Compare(target: Definition, current: Definition): Result<ChangeSet, CompareError> {
    var n := FillSchemas(target);
    match CreateSchemas([], ValuesOf(n.schemas), current)
    case Err(e) => Err(e)
    case Ok(cs) => Ok(RemoveSchemas(cs, ValuesOf(current.schemas), n))
  }

  // ---------------------------------------------------------------------------------------
  // The comparison as the source performs it: nested loops appending to the result.

  /** A create/update loop over one kind of element of a table present on both sides. */
  method DiffNewLoop<T>(cs: ChangeSet, s: string, t: string, k: Kind, m: OMap<string, T>, olds: OMap<string, T>,
                        key: T -> string, rec: T -> string, same: (T, T) -> bool) returns (r: ChangeSet)
    ensures r == DiffNew(cs, s, t, k, ValuesOf(m), olds, key, rec, same)
  {
    r := cs;
    var i := 0;
    while i < |m|
      invariant 0 <= i <= |m|
      invariant r == DiffNew(cs, s, t, k, ValuesOf(m)[..i], olds, key, rec, same)
    {
      var x := m[i].1;
      ghost var pre := ValuesOf(m)[..i + 1];
      assert pre[..|pre| - 1] == ValuesOf(m)[..i] && pre[|pre| - 1] == x;
      match Lookup(olds, key(x)) {
        case None =>
          r := AppendName(r, Create, s, t, k, rec(x));
        case Some(o) =>
          if !same(x, o) {
            r := AppendName(r, Update, s, t, k, rec(x));
          }
      }
      i := i + 1;
    }
    assert ValuesOf(m)[..|m|] == ValuesOf(m);
  }

  /** A remove loop over one kind of element of a table present on both sides. */
  method DiffOldLoop<T, U>(cs: ChangeSet, s: string, t: string, k: Kind, m: OMap<string, T>, news: OMap<string, U>,
                           key: T -> string, rec: T -> string) returns (r: ChangeSet)
    ensures r == DiffOld(cs, s, t, k, ValuesOf(m), news, key, rec)
  {
    r := cs;
    var i := 0;
    while i < |m|
      invariant 0 <= i <= |m|
      invariant r == DiffOld(cs, s, t, k, ValuesOf(m)[..i], news, key, rec)
    {
      var x := m[i].1;
      ghost var pre := ValuesOf(m)[..i + 1];
      assert pre[..|pre| - 1] == ValuesOf(m)[..i] && pre[|pre| - 1] == x;
      if !HasKey(news, key(x)) {
        r := AppendName(r, Remove, s, t, k, rec(x));
      }
      i := i + 1;
    }
    assert ValuesOf(m)[..|m|] == ValuesOf(m);
  }

  /** The foreign-key loop of the first pass: it clears each key's reverse fields, then compares it. */
  method DiffForeignKeysLoop(cs: ChangeSet, s: string, nt: Table, ot: Table) returns (r: ChangeSet, fks: OMap<string, Foreign>)
    ensures fks == MapValues(nt.foreignKeys, ClearReverse)
    ensures r == DiffNew(cs, s, nt.name, ForeignKeys, ValuesOf(fks), ot.foreignKeys, ForeignNameKey, ForeignKeyColumn, SameForeign)
  {
    ghost var cleared := MapValues(nt.foreignKeys, ClearReverse);
    r, fks := cs, [];
    var i := 0;
    while i < |nt.foreignKeys|
      invariant 0 <= i <= |nt.foreignKeys| && fks == cleared[..i]
      invariant r == DiffNew(cs, s, nt.name, ForeignKeys, ValuesOf(fks), ot.foreignKeys, ForeignNameKey, ForeignKeyColumn, SameForeign)
    {
      var f := ClearReverse(nt.foreignKeys[i].1);
      MapValuesPrefix(nt.foreignKeys, ClearReverse, i);
      ValuesOfSnoc(fks, (nt.foreignKeys[i].0, f));
      DiffNewSnoc(cs, s, nt.name, ForeignKeys, ValuesOf(fks), f, ot.foreignKeys, ForeignNameKey, ForeignKeyColumn, SameForeign);
      fks := fks + [(nt.foreignKeys[i].0, f)];
      r := DiffNewStep(r, s, nt.name, ForeignKeys, f, ot.foreignKeys, ForeignNameKey, ForeignKeyColumn, SameForeign);
      i := i + 1;
    }
    assert cleared[..i] == cleared;
  }

  /** The first pass on a table present on both sides; also returns the table as the pass leaves it. */
  method CompareTable(cs: ChangeSet, s: string, nt: Table, ot: Table) returns (r: Result<ChangeSet, CompareError>, updated: Table)
    ensures r == CreateTableEntry(cs, s, nt, ot)
    ensures updated == nt.(foreignKeys := MapValues(nt.foreignKeys, ClearReverse))
  {
    var c := DiffNewLoop(cs, s, nt.name, Columns, nt.columns, ot.columns, ColumnKey, ColumnKey, SameColumn);
    var fks;
    c, fks := DiffForeignKeysLoop(c, s, nt, ot);
    updated := nt.(foreignKeys := fks);
    c := DiffNewLoop(c, s, nt.name, Indexes, nt.indexes, ot.indexes, IndexKey, IndexKey, SameIndex);
    c := DiffNewLoop(c, s, nt.name, UniqueKeys, nt.uniqueKeys, ot.uniqueKeys, UniqueKey, UniqueKey, SameUnique);
    if nt.primaryKey.None? {
      return Err(NullPrimaryKey(s, nt.name)), updated;
    }
    if nt.primaryKey != ot.primaryKey {
      c := MarkPrimary(c, Update, s, nt.name);
    }
    r := Ok(c);
  }

  /** The first pass on one table, returning the table as the pass leaves it. */
  method CreateTableStep(cs: ChangeSet, s: string, t: Table, os: Schema) returns (r: Result<ChangeSet, CompareError>, updated: Table)
    ensures r == CreateTable(cs, s, t, os)
    ensures updated == ClearedTable(t, os)
  {
    match Lookup(os.tables, t.name) {
      case None =>
        r, updated := Ok(MarkTableAll(cs, Create, s, t.name)), t;
      case Some(ot) =>
        r, updated := CompareTable(cs, s, t, ot);
    }
  }

  /** The first pass over the tables of a schema present on both sides. */
  method CreatePassTables(cs: ChangeSet, s: string, m: OMap<string, Table>, os: Schema)
    returns (r: Result<ChangeSet, CompareError>, updated: OMap<string, Table>)
    ensures r == CreateTables(cs, s, ValuesOf(m), os)
    ensures r.Ok? ==> updated == ClearedTables(m, os)
  {
    var acc := cs;
    updated := [];
    var i := 0;
    while i < |m|
      invariant 0 <= i <= |m| && |updated| == i
      invariant updated == ClearedTables(m[..i], os)
      invariant CreateTables(cs, s, ValuesOf(m)[..i], os) == Ok(acc)
    {
      var res, u := CreateTableStep(acc, s, m[i].1, os);
      CreateTablesNext(cs, s, ValuesOf(m), os, i, acc);
      if res.Err? {
        CreateTablesErr(cs, s, ValuesOf(m), os, i + 1);
        return res, updated;
      }
      acc := res.value;
      ClearedTablesNext(m, i, os);
      updated := updated + [(m[i].0, u)];
      i := i + 1;
    }
    assert ValuesOf(m)[..|m|] == ValuesOf(m) && m[..|m|] == m;
    r := Ok(acc);
  }

  /** One more table extends a first pass that has not failed by one step. */
  lemma CreateTablesNext(cs: ChangeSet, s: string, ts: seq<Table>, os: Schema, i: nat, acc: ChangeSet)
    requires i < |ts| && CreateTables(cs, s, ts[..i], os) == Ok(acc)
    ensures CreateTables(cs, s, ts[..i + 1], os) == CreateTable(acc, s, ts[i], os)
  {
    assert ts[..i + 1][..i] == ts[..i];
  }

  /** Once the first pass fails on a table, it fails with the same error to the end of the schema. */
  lemma {:induction false} CreateTablesErr(cs: ChangeSet, s: string, ts: seq<Table>, os: Schema, n: nat)
    requires n <= |ts| && CreateTables(cs, s, ts[..n], os).Err?
    ensures CreateTables(cs, s, ts, os) == CreateTables(cs, s, ts[..n], os)
    decreases |ts| - n
  {
    if n < |ts| {
      assert ts[..n + 1][..n] == ts[..n];
      CreateTablesErr(cs, s, ts, os, n + 1);
    } else {
      assert ts[..n] == ts;
    }
  }

  /** The first pass on one schema, returning the schema as the pass leaves it. */
  method CreateSchemaStep(cs: ChangeSet, sc: Schema, current: Definition) returns (r: Result<ChangeSet, CompareError>, updated: Schema)
    ensures r == CreateSchema(cs, sc, current)
    ensures r.Ok? ==> updated == ClearedSchema(sc, current)
  {
    match Lookup(current.schemas, sc.name) {
      case None =>
        r, updated := Ok(MarkSchemaAll(cs, Create, sc.name)), sc;
      case Some(os) =>
        var u;
        r, u := CreatePassTables(cs, sc.name, sc.tables, os);
        updated := sc.(tables := u);
    }
  }

  /** The first pass over the schemas of `new`. */
  method CreatePass(cs: ChangeSet, m: OMap<string, Schema>, current: Definition)
    returns (r: Result<ChangeSet, CompareError>, updated: OMap<string, Schema>)
    ensures r == CreateSchemas(cs, ValuesOf(m), current)
    ensures r.Ok? ==> updated == ClearedSchemas(m, current)
  {
    var acc := cs;
    updated := [];
    var i := 0;
    while i < |m|
      invariant 0 <= i <= |m| && |updated| == i
      invariant updated == ClearedSchemas(m[..i], current)
      invariant CreateSchemas(cs, ValuesOf(m)[..i], current) == Ok(acc)
    {
      var res, u := CreateSchemaStep(acc, m[i].1, current);
      CreateSchemasNext(cs, ValuesOf(m), current, i, acc);
      if res.Err? {
        CreateSchemasErr(cs, ValuesOf(m), current, i + 1);
        return res, updated;
      }
      acc := res.value;
      ClearedSchemasNext(m, i, current);
      updated := updated + [(m[i].0, u)];
      i := i + 1;
    }
    assert ValuesOf(m)[..|m|] == ValuesOf(m) && m[..|m|] == m;
    r := Ok(acc);
  }

  /** One more schema extends a first pass that has not failed by one step. */
  lemma CreateSchemasNext(cs: ChangeSet, ss: seq<Schema>, current: Definition, i: nat, acc: ChangeSet)
    requires i < |ss| && CreateSchemas(cs, ss[..i], current) == Ok(acc)
    ensures CreateSchemas(cs, ss[..i + 1], current) == CreateSchema(acc, ss[i], current)
  {
    assert ss[..i + 1][..i] == ss[..i];
  }

  lemma {:induction false} CreateSchemasErr(cs: ChangeSet, ss: seq<Schema>, current: Definition, n: nat)
    requires n <= |ss| && CreateSchemas(cs, ss[..n], current).Err?
    ensures CreateSchemas(cs, ss, current) == CreateSchemas(cs, ss[..n], current)
    decreases |ss| - n
  {
    if n < |ss| {
      assert ss[..n + 1][..n] == ss[..n];
      CreateSchemasErr(cs, ss, current, n + 1);
    } else {
      assert ss[..n] == ss;
    }
  }

  /** The second pass over the tables of a schema present on both sides. */
  method RemovePassTables(cs: ChangeSet, s: string, m: OMap<string, Table>, ns: Schema) returns (r: ChangeSet)
    ensures r == RemoveTables(cs, s, ValuesOf(m), ns)
  {
    r := cs;
    var i := 0;
    while i < |m|
      invariant 0 <= i <= |m|
      invariant r == RemoveTables(cs, s, ValuesOf(m)[..i], ns)
    {
      var t := m[i].1;
      ghost var pre := ValuesOf(m)[..i + 1];
      assert pre[..|pre| - 1] == ValuesOf(m)[..i] && pre[|pre| - 1] == t;
      match Lookup(ns.tables, t.name) {
        case None =>
          r := MarkTableAll(r, Remove, s, t.name);
        case Some(nt) =>
          r := DiffOldLoop(r, s, t.name, Columns, t.columns, nt.columns, ColumnKey, ColumnKey);
          r := DiffOldLoop(r, s, t.name, ForeignKeys, t.foreignKeys, nt.foreignKeys, ForeignKeyColumn, ForeignNameKey);
          r := DiffOldLoop(r, s, t.name, Indexes, t.indexes, nt.indexes, IndexKey, IndexKey);
          r := DiffOldLoop(r, s, t.name, UniqueKeys, t.uniqueKeys, nt.uniqueKeys, UniqueKey, UniqueKey);
      }
      i := i + 1;
    }
    assert ValuesOf(m)[..|m|] == ValuesOf(m);
  }

  /** The second pass over the schemas of `old`. */
  method RemovePass(cs: ChangeSet, m: OMap<string, Schema>, target: Definition) returns (r: ChangeSet)
    ensures r == RemoveSchemas(cs, ValuesOf(m), target)
  {
    r := cs;
    var i := 0;
    while i < |m|
      invariant 0 <= i <= |m|
      invariant r == RemoveSchemas(cs, ValuesOf(m)[..i], target)
    {
      var sc := m[i].1;
      ghost var pre := ValuesOf(m)[..i + 1];
      assert pre[..|pre| - 1] == ValuesOf(m)[..i] && pre[|pre| - 1] == sc;
      match Lookup(target.schemas, sc.name) {
        case None =>
          r := MarkSchemaAll(r, Remove, sc.name);
        case Some(ns) =>
          r := RemovePassTables(r, sc.name, sc.tables, ns);
      }
      i := i + 1;
    }
    assert ValuesOf(m)[..|m|] == ValuesOf(m);
  }

  /** The loop that gives every foreign key of a table without a schema the table's schema. */
  method FillForeignKeys(m: OMap<string, Foreign>, s: string) returns (r: OMap<string, Foreign>)
    ensures r == FilledForeignKeys(m, s)
  {
    r := [];
    var i := 0;
    while i < |m|
      invariant 0 <= i <= |m| && |r| == i
      invariant forall j :: 0 <= j < i ==> r[j] == (m[j].0, FillSchema(m[j].1, s))
    {
      var f := m[i].1;
      if f.schema == None {
        f := f.(schema := Some(s));
      }
      r := r + [(m[i].0, f)];
      i := i + 1;
    }
  }

  method FillTables(m: OMap<string, Table>, s: string) returns (r: OMap<string, Table>)
    ensures r == FilledTables(m, s)
  {
    r := [];
    var i := 0;
    while i < |m|
      invariant 0 <= i <= |m| && |r| == i
      invariant forall j :: 0 <= j < i ==> r[j] == (m[j].0, m[j].1.(foreignKeys := FilledForeignKeys(m[j].1.foreignKeys, s)))
    {
      var fks := FillForeignKeys(m[i].1.foreignKeys, s);
      r := r + [(m[i].0, m[i].1.(foreignKeys := fks))];
      i := i + 1;
    }
  }

  method FillForeignSchemas(d: Definition) returns (r: Definition)
    ensures r == FillSchemas(d)
  {
    var m := d.schemas;
    var out: OMap<string, Schema> := [];
    var i := 0;
    while i < |m|
      invariant 0 <= i <= |m| && |out| == i
      invariant forall j :: 0 <= j < i ==> out[j] == (m[j].0, m[j].1.(tables := FilledTables(m[j].1.tables, m[j].1.name)))
    {
      var ts := FillTables(m[i].1.tables, m[i].1.name);
      out := out + [(m[i].0, m[i].1.(tables := ts))];
      i := i + 1;
    }
    r := Definition(out);
  }

  /**
   * `compare(new, old)`: the change set (or the error the first pass stops on) and `new` as
   * the comparison leaves it.
   */
  method CompareDefinitions(target: Definition, current: Definition)
    returns (r: Result<ChangeSet, CompareError>, updated: Definition)
    ensures r == Compare(target, current)
    ensures r.Ok? ==> updated == Normalized(target, current)
  {
    var filled := FillForeignSchemas(target);
    var res, schemas := CreatePass([], filled.schemas, current);
    updated := Definition(schemas);
    if res.Err? {
      return res, updated;
    }
    var cs := RemovePass(res.value, current.schemas, filled);
    r := Ok(cs);
  }
}
