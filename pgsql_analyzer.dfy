/**
 * `PgsqlAnalyzer::getDefinition`: reading a PostgreSQL database back into a definition.
 * The catalog queries are not modelled; the rows they return are the input (`Catalog`), and
 * the model is what the analyzer makes of them: one schema per requested name, one table per
 * table row except `migrations`, and per table its columns, foreign keys, unique keys,
 * indexes and primary key, each array keyed by the element's name.
 */
module PgsqlAnalysis {
  import opened Wrappers
  import opened OrderedMaps
  import opened PhpStrings
  import opened Config
  import opened Analysis
  import Sql = PgsqlSql

  datatype TableRow = TableRow(id: int, name: string)

  datatype ColumnRow = ColumnRow(
    name: string,
    typ: string,               // the type name, upper-cased by the query
    default: Option<string>,   // the default expression as PostgreSQL prints it
    isPrimary: bool,
    isAutoincrement: bool,
    isNullable: bool)

  datatype ForeignRow = ForeignRow(
    name: string,
    column: string,
    refTableSchema: string,
    refTable: string,
    refColumn: string,
    onUpdate: string,          // pg_constraint's one-letter action codes
    onDelete: string)

  /** A constraint or index: its object id and its name. */
  datatype KeyRow = KeyRow(id: int, name: string)

  /** What each catalog query returns, by schema name or table id. */
  datatype Catalog = Catalog(
    tables: string -> seq<TableRow>,
    columns: int -> seq<ColumnRow>,
    foreignKeys: int -> seq<ForeignRow>,
    uniqueKeys: int -> seq<KeyRow>,
    primaryKey: int -> Option<KeyRow>,
    indexes: int -> seq<KeyRow>,
    keyColumns: int -> seq<string>)

  /** `getType`: a PostgreSQL type name, lower-cased, back to a definition type. */
  function GetType(typ: string): (r: Result<string, AnalyzeError>)
    ensures r.Ok? ==> IsColumnType(r.value) && Sql.GetType(r.value) == Ok(Lower(typ))
    ensures r.Err? ==> r.error == UnhandledMatch(Lower(typ))
  {
    var t := Lower(typ);
    match t
    case "bool" => Ok("bool")
    case "int4" => Ok("int")
    case "int8" => Ok("bigint")
    case "varchar" => Ok("string")
    case "text" => Ok("text")
    case "timestamp" => Ok("datetime")
    case "numeric" => Ok("float")
    case "tsvector" => Ok("fulltext")
    case _ => Err(UnhandledMatch(t))
  }

  /**
   * Reading back the type the processor wrote gives the definition type again, whether the
   * catalog prints the name as written or upper-cased (as the column query does).
   */
  lemma GetTypeInverse(typ: string)
    requires IsColumnType(typ)
    ensures GetType(Sql.GetType(typ).value) == Ok(typ)
    ensures GetType(Upper(Sql.GetType(typ).value)) == Ok(typ)
  {
    LowerUpper(Sql.GetType(typ).value);
  }

  /** `getRestriction`: pg_constraint's action codes for restrict, cascade and set null. */
  function GetRestriction(code: string): (r: Result<string, AnalyzeError>)
    ensures r.Ok? <==> code in ["r", "c", "n"]
    ensures r.Ok? ==> r.value in ["restrict", "cascade", "set null"]
    ensures r.Err? ==> r.error == UnhandledMatch(code)
  {
    match code
    case "r" => Ok("restrict")
    case "c" => Ok("cascade")
    case "n" => Ok("set null")
    case _ => Err(UnhandledMatch(code))
  }

  /**
   * The code PostgreSQL stores for a referential action (the `confupdtype`/`confdeltype`
   * columns of its pg_constraint catalog).
   */
  function ActionCode(action: string): string {
    match action
    case "no action" => "a"
    case "restrict" => "r"
    case "cascade" => "c"
    case "set null" => "n"
    case "set default" => "d"
    case _ => ""
  }

  /** The three actions the analyzer knows are read back as they were written. */
  lemma RestrictionRoundTrip(action: string)
    ensures action in ["restrict", "cascade", "set null"] ==> GetRestriction(ActionCode(action)) == Ok(action)
    ensures action in ["no action", "set default"] ==> GetRestriction(ActionCode(action)).Err?
  {
  }

  /** The cast PostgreSQL prints after a varchar literal. */
  const Varying: string := "'::character varying"

  /**
   * `getDefault`: the expression with its varchar literal unwrapped, `now()` as `now`, and
   * by column type: a boolean for `true`/`false` (null otherwise), an int cast for the
   * numeric types, the text itself for the others.
   */
  function GetDefault(d: Option<string>, typ: string): (r: Value)
    ensures d.None? ==> r == VNull
    ensures r.VBool? ==> typ == "bool"
    ensures r.VInt? ==> typ in ["int", "bigint", "float"]
    ensures Unquote(d, Varying) == Some("now()") ==> r == VStr("now")
  {
    var v := Unquote(d, Varying);
    if v == Some("now()") then VStr("now")
    else
      match typ
      case "bool" => if v == Some("true") then VBool(true) else if v == Some("false") then VBool(false) else VNull
      case "int" => if v.None? then VNull else VInt(IntCast(v.value))
      case "bigint" => if v.None? then VNull else VInt(IntCast(v.value))
      case "float" => if v.None? then VNull else VInt(IntCast(v.value))
      case _ => if v.None? then VNull else VStr(v.value)
  }

  /** A boolean default the processor writes is read back as that boolean. */
  lemma BoolDefaultRoundTrip(b: bool)
    ensures GetDefault(Some(Sql.GetDefault(VBool(b), "bool").value), "bool") == VBool(b)
  {
    var text := Sql.GetDefault(VBool(b), "bool").value;
    assert text == if b then "true" else "false";
    NoQuoteNoMatch(text, Varying, 0);
  }

  /** An integer default the processor writes is read back as that integer. */
  lemma IntDefaultRoundTrip(i: int, typ: string)
    requires typ == "int" || typ == "bigint"
    ensures GetDefault(Some(Sql.GetDefault(VInt(i), typ).value), typ) == VInt(i)
  {
    var text := Sql.GetDefault(VInt(i), typ).value;
    assert text == IntToString(i);
    IntCastRoundTrip(i);
    NoQuoteInInt(i);
    NoQuoteNoMatch(text, Varying, 0);
  }

  /**
   * A string default the processor writes, once PostgreSQL has added its varchar cast, is
   * read back as that string, unless it spans lines or is `now()` (which reads as `now`).
   * The string `now` itself is written as the function call `now()` and read back as `now`.
   */
  lemma StringDefaultRoundTrip(x: string)
    requires '\n' !in x && x != "now()" && x != "now"
    ensures GetDefault(Some(Sql.GetDefault(VStr(x), "string").value + "::character varying"), "string") == VStr(x)
  {
    VaryingText(x);
    UnquoteVarying(x);
  }

  /** The processor writes a string default as a quoted literal cast to varchar. */
  lemma VaryingText(x: string)
    requires x != "now"
    ensures Sql.GetDefault(VStr(x), "string").Ok?
    ensures Sql.GetDefault(VStr(x), "string").value + "::character varying" == "'" + x + Varying
  {
    var q, cast := "'", "::character varying";
    assert Sql.GetDefault(VStr(x), "string").value == q + x + q;
    assert q + cast == Varying;
    ConcatAssoc(q + x, q, cast);
  }

  lemma ConcatAssoc<T>(a: seq<T>, b: seq<T>, c: seq<T>)
    ensures a + b + c == a + (b + c)
  {
  }

  /** The varchar literal of a one-line string unwraps to the string. */
  lemma UnquoteVarying(x: string)
    requires '\n' !in x
    ensures Unquote(Some("'" + x + Varying), Varying) == Some(x)
  {
    var s := "'" + x + Varying;
    assert s[0] == '\'';
    Unwrapped(x, Varying);
  }

  lemma NoQuoteInInt(i: int)
    ensures '\'' !in IntToString(i)
  {
    var s := IntToString(i);
    if i < 0 {
      assert s == "-" + NatToString(-i);
      assert forall k :: 1 <= k < |s| ==> IsDigit(s[k]) by {
        assert forall k :: 1 <= k < |s| ==> s[k] == NatToString(-i)[k - 1];
      }
    }
  }

  /** `now()` reads as `now` whatever the column type. */
  lemma DefaultNow(typ: string)
    ensures GetDefault(Some(Sql.GetDefault(VStr("now"), typ).value), typ) == VStr("now")
  {
    assert Sql.GetDefault(VStr("now"), typ).value == "now()";
    NoQuoteNoMatch("now()", Varying, 0);
  }

  // ---------------------------------------------------------------------------------------
  // The rows of one table.

  /** One row of the column query, as the column it becomes. */
  function ReadColumn(c: ColumnRow): (r: Result<Column, AnalyzeError>)
    ensures r.Ok? <==> GetType(c.typ).Ok?
    ensures r.Err? ==> r.error == GetType(c.typ).error
    ensures r.Ok? ==> r.value.name == c.name && r.value.typ == GetType(c.typ).value
    ensures r.Ok? ==> r.value.nullable == c.isNullable && r.value.auto == c.isAutoincrement
    ensures r.Ok? && c.isPrimary ==> r.value.default == VNull
    ensures r.Ok? && !c.isPrimary ==> r.value.default == GetDefault(c.default, r.value.typ)
  {
    match GetType(c.typ)
    case Err(e) => Err(e)
    case Ok(typ) =>
      var default := if c.isPrimary then VNull else GetDefault(c.default, typ);
      Ok(NewColumn(c.name, typ, c.isNullable).(default := default, auto := c.isAutoincrement))
  }

  function ColumnEntry(c: ColumnRow): Entry<Column> {
    match ReadColumn(c)
    case Err(e) => Err(e)
    case Ok(col) => Ok(Some((c.name, col)))
  }

  /** One row of the foreign-key query; the update action is read before the delete action. */
  function ReadForeign(f: ForeignRow): (r: Result<Foreign, AnalyzeError>)
    ensures r.Ok? <==> GetRestriction(f.onUpdate).Ok? && GetRestriction(f.onDelete).Ok?
    ensures r.Err? ==> r.error == UnhandledMatch(if GetRestriction(f.onUpdate).Err? then f.onUpdate else f.onDelete)
    ensures r.Ok? ==> r.value.name == Some(f.name) && r.value.keyColumn == f.column
    ensures r.Ok? ==> r.value.schema == Some(f.refTableSchema) && r.value.table == f.refTable && r.value.column == f.refColumn
    ensures r.Ok? ==> Ok(r.value.onUpdate) == GetRestriction(f.onUpdate) && Ok(r.value.onDelete) == GetRestriction(f.onDelete)
  {
    match GetRestriction(f.onUpdate)
    case Err(e) => Err(e)
    case Ok(onUpdate) =>
      match GetRestriction(f.onDelete)
      case Err(e) => Err(e)
      case Ok(onDelete) =>
        Ok(NewForeign(f.column, f.refTable, f.refColumn).(name := Some(f.name), schema := Some(f.refTableSchema), onUpdate := onUpdate, onDelete := onDelete))
  }

  function ForeignEntry(f: ForeignRow): Entry<Foreign> {
    match ReadForeign(f)
    case Err(e) => Err(e)
    case Ok(fk) => Ok(Some((f.name, fk)))
  }

  function UniqueReader(cat: Catalog): KeyRow -> Entry<Unique> {
    (u: KeyRow) => Ok(Some((u.name, Unique(u.name, cat.keyColumns(u.id)))))
  }

  function IndexReader(cat: Catalog): KeyRow -> Entry<Index> {
    (i: KeyRow) => Ok(Some((i.name, Index(StrName(i.name), cat.keyColumns(i.id)))))
  }

  /**
   * The table a table row becomes: its columns, foreign keys and unique keys, then the
   * primary key (a table without one stops the analysis), then its indexes.
   */
  function TableOf(cat: Catalog, t: TableRow): (r: Result<Table, AnalyzeError>)
    ensures r.Ok? ==> r.value.name == t.name && cat.primaryKey(t.id).Some?
    ensures r.Ok? ==> r.value.primaryKey == Some(Primary(cat.keyColumns(cat.primaryKey(t.id).value.id)))
  {
    var cols := Collect(cat.columns(t.id), ColumnEntry);
    var fks := Collect(cat.foreignKeys(t.id), ForeignEntry);
    var uks := Collect(cat.uniqueKeys(t.id), UniqueReader(cat));
    var ixs := Collect(cat.indexes(t.id), IndexReader(cat));
    if cols.Err? then Err(cols.error)
    else if fks.Err? then Err(fks.error)
    else if uks.Err? then Err(uks.error)
    else if cat.primaryKey(t.id).None? then Err(MissingPrimaryKey(t.name))
    else if ixs.Err? then Err(ixs.error)
    else
      var primary := Primary(cat.keyColumns(cat.primaryKey(t.id).value.id));
      Ok(NewTable(t.name).(columns := cols.value, foreignKeys := fks.value, uniqueKeys := uks.value,
                           indexes := ixs.value, primaryKey := Some(primary)))
  }

  function TableReader(cat: Catalog): TableRow -> Entry<Table> {
    (t: TableRow) => if t.name == "migrations" then Ok(None)
         else match TableOf(cat, t)
              case Err(e) => Err(e)
              case Ok(table) => Ok(Some((t.name, table)))
  }

  function SchemaOf(cat: Catalog, s: string): (r: Result<Schema, AnalyzeError>)
    ensures r.Ok? ==> r.value.name == s
  {
    match Collect(cat.tables(s), TableReader(cat))
    case Err(e) => Err(e)
    case Ok(tables) => Ok(Schema(s, tables))
  }

  function SchemaReader(cat: Catalog): string -> Entry<Schema> {
    (s: string) => match SchemaOf(cat, s)
         case Err(e) => Err(e)
         case Ok(schema) => Ok(Some((s, schema)))
  }

  /** `getDefinition($schemas)`. */
  function DefinitionOf(cat: Catalog, schemas: seq<string>): Result<Definition, AnalyzeError> {
    match Collect(schemas, SchemaReader(cat))
    case Err(e) => Err(e)
    case Ok(m) => Ok(Definition(m))
  }

  // ---------------------------------------------------------------------------------------
  // What the definition read back looks like.

  /** A table reads without error exactly when its types and action codes are known and it has a primary key. */
  lemma TableOk(cat: Catalog, t: TableRow)
    ensures TableOf(cat, t).Ok? <==>
              (forall i :: 0 <= i < |cat.columns(t.id)| ==> GetType(cat.columns(t.id)[i].typ).Ok?)
              && (forall i :: 0 <= i < |cat.foreignKeys(t.id)| ==> ReadForeign(cat.foreignKeys(t.id)[i]).Ok?)
              && cat.primaryKey(t.id).Some?
  {
    CollectOk(cat.columns(t.id), ColumnEntry);
    CollectOk(cat.foreignKeys(t.id), ForeignEntry);
    CollectOk(cat.uniqueKeys(t.id), UniqueReader(cat));
    CollectOk(cat.indexes(t.id), IndexReader(cat));
  }

  /**
   * Every element of a table read back is keyed by its own name, once: columns by column
   * name, foreign keys by constraint name, unique keys and indexes by their names; and a
   * primary-key column has a null default.
   */
  lemma TableKeyed(cat: Catalog, t: TableRow)
    requires TableOf(cat, t).Ok?
    ensures var tb := TableOf(cat, t).value;
            DistinctKeys(tb.columns) && DistinctKeys(tb.foreignKeys) && DistinctKeys(tb.uniqueKeys) && DistinctKeys(tb.indexes)
            && (forall j :: 0 <= j < |tb.columns| ==> tb.columns[j].0 == tb.columns[j].1.name)
            && (forall j :: 0 <= j < |tb.foreignKeys| ==> tb.foreignKeys[j].1.name == Some(tb.foreignKeys[j].0))
            && (forall j :: 0 <= j < |tb.uniqueKeys| ==> tb.uniqueKeys[j].0 == tb.uniqueKeys[j].1.name)
            && (forall j :: 0 <= j < |tb.indexes| ==> tb.indexes[j].1.name == StrName(tb.indexes[j].0))
  {
    var tb := TableOf(cat, t).value;
    CollectKeys(cat.columns(t.id), ColumnEntry);
    CollectKeys(cat.foreignKeys(t.id), ForeignEntry);
    CollectKeys(cat.uniqueKeys(t.id), UniqueReader(cat));
    CollectKeys(cat.indexes(t.id), IndexReader(cat));
    CollectFrom(cat.columns(t.id), ColumnEntry);
    CollectFrom(cat.foreignKeys(t.id), ForeignEntry);
    CollectFrom(cat.uniqueKeys(t.id), UniqueReader(cat));
    CollectFrom(cat.indexes(t.id), IndexReader(cat));
  }

  /** Each column read back comes from a column row; one from a primary-key row has a null default. */
  lemma ColumnsFromRows(cat: Catalog, t: TableRow)
    requires TableOf(cat, t).Ok?
    ensures var tb := TableOf(cat, t).value;
            forall j :: 0 <= j < |tb.columns| ==>
              exists i :: 0 <= i < |cat.columns(t.id)| && ReadColumn(cat.columns(t.id)[i]) == Ok(tb.columns[j].1)
                          && (cat.columns(t.id)[i].isPrimary ==> tb.columns[j].1.default == VNull)
  {
    var rows := cat.columns(t.id);
    var tb := TableOf(cat, t).value;
    assert tb.columns == Collect(rows, ColumnEntry).value;
    CollectFrom(rows, ColumnEntry);
    forall j | 0 <= j < |tb.columns|
      ensures exists i :: 0 <= i < |rows| && ReadColumn(rows[i]) == Ok(tb.columns[j].1)
                          && (rows[i].isPrimary ==> tb.columns[j].1.default == VNull)
    {
      var i :| 0 <= i < |rows| && ColumnEntry(rows[i]) == Ok(Some(tb.columns[j]));
      EntryColumn(rows[i], tb.columns[j]);
    }
  }

  /** A column entry holds the column its row reads as. */
  lemma EntryColumn(c: ColumnRow, e: (string, Column))
    requires ColumnEntry(c) == Ok(Some(e))
    ensures ReadColumn(c) == Ok(e.1) && (c.isPrimary ==> e.1.default == VNull)
  {
  }

  /**
   * The schemas read back are exactly the requested ones, each keyed by its name; no table
   * is named `migrations`, and every table is keyed by its name.
   */
  lemma DefinitionShape(cat: Catalog, schemas: seq<string>)
    requires DefinitionOf(cat, schemas).Ok?
    ensures var d := DefinitionOf(cat, schemas).value;
            DistinctKeys(d.schemas)
            && (forall s :: HasKey(d.schemas, s) <==> s in schemas)
            && (forall j :: 0 <= j < |d.schemas| ==> d.schemas[j].1.name == d.schemas[j].0)
            && (forall j :: 0 <= j < |d.schemas| ==> !HasKey(d.schemas[j].1.tables, "migrations"))
            && (forall j, k :: 0 <= j < |d.schemas| && 0 <= k < |d.schemas[j].1.tables| ==>
                  d.schemas[j].1.tables[k].1.name == d.schemas[j].1.tables[k].0)
  {
    var d := DefinitionOf(cat, schemas).value;
    CollectOk(schemas, SchemaReader(cat));
    CollectKeys(schemas, SchemaReader(cat));
    CollectFrom(schemas, SchemaReader(cat));
    forall s ensures HasKey(d.schemas, s) <==> s in schemas {
      if s in schemas {
        var i :| 0 <= i < |schemas| && schemas[i] == s;
        assert Writes(SchemaReader(cat)(schemas[i]), s);
      }
    }
    forall j | 0 <= j < |d.schemas|
      ensures !HasKey(d.schemas[j].1.tables, "migrations")
      ensures forall k :: 0 <= k < |d.schemas[j].1.tables| ==> d.schemas[j].1.tables[k].1.name == d.schemas[j].1.tables[k].0
    {
      var i :| 0 <= i < |schemas| && SchemaReader(cat)(schemas[i]) == Ok(Some(d.schemas[j]));
      SchemaTables(cat, schemas[i]);
    }
  }

  lemma SchemaTables(cat: Catalog, s: string)
    requires SchemaOf(cat, s).Ok?
    ensures !HasKey(SchemaOf(cat, s).value.tables, "migrations")
    ensures var tables := SchemaOf(cat, s).value.tables;
            forall k :: 0 <= k < |tables| ==> tables[k].1.name == tables[k].0
  {
    var rows := cat.tables(s);
    CollectKeys(rows, TableReader(cat));
    CollectFrom(rows, TableReader(cat));
    assert forall i :: 0 <= i < |rows| ==> !Writes(TableReader(cat)(rows[i]), "migrations");
  }

  /** A requested schema without tables is still read back, empty. */
  lemma EmptySchema(cat: Catalog, s: string)
    requires cat.tables(s) == []
    ensures SchemaOf(cat, s) == Ok(Schema(s, []))
  {
  }

  // ---------------------------------------------------------------------------------------
  // The loops of `getDefinition`.

  method ReadTable(cat: Catalog, t: TableRow) returns (r: Result<Table, AnalyzeError>)
    ensures r == TableOf(cat, t)
  {
    var cols := CollectRows(cat.columns(t.id), ColumnEntry);
    if cols.Err? { return Err(cols.error); }
    var fks := CollectRows(cat.foreignKeys(t.id), ForeignEntry);
    if fks.Err? { return Err(fks.error); }
    var uks := CollectRows(cat.uniqueKeys(t.id), UniqueReader(cat));
    if uks.Err? { return Err(uks.error); }
    var p := cat.primaryKey(t.id);
    if p.None? { return Err(MissingPrimaryKey(t.name)); }
    var ixs := CollectRows(cat.indexes(t.id), IndexReader(cat));
    if ixs.Err? { return Err(ixs.error); }
    var table := NewTable(t.name);
    table := table.(columns := cols.value, foreignKeys := fks.value, uniqueKeys := uks.value, indexes := ixs.value);
    table := table.(primaryKey := Some(Primary(cat.keyColumns(p.value.id))));
    r := Ok(table);
  }

  method ReadSchema(cat: Catalog, s: string) returns (r: Result<Schema, AnalyzeError>)
    ensures r == SchemaOf(cat, s)
  {
    var rows := cat.tables(s);
    var tables: OMap<string, Table> := [];
    for i := 0 to |rows|
      invariant Collect(rows[..i], TableReader(cat)) == Ok(tables)
    {
      CollectStep(rows, TableReader(cat), i);
      var t := rows[i];
      if t.name == "migrations" {
        continue;
      }
      var table := ReadTable(cat, t);
      if table.Err? {
        CollectErrSticks(rows, TableReader(cat), i + 1);
        return Err(table.error);
      }
      tables := Put(tables, t.name, table.value);
    }
    assert rows[..|rows|] == rows;
    r := Ok(Schema(s, tables));
  }

  method GetDefinition(cat: Catalog, schemas: seq<string>) returns (r: Result<Definition, AnalyzeError>)
    ensures r == DefinitionOf(cat, schemas)
  {
    var m: OMap<string, Schema> := [];
    for i := 0 to |schemas|
      invariant Collect(schemas[..i], SchemaReader(cat)) == Ok(m)
    {
      CollectStep(schemas, SchemaReader(cat), i);
      var schema := ReadSchema(cat, schemas[i]);
      if schema.Err? {
        CollectErrSticks(schemas, SchemaReader(cat), i + 1);
        return Err(schema.error);
      }
      m := Put(m, schemas[i], schema.value);
    }
    assert schemas[..|schemas|] == schemas;
    r := Ok(Definition(m));
  }
}
