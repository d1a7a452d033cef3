/**
 * `MysqlAnalyzer::getDefinition`: reading a MySQL database back into a definition. As for
 * PostgreSQL, the rows of the information_schema queries are the input (`Catalog`). MySQL
 * lists an index one row per column, so the index loop groups rows by index name, and a
 * full-text index is not kept as an index: it turns its column's type into `fulltext`.
 */
module MysqlAnalysis {
  import opened Wrappers
  import opened OrderedMaps
  import opened PhpStrings
  import opened Config
  import opened Analysis
  import Sql = MysqlSql

  datatype ColumnRow = ColumnRow(
    name: string,
    typ: string,               // DATA_TYPE: the type name without its length
    default: Option<string>,   // COLUMN_DEFAULT
    isPrimary: int,            // the query's 1/0 flags
    isAutoincrement: int,
    isNullable: int)

  datatype ForeignRow = ForeignRow(
    name: string,
    column: string,
    refTableSchema: string,
    refTable: string,
    refColumn: string,
    onUpdate: string,          // UPDATE_RULE and DELETE_RULE, such as "NO ACTION"
    onDelete: string)

  /** One column of a non-unique index, with the index's type (such as BTREE or FULLTEXT). */
  datatype IndexRow = IndexRow(name: string, column: string, typ: string)

  /** What each catalog query returns, by schema name and table name. */
  datatype Catalog = Catalog(
    tables: string -> seq<string>,
    columns: (string, string) -> seq<ColumnRow>,
    foreignKeys: (string, string) -> seq<ForeignRow>,
    uniqueKeys: (string, string) -> seq<string>,
    primaryKey: (string, string) -> Option<string>,
    indexes: (string, string) -> seq<IndexRow>,
    keyColumns: (string, string, string) -> seq<string>)   // by key name, schema and table

  /** `getType`: a MySQL type name back to a definition type; never `fulltext`. */
  function GetType(typ: string): (r: Result<string, AnalyzeError>)
    ensures r.Ok? ==> IsColumnType(r.value) && r.value != "fulltext"
    ensures r.Ok? ==> Sql.GetType(r.value) == Ok(if typ == "varchar" then typ + "(255)" else typ)
    ensures r.Err? ==> r.error == UnhandledMatch(typ)
  {
    match typ
    case "tinyint" => Ok("bool")
    case "int" => Ok("int")
    case "bigint" => Ok("bigint")
    case "varchar" => assert typ + "(255)" == "varchar(255)"; Ok("string")
    case "text" => Ok("text")
    case "timestamp" => Ok("datetime")
    case "float" => Ok("float")
    case _ => Err(UnhandledMatch(typ))
  }

  /**
   * Reading back the type the processor wrote gives the definition type again. MySQL lists
   * `varchar(255)` as `varchar`; `fulltext`, which the processor writes as `text`, reads back
   * as `text`.
   */
  lemma GetTypeInverse(typ: string)
    requires IsColumnType(typ)
    ensures typ !in ["string", "fulltext"] ==> GetType(Sql.GetType(typ).value) == Ok(typ)
    ensures typ == "string" ==> Sql.GetType(typ).value == "varchar" + "(255)" && GetType("varchar") == Ok(typ)
    ensures typ == "fulltext" ==> GetType(Sql.GetType(typ).value) == Ok("text")
  {
  }

  /** `getRestriction`: the rule lower-cased, with `no action` read as `restrict`. */
  function GetRestriction(rule: string): (r: string)
    ensures !ContainsStr(Lower(rule), "no action") ==> r == Lower(rule)
  {
    var lower := Lower(rule);
    if ContainsStr(lower, "no action") then ReplaceAll(lower, "no action", "restrict")
    else
      ReplaceAllAbsent(lower, "no action", "restrict");
      ReplaceAll(lower, "no action", "restrict")
  }

  /**
   * The rules the processor writes (upper-cased) are read back as written; MySQL's
   * `NO ACTION`, which behaves as `RESTRICT` there, reads as `restrict`.
   */
  lemma RestrictionRoundTrip(action: string)
    requires action in ["restrict", "cascade", "set null"]
    ensures GetRestriction(Upper(action)) == action
    ensures GetRestriction("NO ACTION") == "restrict"
  {
    LowerUpper(action);
    LowerUpper("no action");
    assert Lower("NO ACTION") == "no action" by {
      assert Upper("no action") == "NO ACTION";
    }
  }

  /**
   * `getDefault`: the default with its quoted literal unwrapped, `current_timestamp()` as
   * `now`, and by column type: a boolean for `1`/`0` (null otherwise), null for `NULL` and
   * otherwise an int cast for the numeric types, the text itself for the others.
   */
  function GetDefault(d: Option<string>, typ: string): (r: Value)
    ensures d.None? ==> r == VNull
    ensures r.VBool? ==> typ == "bool"
    ensures r.VInt? ==> typ in ["int", "bigint", "float"]
    ensures Unquote(d, "'") == Some("current_timestamp()") ==> r == VStr("now")
    ensures Unquote(d, "'") == Some("NULL") && typ != "bool" ==> r == VNull
  {
    var v := Unquote(d, "'");
    if v == Some("current_timestamp()") then VStr("now")
    else
      match typ
      case "bool" => if v == Some("1") then VBool(true) else if v == Some("0") then VBool(false) else VNull
      case "int" => if v == Some("NULL") || v.None? then VNull else VInt(IntCast(v.value))
      case "bigint" => if v == Some("NULL") || v.None? then VNull else VInt(IntCast(v.value))
      case "float" => if v == Some("NULL") || v.None? then VNull else VInt(IntCast(v.value))
      case _ => if v == Some("NULL") || v.None? then VNull else VStr(v.value)
  }

  /** A boolean default the processor writes is read back as that boolean. */
  lemma BoolDefaultRoundTrip(b: bool)
    ensures GetDefault(Some(Sql.GetDefault(VBool(b), "bool").value), "bool") == VBool(b)
  {
    var text := Sql.GetDefault(VBool(b), "bool").value;
    assert text == if b then "1" else "0";
    NoQuoteNoMatch(text, "'", 0);
  }

  /** An integer default the processor writes is read back as that integer. */
  lemma IntDefaultRoundTrip(i: int, typ: string)
    requires typ == "int" || typ == "bigint"
    ensures GetDefault(Some(Sql.GetDefault(VInt(i), typ).value), typ) == VInt(i)
  {
    var text := Sql.GetDefault(VInt(i), typ).value;
    assert text == IntToString(i);
    IntCastRoundTrip(i);
    NoQuoteInInt(i);
    NoQuoteNoMatch(text, "'", 0);
    assert text != "NULL" by { assert text[0] != 'N' by { NoQuoteInInt(i); } }
  }

  lemma NoQuoteInInt(i: int)
    ensures '\'' !in IntToString(i)
    ensures IntToString(i)[0] == '-' || IsDigit(IntToString(i)[0])
  {
    var s := IntToString(i);
    if i < 0 {
      assert s == "-" + NatToString(-i);
      assert forall k :: 1 <= k < |s| ==> s[k] == NatToString(-i)[k - 1];
    }
  }

  /**
   * A string default the processor writes, quoted as MariaDB prints it, is read back as that
   * string, unless it spans lines or is `NULL` or `current_timestamp()`, which read as null
   * and `now`.
   */
  lemma StringDefaultRoundTrip(x: string)
    requires '\n' !in x && x != "now" && x != "NULL" && x != "current_timestamp()"
    ensures GetDefault(Some(Sql.GetDefault(VStr(x), "string").value), "string") == VStr(x)
  {
    var text := Sql.GetDefault(VStr(x), "string").value;
    assert text == "'" + x + "'";
    Unwrapped(x, "'");
    assert Unquote(Some(text), "'") == Some(x);
  }

  /** MySQL 8 prints a string default without its quotes; one without quotes reads as itself. */
  lemma UnquotedStringDefault(x: string)
    requires '\'' !in x && x != "NULL" && x != "current_timestamp()"
    ensures GetDefault(Some(x), "string") == VStr(x)
  {
    NoQuoteNoMatch(x, "'", 0);
    assert Unquote(Some(x), "'") == Some(x);
  }

  /** `current_timestamp()`, as MariaDB prints the processor's CURRENT_TIMESTAMP, reads as `now`. */
  lemma DefaultNow(typ: string)
    ensures GetDefault(Some("current_timestamp()"), typ) == VStr("now")
  {
    NoQuoteNoMatch("current_timestamp()", "'", 0);
  }

  // ---------------------------------------------------------------------------------------
  // The rows of one table.

  /** One row of the column query; the flags count as set when they equal 1. */
  function ReadColumn(c: ColumnRow): (r: Result<Column, AnalyzeError>)
    ensures r.Ok? <==> GetType(c.typ).Ok?
    ensures r.Err? ==> r.error == GetType(c.typ).error
    ensures r.Ok? ==> r.value.name == c.name && r.value.typ == GetType(c.typ).value
    ensures r.Ok? ==> (r.value.nullable <==> c.isNullable == 1) && (r.value.auto <==> c.isAutoincrement == 1)
    ensures r.Ok? && c.isPrimary != 0 ==> r.value.default == VNull
    ensures r.Ok? && c.isPrimary == 0 ==> r.value.default == GetDefault(c.default, r.value.typ)
  {
    match GetType(c.typ)
    case Err(e) => Err(e)
    case Ok(typ) =>
      var default := if c.isPrimary != 0 then VNull else GetDefault(c.default, typ);
      Ok(NewColumn(c.name, typ, c.isNullable == 1).(default := default, auto := c.isAutoincrement == 1))
  }

  function ColumnEntry(c: ColumnRow): Entry<Column> {
    match ReadColumn(c)
    case Err(e) => Err(e)
    case Ok(col) => Ok(Some((c.name, col)))
  }

  function ReadForeign(f: ForeignRow): (r: Foreign)
    ensures r.name == Some(f.name) && r.keyColumn == f.column
    ensures r.schema == Some(f.refTableSchema) && r.table == f.refTable && r.column == f.refColumn
    ensures r.onUpdate == GetRestriction(f.onUpdate) && r.onDelete == GetRestriction(f.onDelete)
  {
    NewForeign(f.column, f.refTable, f.refColumn).(name := Some(f.name), schema := Some(f.refTableSchema),
      onUpdate := GetRestriction(f.onUpdate), onDelete := GetRestriction(f.onDelete))
  }

  function ForeignEntry(f: ForeignRow): Entry<Foreign> {
    Ok(Some((f.name, ReadForeign(f))))
  }

  function UniqueReader(cat: Catalog, s: string, t: string): string -> Entry<Unique> {
    (u: string) => Ok(Some((u, Unique(u, cat.keyColumns(u, s, t)))))
  }

  /** The columns and indexes of a table while its index rows are read. */
  type Shape = (OMap<string, Column>, OMap<string, Index>)

  /**
   * One index row: a further column of an index already seen is appended to it; a new
   * full-text index makes its column's type `fulltext` (the column must exist) and is not
   * kept; any other new index starts with this column.
   */
  function IndexStep(t: string, st: Shape, i: IndexRow): (r: Result<Shape, AnalyzeError>)
    ensures HasKey(st.1, i.name) ==>
              r.Ok? && r.value.0 == st.0 && KeysOf(r.value.1) == KeysOf(st.1)
              && Lookup(r.value.1, i.name) == Some(Lookup(st.1, i.name).value.(columns := Lookup(st.1, i.name).value.columns + [i.column]))
    ensures !HasKey(st.1, i.name) && i.typ == "FULLTEXT" ==>
              (r.Ok? <==> HasKey(st.0, i.column))
              && (r.Err? ==> r.error == MissingColumn(t, i.column))
              && (r.Ok? ==> r.value.1 == st.1 && KeysOf(r.value.0) == KeysOf(st.0)
                            && Lookup(r.value.0, i.column) == Some(Lookup(st.0, i.column).value.(typ := "fulltext")))
    ensures !HasKey(st.1, i.name) && i.typ != "FULLTEXT" ==>
              r.Ok? && r.value.0 == st.0 && r.value.1 == st.1 + [(i.name, Index(StrName(i.name), [i.column]))]
              && Lookup(r.value.1, i.name) == Some(Index(StrName(i.name), [i.column]))
    ensures r.Ok? ==> forall k :: k != i.name ==> Lookup(r.value.1, k) == Lookup(st.1, k)
    ensures r.Ok? ==> forall k :: k != i.column ==> Lookup(r.value.0, k) == Lookup(st.0, k)
  {
    var (cols, ixs) := st;
    if HasKey(ixs, i.name) then
      var ix := Lookup(ixs, i.name).value;
      PutLookupAll(ixs, i.name, ix.(columns := ix.columns + [i.column]));
      Ok((cols, Put(ixs, i.name, ix.(columns := ix.columns + [i.column]))))
    else if i.typ == "FULLTEXT" then
      if HasKey(cols, i.column) then
        var c := Lookup(cols, i.column).value;
        PutLookupAll(cols, i.column, c.(typ := "fulltext"));
        Ok((Put(cols, i.column, c.(typ := "fulltext")), ixs))
      else Err(MissingColumn(t, i.column))
    else
      var added := Put(ixs, i.name, Index(StrName(i.name), [i.column]));
      PutLookupAll(ixs, i.name, Index(StrName(i.name), [i.column]));
      assert added == ixs + [(i.name, Index(StrName(i.name), [i.column]))];
      Ok((cols, added))
  }

  lemma PutLookupAll<V>(m: OMap<string, V>, k: string, v: V)
    ensures forall k2 :: Lookup(Put(m, k, v), k2) == if k2 == k then Some(v) else Lookup(m, k2)
  {
    forall k2 ensures Lookup(Put(m, k, v), k2) == if k2 == k then Some(v) else Lookup(m, k2) {
      PutLookup(m, k, v, k2);
    }
  }

  /** The index loop over `rows`, from the table's columns and no indexes. */
  function IndexesOf(t: string, cols: OMap<string, Column>, rows: seq<IndexRow>): Result<Shape, AnalyzeError>
    decreases |rows|
  {
    if rows == [] then Ok((cols, []))
    else
      match IndexesOf(t, cols, rows[..|rows| - 1])
      case Err(e) => Err(e)
      case Ok(st) => IndexStep(t, st, rows[|rows| - 1])
  }

  /** The columns of the rows of index `k`, in row order. */
  function ColumnsNamed(rows: seq<IndexRow>, k: string): seq<string>
    decreases |rows|
  {
    if rows == [] then []
    else ColumnsNamed(rows[..|rows| - 1], k) + (if rows[|rows| - 1].name == k then [rows[|rows| - 1].column] else [])
  }

  predicate AllFulltext(rows: seq<IndexRow>, k: string) {
    forall i :: 0 <= i < |rows| && rows[i].name == k ==> rows[i].typ == "FULLTEXT"
  }

  predicate NoFulltext(rows: seq<IndexRow>, k: string) {
    forall i :: 0 <= i < |rows| && rows[i].name == k ==> rows[i].typ != "FULLTEXT"
  }

  /**
   * What the index loop makes of the rows of one index name: an ordinary index holds every
   * column listed for it, in order; a full-text index leaves no index behind.
   */
  lemma {:induction false} IndexGroups(t: string, cols: OMap<string, Column>, rows: seq<IndexRow>, k: string)
    requires IndexesOf(t, cols, rows).Ok?
    ensures NoFulltext(rows, k) ==> Lookup(IndexesOf(t, cols, rows).value.1, k) == Grouped(k, ColumnsNamed(rows, k))
    ensures AllFulltext(rows, k) ==> !HasKey(IndexesOf(t, cols, rows).value.1, k)
    decreases |rows|
  {
    if rows != [] {
      var init := rows[..|rows| - 1];
      var last := rows[|rows| - 1];
      assert forall i :: 0 <= i < |init| ==> init[i] == rows[i];
      IndexGroups(t, cols, init, k);
      var st := IndexesOf(t, cols, init).value;
      if NoFulltext(rows, k) {
        assert NoFulltext(init, k);
        GroupStep(t, st, last, k, ColumnsNamed(init, k));
      }
      if AllFulltext(rows, k) {
        assert AllFulltext(init, k);
        assert last.name == k ==> last.typ == "FULLTEXT";
      }
    }
  }

  /** The index named `k` when its rows list the columns `cn`: none when there are none. */
  function Grouped(k: string, cn: seq<string>): Option<Index> {
    if cn == [] then None else Some(Index(StrName(k), cn))
  }

  lemma GroupStep(t: string, st: Shape, last: IndexRow, k: string, cn: seq<string>)
    requires IndexStep(t, st, last).Ok? && Lookup(st.1, k) == Grouped(k, cn)
    requires last.name == k ==> last.typ != "FULLTEXT"
    ensures Lookup(IndexStep(t, st, last).value.1, k) == Grouped(k, cn + if last.name == k then [last.column] else [])
  {
    if last.name == k {
      if HasKey(st.1, k) {
        assert cn != [];
        assert Lookup(st.1, k).value == Index(StrName(k), cn);
      } else {
        assert cn == [] && cn + [last.column] == [last.column];
      }
    } else {
      assert cn + [] == cn;
    }
  }

  /** `r` has the columns of `cols`, each unchanged or with its type made `fulltext`. */
  ghost predicate ColumnsKept(cols: OMap<string, Column>, r: OMap<string, Column>) {
    (forall k :: HasKey(r, k) <==> HasKey(cols, k))
    && forall k :: HasKey(cols, k) ==>
         Lookup(r, k) == Lookup(cols, k) || Lookup(r, k) == Some(Lookup(cols, k).value.(typ := "fulltext"))
  }

  predicate IsFulltext(cols: OMap<string, Column>, k: string) {
    HasKey(cols, k) && Lookup(cols, k).value.typ == "fulltext"
  }

  /** The index loop changes no column but by making it `fulltext`. */
  lemma {:induction false} IndexColumns(t: string, cols: OMap<string, Column>, rows: seq<IndexRow>)
    requires IndexesOf(t, cols, rows).Ok?
    ensures ColumnsKept(cols, IndexesOf(t, cols, rows).value.0)
    decreases |rows|
  {
    if rows == [] {
      assert ColumnsKept(cols, cols);
    } else {
      IndexColumns(t, cols, rows[..|rows| - 1]);
      ColumnsStep(t, cols, IndexesOf(t, cols, rows[..|rows| - 1]).value, rows[|rows| - 1]);
    }
  }

  /** Every column of a full-text index is `fulltext` once the loop is done. */
  lemma {:induction false} FulltextColumns(t: string, cols: OMap<string, Column>, rows: seq<IndexRow>, i: nat)
    requires IndexesOf(t, cols, rows).Ok? && i < |rows| && AllFulltext(rows, rows[i].name)
    ensures IsFulltext(IndexesOf(t, cols, rows).value.0, rows[i].column)
    decreases |rows|
  {
    var n := |rows| - 1;
    var init := rows[..n];
    IndexesSnoc(t, cols, rows);
    var st := IndexesOf(t, cols, init).value;
    if i == n {
      FulltextPrefix(rows, rows[n].name);
      IndexGroups(t, cols, init, rows[n].name);
      FulltextStep(t, st, rows[n]);
    } else {
      FulltextPrefix(rows, rows[i].name);
      assert init[i] == rows[i];
      FulltextColumns(t, cols, init, i);
      FulltextStep(t, st, rows[n]);
    }
  }

  lemma IndexesSnoc(t: string, cols: OMap<string, Column>, rows: seq<IndexRow>)
    requires |rows| > 0 && IndexesOf(t, cols, rows).Ok?
    ensures IndexesOf(t, cols, rows[..|rows| - 1]).Ok?
    ensures IndexesOf(t, cols, rows) == IndexStep(t, IndexesOf(t, cols, rows[..|rows| - 1]).value, rows[|rows| - 1])
  {
  }

  lemma FulltextStep(t: string, st: Shape, last: IndexRow)
    requires IndexStep(t, st, last).Ok?
    ensures forall k :: IsFulltext(st.0, k) ==> IsFulltext(IndexStep(t, st, last).value.0, k)
    ensures !HasKey(st.1, last.name) && last.typ == "FULLTEXT" ==> IsFulltext(IndexStep(t, st, last).value.0, last.column)
  {
    var r := IndexStep(t, st, last).value.0;
    forall k | IsFulltext(st.0, k) ensures IsFulltext(r, k) {
      assert Lookup(r, k).Some? <==> HasKey(r, k);
    }
  }

  lemma FulltextPrefix(rows: seq<IndexRow>, k: string)
    requires |rows| > 0 && AllFulltext(rows, k)
    ensures AllFulltext(rows[..|rows| - 1], k)
    ensures rows[|rows| - 1].name == k ==> rows[|rows| - 1].typ == "FULLTEXT"
  {
    var init := rows[..|rows| - 1];
    forall i | 0 <= i < |init| && init[i].name == k ensures init[i].typ == "FULLTEXT" {
      assert init[i] == rows[i];
    }
  }

  lemma ColumnsStep(t: string, cols: OMap<string, Column>, st: Shape, last: IndexRow)
    requires IndexStep(t, st, last).Ok? && ColumnsKept(cols, st.0)
    ensures ColumnsKept(cols, IndexStep(t, st, last).value.0)
  {
    var r := IndexStep(t, st, last).value.0;
    forall k ensures (HasKey(r, k) <==> HasKey(st.0, k)) && (HasKey(st.0, k) ==>
                       Lookup(r, k) == Lookup(st.0, k) || Lookup(r, k) == Some(Lookup(st.0, k).value.(typ := "fulltext")))
    {
      assert Lookup(r, k).Some? <==> HasKey(r, k);
      assert Lookup(st.0, k).Some? <==> HasKey(st.0, k);
    }
  }

  /**
   * The table a table name becomes: its columns, foreign keys and unique keys, then the
   * primary key (a table without one stops the analysis), then the index rows.
   */
  function TableOf(cat: Catalog, s: string, t: string): (r: Result<Table, AnalyzeError>)
    ensures r.Ok? ==> r.value.name == t && cat.primaryKey(s, t).Some?
    ensures r.Ok? ==> r.value.primaryKey == Some(Primary(cat.keyColumns(cat.primaryKey(s, t).value, s, t)))
  {
    var cols := Collect(cat.columns(s, t), ColumnEntry);
    var fks := Collect(cat.foreignKeys(s, t), ForeignEntry);
    var uks := Collect(cat.uniqueKeys(s, t), UniqueReader(cat, s, t));
    if cols.Err? then Err(cols.error)
    else if fks.Err? then Err(fks.error)
    else if uks.Err? then Err(uks.error)
    else if cat.primaryKey(s, t).None? then Err(MissingPrimaryKey(t))
    else
      match IndexesOf(t, cols.value, cat.indexes(s, t))
      case Err(e) => Err(e)
      case Ok(st) =>
        var primary := Primary(cat.keyColumns(cat.primaryKey(s, t).value, s, t));
        Ok(NewTable(t).(columns := st.0, foreignKeys := fks.value, uniqueKeys := uks.value,
                        indexes := st.1, primaryKey := Some(primary)))
  }

  function TableReader(cat: Catalog, s: string): string -> Entry<Table> {
    (t: string) => if t == "migrations" then Ok(None)
                   else match TableOf(cat, s, t)
                        case Err(e) => Err(e)
                        case Ok(table) => Ok(Some((t, table)))
  }

  function SchemaOf(cat: Catalog, s: string): (r: Result<Schema, AnalyzeError>)
    ensures r.Ok? ==> r.value.name == s
  {
    match Collect(cat.tables(s), TableReader(cat, s))
    case Err(e) => Err(e)
    case Ok(tables) => Ok(Schema(s, tables))
  }

  function SchemaReader(cat: Catalog): string -> Entry<Schema> {
    (s: string) => match SchemaOf(cat, s)
                   case Err(e) => Err(e)
                   case Ok(schema) => Ok(Some((s, schema)))
  }

  /** `getDefinition($schemas)`. */
  function DefinitionOf(cat: Catalog, schemas: seq<string>): Result<Definition, AnalyzeError> {
    match Collect(schemas, SchemaReader(cat))
    case Err(e) => Err(e)
    case Ok(m) => Ok(Definition(m))
  }

  // ---------------------------------------------------------------------------------------
  // What the definition read back looks like.

  /**
   * Every element of a table read back is keyed by its own name, once, and every column
   * comes from a column row, with a null default when the row is a primary-key column.
   */
  lemma TableKeyed(cat: Catalog, s: string, t: string)
    requires TableOf(cat, s, t).Ok?
    ensures var tb := TableOf(cat, s, t).value;
            DistinctKeys(tb.foreignKeys) && DistinctKeys(tb.uniqueKeys)
            && (forall j :: 0 <= j < |tb.foreignKeys| ==> tb.foreignKeys[j].1.name == Some(tb.foreignKeys[j].0))
            && (forall j :: 0 <= j < |tb.uniqueKeys| ==> tb.uniqueKeys[j].0 == tb.uniqueKeys[j].1.name)
            && (forall k :: HasKey(tb.columns, k) <==> exists i :: 0 <= i < |cat.columns(s, t)| && cat.columns(s, t)[i].name == k)
  {
    var rows := cat.columns(s, t);
    var cols := Collect(rows, ColumnEntry);
    CollectOk(rows, ColumnEntry);
    CollectKeys(rows, ColumnEntry);
    CollectKeys(cat.foreignKeys(s, t), ForeignEntry);
    CollectKeys(cat.uniqueKeys(s, t), UniqueReader(cat, s, t));
    CollectFrom(cat.foreignKeys(s, t), ForeignEntry);
    CollectFrom(cat.uniqueKeys(s, t), UniqueReader(cat, s, t));
    IndexColumns(t, cols.value, cat.indexes(s, t));
    forall k ensures HasKey(cols.value, k) <==> exists i :: 0 <= i < |rows| && rows[i].name == k {
      if exists i :: 0 <= i < |rows| && rows[i].name == k {
        var i :| 0 <= i < |rows| && rows[i].name == k;
        assert Writes(ColumnEntry(rows[i]), k);
      }
    }
  }

  /**
   * The schemas read back are exactly the requested ones, each keyed by its name; no table
   * is named `migrations`, and every table is keyed by its name.
   */
  lemma DefinitionShape(cat: Catalog, schemas: seq<string>)
    requires DefinitionOf(cat, schemas).Ok?
    ensures var d := DefinitionOf(cat, schemas).value;
            DistinctKeys(d.schemas)
            && (forall s :: HasKey(d.schemas, s) <==> s in schemas)
            && (forall j :: 0 <= j < |d.schemas| ==> d.schemas[j].1.name == d.schemas[j].0)
            && (forall j :: 0 <= j < |d.schemas| ==> !HasKey(d.schemas[j].1.tables, "migrations"))
            && (forall j, k :: 0 <= j < |d.schemas| && 0 <= k < |d.schemas[j].1.tables| ==>
                  d.schemas[j].1.tables[k].1.name == d.schemas[j].1.tables[k].0)
  {
    var d := DefinitionOf(cat, schemas).value;
    CollectOk(schemas, SchemaReader(cat));
    CollectKeys(schemas, SchemaReader(cat));
    CollectFrom(schemas, SchemaReader(cat));
    forall s ensures HasKey(d.schemas, s) <==> s in schemas {
      if s in schemas {
        var i :| 0 <= i < |schemas| && schemas[i] == s;
        assert Writes(SchemaReader(cat)(schemas[i]), s);
      }
    }
    forall j | 0 <= j < |d.schemas|
      ensures !HasKey(d.schemas[j].1.tables, "migrations")
      ensures forall k :: 0 <= k < |d.schemas[j].1.tables| ==> d.schemas[j].1.tables[k].1.name == d.schemas[j].1.tables[k].0
    {
      var i :| 0 <= i < |schemas| && SchemaReader(cat)(schemas[i]) == Ok(Some(d.schemas[j]));
      SchemaTables(cat, schemas[i]);
    }
  }

  lemma SchemaTables(cat: Catalog, s: string)
    requires SchemaOf(cat, s).Ok?
    ensures !HasKey(SchemaOf(cat, s).value.tables, "migrations")
    ensures var tables := SchemaOf(cat, s).value.tables;
            forall k :: 0 <= k < |tables| ==> tables[k].1.name == tables[k].0
  {
    var rows := cat.tables(s);
    CollectKeys(rows, TableReader(cat, s));
    CollectFrom(rows, TableReader(cat, s));
    assert forall i :: 0 <= i < |rows| ==> !Writes(TableReader(cat, s)(rows[i]), "migrations");
  }

  // ---------------------------------------------------------------------------------------
  // The loops of `getDefinition`.

  /** The index loop, on the table's columns and indexes. */
  method ReadIndexes(t: string, cols: OMap<string, Column>, rows: seq<IndexRow>) returns (r: Result<Shape, AnalyzeError>)
    ensures r == IndexesOf(t, cols, rows)
  {
    var columns := cols;
    var indexes: OMap<string, Index> := [];
    for n := 0 to |rows|
      invariant IndexesOf(t, cols, rows[..n]) == Ok((columns, indexes))
    {
      var i := rows[n];
      assert rows[..n + 1][..n] == rows[..n];
      if HasKey(indexes, i.name) {
        var ix := Lookup(indexes, i.name).value;
        indexes := Put(indexes, i.name, ix.(columns := ix.columns + [i.column]));
      } else if i.typ == "FULLTEXT" {
        if !HasKey(columns, i.column) {
          IndexesErrSticks(t, cols, rows, n + 1);
          return Err(MissingColumn(t, i.column));
        }
        var c := Lookup(columns, i.column).value;
        columns := Put(columns, i.column, c.(typ := "fulltext"));
      } else {
        indexes := indexes + [(i.name, Index(StrName(i.name), [i.column]))];
      }
    }
    assert rows[..|rows|] == rows;
    r := Ok((columns, indexes));
  }

  lemma {:induction false} IndexesErrSticks(t: string, cols: OMap<string, Column>, rows: seq<IndexRow>, n: nat)
    requires n <= |rows| && IndexesOf(t, cols, rows[..n]).Err?
    ensures IndexesOf(t, cols, rows) == IndexesOf(t, cols, rows[..n])
    decreases |rows|
  {
    if n < |rows| {
      var init := rows[..|rows| - 1];
      assert init[..n] == rows[..n];
      IndexesErrSticks(t, cols, init, n);
    } else {
      assert rows[..n] == rows;
    }
  }

  method ReadTable(cat: Catalog, s: string, t: string) returns (r: Result<Table, AnalyzeError>)
    ensures r == TableOf(cat, s, t)
  {
    var cols := CollectRows(cat.columns(s, t), ColumnEntry);
    if cols.Err? { return Err(cols.error); }
    var fks := CollectRows(cat.foreignKeys(s, t), ForeignEntry);
    if fks.Err? { return Err(fks.error); }
    var uks := CollectRows(cat.uniqueKeys(s, t), UniqueReader(cat, s, t));
    if uks.Err? { return Err(uks.error); }
    var p := cat.primaryKey(s, t);
    if p.None? { return Err(MissingPrimaryKey(t)); }
    var shape := ReadIndexes(t, cols.value, cat.indexes(s, t));
    if shape.Err? { return Err(shape.error); }
    var table := NewTable(t);
    table := table.(columns := shape.value.0, foreignKeys := fks.value, uniqueKeys := uks.value, indexes := shape.value.1);
    table := table.(primaryKey := Some(Primary(cat.keyColumns(p.value, s, t))));
    r := Ok(table);
  }

  method ReadSchema(cat: Catalog, s: string) returns (r: Result<Schema, AnalyzeError>)
    ensures r == SchemaOf(cat, s)
  {
    var rows := cat.tables(s);
    var tables: OMap<string, Table> := [];
    for i := 0 to |rows|
      invariant Collect(rows[..i], TableReader(cat, s)) == Ok(tables)
    {
      CollectStep(rows, TableReader(cat, s), i);
      var t := rows[i];
      if t == "migrations" {
        continue;
      }
      var table := ReadTable(cat, s, t);
      if table.Err? {
        CollectErrSticks(rows, TableReader(cat, s), i + 1);
        return Err(table.error);
      }
      tables := Put(tables, t, table.value);
    }
    assert rows[..|rows|] == rows;
    r := Ok(Schema(s, tables));
  }

  method GetDefinition(cat: Catalog, schemas: seq<string>) returns (r: Result<Definition, AnalyzeError>)
    ensures r == DefinitionOf(cat, schemas)
  {
    var m: OMap<string, Schema> := [];
    for i := 0 to |schemas|
      invariant Collect(schemas[..i], SchemaReader(cat)) == Ok(m)
    {
      CollectStep(schemas, SchemaReader(cat), i);
      var schema := ReadSchema(cat, schemas[i]);
      if schema.Err? {
        CollectErrSticks(schemas, SchemaReader(cat), i + 1);
        return Err(schema.error);
      }
      m := Put(m, schemas[i], schema.value);
    }
    assert schemas[..|schemas|] == schemas;
    r := Ok(Definition(m));
  }
}
