/**
 * What `MysqlProcessor` renders and queues: the SQL fragments (`column`, `primary`,
 * `unique`, `foreign`, `getType`, `getDefault`) and, for every create, remove and update
 * operation, the queries it hands to `addQuery`, in the order it does so.
 */
module MysqlSql {
  import opened Wrappers
  import opened OrderedMaps
  import opened PhpStrings
  import opened Config
  import opened Queries

  /** The processor's step lists, in the order `process` runs them. */
  const StepOrder: seq<Step> := [
    Step.CreateSchema, Step.CreateSequence, Step.CreateTable, Step.AlterTable, Step.AlterSequence, Step.CreateIndex,
    Step.AlterTableDrop, Step.AlterTableAdd, Step.DropSchema, Step.DropTable, Step.DropSequence, Step.DropIndex]

  /** No step appears twice, so every query has exactly one list. */
  lemma StepsDistinct()
    ensures DistinctSteps(StepOrder)
  {
  }

  const Collation: string := "utf8mb4_unicode_520_ci"

  function Quote(n: string): string { "`" + n + "`" }

  function QuotedList(names: seq<string>): (r: string)
    ensures |names| == 0 ==> r == ""
  {
    Join(", ", seq(|names|, i requires 0 <= i < |names| => Quote(names[i])))
  }

  function Label(s: Schema, t: Table): string { s.name + "." + t.name }

  function TableRef(s: Schema, t: Table): string { Quote(s.name) + "." + Quote(t.name) }

  // ---------------------------------------------------------------------------------------
  // Fragments.

  /** `getType`; a type outside the eight raises `UnhandledMatchError`. */
  function GetType(typ: string): (r: Result<string, ProcessError>)
    ensures r.Ok? <==> IsColumnType(typ)
    ensures r.Err? ==> r.error == UnhandledMatch(typ)
  {
    match typ
    case "bool" => Ok("tinyint")
    case "int" => Ok("int")
    case "bigint" => Ok("bigint")
    case "string" => Ok("varchar(255)")
    case "text" => Ok("text")
    case "datetime" => Ok("timestamp")
    case "float" => Ok("float")
    case "fulltext" => Ok("text")
    case _ => Err(UnhandledMatch(typ))
  }

  /** PHP's truth value of a default. */
  predicate IsTruthy(v: Value) {
    match v
    case VNull => false
    case VBool(b) => b
    case VInt(i) => i != 0
    case VStr(s) => Truthy(s)
  }

  /**
   * `getDefault`: the string `now` becomes `CURRENT_TIMESTAMP`, a bool column's default
   * `1` or `0` by its truth value, a string or text default is quoted, an integer one written
   * as PHP writes it; datetime, float and fulltext columns have no arm.
   */
  function GetDefault(v: Value, typ: string): (r: Result<string, ProcessError>)
    ensures v == VStr("now") ==> r == Ok("CURRENT_TIMESTAMP")
    ensures v != VStr("now") && typ == "bool" ==> r == Ok(if IsTruthy(v) then "1" else "0")
    ensures v != VStr("now") && (typ == "string" || typ == "text") ==> r == Ok("'" + StrOf(v) + "'")
    ensures v != VStr("now") ==> (r.Ok? <==> typ in ["bool", "int", "bigint", "string", "text"])
  {
    if v == VStr("now") then Ok("CURRENT_TIMESTAMP")
    else
      match typ
      case "bool" => Ok(if IsTruthy(v) then "1" else "0")
      case "int" => Ok(StrOf(v))
      case "bigint" => Ok(StrOf(v))
      case "string" => Ok("'" + StrOf(v) + "'")
      case "text" => Ok("'" + StrOf(v) + "'")
      case _ => Err(UnhandledMatch(typ))
  }

  predicate Collated(typ: string) { typ in ["string", "text", "fulltext"] }

  const CollateClause: string := "COLLATE " + Collation

  /** The parts `column` joins with spaces: name, type, collation, nullability, default, auto-increment. */
  function ColumnParts(c: Column): (r: Result<seq<string>, ProcessError>)
    ensures r.Ok? <==> GetType(c.typ).Ok? && (c.default != VNull ==> GetDefault(c.default, c.typ).Ok?)
    ensures r.Ok? ==> |r.value| == 3 + (if Collated(c.typ) then 1 else 0) + (if c.default == VNull then 0 else 1) + (if c.auto then 1 else 0)
    ensures r.Ok? ==> r.value[0] == Quote(c.name) && r.value[1] == GetType(c.typ).value
    ensures r.Ok? ==> r.value[if Collated(c.typ) then 3 else 2] == (if c.nullable then "NULL" else "NOT NULL")
  {
    match GetType(c.typ)
    case Err(e) => Err(e)
    case Ok(typ) =>
      if c.default != VNull && GetDefault(c.default, c.typ).Err? then Err(GetDefault(c.default, c.typ).error)
      else
        var collate := if Collated(c.typ) then [CollateClause] else [];
        var nul := if c.nullable then "NULL" else "NOT NULL";
        var def := if c.default != VNull then ["DEFAULT " + GetDefault(c.default, c.typ).value] else [];
        var auto := if c.auto then ["AUTO_INCREMENT"] else [];
        Ok([Quote(c.name), typ] + collate + [nul] + def + auto)
  }

  /**
   * The collation clause is rendered exactly for the string, text and fulltext columns, the
   * default exactly when one is set, and AUTO_INCREMENT exactly for an auto-increment column.
   */
  lemma ColumnPartsClauses(c: Column)
    requires ColumnParts(c).Ok?
    ensures CollateClause in ColumnParts(c).value <==> Collated(c.typ)
    ensures c.default != VNull ==> "DEFAULT " + GetDefault(c.default, c.typ).value in ColumnParts(c).value
    ensures "AUTO_INCREMENT" in ColumnParts(c).value <==> c.auto
  {
    var typ := GetType(c.typ).value;
    var collate := if Collated(c.typ) then [CollateClause] else [];
    var nul := if c.nullable then "NULL" else "NOT NULL";
    var def := if c.default != VNull then ["DEFAULT " + GetDefault(c.default, c.typ).value] else [];
    var auto := if c.auto then ["AUTO_INCREMENT"] else [];
    assert ColumnParts(c).value == [Quote(c.name), typ] + collate + [nul] + def + auto;
    TypeLowerCase(c.typ);
    assert Quote(c.name)[0] == '`';
    assert def != [] ==> def[0][0] == 'D';
    AmongParts(CollateClause, Quote(c.name), typ, collate, nul, def, auto);
    AmongParts("AUTO_INCREMENT", Quote(c.name), typ, collate, nul, def, auto);
  }

  /** Every rendered column type starts with a lower-case letter. */
  lemma TypeLowerCase(typ: string)
    requires GetType(typ).Ok?
    ensures |GetType(typ).value| > 0 && 'a' <= GetType(typ).value[0] <= 'z'
  {
  }

  /** A clause unlike the fixed parts and the default occurs in the column parts only where it was put. */
  lemma AmongParts<T>(x: T, name: T, typ: T, collate: seq<T>, nul: T, def: seq<T>, auto: seq<T>)
    requires x != name && x != typ && x != nul && x !in def
    ensures x in [name, typ] + collate + [nul] + def + auto <==> x in collate || x in auto
  {
  }

  function PrimarySql(pk: Option<Primary>): (r: Result<string, ProcessError>)
    ensures r.Ok? <==> pk.Some?
    ensures r.Ok? ==> r.value == "PRIMARY KEY (" + QuotedList(pk.value.columns) + ")"
  {
    match pk
    case None => Err(NullArgument("primaryKey"))
    case Some(p) => Ok("PRIMARY KEY (" + QuotedList(p.columns) + ")")
  }

  /** `unique`: a named unique index. */
  function UniqueSql(u: Unique): string { "UNIQUE INDEX " + Quote(u.name) + " (" + QuotedList(u.columns) + ")" }

  /**
   * `$foreignKey->schema ?: $this->defaultSchema`; the default schema is a typed property
   * without an initial value, so reading it before `setDefaultSchema` is an error.
   */
  function ForeignSchema(f: Foreign, defaultSchema: Option<string>): (r: Result<string, ProcessError>)
    ensures f.schema.Some? && Truthy(f.schema.value) ==> r == Ok(f.schema.value)
    ensures !(f.schema.Some? && Truthy(f.schema.value)) ==>
              r == if defaultSchema.Some? then Ok(defaultSchema.value) else Err(Uninitialized("defaultSchema"))
  {
    if f.schema.Some? && Truthy(f.schema.value) then Ok(f.schema.value)
    else if defaultSchema.Some? then Ok(defaultSchema.value)
    else Err(Uninitialized("defaultSchema"))
  }

  /** The parts `foreign` joins with spaces: ON UPDATE comes before ON DELETE. */
  function ForeignParts(f: Foreign, defaultSchema: Option<string>): (r: Result<seq<string>, ProcessError>)
    ensures r.Ok? <==> ForeignSchema(f, defaultSchema).Ok?
    ensures r.Ok? ==> |r.value| == 5 && r.value[3] == "ON UPDATE " + Upper(f.onUpdate) && r.value[4] == "ON DELETE " + Upper(f.onDelete)
    ensures r.Ok? ==> r.value[2] == "REFERENCES " + Quote(ForeignSchema(f, defaultSchema).value) + "." + Quote(f.table) + " (" + Quote(f.column) + ")"
  {
    match ForeignSchema(f, defaultSchema)
    case Err(e) => Err(e)
    case Ok(fs) =>
      Ok([Quote(f.name.GetOr("")),
          "FOREIGN KEY (" + Quote(f.keyColumn) + ")",
          "REFERENCES " + Quote(fs) + "." + Quote(f.table) + " (" + Quote(f.column) + ")",
          "ON UPDATE " + Upper(f.onUpdate),
          "ON DELETE " + Upper(f.onDelete)])
  }

  // ---------------------------------------------------------------------------------------
  // Queries of each operation.

  function FulltextName(t: Table, c: Column): string { t.name + "_" + c.name + "_fx" }

  function CreateFulltextQuery(s: Schema, t: Table, c: Column): Query {
    Query(Step.AlterTable,
          "ALTER TABLE " + TableRef(s, t) + " ADD FULLTEXT INDEX " + Quote(FulltextName(t, c)) + " (" + Quote(c.name) + ")",
          Some(Label(s, t)), Some("creating fulltext"), Some(c.name))
  }

  function DropFulltextQuery(s: Schema, t: Table, c: Column): Query {
    Query(Step.DropIndex, "DROP INDEX IF EXISTS " + Quote(FulltextName(t, c)) + " ON " + TableRef(s, t),
          Some(Label(s, t)), Some("removing fulltext"), Some(c.name))
  }

  /**
   * What `column` queues for a fulltext column: the drop of the old index goes to `dropIndex`,
   * the last step, and the add to `alterTable`.
   */
  function ColumnQueries(s: Schema, t: Table, c: Column): seq<Query> {
    if c.typ == "fulltext" then [DropFulltextQuery(s, t, c), CreateFulltextQuery(s, t, c)] else []
  }

  /** What `column` would queue with the drop in `alterTable`, ahead of the add (the intended plan). */
  function ColumnQueriesDropFirst(s: Schema, t: Table, c: Column): seq<Query> {
    if c.typ == "fulltext" then [DropFulltextQuery(s, t, c).(step := Step.AlterTable), CreateFulltextQuery(s, t, c)] else []
  }

  function CreateSchemaQuery(sc: Schema): Query {
    Query(Step.CreateSchema, "CREATE DATABASE " + Quote(sc.name), Some("creating schema"), Some(sc.name), None)
  }

  function RemoveSchemaQuery(sc: Schema): Query {
    Query(Step.DropSchema, "DROP DATABASE " + Quote(sc.name), Some("removing schema"), Some(sc.name), None)
  }

  /** The column definitions of `createTable`, each with what rendering it queued. */
  function ColumnDefs(s: Schema, t: Table, cols: seq<Column>): (r: Result<(seq<string>, seq<Query>), ProcessError>)
    ensures r.Ok? <==> forall i :: 0 <= i < |cols| ==> ColumnParts(cols[i]).Ok?
    ensures r.Ok? ==> |r.value.0| == |cols| && forall q :: q in r.value.1 ==> q.step in [Step.AlterTable, Step.DropIndex]
    decreases |cols|
  {
    if cols == [] then Ok(([], []))
    else
      var c := cols[|cols| - 1];
      PartsSnoc(cols, cols[..|cols| - 1]);
      match ColumnDefs(s, t, cols[..|cols| - 1])
      case Err(e) => Err(e)
      case Ok(acc) =>
        match ColumnParts(c)
        case Err(e) => Err(e)
        case Ok(parts) =>
          ColumnQuerySteps(acc.1, s, t, c);
          Ok((acc.0 + [Join(" ", parts)], acc.1 + ColumnQueries(s, t, c)))
  }

  /** Every column renders exactly when those before the last do and the last one does. */
  lemma PartsSnoc(cols: seq<Column>, init: seq<Column>)
    requires |cols| > 0 && init == cols[..|cols| - 1]
    ensures (forall i :: 0 <= i < |cols| ==> ColumnParts(cols[i]).Ok?) <==>
              (forall i :: 0 <= i < |init| ==> ColumnParts(init[i]).Ok?) && ColumnParts(cols[|cols| - 1]).Ok?
  {
    assert forall i :: 0 <= i < |init| ==> init[i] == cols[i];
  }

  /** A column's queries all belong to the `alterTable` and `dropIndex` steps. */
  lemma ColumnQuerySteps(qs: seq<Query>, s: Schema, t: Table, c: Column)
    requires forall q :: q in qs ==> q.step in [Step.AlterTable, Step.DropIndex]
    ensures forall q :: q in qs + ColumnQueries(s, t, c) ==> q.step in [Step.AlterTable, Step.DropIndex]
  {
  }

  function CreateUniqueQuery(s: Schema, t: Table, u: Unique): Query {
    Query(Step.AlterTableAdd, "ALTER TABLE " + TableRef(s, t) + " ADD " + UniqueSql(u),
          Some(Label(s, t)), Some("creating unique key"), Some(u.name))
  }

  function RemoveUniqueQuery(s: Schema, t: Table, u: Unique): Query {
    Query(Step.AlterTableDrop, "ALTER TABLE " + TableRef(s, t) + " DROP CONSTRAINT " + Quote(u.name),
          Some(Label(s, t)), Some("removing unique key"), Some(u.name))
  }

  function IndexItem(ix: Index): Option<string> {
    if ix.name.NoName? then None else Some(NameKey(ix.name))
  }

  function CreateIndexQuery(s: Schema, t: Table, ix: Index): Query {
    Query(Step.CreateIndex,
          "CREATE INDEX " + Quote(NameKey(ix.name)) + " ON " + TableRef(s, t) + " (" + QuotedList(ix.columns) + ")",
          Some(Label(s, t)), Some("creating index"), IndexItem(ix))
  }

  function RemoveIndexQuery(s: Schema, t: Table, ix: Index): Query {
    Query(Step.DropIndex, "DROP INDEX " + Quote(NameKey(ix.name)) + " ON " + TableRef(s, t),
          Some(Label(s, t)), Some("removing index"), IndexItem(ix))
  }

  function CreateForeignQuery(s: Schema, t: Table, f: Foreign, defaultSchema: Option<string>): Result<Query, ProcessError> {
    match ForeignParts(f, defaultSchema)
    case Err(e) => Err(e)
    case Ok(parts) =>
      Ok(Query(Step.AlterTableAdd, "ALTER TABLE " + TableRef(s, t) + " ADD CONSTRAINT " + Join(" ", parts),
               Some(Label(s, t)), Some("creating foreign key"), f.name))
  }

  function RemoveForeignQuery(s: Schema, t: Table, f: Foreign): Query {
    Query(Step.AlterTableDrop, "ALTER TABLE " + TableRef(s, t) + " DROP CONSTRAINT " + Quote(f.name.GetOr("")),
          Some(Label(s, t)), Some("removing foreign key"), f.name)
  }

  function UniquesQueries(s: Schema, t: Table, us: seq<Unique>): (r: seq<Query>)
    ensures |r| == |us| && forall i :: 0 <= i < |us| ==> r[i] == CreateUniqueQuery(s, t, us[i])
    decreases |us|
  {
    if us == [] then [] else UniquesQueries(s, t, us[..|us| - 1]) + [CreateUniqueQuery(s, t, us[|us| - 1])]
  }

  function IndexesQueries(s: Schema, t: Table, ixs: seq<Index>): (r: seq<Query>)
    ensures |r| == |ixs| && forall i :: 0 <= i < |ixs| ==> r[i] == CreateIndexQuery(s, t, ixs[i])
    decreases |ixs|
  {
    if ixs == [] then [] else IndexesQueries(s, t, ixs[..|ixs| - 1]) + [CreateIndexQuery(s, t, ixs[|ixs| - 1])]
  }

  function ForeignsQueries(s: Schema, t: Table, fs: seq<Foreign>, defaultSchema: Option<string>): (r: Result<seq<Query>, ProcessError>)
    ensures r.Ok? <==> forall i :: 0 <= i < |fs| ==> CreateForeignQuery(s, t, fs[i], defaultSchema).Ok?
    ensures r.Ok? ==> |r.value| == |fs| && forall i :: 0 <= i < |fs| ==> r.value[i] == CreateForeignQuery(s, t, fs[i], defaultSchema).value
    decreases |fs|
  {
    if fs == [] then Ok([])
    else
      match ForeignsQueries(s, t, fs[..|fs| - 1], defaultSchema)
      case Err(e) => Err(e)
      case Ok(qs) =>
        match CreateForeignQuery(s, t, fs[|fs| - 1], defaultSchema)
        case Err(e) => Err(e)
        case Ok(q) => Ok(qs + [q])
  }

  function CreateTableSql(s: Schema, defs: seq<string>, pk: string, t: Table): string {
    Join(" ", ["CREATE TABLE " + TableRef(s, t) + " (", Join(", ", defs + [pk]), ") ENGINE = InnoDB COLLATE = " + Collation])
  }

  /**
   * `createTable`: what rendering the columns queued, the CREATE TABLE itself, then one query
   * per unique key, index and foreign key.
   */
  function CreateTableQueries(s: Schema, t: Table, defaultSchema: Option<string>): (r: Result<seq<Query>, ProcessError>)
  {
    match ColumnDefs(s, t, ValuesOf(t.columns))
    case Err(e) => Err(e)
    case Ok(defs) =>
      match PrimarySql(t.primaryKey)
      case Err(e) => Err(e)
      case Ok(pk) =>
        match ForeignsQueries(s, t, ValuesOf(t.foreignKeys), defaultSchema)
        case Err(e) => Err(e)
        case Ok(fqs) =>
          Ok(defs.1
             + [Query(Step.CreateTable, CreateTableSql(s, defs.0, pk, t), Some(Label(s, t)), Some("creating table"), None)]
             + UniquesQueries(s, t, ValuesOf(t.uniqueKeys))
             + IndexesQueries(s, t, ValuesOf(t.indexes))
             + fqs)
  }

  function RemoveTableQueries(s: Schema, t: Table): seq<Query> {
    [Query(Step.DropTable, "DROP TABLE " + TableRef(s, t), Some(Label(s, t)), Some("removing"), None)]
  }

  function UpdatePrimaryQueries(s: Schema, t: Table): Result<seq<Query>, ProcessError> {
    match PrimarySql(t.primaryKey)
    case Err(e) => Err(e)
    case Ok(pk) =>
      Ok([Query(Step.AlterTable, "ALTER TABLE " + TableRef(s, t) + " DROP PRIMARY KEY, ADD " + pk,
                Some(Label(s, t)), Some("updating primary key"), None)])
  }

  /** `createColumn`: what rendering queued, then the ADD COLUMN. */
  function CreateColumnQueries(s: Schema, t: Table, c: Column): (r: Result<seq<Query>, ProcessError>)
  {
    match ColumnParts(c)
    case Err(e) => Err(e)
    case Ok(parts) =>
      Ok(ColumnQueries(s, t, c)
         + [Query(Step.AlterTable, "ALTER TABLE " + TableRef(s, t) + " ADD COLUMN " + Join(" ", parts),
                  Some(Label(s, t)), Some("creating column"), Some(c.name))])
  }

  function RemoveColumnQuery(s: Schema, t: Table, c: Column): Query {
    Query(Step.AlterTableDrop, "ALTER TABLE " + TableRef(s, t) + " DROP COLUMN " + Quote(c.name),
          Some(Label(s, t)), Some("removing column"), Some(c.name))
  }

  /** `updateColumn`: what rendering queued, then the CHANGE COLUMN with the full definition. */
  function UpdateColumnQueries(s: Schema, t: Table, c: Column): (r: Result<seq<Query>, ProcessError>)
  {
    match ColumnParts(c)
    case Err(e) => Err(e)
    case Ok(parts) =>
      Ok(ColumnQueries(s, t, c)
         + [Query(Step.AlterTable, "ALTER TABLE " + TableRef(s, t) + " CHANGE COLUMN " + Quote(c.name) + " " + Join(" ", parts),
                  Some(Label(s, t)), Some("updating column"), Some(c.name))])
  }

  function UpdateUniqueQueries(s: Schema, t: Table, u: Unique): seq<Query> {
    [RemoveUniqueQuery(s, t, u), CreateUniqueQuery(s, t, u)]
  }

  function UpdateForeignQueries(s: Schema, t: Table, f: Foreign, defaultSchema: Option<string>): Result<seq<Query>, ProcessError> {
    match CreateForeignQuery(s, t, f, defaultSchema)
    case Err(e) => Err(e)
    case Ok(q) => Ok([RemoveForeignQuery(s, t, f), q])
  }

  /** `updateIndex`: the drop goes to `dropIndex`, the last step, the create to `createIndex`. */
  function UpdateIndexQueries(s: Schema, t: Table, ix: Index): seq<Query> {
    [RemoveIndexQuery(s, t, ix), CreateIndexQuery(s, t, ix)]
  }

  /** `updateIndex` with the drop queued in `alterTable`, a step that runs before `createIndex` (the intended plan). */
  function UpdateIndexQueriesDropFirst(s: Schema, t: Table, ix: Index): seq<Query> {
    [RemoveIndexQuery(s, t, ix).(step := Step.AlterTable), CreateIndexQuery(s, t, ix)]
  }
}
