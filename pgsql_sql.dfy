/**
 * What `PgsqlProcessor` renders and queues: the SQL fragments (`column`, `alterColumn`,
 * `primary`, `unique`, `foreign`, `getType`, `getDefault`) and, for every create, remove
 * and update operation, the queries it hands to `addQuery`, in the order it does so.
 */
module PgsqlSql {
  import opened Wrappers
  import opened OrderedMaps
  import opened PhpStrings
  import opened Config
  import opened Queries

  /** The processor's step lists, in the order `process` runs them. */
  const StepOrder: seq<Step> := [
    Step.CreateSchema, Step.DropSequence, Step.CreateSequence, Step.CreateTable, Step.AlterTable, Step.AlterSequence,
    Step.CreateIndex, Step.AlterTableDrop, Step.AlterTableAdd, Step.DropSchema, Step.DropTable, Step.DropIndex]

  /** No step appears twice, so every query has exactly one list. */
  lemma StepsDistinct()
    ensures DistinctSteps(StepOrder)
  {
  }

  const DefaultSchema: string := "public"

  function Quote(n: string): string { "\"" + n + "\"" }

  function QuotedList(names: seq<string>): (r: string)
    ensures |names| == 0 ==> r == ""
  {
    Join(", ", seq(|names|, i requires 0 <= i < |names| => Quote(names[i])))
  }

  /** `"$schema->name.$table->name"`, the label of most queries. */
  function Label(s: Schema, t: Table): string { s.name + "." + t.name }

  function TableRef(s: Schema, t: Table): string { Quote(s.name) + "." + Quote(t.name) }

  // ---------------------------------------------------------------------------------------
  // Fragments.

  /** `getType`; a type outside the eight raises `UnhandledMatchError`. */
  function GetType(typ: string): (r: Result<string, ProcessError>)
    ensures r.Ok? <==> IsColumnType(typ)
    ensures r.Err? ==> r.error == UnhandledMatch(typ)
  {
    match typ
    case "bool" => Ok("bool")
    case "int" => Ok("int4")
    case "bigint" => Ok("int8")
    case "string" => Ok("varchar")
    case "text" => Ok("text")
    case "datetime" => Ok("timestamp")
    case "float" => Ok("numeric")
    case "fulltext" => Ok("tsvector")
    case _ => Err(UnhandledMatch(typ))
  }

  /** Distinct column types get distinct PostgreSQL types. */
  lemma GetTypeInjective(a: string, b: string)
    requires GetType(a).Ok? && GetType(b).Ok? && GetType(a) == GetType(b)
    ensures a == b
  {
  }

  /**
   * `getDefault`: the string `now` becomes `now()`, a boolean default of a bool column
   * `true`/`false`, a string or text default is quoted, and other values are written as
   * PHP writes them; float and fulltext columns have no arm.
   */
  function GetDefault(v: Value, typ: string): (r: Result<string, ProcessError>)
    ensures v == VStr("now") ==> r == Ok("now()")
    ensures v != VStr("now") && (typ == "string" || typ == "text") ==> r == Ok("'" + StrOf(v) + "'")
    ensures v != VStr("now") && typ == "bool" && v.VBool? ==> r == Ok(if v.b then "true" else "false")
    ensures v != VStr("now") ==> (r.Ok? <==> typ in ["bool", "int", "bigint", "string", "text", "datetime"])
  {
    if v == VStr("now") then Ok("now()")
    else
      match typ
      case "bool" => Ok(match v case VBool(b) => if b then "true" else "false" case _ => StrOf(v))
      case "int" => Ok(StrOf(v))
      case "bigint" => Ok(StrOf(v))
      case "string" => Ok("'" + StrOf(v) + "'")
      case "text" => Ok("'" + StrOf(v) + "'")
      case "datetime" => Ok(StrOf(v))
      case _ => Err(UnhandledMatch(typ))
  }

  function SequenceName(t: Table): string { t.name + "_id_seq" }

  function NextvalDefault(t: Table): string { "DEFAULT nextval('" + SequenceName(t) + "'::regclass)" }

  /** The parts `column` joins with spaces. */
  function ColumnParts(t: Table, c: Column): (r: Result<seq<string>, ProcessError>)
    ensures r.Ok? <==> GetType(c.typ).Ok? && (c.default != VNull ==> GetDefault(c.default, c.typ).Ok?)
    ensures r.Ok? ==> |r.value| == 2 + (if c.nullable then 0 else 1) + (if c.default == VNull then 0 else 1) + (if c.auto then 1 else 0)
    ensures r.Ok? ==> r.value[0] == Quote(c.name) && r.value[1] == GetType(c.typ).value
    ensures r.Ok? ==> ("NOT NULL" in r.value <==> !c.nullable)
    ensures r.Ok? && c.default != VNull ==> "DEFAULT " + GetDefault(c.default, c.typ).value in r.value
    ensures r.Ok? && c.auto ==> r.value[|r.value| - 1] == NextvalDefault(t)
  {
    match GetType(c.typ)
    case Err(e) => Err(e)
    case Ok(typ) =>
      var nul := if !c.nullable then ["NOT NULL"] else [];
      if c.default != VNull && GetDefault(c.default, c.typ).Err? then Err(GetDefault(c.default, c.typ).error)
      else
        var def := if c.default != VNull then ["DEFAULT " + GetDefault(c.default, c.typ).value] else [];
        var auto := if c.auto then [NextvalDefault(t)] else [];
        var r := [Quote(c.name), typ] + nul + def + auto;
        assert Quote(c.name)[0] != "NOT NULL"[0];
        assert typ != "NOT NULL";
        assert def != [] ==> def[0][0] != "NOT NULL"[0];
        assert c.auto ==> NextvalDefault(t)[0] != "NOT NULL"[0];
        assert "NOT NULL" in r ==> "NOT NULL" in nul;
        Ok(r)
  }

  /** The clauses `alterColumn` joins with commas. */
  function AlterColumnParts(t: Table, c: Column): (r: Result<seq<string>, ProcessError>)
    ensures r.Ok? <==> GetType(c.typ).Ok? && (c.default != VNull ==> GetDefault(c.default, c.typ).Ok?)
    ensures r.Ok? ==> |r.value| == (if c.auto then 4 else 3)
    ensures r.Ok? ==> r.value[0] == "ALTER COLUMN " + Quote(c.name) + " TYPE " + GetType(c.typ).value
    ensures r.Ok? ==> r.value[1] == "ALTER COLUMN " + Quote(c.name) + (if c.nullable then " DROP NOT NULL" else " SET NOT NULL")
    ensures r.Ok? ==>
              r.value[2] == "ALTER COLUMN " + Quote(c.name) +
                (if c.default == VNull then " DROP DEFAULT" else " SET DEFAULT " + GetDefault(c.default, c.typ).value)
    ensures r.Ok? && c.auto ==> r.value[3] == "ALTER COLUMN " + Quote(c.name) + " SET " + NextvalDefault(t)
  {
    match GetType(c.typ)
    case Err(e) => Err(e)
    case Ok(typ) =>
      var col := "ALTER COLUMN " + Quote(c.name);
      if c.default != VNull && GetDefault(c.default, c.typ).Err? then Err(GetDefault(c.default, c.typ).error)
      else
        var nul := if !c.nullable then col + " SET NOT NULL" else col + " DROP NOT NULL";
        var def := if c.default != VNull then col + " SET DEFAULT " + GetDefault(c.default, c.typ).value
                   else col + " DROP DEFAULT";
        var parts := [col + " TYPE " + typ, nul, def];
        if c.auto then Ok(parts + [col + " SET " + NextvalDefault(t)]) else Ok(parts)
  }

  /** `primary`; a table without a primary key passes null, which PHP refuses. */
  function PrimarySql(pk: Option<Primary>): (r: Result<string, ProcessError>)
    ensures r.Ok? <==> pk.Some?
    ensures r.Ok? ==> r.value == "PRIMARY KEY (" + QuotedList(pk.value.columns) + ")"
  {
    match pk
    case None => Err(NullArgument("primaryKey"))
    case Some(p) => Ok("PRIMARY KEY (" + QuotedList(p.columns) + ")")
  }

  function UniqueSql(u: Unique): string { "UNIQUE (" + QuotedList(u.columns) + ")" }

  /** `$foreignKey->schema ?: $this->defaultSchema`. */
  function ForeignSchema(f: Foreign): (r: string)
    ensures f.schema.Some? && Truthy(f.schema.value) ==> r == f.schema.value
    ensures !(f.schema.Some? && Truthy(f.schema.value)) ==> r == DefaultSchema
  {
    if f.schema.Some? && Truthy(f.schema.value) then f.schema.value else DefaultSchema
  }

  /** The parts `foreign` joins with spaces: ON DELETE comes before ON UPDATE. */
  function ForeignParts(f: Foreign): (r: seq<string>)
    ensures |r| == 5
    ensures r[3] == "ON DELETE " + Upper(f.onDelete) && r[4] == "ON UPDATE " + Upper(f.onUpdate)
  {
    [Quote(f.name.GetOr("")),
     "FOREIGN KEY (" + Quote(f.keyColumn) + ")",
     "REFERENCES " + Quote(ForeignSchema(f)) + "." + Quote(f.table) + " (" + Quote(f.column) + ")",
     "ON DELETE " + Upper(f.onDelete),
     "ON UPDATE " + Upper(f.onUpdate)]
  }

  // ---------------------------------------------------------------------------------------
  // Queries of each operation.

  function DropSequenceQuery(t: Table): Query {
    Query(Step.DropSequence, "DROP SEQUENCE IF EXISTS " + Quote(SequenceName(t)) + " CASCADE", None, None, None)
  }

  function CreateSequenceQuery(t: Table): Query {
    Query(Step.CreateSequence, "CREATE SEQUENCE " + Quote(SequenceName(t)), None, None, None)
  }

  /** `createSequence` drops the sequence first. */
  function CreateSequenceQueries(t: Table): seq<Query> {
    [DropSequenceQuery(t), CreateSequenceQuery(t)]
  }

  function AlterSequenceQuery(t: Table, c: Column): Query {
    Query(Step.AlterSequence, "ALTER SEQUENCE " + Quote(SequenceName(t)) + " OWNED BY " + Quote(t.name) + "." + Quote(c.name),
          None, None, None)
  }

  /** What `column` queues on the way: the sequence of an auto-increment column. */
  function ColumnQueries(t: Table, c: Column): seq<Query> {
    if c.auto then CreateSequenceQueries(t) + [AlterSequenceQuery(t, c)] else []
  }

  function CreateSchemaQuery(sc: Schema): Query {
    Query(Step.CreateSchema, "CREATE SCHEMA IF NOT EXISTS " + Quote(sc.name), Some("creating schema"), Some(sc.name), None)
  }

  function RemoveSchemaQuery(sc: Schema): Query {
    Query(Step.DropSchema, "DROP SCHEMA IF EXISTS " + Quote(sc.name) + ";", Some("removing schema"), Some(sc.name), None)
  }

  /** The column definitions of `createTable`, each with what rendering it queued. */
  function ColumnDefs(t: Table, cols: seq<Column>): (r: Result<(seq<string>, seq<Query>), ProcessError>)
    ensures r.Ok? <==> forall i :: 0 <= i < |cols| ==> ColumnParts(t, cols[i]).Ok?
    ensures r.Ok? ==> |r.value.0| == |cols| && forall q :: q in r.value.1 ==> q.step in [Step.DropSequence, Step.CreateSequence, Step.AlterSequence]
    decreases |cols|
  {
    if cols == [] then Ok(([], []))
    else
      var c := cols[|cols| - 1];
      PartsSnoc(t, cols, cols[..|cols| - 1]);
      match ColumnDefs(t, cols[..|cols| - 1])
      case Err(e) => Err(e)
      case Ok(acc) =>
        match ColumnParts(t, c)
        case Err(e) => Err(e)
        case Ok(parts) =>
          SequenceSteps(acc.1, t, c);
          Ok((acc.0 + [Join(" ", parts)], acc.1 + ColumnQueries(t, c)))
  }

  /** Every column renders exactly when those before the last do and the last one does. */
  lemma PartsSnoc(t: Table, cols: seq<Column>, init: seq<Column>)
    requires |cols| > 0 && init == cols[..|cols| - 1]
    ensures (forall i :: 0 <= i < |cols| ==> ColumnParts(t, cols[i]).Ok?) <==>
              (forall i :: 0 <= i < |init| ==> ColumnParts(t, init[i]).Ok?) && ColumnParts(t, cols[|cols| - 1]).Ok?
  {
    assert forall i :: 0 <= i < |init| ==> init[i] == cols[i];
  }

  /** A column's queries all belong to the three sequence steps. */
  lemma SequenceSteps(qs: seq<Query>, t: Table, c: Column)
    requires forall q :: q in qs ==> q.step in [Step.DropSequence, Step.CreateSequence, Step.AlterSequence]
    ensures forall q :: q in qs + ColumnQueries(t, c) ==> q.step in [Step.DropSequence, Step.CreateSequence, Step.AlterSequence]
  {
  }

  function CreateUniqueQuery(s: Schema, t: Table, u: Unique): Query {
    Query(Step.AlterTableAdd, "ALTER TABLE " + TableRef(s, t) + " ADD CONSTRAINT " + Quote(u.name) + " " + UniqueSql(u),
          Some(Label(s, t)), Some("creating unique key"), Some(u.name))
  }

  function RemoveUniqueQuery(s: Schema, t: Table, u: Unique): Query {
    Query(Step.AlterTableDrop, "ALTER TABLE " + TableRef(s, t) + " DROP CONSTRAINT " + Quote(u.name),
          Some(Label(s, t)), Some("removing unique key"), Some(u.name))
  }

  /** `$index->name` as the query's item: null stays null. */
  function IndexItem(ix: Index): Option<string> {
    if ix.name.NoName? then None else Some(NameKey(ix.name))
  }

  function CreateIndexQuery(s: Schema, t: Table, ix: Index): Query {
    Query(Step.CreateIndex,
          "CREATE INDEX " + Quote(NameKey(ix.name)) + " ON " + TableRef(s, t) + " (" + QuotedList(ix.columns) + ")",
          Some(Label(s, t)), Some("creating index"), IndexItem(ix))
  }

  function RemoveIndexQuery(s: Schema, t: Table, ix: Index): Query {
    Query(Step.DropIndex, "DROP INDEX " + Quote(s.name) + "." + Quote(NameKey(ix.name)),
          Some(Label(s, t)), Some("removing index"), IndexItem(ix))
  }

  function CreateForeignQuery(s: Schema, t: Table, f: Foreign): Query {
    Query(Step.AlterTableAdd, "ALTER TABLE " + TableRef(s, t) + " ADD CONSTRAINT " + Join(" ", ForeignParts(f)),
          Some(Label(s, t)), Some("creating foreign key"), f.name)
  }

  function RemoveForeignQuery(s: Schema, t: Table, f: Foreign): Query {
    Query(Step.AlterTableDrop, "ALTER TABLE " + TableRef(s, t) + " DROP CONSTRAINT " + Quote(f.name.GetOr("")),
          Some(Label(s, t)), Some("removing foreign key"), f.name)
  }

  function UniquesQueries(s: Schema, t: Table, us: seq<Unique>): (r: seq<Query>)
    ensures |r| == |us| && forall i :: 0 <= i < |us| ==> r[i] == CreateUniqueQuery(s, t, us[i])
    decreases |us|
  {
    if us == [] then [] else UniquesQueries(s, t, us[..|us| - 1]) + [CreateUniqueQuery(s, t, us[|us| - 1])]
  }

  function IndexesQueries(s: Schema, t: Table, ixs: seq<Index>): (r: seq<Query>)
    ensures |r| == |ixs| && forall i :: 0 <= i < |ixs| ==> r[i] == CreateIndexQuery(s, t, ixs[i])
    decreases |ixs|
  {
    if ixs == [] then [] else IndexesQueries(s, t, ixs[..|ixs| - 1]) + [CreateIndexQuery(s, t, ixs[|ixs| - 1])]
  }

  function ForeignsQueries(s: Schema, t: Table, fs: seq<Foreign>): (r: seq<Query>)
    ensures |r| == |fs| && forall i :: 0 <= i < |fs| ==> r[i] == CreateForeignQuery(s, t, fs[i])
    decreases |fs|
  {
    if fs == [] then [] else ForeignsQueries(s, t, fs[..|fs| - 1]) + [CreateForeignQuery(s, t, fs[|fs| - 1])]
  }

  function CreateTableSql(s: Schema, defs: seq<string>, pk: string, t: Table): string {
    Join(" ", ["CREATE TABLE " + TableRef(s, t) + " (", Join(", ", defs + [pk]), ")"])
  }

  /**
   * `createTable`: what rendering the columns queued, the CREATE TABLE itself, then one query
   * per unique key, index and foreign key.
   */
  function CreateTableQueries(s: Schema, t: Table): (r: Result<seq<Query>, ProcessError>)
  {
    match ColumnDefs(t, ValuesOf(t.columns))
    case Err(e) => Err(e)
    case Ok(defs) =>
      match PrimarySql(t.primaryKey)
      case Err(e) => Err(e)
      case Ok(pk) =>
        Ok(defs.1
           + [Query(Step.CreateTable, CreateTableSql(s, defs.0, pk, t), Some(Label(s, t)), Some("creating table"), None)]
           + UniquesQueries(s, t, ValuesOf(t.uniqueKeys))
           + IndexesQueries(s, t, ValuesOf(t.indexes))
           + ForeignsQueries(s, t, ValuesOf(t.foreignKeys)))
  }

  /** `removeTable`: the table, then its sequence. */
  function RemoveTableQueries(s: Schema, t: Table): seq<Query> {
    [Query(Step.DropTable, "DROP TABLE IF EXISTS " + TableRef(s, t) + " CASCADE", Some(Label(s, t)), Some("removing"), None),
     DropSequenceQuery(t)]
  }

  function UpdatePrimaryQueries(s: Schema, t: Table): Result<seq<Query>, ProcessError> {
    match PrimarySql(t.primaryKey)
    case Err(e) => Err(e)
    case Ok(pk) =>
      Ok([Query(Step.AlterTable, "ALTER TABLE " + TableRef(s, t) + " DROP CONSTRAINT \"" + t.name + "_pkey\", ADD " + pk,
                Some(Label(s, t)), Some("updating primary key"), None)])
  }

  function CreateFulltextQuery(s: Schema, t: Table, c: Column): Query {
    Query(Step.CreateIndex, "CREATE INDEX ON " + TableRef(s, t) + " USING gin(" + Quote(c.name) + ")",
          Some(Label(s, t)), Some("creating fulltext"), Some(c.name))
  }

  function AddColumnQuery(s: Schema, t: Table, c: Column, def: string): Query {
    Query(Step.AlterTable, "ALTER TABLE " + TableRef(s, t) + " ADD COLUMN " + def, Some(Label(s, t)), Some("creating column"), Some(c.name))
  }

  function FulltextQueries(s: Schema, t: Table, c: Column): seq<Query> {
    if c.typ == "fulltext" then [CreateFulltextQuery(s, t, c)] else []
  }

  /**
   * `createColumn`: the full-text index, the sequence of an auto-increment column, what
   * rendering queued (which for an auto-increment column is the sequence once more), then
   * the ADD COLUMN.
   */
  function CreateColumnQueries(s: Schema, t: Table, c: Column): Result<seq<Query>, ProcessError> {
    match ColumnParts(t, c)
    case Err(e) => Err(e)
    case Ok(parts) =>
      Ok(FulltextQueries(s, t, c)
         + (if c.auto then CreateSequenceQueries(t) + [AlterSequenceQuery(t, c)] else [])
         + ColumnQueries(t, c)
         + [AddColumnQuery(s, t, c, Join(" ", parts))])
  }

  /** `createColumn` with the sequence created once, by `column` (the intended plan). */
  function CreateColumnQueriesSequenceOnce(s: Schema, t: Table, c: Column): Result<seq<Query>, ProcessError> {
    match ColumnParts(t, c)
    case Err(e) => Err(e)
    case Ok(parts) =>
      Ok(FulltextQueries(s, t, c) + ColumnQueries(t, c) + [AddColumnQuery(s, t, c, Join(" ", parts))])
  }

  function RemoveColumnQuery(s: Schema, t: Table, c: Column): Query {
    Query(Step.AlterTableDrop, "ALTER TABLE " + TableRef(s, t) + " DROP COLUMN " + Quote(c.name),
          Some(Label(s, t)), Some("removing column"), Some(c.name))
  }

  /** `updateColumn`: the sequence of an auto-increment column, then the ALTER TABLE. */
  function UpdateColumnQueries(s: Schema, t: Table, c: Column): (r: Result<seq<Query>, ProcessError>)
  {
    match AlterColumnParts(t, c)
    case Err(e) => Err(e)
    case Ok(parts) =>
      Ok((if c.auto then CreateSequenceQueries(t) + [AlterSequenceQuery(t, c)] else [])
         + [Query(Step.AlterTable, "ALTER TABLE " + TableRef(s, t) + " " + Join(", ", parts),
                  Some(Label(s, t)), Some("updating column"), Some(c.name))])
  }

  /** `updateUnique`: drop the constraint, then add it again. */
  function UpdateUniqueQueries(s: Schema, t: Table, u: Unique): seq<Query> {
    [RemoveUniqueQuery(s, t, u), CreateUniqueQuery(s, t, u)]
  }

  /** `updateForeign`: drop the constraint, then add it again. */
  function UpdateForeignQueries(s: Schema, t: Table, f: Foreign): seq<Query> {
    [RemoveForeignQuery(s, t, f), CreateForeignQuery(s, t, f)]
  }

  /** `updateIndex`: the drop goes to `dropIndex`, the last step, the create to `createIndex`. */
  function UpdateIndexQueries(s: Schema, t: Table, ix: Index): seq<Query> {
    [RemoveIndexQuery(s, t, ix), CreateIndexQuery(s, t, ix)]
  }

  /** `updateIndex` with the drop queued in `alterTable`, a step that runs before `createIndex` (the intended plan). */
  function UpdateIndexQueriesDropFirst(s: Schema, t: Table, ix: Index): seq<Query> {
    [RemoveIndexQuery(s, t, ix).(step := Step.AlterTable), CreateIndexQuery(s, t, ix)]
  }
}
