/**
 * The plan the PostgreSQL processor's `prepare` builds from a change set: `processType`
 * walks the schemas of one operation, `processSchema` the tables of one schema,
 * `processTable` one table entry, and the `process*` methods send each element to its
 * create, remove or update operation. The queries are the ones the operations of
 * `PgsqlSql` queue, in the order they are queued.
 */
module PgsqlPlan {
  import opened Wrappers
  import opened OrderedMaps
  import opened Config
  import opened ChangeSets
  import opened Queries
  import opened Elements
  import opened PgsqlSql
  import Comparator

  /** `processSchema` with 'all': create or drop the schema; 'update' throws. */
  function SchemaAllQueries(op: Op, sc: Schema): (r: Result<seq<Query>, ProcessError>)
    ensures r.Err? <==> op == Update
    ensures r.Err? ==> r.error == UpdateWithAllSchema(sc.name)
    ensures r.Ok? ==> |r.value| == 1 && r.value[0].step == (if op == Create then Step.CreateSchema else Step.DropSchema)
  {
    match op
    case Create => Ok([CreateSchemaQuery(sc)])
    case Remove => Ok([RemoveSchemaQuery(sc)])
    case Update => Err(UpdateWithAllSchema(sc.name))
  }

  /** `processTable` with 'all': create or drop the table; 'update' throws. */
  function TableAllQueries(op: Op, s: Schema, t: Table): (r: Result<seq<Query>, ProcessError>)
    ensures op == Update ==> r == Err(UpdateWithAllTable(s.name, t.name))
    ensures op == Remove ==> r.Ok? && exists q :: q in r.value && q.step == Step.DropTable
  {
    match op
    case Create => CreateTableQueries(s, t)
    case Remove =>
      var qs := RemoveTableQueries(s, t);
      assert qs[0] in qs;
      Ok(qs)
    case Update => Err(UpdateWithAllTable(s.name, t.name))
  }

  /** `processTable` with 'primaryKey': only an update is allowed. */
  function PrimaryQueries(op: Op, s: Schema, t: Table): (r: Result<seq<Query>, ProcessError>)
    ensures op == Create ==> r == Err(CreateWithPrimaryKey(t.name))
    ensures op == Remove ==> r == Err(RemoveWithPrimaryKey(t.name))
    ensures op == Update ==> (r.Ok? <==> t.primaryKey.Some?)
    ensures r.Ok? ==> |r.value| == 1 && r.value[0].step == Step.AlterTable
  {
    match op
    case Create => Err(CreateWithPrimaryKey(t.name))
    case Remove => Err(RemoveWithPrimaryKey(t.name))
    case Update => UpdatePrimaryQueries(s, t)
  }

  /** `processColumn`: create, remove or update the column. */
  function ColumnChangeQueries(op: Op, s: Schema, t: Table, c: Column): (r: Result<seq<Query>, ProcessError>)
    ensures op == Create ==> (r.Ok? <==> ColumnParts(t, c).Ok?)
    ensures op == Create && r.Ok? ==> |r.value| > 0 && r.value[|r.value| - 1].step == Step.AlterTable
    ensures op == Update ==> (r.Ok? <==> AlterColumnParts(t, c).Ok?)
    ensures op == Update && r.Ok? ==> |r.value| > 0 && r.value[|r.value| - 1].step == Step.AlterTable
    ensures op == Remove ==> r.Ok? && |r.value| == 1 && r.value[0].step == Step.AlterTableDrop
  {
    match op
    case Create => CreateColumnQueries(s, t, c)
    case Remove => Ok([RemoveColumnQuery(s, t, c)])
    case Update => UpdateColumnQueries(s, t, c)
  }

  /** `processForeignKey`: an update drops the constraint and adds it again. */
  function ForeignChangeQueries(op: Op, s: Schema, t: Table, f: Foreign): (r: seq<Query>)
    ensures op == Remove ==> |r| == 1 && r[0].step == Step.AlterTableDrop
    ensures op == Update ==> |r| == 2 && r[0].step == Step.AlterTableDrop && r[1].step == Step.AlterTableAdd
  {
    match op
    case Create => [CreateForeignQuery(s, t, f)]
    case Remove => [RemoveForeignQuery(s, t, f)]
    case Update => UpdateForeignQueries(s, t, f)
  }

  /**
   * `processIndex`: an update drops the index and creates it again; the drop is queued in
   * `dropIndex`, which runs after `createIndex`.
   */
  function IndexChangeQueries(op: Op, s: Schema, t: Table, ix: Index): (r: seq<Query>)
    ensures op != Update ==> |r| == 1
    ensures op == Create ==> r[0].step == Step.CreateIndex
    ensures op == Remove ==> r[0].step == Step.DropIndex
    ensures op == Update ==> |r| == 2 && r[0].step == Step.DropIndex && r[1].step == Step.CreateIndex
  {
    match op
    case Create => [CreateIndexQuery(s, t, ix)]
    case Remove => [RemoveIndexQuery(s, t, ix)]
    case Update => UpdateIndexQueries(s, t, ix)
  }

  /** `processUniqueKey`: an update drops the constraint and adds it again. */
  function UniqueChangeQueries(op: Op, s: Schema, t: Table, u: Unique): (r: seq<Query>)
    ensures op == Update ==> |r| == 2 && r[0].step == Step.AlterTableDrop && r[1].step == Step.AlterTableAdd
  {
    match op
    case Create => [CreateUniqueQuery(s, t, u)]
    case Remove => [RemoveUniqueQuery(s, t, u)]
    case Update => UpdateUniqueQueries(s, t, u)
  }

  /** One name of the columns list: `processColumn` on what the name refers to. */
  function ColumnNameQueries(op: Op, current: Definition, s: Schema, t: Table, n: string)
    : (r: Result<seq<Query>, ProcessError>)
    ensures FindColumn(current, s, t, n).None? ==> r == Err(NullArgument("column"))
  {
    match FindColumn(current, s, t, n)
    case None => Err(NullArgument("column"))
    case Some(c) => ColumnChangeQueries(op, s, t, c)
  }

  function EachColumn(op: Op, current: Definition, s: Schema, t: Table): string -> Result<seq<Query>, ProcessError> {
    (n: string) => ColumnNameQueries(op, current, s, t, n)
  }

  /** The columns loop of `processTable`: each name in order; the first failure stops it. */
  function ColumnNamesQueries(op: Op, current: Definition, s: Schema, t: Table, names: seq<string>)
    : Result<seq<Query>, ProcessError>
  {
    ConcatResults(names, EachColumn(op, current, s, t))
  }

  /** One name of the foreignKeys list: `processForeignKey` on what the name refers to. */
  function ForeignNameQueries(op: Op, current: Definition, s: Schema, t: Table, n: string)
    : (r: Result<seq<Query>, ProcessError>)
    ensures FindForeign(current, s, t, n).None? ==> r == Err(NullArgument("foreignKey"))
  {
    match FindForeign(current, s, t, n)
    case None => Err(NullArgument("foreignKey"))
    case Some(f) => Ok(ForeignChangeQueries(op, s, t, f))
  }

  function EachForeign(op: Op, current: Definition, s: Schema, t: Table): string -> Result<seq<Query>, ProcessError> {
    (n: string) => ForeignNameQueries(op, current, s, t, n)
  }

  /** The foreignKeys loop of `processTable`: each name in order; the first failure stops it. */
  function ForeignNamesQueries(op: Op, current: Definition, s: Schema, t: Table, names: seq<string>)
    : Result<seq<Query>, ProcessError>
  {
    ConcatResults(names, EachForeign(op, current, s, t))
  }

  /** One name of the indexes list: `processIndex` on what the name refers to. */
  function IndexNameQueries(op: Op, current: Definition, s: Schema, t: Table, n: string)
    : (r: Result<seq<Query>, ProcessError>)
    ensures FindIndex(current, s, t, n).None? ==> r == Err(NullArgument("index"))
  {
    match FindIndex(current, s, t, n)
    case None => Err(NullArgument("index"))
    case Some(ix) => Ok(IndexChangeQueries(op, s, t, ix))
  }

  function EachIndex(op: Op, current: Definition, s: Schema, t: Table): string -> Result<seq<Query>, ProcessError> {
    (n: string) => IndexNameQueries(op, current, s, t, n)
  }

  /** The indexes loop of `processTable`: each name in order; the first failure stops it. */
  function IndexNamesQueries(op: Op, current: Definition, s: Schema, t: Table, names: seq<string>)
    : Result<seq<Query>, ProcessError>
  {
    ConcatResults(names, EachIndex(op, current, s, t))
  }

  /** One name of the uniqueKeys list: `processUniqueKey` on what the name refers to. */
  function UniqueNameQueries(op: Op, current: Definition, s: Schema, t: Table, n: string)
    : (r: Result<seq<Query>, ProcessError>)
    ensures FindUnique(current, s, t, n).None? ==> r == Err(NullArgument("uniqueKey"))
  {
    match FindUnique(current, s, t, n)
    case None => Err(NullArgument("uniqueKey"))
    case Some(u) => Ok(UniqueChangeQueries(op, s, t, u))
  }

  function EachUnique(op: Op, current: Definition, s: Schema, t: Table): string -> Result<seq<Query>, ProcessError> {
    (n: string) => UniqueNameQueries(op, current, s, t, n)
  }

  /** The uniqueKeys loop of `processTable`: each name in order; the first failure stops it. */
  function UniqueNamesQueries(op: Op, current: Definition, s: Schema, t: Table, names: seq<string>)
    : Result<seq<Query>, ProcessError>
  {
    ConcatResults(names, EachUnique(op, current, s, t))
  }

  /**
   * `processTable`: 'all' first, then 'primaryKey', which returns early, then the columns,
   * foreign keys, indexes and unique keys of the entry, in that order.
   */
  function TableQueries(op: Op, current: Definition, s: Schema, t: Table, tc: TableChange)
    : (r: Result<seq<Query>, ProcessError>)
  {
    if tc.all then TableAllQueries(op, s, t)
    else if tc.primaryKey then PrimaryQueries(op, s, t)
    else
      match ColumnNamesQueries(op, current, s, t, tc.columns)
      case Err(x) => Err(x)
      case Ok(a) =>
        match ForeignNamesQueries(op, current, s, t, tc.foreignKeys)
        case Err(x) => Err(x)
        case Ok(b) =>
          match IndexNamesQueries(op, current, s, t, tc.indexes)
          case Err(x) => Err(x)
          case Ok(c) =>
            match UniqueNamesQueries(op, current, s, t, tc.uniqueKeys)
            case Err(x) => Err(x)
            case Ok(e) => Ok(a + b + c + e)
  }

  /** One table entry of `processSchema`. */
  function TableEntryQueries(op: Op, current: Definition, sc: Schema, entry: (string, TableChange))
    : (r: Result<seq<Query>, ProcessError>)
    ensures FindTable(current, sc, entry.0).None? ==> r == Err(NullArgument("table"))
  {
    match FindTable(current, sc, entry.0)
    case None => Err(NullArgument("table"))
    case Some(t) => TableQueries(op, current, sc, t, entry.1)
  }

  /** `processTable` for each entry of one schema. */
  function EachTable(op: Op, current: Definition, sc: Schema): ((string, TableChange)) -> Result<seq<Query>, ProcessError> {
    (entry: (string, TableChange)) => TableEntryQueries(op, current, sc, entry)
  }

  /** The table loop of `processSchema`. */
  function TablesQueries(op: Op, current: Definition, sc: Schema, entries: OMap<string, TableChange>)
    : Result<seq<Query>, ProcessError>
  {
    ConcatResults(entries, EachTable(op, current, sc))
  }

  /** `processSchema`: 'all' returns after the schema query. */
  function SchemaQueries(op: Op, current: Definition, sc: Schema, change: SchemaChange)
    : (r: Result<seq<Query>, ProcessError>)
  {
    if change.all then SchemaAllQueries(op, sc) else TablesQueries(op, current, sc, change.tables)
  }

  /** One schema entry of `processType`. */
  function SchemaEntryQueries(op: Op, target: Definition, current: Definition, entry: (string, SchemaChange))
    : (r: Result<seq<Query>, ProcessError>)
    ensures FindSchema(target, current, entry.0).None? ==> r == Err(NullArgument("schema"))
  {
    match FindSchema(target, current, entry.0)
    case None => Err(NullArgument("schema"))
    case Some(sc) => SchemaQueries(op, current, sc, entry.1)
  }

  /** `processSchema` for each schema entry of one operation. */
  function EachSchema(op: Op, target: Definition, current: Definition): ((string, SchemaChange)) -> Result<seq<Query>, ProcessError> {
    (entry: (string, SchemaChange)) => SchemaEntryQueries(op, target, current, entry)
  }

  /** `processType`: the schemas of one operation, in order. */
  function OpQueries(op: Op, target: Definition, current: Definition, entries: OMap<string, SchemaChange>)
    : Result<seq<Query>, ProcessError>
  {
    ConcatResults(entries, EachSchema(op, target, current))
  }

  /** `processType` for each operation of the change set. */
  function EachOp(target: Definition, current: Definition): ((Op, OMap<string, SchemaChange>)) -> Result<seq<Query>, ProcessError> {
    (entry: (Op, OMap<string, SchemaChange>)) => OpQueries(entry.0, target, current, entry.1)
  }

  /** The loop of `prepare` over the operations of the change set, in their order. */
  function ChangeQueries(cs: ChangeSet, target: Definition, current: Definition)
    : Result<seq<Query>, ProcessError>
  {
    ConcatResults(cs, EachOp(target, current))
  }

  /**
   * `prepare`: compare, then plan; the processor reads the target definition as `compare`
   * leaves it (foreign-key schemas filled in, reverse fields cleared).
   */
  function PrepareQueries(target: Definition, current: Definition): (r: Result<seq<Query>, ProcessError>)
    ensures Comparator.Compare(target, current).Err? ==>
              r == Err(CompareFailed(Comparator.Compare(target, current).error.schema, Comparator.Compare(target, current).error.table))
  {
    match Comparator.Compare(target, current)
    case Err(e) => Err(CompareFailed(e.schema, e.table))
    case Ok(cs) => ChangeQueries(cs, Comparator.Normalized(target, current), current)
  }
}
