# stepapo/model core in Dafny

This project models the core of `stepapo/model`, a PHP library that keeps a database schema and its seed data in step with NEON configuration files, and proves properties of that model.

- **Definition.** NEON fragments describe schemas, tables, columns, keys and indexes.
  - The collector merges the fragments into one definition.
  - The comparator diffs the target definition against the one an analyzer reads back from PostgreSQL or MySQL. It produces a change set of `create`/`update`/`remove` entries.
  - A processor turns the change set into SQL queries, queued in a fixed sequence of steps.
  - The `Config` objects (`Column`, `Index`, `Foreign`) name themselves and render their PHP and Nextras types.
- **Manipulation.** Seed-data configs are filtered by mode, ordered and merged per (iteration, class, forceUpdate). Their items are merged recursively. The entity classes are then ordered so that every class comes after the classes of the groups it depends on.
- **Orm.** `ToArrayConverter` normalises a select list into a tree, stores dotted keys into nested arrays and orders entity properties for output.

PHP arrays are ordered maps. They are modelled as `seq<(K, V)>` with distinct keys (`OrderedMaps`), and PHP's array-key coercion and `strcmp` are spelled out (`PhpValues`, `PhpStrings`).

Where the PHP code changes state step by step, the model does the same:
- the comparator, the collectors, the analyzers' loops, `sortClasses`, `normalizeSelect` and `storeToTree` are methods with loops;
- the processors are classes whose `queued` field holds the step buffer.

Each such method is proved against a function of its inputs, and the properties are proved about those functions.

Modules:
- `Wrappers`, `OrderedMaps`, `PhpStrings`, `PhpValues`: results, PHP arrays, PHP string and value semantics.
- `Config`, `Elements`: the `Column`, `Index`, `Foreign` and `PrimaryKey` configuration objects and the definition tree.
- `DefinitionCollector`: merging definition fragments.
- `ChangeSets`, `Comparator`, `ComparatorProperties`, `ComparatorTheorems`, `ComparatorRoundTrip`: the diff and what is proved about it.
- `Queries`: the step buffer shared by both processors.
- `PgsqlSql`, `PgsqlPlan`, `PgsqlProcessing`, `PgsqlProperties`: the PostgreSQL processor.
- `MysqlSql`, `MysqlPlan`, `MysqlProcessing`, `MysqlProperties`: the MySQL processor.
- `Analysis`, `PgsqlAnalysis`, `MysqlAnalysis`: rebuilding a definition from catalog rows.
- `ManipulationItems`, `ManipulationCollector`, `ManipulationProcessor`: seed-data configs and class ordering.
- `SelectTree`, `PropertyOrder`: the `ToArrayConverter` helpers.

**Comparing a definition with itself.** One might expect `compare(D, D)` to be empty for every definition. The code does not give that.
- When the comparator looks up foreign keys to create, it keys the new side by key column and the old side by constraint name (src/Definition/Comparator.php:47-51).
- So a definition whose foreign-key name differs from its key column yields entries when compared with itself.

The model follows the code here as everywhere: the processors, both collectors and `normalizeSelect` run the code as written, including the defects listed under "## Findings" and the order in which errors arise (a nested select is normalized before its key reaches `storeToTree`). The corrected readings there are defined beside the as-written ones only to state what was evidently intended. What the model proves instead (`ComparatorRoundTrip.CompareDeployed`) is that comparing a definition with the database built from it records nothing. The database built from it is the definition as an analyzer reads it back, with foreign keys keyed by constraint name.

## Model

| member | source | states |
|---|---|---|
| Config.StrOf | src/Definition/Config/Column.php:84-87 | converting a scalar to text keeps a string as it is and gives an integer a text that casts back to the same integer |
| Config.NewColumn | src/Definition/Config/Column.php:16-29 | a new column carries its name, type and nullability and every optional field at its declared default |
| Config.NewForeign | src/Definition/Config/Foreign.php:15-26 | a new foreign key carries its key column, table and column, cascades on delete and update, and has no name, schema or reverse side |
| Config.ProcessIndex | src/Definition/Config/Index.php:19-25 | an index with a usable string name is left alone; one without gets its columns sorted and the name table, columns and `ix` joined by underscores |
| Config.ProcessIndexIdempotent | src/Definition/Config/Index.php:19-25 | after processing the name is usable, so processing again changes nothing |
| Config.ProcessIndexOrderIndependent | src/Definition/Config/Index.php:21-24 | two unnamed indexes over the same columns listed in different orders get the same name and column list |
| Config.ProcessForeign | src/Definition/Config/Foreign.php:28-33 | a key with a usable name is unchanged; otherwise it is named table, key column and `fk` joined by underscores; either way the result has a usable name |
| Config.ProcessForeignIdempotent | src/Definition/Config/Foreign.php:28-33 | processing a foreign key twice gives the same key as processing it once |
| Config.PhpType | src/Definition/Config/Column.php:38-50 | every column type maps to one of bool, int, string, DateTimeImmutable or float |
| Config.PhpTypePreimages | src/Definition/Config/Column.php:40-49 | exactly int and bigint map to int; string, text and fulltext to string; and so on for each PHP type |
| Config.NextrasFlags | src/Definition/Config/Column.php:67-69 | the flags appended to the Nextras type never contain the bar character |
| Config.SplitBarJoined | src/Definition/Config/Column.php:67-69 | splitting a word followed by bar-prefixed flags at the bar character gives back the word and the flags |
| Config.FlaggedParts | src/Definition/Config/Column.php:67-69 | a type followed by the three optional flags splits back into the type and exactly the flags that are set |
| Config.NextrasTypeParts | src/Definition/Config/Column.php:53-70 | the Nextras type splits at the bar character into the PHP type followed by the null, private and internal flags that the column sets, in that order |
| Config.PhpDefaultReadBack | src/Definition/Config/Column.php:73-90 | the PHP default is null exactly for a null default, fails exactly for an integer default of a bool column, keeps `now`, renders booleans as `true`/`false`, numbers as their decimal text and everything else quoted |
| Elements.OldTable | src/Definition/PgsqlProcessor.php:140 | a table of the old definition is found exactly when its schema and then the table exist there |
| DefinitionCollector.Keyed | src/Definition/Collector.php:55-78 | the entries added to a table are the items in order, each under its key |
| DefinitionCollector.MergeElementsEffect | src/Definition/Collector.php:55-78 | merging one kind of element succeeds exactly when no key occurs twice, then appends the new elements after the existing ones, and otherwise names the first duplicate |
| DefinitionCollector.MergeTableEffect | src/Definition/Collector.php:55-84 | merging a table into one already collected succeeds exactly when nothing is defined twice, and then appends columns, foreign keys by key column, unique keys and indexes and takes the primary key from whichever side has one |
| DefinitionCollector.MergeTableErrors | src/Definition/Collector.php:55-84 | the duplicate checks run for columns, foreign keys, unique keys, indexes and the primary key in that order, and the error names the first duplicate of the first failing kind with its table |
| DefinitionCollector.MergeTablesEffect | src/Definition/Collector.php:50-54 | merging tables keeps the collected tables in place and adds exactly the new names; under every name is what the tables of that name, in order, merge to from the table already there (a new name holding its first table), and the merge fails exactly when one of those merges fails |
| DefinitionCollector.MergeSchemasEffect | src/Definition/Collector.php:45-49 | merging schemas keeps the collected schemas in place and adds exactly the new names; under every name is what the schemas of that name, in order, merge to (their tables merged) from the schema already there, and the merge fails exactly when one of those merges fails |
| DefinitionCollector.Sorted | src/Definition/Collector.php:88-91 | after the closing sorts the schemas are ordered by name, each schema's tables by name, and the same schemas remain |
| DefinitionCollector.MergeAllKeys | src/Definition/Collector.php:40-44 | the first definition is the accumulator: its schemas stay first and in place, and the result holds exactly its schemas and those any later definition names |
| DefinitionCollector.MergeDefinitionsEffect | src/Definition/Collector.php:38-93 | no definitions is an error; otherwise the merge fails exactly when, for some schema name, merging the later schemas of that name, definition by definition, into the first definition's fails; the merged definition is ordered by schema and table name, holds exactly the schemas some definition names, and, the first definition's schema keys being distinct as in any PHP array, under each name holds that merge with its tables sorted |
| DefinitionCollector.MergeElementsLoop | src/Definition/Collector.php:55-60 | the loop over one kind of element computes the merge function, duplicate error included |
| DefinitionCollector.MergeTableInto | src/Definition/Collector.php:55-84 | the four element loops and the primary key check compute the table merge function |
| DefinitionCollector.MergeTablesLoop | src/Definition/Collector.php:50-85 | the loop over a schema's tables computes the tables merge function |
| DefinitionCollector.MergeSchemasLoop | src/Definition/Collector.php:45-86 | the loop over a definition's schemas computes the schemas merge function |
| DefinitionCollector.MergeDefinitionsLoop | src/Definition/Collector.php:38-87 | the loop over all definitions computes the merge of all definitions |
| DefinitionCollector.SortDefinition | src/Definition/Collector.php:88-91 | the closing sorts compute the sorted definition |
| Comparator.FilledSchemas | src/Definition/Comparator.php:15-23 | every foreign key without a schema gets the schema of the table holding it; schema and table keys are kept in order |
| Comparator.ClearedSchemas | src/Definition/Comparator.php:44-46 | the first pass leaves the definition's schemas as they were, except that the foreign keys of tables present on both sides lose their reverse name and order |
| Comparator.DiffNewLoop | src/Definition/Comparator.php:37-43 | a create/update loop over one kind of element computes the list specification: missing names go to `create`, changed ones to `update` |
| Comparator.DiffOldLoop | src/Definition/Comparator.php:84-103 | a remove loop over one kind of element computes the specification: names the other side lacks go to `remove` |
| Comparator.DiffForeignKeysLoop | src/Definition/Comparator.php:44-52 | the foreign-key loop clears each key's reverse fields in place, then records it as created or updated, keyed by name and reported by key column |
| Comparator.CompareTable | src/Definition/Comparator.php:36-69 | the first pass on a table present on both sides computes the table entry and leaves the table with cleared reverse fields |
| Comparator.CreateTableStep | src/Definition/Comparator.php:31-70 | the first pass on one table: a table `old` lacks is created whole, otherwise it is compared |
| Comparator.CreatePassTables | src/Definition/Comparator.php:31-70 | the first pass over the tables of a schema computes its specification and the tables it leaves behind |
| Comparator.CreateSchemaStep | src/Definition/Comparator.php:25-71 | the first pass on one schema: a schema `old` lacks is created whole, otherwise its tables are compared |
| Comparator.CreatePass | src/Definition/Comparator.php:25-71 | the first pass over the schemas of `new` computes its specification and the schemas it leaves behind |
| Comparator.RemovePassTables | src/Definition/Comparator.php:78-104 | the second pass over the tables of a schema computes its specification |
| Comparator.RemovePass | src/Definition/Comparator.php:72-105 | the second pass over the schemas of `old` computes its specification |
| Comparator.FillForeignKeys | src/Definition/Comparator.php:17-21 | the loop over a table's foreign keys fills the missing schemas |
| Comparator.FillTables | src/Definition/Comparator.php:16-22 | the loop over a schema's tables fills their foreign keys |
| Comparator.FillForeignSchemas | src/Definition/Comparator.php:15-23 | the opening loop computes the filled definition |
| Comparator.CompareDefinitions | src/Definition/Comparator.php:13-107 | `compare` computes the change set (or the missing primary key error) and leaves `new` normalized |
| ComparatorProperties.MissingMembers | src/Definition/Comparator.php:38-39 | a name is listed as missing exactly when some element with that name has no counterpart on the other side |
| ComparatorProperties.MissingNone | src/Definition/Comparator.php:84-88 | nothing is listed as missing when every element's key is present on the other side |
| ComparatorProperties.ChangedNone | src/Definition/Comparator.php:40-41 | nothing is listed as changed when every element has an identical counterpart |
| ComparatorProperties.DiffNewEffect | src/Definition/Comparator.php:37-43 | one create/update loop appends the missing names to `create` and the changed ones to `update` of its table and kind and touches nothing else |
| ComparatorProperties.DiffOldEffect | src/Definition/Comparator.php:84-88 | one remove loop appends the missing names to `remove` of its table and kind and touches nothing else |
| ComparatorProperties.DiffsEffect | src/Definition/Comparator.php:37-66 | the four element loops of the first pass fill the create and update entries of the table from scratch and touch nothing else |
| ComparatorProperties.CreateTableEntryEffect | src/Definition/Comparator.php:36-69 | the first pass on a table both sides have fails exactly when `new` gives it no primary key, and otherwise also flags a changed primary key under `update` |
| ComparatorProperties.RemoveTableEntryEffect | src/Definition/Comparator.php:83-103 | the second pass on a table both sides have fills its `remove` entry from scratch and touches nothing else |
| ComparatorProperties.CreateTableEffect | src/Definition/Comparator.php:31-70 | the first pass on one table fails exactly when `old` has the table and `new` gives it no primary key; a table `old` lacks is marked created whole |
| ComparatorProperties.RemoveTableEffect | src/Definition/Comparator.php:78-104 | the second pass on one table marks a table `new` lacks as removed whole and otherwise fills its `remove` entry |
| ComparatorTheorems.CreateTablesEffect | src/Definition/Comparator.php:31-70 | the first pass over a schema's tables records every table as created or updated, touches no other entry, and fails exactly when a table both sides have lacks a primary key in `new` |
| ComparatorTheorems.RemoveTablesEffect | src/Definition/Comparator.php:78-104 | the second pass over a schema's tables gives every table of `old` the `remove` entry that the one-table pass gives it (removed whole when `new` lacks it, otherwise its missing elements), and changes nothing outside those entries |
| ComparatorTheorems.CreateSchemaEffect | src/Definition/Comparator.php:25-71 | the first pass on one schema of `new` records it as created whole when `old` lacks it, otherwise table by table, and touches no other schema |
| ComparatorTheorems.RemoveSchemaEffect | src/Definition/Comparator.php:72-105 | the second pass on one schema of `old` records it as removed whole when `new` lacks it, otherwise table by table |
| ComparatorTheorems.CreateSchemasEffect | src/Definition/Comparator.php:25-71 | the first pass over all schemas of `new` records each as the schema rule says and nothing else |
| ComparatorTheorems.RemoveSchemasEffect | src/Definition/Comparator.php:72-105 | the second pass over all schemas of `old` records each as the schema rule says and nothing else |
| ComparatorTheorems.FillSchemasKeeps | src/Definition/Comparator.php:15-23 | filling foreign-key schemas keeps every schema, table and primary key, so it cannot change whether `compare` fails |
| ComparatorTheorems.CompareEffect | src/Definition/Comparator.php:13-107 | `compare` fails exactly when a table present on both sides has no primary key in `new`; otherwise every schema of `new` and of `old` is recorded as the schema rules say |
| ComparatorTheorems.CompareSchemas | src/Definition/Comparator.php:26-28 | `create` marks exactly the schemas only `new` has, `remove` exactly those only `old` has, and `update` never marks a whole schema |
| ComparatorTheorems.CreatedWhole | src/Definition/Comparator.php:26-28 | a schema of `new` is created whole exactly when `old` lacks it and is never updated whole |
| ComparatorTheorems.RemovedWhole | src/Definition/Comparator.php:73-75 | a schema of `old` is removed whole exactly when `new` lacks it |
| ComparatorTheorems.CompareTableFlags | src/Definition/Comparator.php:67-69 | only `update` entries carry the primary-key flag, and `update` never marks a whole table |
| ComparatorTheorems.CreatedFlags | src/Definition/Comparator.php:32-34 | for the schemas of `new`, `update` never marks a whole table and `create` never the primary key |
| ComparatorTheorems.RemovedFlags | src/Definition/Comparator.php:79-81 | for the schemas of `old`, `remove` never carries the primary-key flag |
| ComparatorRoundTrip.IntrospectedForeignKeys | src/Definition/Comparator.php:89-91 | the foreign keys read back from a database are keyed by their constraint name, one for each defined key, in order |
| ComparatorRoundTrip.ColumnsRoundTrip | src/Definition/Comparator.php:37-43 | a table's columns compared with the same columns read back record nothing |
| ComparatorRoundTrip.ForeignKeysAligned | src/Definition/Comparator.php:44-46 | the defined foreign keys with reverse fields cleared are exactly the read-back ones, in order |
| ComparatorRoundTrip.ForeignKeysRoundTrip | src/Definition/Comparator.php:44-52 | a table's foreign keys compared with the same keys read back record nothing |
| ComparatorRoundTrip.ForeignKeysRemoveRoundTrip | src/Definition/Comparator.php:89-93 | no read-back foreign key is reported as removed |
| ComparatorRoundTrip.KeysRoundTrip | src/Definition/Comparator.php:53-66 | indexes and unique keys compared with themselves record nothing, in either pass |
| ComparatorRoundTrip.TableRoundTrip | src/Definition/Comparator.php:36-103 | a deployable table compared with the table read back from the database records nothing under create, update or remove |
| ComparatorRoundTrip.SchemaRoundTrip | src/Definition/Comparator.php:31-104 | every table of a schema compared with its read-back counterpart records nothing |
| ComparatorRoundTrip.DeployedWellFormed | src/Definition/Comparator.php:26-32 | the database built from a definition has the same schemas and tables and gives `compare` no reason to fail |
| ComparatorRoundTrip.CompareDeployed | src/Definition/Comparator.php:13-107 | comparing a definition with the database built from it succeeds and records nothing: no schema or table marked whole and every entry empty |
| ChangeSets.WithName | src/Definition/Comparator.php:39 | appending a name to one list of a table entry extends that list by the name and leaves the other lists and flags alone |
| ChangeSets.Extend | src/Definition/Comparator.php:37-43 | appending several names to one list of a table entry extends that list by them, in order, and changes nothing else |
| ChangeSets.TableAtAppendName | src/Definition/Comparator.php:39 | appending a name changes only that list of that table's entry |
| ChangeSets.AppendNameFrame | src/Definition/Comparator.php:39 | appending a name touches no other operation, schema or table |
| ChangeSets.MarkTableAllFrame | src/Definition/Comparator.php:33 | marking a table whole touches only that table's entry and sets only its `all` flag |
| ChangeSets.MarkPrimaryFrame | src/Definition/Comparator.php:68 | flagging a primary-key change touches only that table's entry and sets only its flag |
| ChangeSets.MarkSchemaAllFrame | src/Definition/Comparator.php:27 | marking a schema whole touches only that schema's entry and sets only its `all` flag |
| Queries.Filter | src/Definition/PgsqlProcessor.php:236 | the queries queued under one step, in queue order, are no more than were queued |
| Queries.FilterMembers | src/Definition/PgsqlProcessor.php:236 | a step's list holds only queued queries of that step |
| Queries.Grouped | src/Definition/PgsqlProcessor.php:26-39 | after queueing, each step of the fixed order holds exactly the queries queued for it |
| Queries.EmptySteps | src/Definition/PgsqlProcessor.php:608-613 | `reset` leaves every step present, in order, and empty |
| Queries.AddQuery | src/Definition/PgsqlProcessor.php:231-237 | queueing succeeds exactly when the step exists, then appends the query to that step only; an unknown step is an error naming it |
| Queries.GroupedKeys | src/Definition/PgsqlProcessor.php:26-39 | the step lists hold exactly the steps of the fixed order |
| Queries.GroupedSnoc | src/Definition/PgsqlProcessor.php:231-237 | queueing one more query into the grouped lists gives the grouping of the longer queue |
| Queries.Rank | src/Definition/PgsqlProcessor.php:26-39 | a step's position in the fixed order is where it first occurs |
| Queries.FilterSnoc | src/Definition/PgsqlProcessor.php:236 | queueing a query adds it to the list of its own step only |
| Queries.ProgramPerStep | src/Definition/PgsqlProcessor.php:73-74 | running the step lists executes each step's queries in the order they were queued, and only queries of the listed steps |
| Queries.ProgramRanked | src/Definition/PgsqlProcessor.php:73-74 | the executed program runs the steps in their fixed order |
| Queries.RunsBefore | src/Definition/PgsqlProcessor.php:73-74 | a queued query of an earlier step runs before every query of a later step |
| Queries.Executed | src/Definition/PgsqlProcessor.php:73-82 | every queued query of a listed step is executed |
| Queries.ProgramBlock | src/Definition/PgsqlProcessor.php:73-74 | the queries of each step run as one contiguous block |
| Queries.SameStepInOrder | src/Definition/PgsqlProcessor.php:74 | two queries of one step run in the order they were queued, with only the queries queued between them in between |
| Queries.RunCount | src/Definition/PgsqlProcessor.php:70-104 | `process` counts the queries that ran before the first one the database rejected; it counts all of them exactly when none is rejected |
| Queries.RunCountAfter | src/Definition/PgsqlProcessor.php:82-86 | queries that all succeed are all counted, whatever follows |
| Queries.StopsAt | src/Definition/PgsqlProcessor.php:95-104 | a run that fails on a query counts exactly the queries before it |
| Queries.RunsAll | src/Definition/PgsqlProcessor.php:86-89 | a run that reaches the end counts everything |
| Queries.ConcatResultsOk | src/Definition/PgsqlProcessor.php:165-168 | a processing loop fails exactly when one of its items fails |
| Queries.ConcatResultsFirstError | src/Definition/PgsqlProcessor.php:165-168 | a failing processing loop reports the error of its first failing item, after which nothing more is processed |
| Queries.ConcatResultsAppend | src/Definition/PgsqlProcessor.php:164-187 | a loop over two runs of items queues what the first run queues and then what the second queues |
| PgsqlSql.StepsDistinct | src/Definition/PgsqlProcessor.php:26-39 | the twelve steps are distinct, so every query has exactly one list |
| PgsqlSql.GetType | src/Definition/PgsqlProcessor.php:573-585 | `getType` succeeds exactly on the eight column types and otherwise fails with the unhandled type |
| PgsqlSql.GetTypeInjective | src/Definition/PgsqlProcessor.php:575-584 | distinct column types are given distinct PostgreSQL types |
| PgsqlSql.GetDefault | src/Definition/PgsqlProcessor.php:588-605 | `now` becomes `now()`, a boolean default of a bool column `true`/`false`, a string or text default is quoted, and any default of a float or fulltext column is unhandled |
| PgsqlSql.ColumnParts | src/Definition/PgsqlProcessor.php:499-516 | a column definition is its quoted name and type, NOT NULL exactly for a non-nullable column, a DEFAULT exactly when one is set and a `nextval` default exactly for an auto-increment column; it fails exactly when the type or default is unhandled |
| PgsqlSql.AlterColumnParts | src/Definition/PgsqlProcessor.php:519-537 | an altered column gets, in this order, `ALTER COLUMN "name" TYPE` with the PostgreSQL type, SET or DROP NOT NULL by nullability, SET or DROP DEFAULT with the rendered default, and, exactly when auto-increment, `SET DEFAULT nextval('<table>_id_seq'::regclass)`; it fails exactly when the type or a non-null default has no rendering |
| PgsqlSql.PrimarySql | src/Definition/PgsqlProcessor.php:540-547 | a primary key renders as PRIMARY KEY over its quoted columns; a table without one fails |
| PgsqlSql.ForeignParts | src/Definition/PgsqlProcessor.php:560-570 | a foreign key constraint has five parts, ending with ON DELETE and then ON UPDATE in upper case |
| PgsqlSql.ColumnDefs | src/Definition/PgsqlProcessor.php:295-297 | rendering the columns of a new table succeeds exactly when every column renders, gives one definition per column and queues only sequence queries |
| PgsqlSql.UniquesQueries | src/Definition/PgsqlProcessor.php:308-310 | a new table gets one ADD CONSTRAINT per unique key, in order |
| PgsqlSql.IndexesQueries | src/Definition/PgsqlProcessor.php:311-313 | a new table gets one CREATE INDEX per index, in order |
| PgsqlSql.ForeignsQueries | src/Definition/PgsqlProcessor.php:314-316 | a new table gets one foreign key constraint per foreign key, in order |
| PgsqlPlan.SchemaAllQueries | src/Definition/PgsqlProcessor.php:130-136 | a whole schema is created or dropped with one query; `update` with `all` is an error naming the schema |
| PgsqlPlan.TableAllQueries | src/Definition/PgsqlProcessor.php:148-154 | a whole table is created or dropped; `update` with `all` is an error naming the table |
| PgsqlPlan.PrimaryQueries | src/Definition/PgsqlProcessor.php:156-162 | a primary-key entry is an error for create and remove, and for update queues one ALTER TABLE when the table has a primary key |
| PgsqlPlan.ColumnChangeQueries | src/Definition/PgsqlProcessor.php:191-198 | creating a column succeeds exactly when its definition renders and updating one exactly when its alteration renders, each ending with the ALTER TABLE in `alterTable`; removing a column is one DROP COLUMN |
| PgsqlPlan.ForeignChangeQueries | src/Definition/PgsqlProcessor.php:201-208 | removing a foreign key is one drop; updating it is a drop followed by an add |
| PgsqlPlan.IndexChangeQueries | src/Definition/PgsqlProcessor.php:211-218 | creating an index is one query in `createIndex`, removing one is one query in `dropIndex`, and updating one queues its drop in `dropIndex` and then its creation in `createIndex` |
| PgsqlPlan.UniqueChangeQueries | src/Definition/PgsqlProcessor.php:221-228 | updating a unique key is a drop followed by an add |
| PgsqlPlan.ColumnNameQueries | src/Definition/PgsqlProcessor.php:165-168 | a column name found in neither definition is a null argument |
| PgsqlPlan.ForeignNameQueries | src/Definition/PgsqlProcessor.php:171-174 | a foreign-key name found in neither definition is a null argument |
| PgsqlPlan.IndexNameQueries | src/Definition/PgsqlProcessor.php:177-180 | an index name found in neither definition is a null argument |
| PgsqlPlan.UniqueNameQueries | src/Definition/PgsqlProcessor.php:183-186 | a unique-key name found in neither definition is a null argument |
| PgsqlPlan.TableEntryQueries | src/Definition/PgsqlProcessor.php:138-142 | a table name found in neither definition is a null argument |
| PgsqlPlan.SchemaEntryQueries | src/Definition/PgsqlProcessor.php:120-124 | a schema name found in neither definition is a null argument |
| PgsqlPlan.PrepareQueries | src/Definition/PgsqlProcessor.php:108-115 | `prepare` fails when `compare` fails and otherwise plans every operation of the change set on the normalized target |
| PgsqlProcessing.PgsqlProcessor.AddQuery | src/Definition/PgsqlProcessor.php:231-237 | queueing succeeds exactly for a known step and then appends the query; an unknown step leaves the lists alone |
| PgsqlProcessing.PgsqlProcessor.Reset | src/Definition/PgsqlProcessor.php:608-613 | `reset` empties every step list |
| PgsqlProcessing.PgsqlProcessor.Process | src/Definition/PgsqlProcessor.php:70-104 | `process` returns how many queries ran, in step order, before the first the database rejected |
| PgsqlProcessing.PgsqlProcessor.CreateSequence | src/Definition/PgsqlProcessor.php:240-247 | `createSequence` queues a drop of the sequence, then its creation |
| PgsqlProcessing.PgsqlProcessor.Column | src/Definition/PgsqlProcessor.php:499-516 | `column` returns the definition and queues the sequence queries of an auto-increment column; an unhandled type or default fails with nothing queued |
| PgsqlProcessing.PgsqlProcessor.CreateTable | src/Definition/PgsqlProcessor.php:290-317 | `createTable` queues the column sequences, the CREATE TABLE, then one query per unique key, index and foreign key |
| PgsqlProcessing.PgsqlProcessor.RemoveTable | src/Definition/PgsqlProcessor.php:320-329 | `removeTable` queues the DROP TABLE and then the drop of its sequence |
| PgsqlProcessing.PgsqlProcessor.UpdatePrimary | src/Definition/PgsqlProcessor.php:332-340 | `updatePrimary` queues one statement dropping and re-adding the primary key, or fails with nothing queued when there is none |
| PgsqlProcessing.PgsqlProcessor.UpdateIndex | src/Definition/PgsqlProcessor.php:371-375 | `updateIndex` queues the drop in `dropIndex` and then the creation in `createIndex`, as `removeIndex` and `createIndex` queue them |
| PgsqlProcessing.PgsqlProcessor.CreateColumn | src/Definition/PgsqlProcessor.php:390-406 | `createColumn` queues the fulltext index, then for an auto-increment column the drop, creation and attachment of its sequence, then what `column` queues (the same sequence queries again), then the ADD COLUMN; it fails exactly when the column does not render |
| PgsqlProcessing.PgsqlProcessor.UpdateColumn | src/Definition/PgsqlProcessor.php:421-434 | `updateColumn` queues the sequence queries of an auto-increment column, then the ALTER TABLE |
| PgsqlProcessing.PgsqlProcessor.UpdateUnique | src/Definition/PgsqlProcessor.php:461-465 | `updateUnique` queues the drop and then the add |
| PgsqlProcessing.PgsqlProcessor.UpdateForeign | src/Definition/PgsqlProcessor.php:492-496 | `updateForeign` queues the drop and then the add |
| PgsqlProcessing.PgsqlProcessor.ProcessColumn | src/Definition/PgsqlProcessor.php:191-198 | `processColumn` queues the plan of its operation |
| PgsqlProcessing.PgsqlProcessor.ProcessForeignKey | src/Definition/PgsqlProcessor.php:201-208 | `processForeignKey` queues the plan of its operation |
| PgsqlProcessing.PgsqlProcessor.ProcessIndex | src/Definition/PgsqlProcessor.php:211-218 | `processIndex` queues the plan of its operation |
| PgsqlProcessing.PgsqlProcessor.ProcessUniqueKey | src/Definition/PgsqlProcessor.php:221-228 | `processUniqueKey` queues the plan of its operation |
| PgsqlProcessing.PgsqlProcessor.ProcessColumnNames | src/Definition/PgsqlProcessor.php:164-169 | the columns loop queues the plan of every listed column, stopping at the first failure |
| PgsqlProcessing.PgsqlProcessor.ProcessForeignNames | src/Definition/PgsqlProcessor.php:170-175 | the foreign keys loop queues the plan of every listed key |
| PgsqlProcessing.PgsqlProcessor.ProcessIndexNames | src/Definition/PgsqlProcessor.php:176-181 | the indexes loop queues the plan of every listed index |
| PgsqlProcessing.PgsqlProcessor.ProcessUniqueNames | src/Definition/PgsqlProcessor.php:182-187 | the unique keys loop queues the plan of every listed unique key |
| PgsqlProcessing.PgsqlProcessor.ProcessTable | src/Definition/PgsqlProcessor.php:146-188 | `processTable` handles `all`, then the primary key with its early return, then the four lists |
| PgsqlProcessing.PgsqlProcessor.ProcessTables | src/Definition/PgsqlProcessor.php:138-142 | the table loop of `processSchema` queues each table entry's plan |
| PgsqlProcessing.PgsqlProcessor.ProcessSchema | src/Definition/PgsqlProcessor.php:128-143 | `processSchema` queues the schema query for `all`, otherwise each table entry |
| PgsqlProcessing.PgsqlProcessor.ProcessType | src/Definition/PgsqlProcessor.php:118-125 | `processType` queues the plan of each schema entry of one operation |
| PgsqlProcessing.PgsqlProcessor.Prepare | src/Definition/PgsqlProcessor.php:108-115 | `prepare` empties the lists, compares, normalizes the target in place and queues exactly the plan of the change set |
| PgsqlProperties.UpdateUniqueDropsFirst | src/Definition/PgsqlProcessor.php:461-465 | re-adding a unique key runs after its drop, whatever else is queued |
| PgsqlProperties.UpdateForeignDropsFirst | src/Definition/PgsqlProcessor.php:492-496 | re-adding a foreign key runs after its drop, whatever else is queued |
| PgsqlProperties.UpdateIndexAsWrittenCreatesFirst | src/Definition/PgsqlProcessor.php:371-375 | as written, the CREATE INDEX of an updated index runs before the DROP INDEX of the old one |
| PgsqlProperties.UpdateIndexDropsFirst | src/Definition/PgsqlProcessor.php:371-375 | corrected, the old index is dropped before the new one is created |
| PgsqlProperties.CreateAutoColumnAsWrittenRepeats | src/Definition/PgsqlProcessor.php:395-398 | as written, adding an auto-increment column runs CREATE SEQUENCE twice in a row, so the second fails |
| PgsqlProperties.CreateAutoColumnSequence | src/Definition/PgsqlProcessor.php:390-406 | corrected, the sequence is created once after being dropped, the column is added after the sequence exists, and the sequence is attached after the column exists |
| PgsqlProperties.ColumnDefsQueue | src/Definition/PgsqlProcessor.php:295-297 | rendering the columns of a new table queues each column's sequence queries |
| PgsqlProperties.CreateTableSequence | src/Definition/PgsqlProcessor.php:290-317 | a new table with an auto-increment column has its sequence dropped and created before the CREATE TABLE that calls `nextval` on it, and attached after the table exists |
| Analysis.CollectOk | src/Definition/PgsqlAnalyzer.php:40-49 | a catalog loop completes exactly when every row reads without an error |
| Analysis.CollectFirstError | src/Definition/PgsqlAnalyzer.php:40-49 | a failed catalog loop reports the error of a row that failed |
| Analysis.CollectKeys | src/Definition/PgsqlAnalyzer.php:40-49 | the keys of the array a loop builds are the keys the rows write, each once |
| Analysis.CollectFrom | src/Definition/PgsqlAnalyzer.php:40-49 | every entry of the array is what some row wrote, the last write under a key winning |
| Analysis.CollectKeyed | src/Definition/PgsqlAnalyzer.php:48 | when every row stores its value under the value's own name, so does the array |
| Analysis.CollectRows | src/Definition/PgsqlAnalyzer.php:40-49 | the loop over the rows of one catalog query builds the array its specification describes |
| Analysis.LineEnd | src/Definition/PgsqlAnalyzer.php:216 | the line holding a position ends at the next new line or at the end of the text |
| Analysis.LastClose | src/Definition/PgsqlAnalyzer.php:216 | the greedy `.*` stops at the last occurrence of the closing text within its range |
| Analysis.MatchFrom | src/Definition/PgsqlAnalyzer.php:216 | the first group of the match never spans a new line |
| Analysis.Unquote | src/Definition/PgsqlAnalyzer.php:215-218 | a null default stays null; otherwise the quoted literal is unwrapped when the pattern matches |
| Analysis.Unwrapped | src/Definition/PgsqlAnalyzer.php:216-217 | a literal on one line wrapped in a quote and the closing text comes out whole |
| Analysis.NoQuoteNoMatch | src/Definition/PgsqlAnalyzer.php:216-217 | a text without a quote does not match, so it is kept as it is |
| PgsqlAnalysis.GetType | src/Definition/PgsqlAnalyzer.php:236-249 | a catalog type name is lower-cased and mapped back to the definition type that the processor writes as that name; anything else is unhandled |
| PgsqlAnalysis.GetTypeInverse | src/Definition/PgsqlAnalyzer.php:236-249 | reading back the type the processor wrote gives the definition type again, in lower or upper case |
| PgsqlAnalysis.GetRestriction | src/Definition/PgsqlAnalyzer.php:252-259 | the action codes `r`, `c` and `n` read as restrict, cascade and set null; any other code is unhandled |
| PgsqlAnalysis.RestrictionRoundTrip | src/Definition/PgsqlAnalyzer.php:252-259 | restrict, cascade and set null are read back as written; no action and set default are not |
| PgsqlAnalysis.GetDefault | src/Definition/PgsqlAnalyzer.php:213-233 | a null default reads as null, `now()` as `now`, booleans only for bool columns and integers only for numeric columns |
| PgsqlAnalysis.BoolDefaultRoundTrip | src/Definition/PgsqlAnalyzer.php:222-226 | a boolean default the processor wrote reads back as that boolean |
| PgsqlAnalysis.IntDefaultRoundTrip | src/Definition/PgsqlAnalyzer.php:227-228 | an integer default the processor wrote reads back as that integer |
| PgsqlAnalysis.StringDefaultRoundTrip | src/Definition/PgsqlAnalyzer.php:215-230 | a single-line string default the processor wrote, with PostgreSQL's varchar cast added, reads back as that string |
| PgsqlAnalysis.DefaultNow | src/Definition/PgsqlAnalyzer.php:219-220 | `now()` reads as `now` whatever the column type |
| PgsqlAnalysis.ReadColumn | src/Definition/PgsqlAnalyzer.php:41-48 | a column row becomes a column with its name, type, nullability and auto-increment flag, and no default when it belongs to the primary key; an unknown type stops the analysis |
| PgsqlAnalysis.ReadForeign | src/Definition/PgsqlAnalyzer.php:51-59 | a foreign-key row becomes a key named by its constraint with its column, referenced schema, table and column; the update action is read before the delete action |
| PgsqlAnalysis.TableOf | src/Definition/PgsqlAnalyzer.php:37-76 | a table row becomes a table of its name with the primary key's columns; a table without a primary key stops the analysis |
| PgsqlAnalysis.SchemaOf | src/Definition/PgsqlAnalyzer.php:30-39 | a requested schema is read back under its own name |
| PgsqlAnalysis.TableOk | src/Definition/PgsqlAnalyzer.php:40-76 | a table reads without error exactly when its types and action codes are known and it has a primary key |
| PgsqlAnalysis.TableKeyed | src/Definition/PgsqlAnalyzer.php:48-72 | every element of a table read back is keyed once by its own name, and a primary-key column has a null default |
| PgsqlAnalysis.ColumnsFromRows | src/Definition/PgsqlAnalyzer.php:40-49 | each column read back comes from a column row |
| PgsqlAnalysis.DefinitionShape | src/Definition/PgsqlAnalyzer.php:26-80 | the schemas read back are exactly the requested ones, each keyed by its name; no table is named `migrations` and every table is keyed by its name |
| PgsqlAnalysis.SchemaTables | src/Definition/PgsqlAnalyzer.php:33-39 | no table of a schema read back is named `migrations` |
| PgsqlAnalysis.EmptySchema | src/Definition/PgsqlAnalyzer.php:29-32 | a requested schema without tables is still read back, empty |
| PgsqlAnalysis.ReadTable | src/Definition/PgsqlAnalyzer.php:37-76 | the table loops compute the table specification |
| PgsqlAnalysis.ReadSchema | src/Definition/PgsqlAnalyzer.php:30-77 | the loop over a schema's tables computes the schema specification |
| PgsqlAnalysis.GetDefinition | src/Definition/PgsqlAnalyzer.php:26-80 | `getDefinition` computes the definition specification |
| MysqlSql.StepsDistinct | src/Definition/MysqlProcessor.php:27-40 | the twelve steps are distinct, so every query has exactly one list |
| MysqlSql.GetType | src/Definition/MysqlProcessor.php:527-539 | `getType` succeeds exactly on the eight column types and otherwise fails with the unhandled type |
| MysqlSql.GetDefault | src/Definition/MysqlProcessor.php:542-554 | `now` becomes CURRENT_TIMESTAMP, a bool column's default `1` or `0` by its truth value, a string or text default is quoted; any default of a datetime, float or fulltext column other than `now` is unhandled |
| MysqlSql.ColumnParts | src/Definition/MysqlProcessor.php:477-490 | a column definition is its quoted name and type, a collation for text types, NULL or NOT NULL, a DEFAULT exactly when one is set and AUTO_INCREMENT exactly when auto; it fails exactly when the type or default is unhandled |
| MysqlSql.ColumnPartsClauses | src/Definition/MysqlProcessor.php:480-489 | the collation clause appears exactly for string, text and fulltext columns, the default when one is set, and AUTO_INCREMENT exactly for an auto-increment column |
| MysqlSql.PrimarySql | src/Definition/MysqlProcessor.php:494-501 | a primary key renders as PRIMARY KEY over its quoted columns; a table without one fails |
| MysqlSql.ForeignParts | src/Definition/MysqlProcessor.php:514-524 | a foreign key constraint has five parts, ON UPDATE before ON DELETE, and references the resolved schema, table and column |
| MysqlSql.ColumnDefs | src/Definition/MysqlProcessor.php:268-270 | rendering the columns of a new table succeeds exactly when every column renders, gives one definition per column and queues only fulltext drops in `dropIndex` and fulltext adds in `alterTable` |
| MysqlSql.UniquesQueries | src/Definition/MysqlProcessor.php:280-282 | a new table gets one ADD UNIQUE INDEX per unique key, in order |
| MysqlSql.IndexesQueries | src/Definition/MysqlProcessor.php:283-285 | a new table gets one CREATE INDEX per index, in order |
| MysqlSql.ForeignsQueries | src/Definition/MysqlProcessor.php:286-288 | a new table gets one constraint per foreign key, in order, and fails when one cannot be rendered |
| MysqlPlan.SchemaAllQueries | src/Definition/MysqlProcessor.php:131-137 | a whole schema is created or dropped with one query; `update` with `all` is an error naming the schema |
| MysqlPlan.TableAllQueries | src/Definition/MysqlProcessor.php:149-155 | a whole table is created or dropped; `update` with `all` is an error naming the table |
| MysqlPlan.PrimaryQueries | src/Definition/MysqlProcessor.php:157-163 | a primary-key entry is an error for create and remove, and for update queues one ALTER TABLE when the table has a primary key |
| MysqlPlan.ColumnChangeQueries | src/Definition/MysqlProcessor.php:192-199 | creating or updating a column succeeds exactly when its definition renders, and queues what `column` queues and then the ALTER TABLE in `alterTable`; removing a column is one DROP COLUMN |
| MysqlPlan.ForeignChangeQueries | src/Definition/MysqlProcessor.php:202-209 | removing a foreign key is one drop; creating or updating one fails exactly when its schema cannot be resolved, and an update is a drop followed by an add |
| MysqlPlan.IndexChangeQueries | src/Definition/MysqlProcessor.php:212-219 | creating an index is one query in `createIndex`, removing one is one query in `dropIndex`, and updating one queues its drop in `dropIndex` and then its creation in `createIndex` |
| MysqlPlan.UniqueChangeQueries | src/Definition/MysqlProcessor.php:222-229 | updating a unique key is a drop followed by an add |
| MysqlPlan.ColumnNameQueries | src/Definition/MysqlProcessor.php:166-169 | a column name found in neither definition is a null argument |
| MysqlPlan.ForeignNameQueries | src/Definition/MysqlProcessor.php:172-175 | a foreign-key name found in neither definition is a null argument |
| MysqlPlan.IndexNameQueries | src/Definition/MysqlProcessor.php:178-181 | an index name found in neither definition is a null argument |
| MysqlPlan.UniqueNameQueries | src/Definition/MysqlProcessor.php:184-187 | a unique-key name found in neither definition is a null argument |
| MysqlPlan.TableEntryQueries | src/Definition/MysqlProcessor.php:139-143 | a table name found in neither definition is a null argument |
| MysqlPlan.SchemaEntryQueries | src/Definition/MysqlProcessor.php:121-125 | a schema name found in neither definition is a null argument |
| MysqlPlan.PrepareQueries | src/Definition/MysqlProcessor.php:109-116 | `prepare` fails when `compare` fails and otherwise plans every operation of the change set on the normalized target |
| MysqlProcessing.MysqlProcessor.AddQuery | src/Definition/MysqlProcessor.php:232-238 | queueing succeeds exactly for a known step and then appends the query; an unknown step leaves the lists alone |
| MysqlProcessing.MysqlProcessor.Reset | src/Definition/MysqlProcessor.php:557-562 | `reset` empties every step list |
| MysqlProcessing.MysqlProcessor.Process | src/Definition/MysqlProcessor.php:71-105 | `process` returns how many queries ran, in step order, before the first the database rejected |
| MysqlProcessing.MysqlProcessor.SetDefaultSchema | src/Definition/MysqlProcessor.php:565-569 | `setDefaultSchema` sets the schema used for foreign keys that name none |
| MysqlProcessing.MysqlProcessor.DropFulltext | src/Definition/MysqlProcessor.php:361-370 | `dropFulltext` queues one DROP INDEX IF EXISTS of the fulltext index in `dropIndex` |
| MysqlProcessing.MysqlProcessor.Column | src/Definition/MysqlProcessor.php:471-491 | `column` queues the fulltext drop (in `dropIndex`) and add (in `alterTable`) first, so they stay queued even when the type or default then fails, and returns the joined definition |
| MysqlProcessing.MysqlProcessor.CreateForeigns | src/Definition/MysqlProcessor.php:286-288 | the foreign keys loop of `createTable` queues one constraint per key and stops at the first that cannot be rendered |
| MysqlProcessing.MysqlProcessor.CreateTable | src/Definition/MysqlProcessor.php:263-289 | `createTable` queues what the columns queue, the CREATE TABLE, then one query per unique key, index and foreign key |
| MysqlProcessing.MysqlProcessor.UpdatePrimary | src/Definition/MysqlProcessor.php:303-311 | `updatePrimary` queues one statement dropping and re-adding the primary key, or fails with nothing queued when there is none |
| MysqlProcessing.MysqlProcessor.UpdateIndex | src/Definition/MysqlProcessor.php:342-346 | `updateIndex` queues the drop in `dropIndex` and then the creation in `createIndex`, as `removeIndex` and `createIndex` queue them |
| MysqlProcessing.MysqlProcessor.CreateColumn | src/Definition/MysqlProcessor.php:373-382 | `createColumn` queues what `column` queues, then the ADD COLUMN |
| MysqlProcessing.MysqlProcessor.UpdateColumn | src/Definition/MysqlProcessor.php:397-406 | `updateColumn` queues what `column` queues, then one CHANGE COLUMN under the same name |
| MysqlProcessing.MysqlProcessor.UpdateUnique | src/Definition/MysqlProcessor.php:433-437 | `updateUnique` queues the drop and then the add |
| MysqlProcessing.MysqlProcessor.CreateForeign | src/Definition/MysqlProcessor.php:440-449 | `createForeign` queues the constraint, or fails with nothing queued when neither the key nor the processor names a schema |
| MysqlProcessing.MysqlProcessor.UpdateForeign | src/Definition/MysqlProcessor.php:464-468 | `updateForeign` queues the drop and then the add |
| MysqlProcessing.MysqlProcessor.ProcessColumn | src/Definition/MysqlProcessor.php:192-199 | `processColumn` queues the plan of its operation |
| MysqlProcessing.MysqlProcessor.ProcessForeignKey | src/Definition/MysqlProcessor.php:202-209 | `processForeignKey` queues the plan of its operation |
| MysqlProcessing.MysqlProcessor.ProcessIndex | src/Definition/MysqlProcessor.php:212-219 | `processIndex` queues the plan of its operation |
| MysqlProcessing.MysqlProcessor.ProcessUniqueKey | src/Definition/MysqlProcessor.php:222-229 | `processUniqueKey` queues the plan of its operation |
| MysqlProcessing.MysqlProcessor.ProcessColumnNames | src/Definition/MysqlProcessor.php:165-170 | the columns loop queues the plan of every listed column, stopping at the first failure |
| MysqlProcessing.MysqlProcessor.ProcessForeignNames | src/Definition/MysqlProcessor.php:171-176 | the foreign keys loop queues the plan of every listed key |
| MysqlProcessing.MysqlProcessor.ProcessIndexNames | src/Definition/MysqlProcessor.php:177-182 | the indexes loop queues the plan of every listed index |
| MysqlProcessing.MysqlProcessor.ProcessUniqueNames | src/Definition/MysqlProcessor.php:183-188 | the unique keys loop queues the plan of every listed unique key |
| MysqlProcessing.MysqlProcessor.ProcessTable | src/Definition/MysqlProcessor.php:147-189 | `processTable` handles `all`, then the primary key with its early return, then the four lists |
| MysqlProcessing.MysqlProcessor.ProcessTables | src/Definition/MysqlProcessor.php:139-143 | the table loop of `processSchema` queues each table entry's plan |
| MysqlProcessing.MysqlProcessor.ProcessSchema | src/Definition/MysqlProcessor.php:129-144 | `processSchema` queues the schema query for `all`, otherwise each table entry |
| MysqlProcessing.MysqlProcessor.ProcessType | src/Definition/MysqlProcessor.php:119-126 | `processType` queues the plan of each schema entry of one operation |
| MysqlProcessing.MysqlProcessor.Prepare | src/Definition/MysqlProcessor.php:109-116 | `prepare` empties the lists, compares, normalizes the target in place and queues exactly the plan of the change set |
| MysqlProperties.UpdateUniqueDropsFirst | src/Definition/MysqlProcessor.php:433-437 | re-adding a unique key runs after its drop, whatever else is queued |
| MysqlProperties.UpdateForeignDropsFirst | src/Definition/MysqlProcessor.php:464-468 | re-adding a foreign key runs after its drop, whatever else is queued |
| MysqlProperties.UpdateIndexAsWrittenCreatesFirst | src/Definition/MysqlProcessor.php:342-346 | as written, the CREATE INDEX of an updated index runs before the DROP INDEX of the old one |
| MysqlProperties.UpdateIndexDropsFirst | src/Definition/MysqlProcessor.php:342-346 | corrected, the old index is dropped before the new one is created |
| MysqlProperties.FulltextAsWrittenDroppedLast | src/Definition/MysqlProcessor.php:473-476 | as written, the DROP INDEX IF EXISTS of a fulltext index runs after the ADD FULLTEXT INDEX of the same name, so the new index is lost |
| MysqlProperties.FulltextDroppedFirst | src/Definition/MysqlProcessor.php:473-476 | corrected, the old fulltext index is dropped immediately before the new one is added |
| MysqlAnalysis.GetType | src/Definition/MysqlAnalyzer.php:230-241 | a MySQL type name maps back to a definition type other than `fulltext`, one the processor writes as that name; anything else is unhandled |
| MysqlAnalysis.GetTypeInverse | src/Definition/MysqlAnalyzer.php:230-241 | reading back the type the processor wrote gives the definition type again, `varchar(255)` listed as `varchar`; `fulltext`, written as `text`, reads back as `text` |
| MysqlAnalysis.GetRestriction | src/Definition/MysqlAnalyzer.php:244-247 | a rule is lower-cased and `no action` read as `restrict`; a rule without `no action` is only lower-cased |
| MysqlAnalysis.RestrictionRoundTrip | src/Definition/MysqlAnalyzer.php:244-247 | the rules the processor writes upper-cased read back as written, and `NO ACTION` reads as `restrict` |
| MysqlAnalysis.GetDefault | src/Definition/MysqlAnalyzer.php:207-227 | a null default reads as null, `current_timestamp()` as `now`, booleans only for bool columns and integers only for numeric columns |
| MysqlAnalysis.BoolDefaultRoundTrip | src/Definition/MysqlAnalyzer.php:216-220 | a boolean default the processor wrote reads back as that boolean |
| MysqlAnalysis.IntDefaultRoundTrip | src/Definition/MysqlAnalyzer.php:221-222 | an integer default the processor wrote reads back as that integer |
| MysqlAnalysis.StringDefaultRoundTrip | src/Definition/MysqlAnalyzer.php:209-224 | a single-line string default the processor wrote, quoted as MariaDB prints it, reads back as that string unless it is `NULL` or `current_timestamp()` |
| MysqlAnalysis.UnquotedStringDefault | src/Definition/MysqlAnalyzer.php:209-224 | a string default printed without quotes and holding none reads back as itself |
| MysqlAnalysis.DefaultNow | src/Definition/MysqlAnalyzer.php:213-214 | `current_timestamp()` reads as `now` whatever the column type |
| MysqlAnalysis.ReadColumn | src/Definition/MysqlAnalyzer.php:41-48 | a column row becomes a column with its name and type, nullable and auto-increment exactly when the flags equal 1; an unknown type stops the analysis |
| MysqlAnalysis.ReadForeign | src/Definition/MysqlAnalyzer.php:51-59 | a foreign-key row becomes a key named by its constraint with its column, referenced schema, table and column and both rules read back |
| MysqlAnalysis.IndexStep | src/Definition/MysqlAnalyzer.php:69-80 | a further column of an index already seen is appended to it; a new full-text index makes its column `fulltext` and keeps no index; another new index starts with its column; no other index changes |
| MysqlAnalysis.IndexGroups | src/Definition/MysqlAnalyzer.php:68-81 | an ordinary index holds every column listed for it, in row order; a full-text index leaves no index behind |
| MysqlAnalysis.IndexColumns | src/Definition/MysqlAnalyzer.php:68-81 | the index loop changes no column except by making it `fulltext` |
| MysqlAnalysis.FulltextColumns | src/Definition/MysqlAnalyzer.php:72-73 | every column that starts a full-text index is `fulltext` once the loop is done |
| MysqlAnalysis.TableOf | src/Definition/MysqlAnalyzer.php:37-84 | a table name becomes a table of that name with the primary key's columns; a table without a primary key stops the analysis |
| MysqlAnalysis.SchemaOf | src/Definition/MysqlAnalyzer.php:30-39 | a requested schema is read back under its own name |
| MysqlAnalysis.TableKeyed | src/Definition/MysqlAnalyzer.php:40-66 | every element of a table read back is keyed once by its own name, and a primary-key column has a null default |
| MysqlAnalysis.DefinitionShape | src/Definition/MysqlAnalyzer.php:26-88 | the schemas read back are exactly the requested ones, each keyed by its name; no table is named `migrations` and every table is keyed by its name |
| MysqlAnalysis.SchemaTables | src/Definition/MysqlAnalyzer.php:33-39 | no table of a schema read back is named `migrations` |
| MysqlAnalysis.ReadIndexes | src/Definition/MysqlAnalyzer.php:68-81 | the index loop computes the index specification |
| MysqlAnalysis.ReadTable | src/Definition/MysqlAnalyzer.php:37-84 | the table loops compute the table specification |
| MysqlAnalysis.ReadSchema | src/Definition/MysqlAnalyzer.php:30-85 | the loop over a schema's tables computes the schema specification |
| MysqlAnalysis.GetDefinition | src/Definition/MysqlAnalyzer.php:26-88 | `getDefinition` computes the definition specification |
| ManipulationItems.Nested | src/Manipulation/Collector.php:101 | the nested array of a key is `[]` when the key is missing or null, and there is none when it holds another scalar |
| ManipulationItems.ValueStep | src/Manipulation/Collector.php:116-128 | one entry of the second array changes only its own key of the first, keeps keys distinct, and for a scalar stores it unless a different set value conflicts without `override` |
| ManipulationItems.ItemStep | src/Manipulation/Collector.php:97-108 | an item whose key `is_numeric` accepts (an integer, or a numeric string such as `"01"` or `"1e3"`) is appended under the next free index; under any other key a scalar replaces a conflicting set value only with `override` and is otherwise dropped, and an array is merged into the nested array, which must not be a scalar |
| ManipulationItems.MergeItemFrame | src/Manipulation/Collector.php:114-130 | a key the second array does not mention keeps the value it had in the first |
| ManipulationItems.MergeItemKeys | src/Manipulation/Collector.php:114-130 | the result has the keys of both arrays, each once |
| ManipulationItems.MergeItemSecondWins | src/Manipulation/Collector.php:119-127 | every scalar of the second array is what the result holds under its key |
| ManipulationItems.MergeItemOverride | src/Manipulation/Collector.php:119-124 | with `override` no value conflicts; the only failure left is a scalar where an array goes |
| ManipulationItems.MergeScalarsOk | src/Manipulation/Collector.php:119-124 | for scalar values without `override`, the merge succeeds exactly when every value of the second array that the first has set agrees with it |
| ManipulationItems.MergeItemSelf | src/Manipulation/Collector.php:114-130 | merging an item with itself changes nothing |
| ManipulationItems.MergeItemsFrame | src/Manipulation/Collector.php:95-111 | a name the second array does not mention keeps the value it had in the first |
| ManipulationItems.MergeItemsScalars | src/Manipulation/Collector.php:102-107 | a scalar under a key `is_numeric` rejects replaces a value the first array has set, which it must equal unless `override`, and is not added when that value is unset |
| ManipulationItems.MergeItemsAppends | src/Manipulation/Collector.php:97-99 | nothing of the first array moves, and the items of the second whose keys `is_numeric` accepts, numeric strings included, are appended after it in order |
| ManipulationItems.MergeItemsOverride | src/Manipulation/Collector.php:102-107 | with `override` the only failure left is a scalar where an array goes |
| ManipulationItems.MergeItemLoop | src/Manipulation/Collector.php:114-130 | the loop of `mergeItem` computes the merge specification |
| ManipulationItems.MergeItemsLoop | src/Manipulation/Collector.php:95-111 | the loop of `mergeItems`, with its `is_numeric` test on each key, computes the merge specification |
| ManipulationCollector.WithOverride | src/Manipulation/Collector.php:37 | the configs with a given `override` flag are exactly those of the list with that flag, in order |
| ManipulationCollector.SortByOverride | src/Manipulation/Collector.php:37 | the stable sort puts every non-overriding config before every overriding one and keeps each group in its order |
| ManipulationCollector.WithOverridePartition | src/Manipulation/Collector.php:37 | splitting the configs by the flag loses none |
| ManipulationCollector.SortByOverridePermutes | src/Manipulation/Collector.php:37 | the sort only reorders the configs |
| ManipulationCollector.SelectedModes | src/Manipulation/Collector.php:45-52 | in production a config needs `prod`, in debug mode `dev`, in test mode `test`, and in debug test mode both |
| ManipulationCollector.DefaultModesSelected | src/Manipulation/Collector.php:43 | a config that does not list its modes is kept in every mode |
| ManipulationCollector.Set | src/Manipulation/Collector.php:56 | storing a config under iteration, class and forceUpdate changes only that slot |
| ManipulationCollector.MissingItemsFinding | src/Manipulation/Collector.php:53-56 | as written, a stored config without `items` makes the next config for its slot fail, and wherever `items` is set the code and the corrected reading agree |
| ManipulationCollector.MissingItemsDefault | src/Manipulation/Collector.php:42 | corrected, a stored config without `items` merges exactly like one with `items: []` |
| ManipulationCollector.Step | src/Manipulation/Collector.php:38-57 | a config not selected for the mode is skipped; the first config for a slot is stored as it is; a later one has its items merged into the stored config's `items`, which fails when the stored config has none |
| ManipulationCollector.GatherSlots | src/Manipulation/Collector.php:38-58 | the slots filled are exactly those of the configs kept for the mode, and each holds a config of that slot |
| ManipulationCollector.GatherFirst | src/Manipulation/Collector.php:53-57 | the first config kept for a slot is the one stored there: every setting but `items` is its own |
| ManipulationCollector.GatherLoop | src/Manipulation/Collector.php:38-58 | the loop over the sorted configs computes the gathering specification |
| ManipulationCollector.ToManipulation | src/Manipulation/Collector.php:39-41 | a stored config becomes a manipulation with its iteration, class and forceUpdate, left-out settings at their defaults |
| ManipulationCollector.ListOfSlots | src/Manipulation/Collector.php:59-70 | each manipulation is stored back under the iteration, class and forceUpdate of the slot its config was kept in |
| ManipulationCollector.GetManipulationList | src/Manipulation/Collector.php:35-71 | `getManipulationList` sorts, filters and merges the configs and turns each stored config into a manipulation, or fails as the merge fails, a stored config without `items` included |
| ManipulationProcessor.DependentGroupClass | src/Manipulation/Processor.php:148-156 | the class of the first group of that name; no such group is an error naming the dependency |
| ManipulationProcessor.FindDependentGroupClass | src/Manipulation/Processor.php:150-155 | the loop of `getDependentGroupClass` finds the same group |
| ManipulationProcessor.NotBlocked | src/Manipulation/Processor.php:123-132 | a class is resolved exactly when each of its dependencies is a done group or names a group whose class is not being sorted |
| ManipulationProcessor.PassStep | src/Manipulation/Processor.php:120-138 | one class of a pass is either left alone or, when not yet placed and resolved, appended with its group marked done |
| ManipulationProcessor.PassGrows | src/Manipulation/Processor.php:119-139 | a pass only appends, and a pass that resolves a class makes the sorted list longer |
| ManipulationProcessor.CheckDependencies | src/Manipulation/Processor.php:124-132 | the dependency loop computes whether the class is blocked |
| ManipulationProcessor.RunPass | src/Manipulation/Processor.php:118-139 | one pass of the `foreach` over the classes computes its specification |
| ManipulationProcessor.SortClassesLoop | src/Manipulation/Processor.php:112-145 | the outer `while` loop of `sortClasses` computes its specification, exception included |
| ManipulationProcessor.PassPlaced | src/Manipulation/Processor.php:119-139 | every class a pass places comes after a class of each group it depends on that is being sorted |
| ManipulationProcessor.SortFromPlaced | src/Manipulation/Processor.php:117-143 | a finished sort places every class and is as long as the input |
| ManipulationProcessor.SortClassesPermutes | src/Manipulation/Processor.php:112-145 | `sortClasses` returns every input class exactly once with its value: the same entries, reordered |
| ManipulationProcessor.SortClassesOrdered | src/Manipulation/Processor.php:124-136 | in the result a class comes after a class of every group its own group depends on, unless that group's class is not being sorted |
| ManipulationProcessor.CycleUnresolvable | src/Manipulation/Processor.php:140-142 | two groups that depend on each other cannot be ordered: the sort throws, naming the last class |
| ManipulationProcessor.AbsentDependencyIgnored | src/Manipulation/Processor.php:127 | a dependency on a group whose class is not being sorted does not hold a class back |
| SelectTree.Walkable | src/Orm/ToArrayConverter.php:125 | taking a reference into null or false turns it into an empty array, into an array enters it, and into any other scalar fails |
| SelectTree.StorePath | src/Orm/ToArrayConverter.php:122-128 | storing along a non-empty path leaves a non-empty array at the top |
| SelectTree.Path | src/Orm/ToArrayConverter.php:123 | the key split at dots gives at least one step, one per piece |
| SelectTree.StoreToTreeLoop | src/Orm/ToArrayConverter.php:119-132 | the walk down the references and the store at the end compute the tree specification |
| SelectTree.WalkDown | src/Orm/ToArrayConverter.php:124-126 | the `foreach` walk collects one array per step, and putting them back together with the value stored at the end is the store; a failed walk is the store's failure |
| SelectTree.StorePathGet | src/Orm/ToArrayConverter.php:122-127 | after a successful store the value sits at the end of the path |
| SelectTree.StorePathFrame | src/Orm/ToArrayConverter.php:122-127 | a path that leaves the stored path at some step reads the same before and after the store |
| SelectTree.StorePathOk | src/Orm/ToArrayConverter.php:124-126 | the store fails exactly when the walk meets a scalar other than null or false |
| SelectTree.StoreToTreeIsStorePath | src/Orm/ToArrayConverter.php:121-131 | a key without a dot stores directly, which is the same as a one-step walk, so both branches agree |
| SelectTree.StoreToTreeStores | src/Orm/ToArrayConverter.php:116-132 | for `a.b.c` the value ends up at `tree[a][b][c]`, and every path that leaves `a.b.c` at some step reads what it read before |
| SelectTree.StorePathProper | src/Orm/ToArrayConverter.php:122-127 | storing a normalized value keeps a normalized tree normalized |
| SelectTree.NormalizeSelect | src/Orm/ToArrayConverter.php:99-113 | a normalized select holds only `true`, strings taken from the input and nested normalized selects |
| SelectTree.NormalizeEntry | src/Orm/ToArrayConverter.php:103-110 | a list entry `'x'` stores `true` at the path of `x`; a nested select is normalized first, and its error is reported before anything else; only then does an integer key fail `string $key` (`KeyNotString`), as it does for a scalar that is not a string; otherwise the nested result is stored, `true` when it comes out empty |
| SelectTree.Store | src/Orm/ToArrayConverter.php:110 | storing into a normalized tree keeps it normalized and puts the value at the key's path |
| SelectTree.NormalizeSelectLoop | src/Orm/ToArrayConverter.php:99-113 | the loop of `normalizeSelect`, calling itself on nested selects, computes the normalization specification, with the same error order (a nested select's error before an integer key's) |
| SelectTree.NormalizeErrSticks | src/Orm/ToArrayConverter.php:102-111 | an error while normalizing one entry ends the loop with that error |
| SelectTree.WholeThenField | src/Orm/ToArrayConverter.php:103-110 | selecting `a` and then `a.b` fails, since `a` already holds `true` |
| SelectTree.NestedErrorFirst | src/Orm/ToArrayConverter.php:106-110 | a nested select that fails under an integer key reports its own error, not the integer key |
| SelectTree.FieldThenWhole | src/Orm/ToArrayConverter.php:103-110 | selecting `a.b` and then `a` leaves only `a` selected whole |
| PropertyOrder.NameFromFqn | src/Orm/ToArrayConverter.php:92-96 | the result is the part of the name after its last backslash: a suffix with no backslash, preceded by one when the name has any, and the whole name when it has none |
| PropertyOrder.NameFromQualified | src/Orm/ToArrayConverter.php:92-96 | a name in any namespace comes back out whole |
| PropertyOrder.CompareFlags | src/Orm/ToArrayConverter.php:84-86 | PHP's `<=>` on two flag lists is -1, 0 or 1, and 0 exactly when they are equal |
| PropertyOrder.Kind | src/Orm/ToArrayConverter.php:75 | every type is one of five kinds |
| PropertyOrder.FlagsOfRank | src/Orm/ToArrayConverter.php:75-77 | the six flags depend only on the primary flag and the kind, and tell both apart |
| PropertyOrder.CompareByKey | src/Orm/ToArrayConverter.php:71-87 | the comparator orders by rank, then short type name, then property name, both names by `strcmp` |
| PropertyOrder.CompareAntisymmetric | src/Orm/ToArrayConverter.php:71-87 | swapping the arguments negates the result |
| PropertyOrder.CompareZero | src/Orm/ToArrayConverter.php:79-80 | two properties tie only when rank, short type and name all agree |
| PropertyOrder.PrecedesTotal | src/Orm/ToArrayConverter.php:71-87 | of any two properties one precedes the other |
| PropertyOrder.PrecedesTransitive | src/Orm/ToArrayConverter.php:71-87 | preceding is transitive, so the comparator is a total preorder as `uasort` needs |
| PropertyOrder.Insert | src/Orm/ToArrayConverter.php:71 | inserting an entry adds exactly that entry |
| PropertyOrder.SortProperties | src/Orm/ToArrayConverter.php:69-89 | `sortProperties` keeps every property with its key and only reorders |
| PropertyOrder.InsertSorted | src/Orm/ToArrayConverter.php:71 | inserting into a sorted list keeps it sorted |
| PropertyOrder.SortPropertiesSorted | src/Orm/ToArrayConverter.php:69-89 | each property of the result precedes the next |
| PropertyOrder.SortPropertiesRanked | src/Orm/ToArrayConverter.php:74-86 | the primary properties come first, then scalar-typed ones, DateTimeImmutable, other classes, OneHasMany and ManyHasMany |
| OrderedMaps.Lookup | src/Definition/Collector.php:46 | a key is set exactly when some entry has it, and the value found is that entry's |
| OrderedMaps.Put | src/Definition/Collector.php:59 | writing an existing key replaces its value in place; writing a new key appends it |
| OrderedMaps.PutLookup | src/Definition/Collector.php:59 | after a write the key holds the new value and every other key what it held |
| OrderedMaps.PutKeys | src/Definition/Collector.php:59 | a write keeps every existing key where it stands and adds at most the key written |
| OrderedMaps.SortByKeyDistinct | src/Definition/Collector.php:88 | `ksort` keeps the keys distinct |
| OrderedMaps.SortByKeyLookup | src/Definition/Collector.php:88-91 | `ksort` leaves every lookup unchanged |
| PhpStrings.IntCastRoundTrip | src/Definition/PgsqlAnalyzer.php:227 | an integer written in decimal and cast back is the same integer |
| PhpStrings.JoinSplit | src/Orm/ToArrayConverter.php:123 | joining the pieces of `explode` with the delimiter gives the text back |
| PhpStrings.SplitLast | src/Orm/ToArrayConverter.php:94-95 | the last piece of `explode` is the longest suffix free of the delimiter |
| PhpStrings.LowerUpper | src/Definition/MysqlAnalyzer.php:246 | lower-casing undoes upper-casing on a text without capitals |
| PhpStrings.SortOrderIndependent | src/Definition/Config/Index.php:22 | `sort` on strings forgets the order in which they were given |
| PhpValues.NextIndex | src/Manipulation/Collector.php:99 | `$a[] = $v` writes at a free index one past the largest integer key, or 0 when there is none |
| PhpValues.ArrayKeyIndex | src/Orm/ToArrayConverter.php:130 | a string key becomes the integer `n` exactly when it is `n` written in decimal within the 64-bit range |

## Left out

- Executing the queued queries (`PgsqlProcessor::process`, `MysqlProcessor::process`): the database connection, the `--reset` argument read from `$_SERVER['argv']`, the `Printer` output and the timing are I/O. The model stops at the step lists. `Queries` states the order in which `process` would run them.
- The analyzers' catalog queries (`getTables`, `getColumns`, `getForeignKeys` and the rest) are database I/O. The rows they return are a parameter (`Catalog`).
- Reading NEON files (`Finder`, `Definition::createFromNeon`, `Manipulation::neonToArray`) is filesystem access and parsing. The decoded definitions and configs are parameters.
- `Manipulation::createFromArray` is modelled only as far as the collector relies on it: each setting takes its default when absent. Its `skipDefaults` argument and its validation of item contents are not part of this model.
- `Manipulation/Processor::process` and `processManipulation` persist entities through the ORM, and the latter has an empty body. Only `sortClasses` and `getDependentGroupClass` are modelled.
- The PHP warning that `sortClasses` raises when a class has no group is not modelled. The model continues as PHP does, with null: the class has no dependencies and its group name is "".
- `ToArrayConverter::toArray` itself, the entity classes, reflection and the repositories are ORM persistence and reflection. Only its helpers are modelled.
- PropertyOrder.Property: `key($a->types)` is given as the property's first declared type (`firstType`). A property without types, where `key` returns null, is not modelled.
- PropertyOrder.SortProperties: `uasort` sorts in place. The model builds the sorted array as a value, by stable insertion. PHP 8's sort is stable, and the comparator is a total preorder (`PrecedesTotal`, `PrecedesTransitive`). The model's insertion keeps properties that compare equal in input order.
- SelectTree.StoreToTreeLoop: `storeToTree` walks down the tree through a PHP reference. The model walks down collecting the nodes (`WalkDown`) and then rebuilds the path from the leaf up. Aliasing through the reference is not modelled; the resulting array is.
- The `$delimiter` parameter of `storeToTree` is always `'.'` at its call sites and is fixed to it.
- `getPhpName`, `getPhpTable` and `getPhpSchema` rely on the library function `StringHelper::camelize`, which is not part of this model.
- The `Config` objects are mutated in place by `Index::process`, `Foreign::process` and the comparator, and PHP shares them between arrays. The model returns updated values; aliasing between definitions is not modelled.
- PhpStrings.IntCast: reads only an optional sign and the leading decimal digits. PHP 7.1 and later also read a leading number in exponent notation (`(int)"1e3"` is 1000, `(int)"1e-05"` is 0) and clamp to the 64-bit bounds; neither is modelled, so a default read back in such a form would differ.
- Config.ProcessIndex: PHP's `sort()` compares two numeric strings as numbers (`"10"` after `"9"`), while the model sorts column names with `strcmp` throughout. The generated name and column order differ only for column names that are numeric strings.
- PhpValues.Value: integers (`Int`, and `VInt` in `Config`) are unbounded. PHP's 64-bit `int` and its overflow to float are not modelled.
- Float columns and defaults: PHP's float-to-string conversion is not modelled. A default value is null, bool, int or string.
- Config.PhpType: requires one of the eight column types. For any other type the `match` raises `UnhandledMatchError`, which is not modelled. The same holds for Config.NextrasType and Config.NextrasTypeParts, which build on it. The processors and analyzers, which read types from outside, model the unmatched case as an error result instead.
- The unknown-step error of `addQuery` is modelled in both processors' `AddQuery`. No call can reach it, because both processors register all twelve steps and only queue into those.
- The interfaces and data holders `Analyzer`, `DbProcessor`, `DiffList`, `MigrationGroup`, `ManipulationList` and `PostProcessable` carry no behaviour; only their data appears, as datatypes.
- DI wiring (`ModelExtension`), code generation (`PropertyProcessor`), `EntityProcessor`, the condition parser and the `Orm/Functions` query wrappers are outside the modelled core.

## Findings

| source | as written | input that shows it | evidently intended | confidence | as-written member | corrected member |
|---|---|---|---|---|---|---|
| src/Definition/MysqlProcessor.php:473-476 | rendering a fulltext column queues `ADD FULLTEXT INDEX` in alterTable and `DROP INDEX IF EXISTS` of the same name in dropIndex, the last step | updating a column of type `fulltext`, or creating a table with one: the index added in alterTable is dropped again in dropIndex | drop the old full-text index before adding the new one, so the index survives | not executed | MysqlProperties.FulltextAsWrittenDroppedLast | MysqlProperties.FulltextDroppedFirst |
| src/Definition/PgsqlProcessor.php:395-398 | `createColumn` queues the sequence statements itself, on top of the ones `column()` already queued | adding an `auto` column to an existing table: two `CREATE SEQUENCE` of the same name, so the second fails | the sequence is created once | not executed | PgsqlProperties.CreateAutoColumnAsWrittenRepeats | PgsqlProperties.CreateAutoColumnSequence |
| src/Definition/PgsqlProcessor.php:371-375 | `updateIndex` queues the DROP in dropIndex (last step) and the CREATE in createIndex (earlier) | updating an index whose columns changed: the CREATE INDEX runs while the old index still holds the name | drop the old index before creating the new one | not executed | PgsqlProperties.UpdateIndexAsWrittenCreatesFirst | PgsqlProperties.UpdateIndexDropsFirst |
| src/Definition/MysqlProcessor.php:342-346 | `updateIndex` queues the DROP in dropIndex (last step) and the CREATE in createIndex (earlier) | updating an index whose columns changed: the CREATE INDEX runs while the old index still holds the name | drop the old index before creating the new one | not executed | MysqlProperties.UpdateIndexAsWrittenCreatesFirst | MysqlProperties.UpdateIndexDropsFirst |
| src/Manipulation/Collector.php:53-56 | the stored config is the raw `$config`, while the merge reads its `items` key | two configs for the same iteration, class and forceUpdate, the first without `items`: null reaches `mergeItems(array $one)` and PHP throws a TypeError | a missing `items` counts as `[]`, as line 42 defaults it for the incoming config | not executed | ManipulationCollector.MissingItemsFinding | ManipulationCollector.MissingItemsDefault |
