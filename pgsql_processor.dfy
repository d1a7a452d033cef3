/**
 * `PgsqlProcessor`: the step lists and the methods that fill them. Every method that queues
 * is proved to queue exactly the queries of its plan in `PgsqlSql` or `PgsqlPlan`, so the
 * ordering facts proved about those plans hold of what the processor executes. `queued` is
 * the history of `addQuery` since the last `reset`; the step lists are that history grouped
 * by step.
 */
module PgsqlProcessing {
  import opened Wrappers
  import opened OrderedMaps
  import opened PhpStrings
  import opened Config
  import opened ChangeSets
  import opened Queries
  import opened PgsqlSql
  import Comparator
  import opened Elements
  import P = PgsqlPlan

  class PgsqlProcessor {
    var steps: Steps
    ghost var queued: seq<Query>
    var definition: Definition
    var oldDefinition: Definition

    ghost predicate Valid()
      reads this
    {
      steps == Grouped(StepOrder, queued)
    }

    constructor()
      ensures Valid() && queued == []
      ensures definition == Definition([]) && oldDefinition == Definition([])
    {
      steps := EmptySteps(StepOrder);
      queued := [];
      definition := Definition([]);
      oldDefinition := Definition([]);
    }

    /** `addQuery`: append to the list of the query's step; an unknown step throws. */
    method AddQuery(q: Query) returns (r: Result<(), ProcessError>)
      requires Valid()
      modifies this`steps, this`queued
      ensures Valid()
      ensures r.Ok? <==> q.step in StepOrder
      ensures r.Err? ==> r.error == UnknownStep(q.step) && queued == old(queued)
      ensures r.Ok? ==> queued == old(queued) + [q]
    {
      StepsDistinct();
      GroupedKeys(StepOrder, queued, q.step);
      if !HasKey(steps, q.step) {
        return Err(UnknownStep(q.step));
      }
      GroupedSnoc(StepOrder, queued, q);
      steps := Put(steps, q.step, Lookup(steps, q.step).value + [q]);
      queued := queued + [q];
      r := Ok(());
    }

    /** `reset`: every step list emptied, the steps kept in their order. */
    method Reset()
      requires Valid()
      modifies this`steps, this`queued
      ensures Valid() && queued == []
    {
      var i := 0;
      while i < |steps|
        invariant 0 <= i <= |steps| == |StepOrder|
        invariant forall j :: 0 <= j < i ==> steps[j] == (StepOrder[j], [])
        invariant forall j :: i <= j < |steps| ==> steps[j] == old(steps)[j]
      {
        steps := steps[i := (steps[i].0, [])];
        i := i + 1;
      }
      queued := [];
    }

    /**
     * `process` without the database: run the lists in order and count the queries run
     * before the first one `ok` rejects.
     */
    method Process(ok: Query -> bool) returns (count: nat)
      ensures count == RunCount(Program(steps), ok)
    {
      ghost var done: seq<Query> := [];
      count := 0;
      var i := 0;
      while i < |steps|
        invariant 0 <= i <= |steps|
        invariant count == |done| && forall q :: q in done ==> ok(q)
        invariant done + Program(steps[i..]) == Program(steps)
      {
        var qs := steps[i].1;
        ProgramFrom(steps, i);
        var j := 0;
        assert done + qs[j..] + Program(steps[i + 1..]) == Program(steps) by {
          assert qs[j..] == qs;
        }
        while j < |qs|
          invariant 0 <= j <= |qs|
          invariant count == |done| && forall q :: q in done ==> ok(q)
          invariant done + qs[j..] + Program(steps[i + 1..]) == Program(steps)
        {
          if !ok(qs[j]) {
            StopsAt(done, qs[j..], Program(steps[i + 1..]), ok);
            return;
          }
          ShiftFirst(done, qs[j..], Program(steps[i + 1..]));
          assert qs[j..][1..] == qs[j + 1..];
          done := done + [qs[j]];
          count := count + 1;
          j := j + 1;
        }
        assert qs[j..] == [];
        assert done + qs[j..] == done;
        i := i + 1;
      }
      RunsAll(done, Program(steps[i..]), ok);
    }

    // -------------------------------------------------------------------------------------
    // Sequences.

    method RemoveSequence(t: Table)
      requires Valid()
      modifies this`steps, this`queued
      ensures Valid() && queued == old(queued) + [DropSequenceQuery(t)]
    {
      var _ := AddQuery(DropSequenceQuery(t));
    }

    /** `createSequence`: drop the sequence, then create it. */
    method CreateSequence(t: Table)
      requires Valid()
      modifies this`steps, this`queued
      ensures Valid() && queued == old(queued) + CreateSequenceQueries(t)
    {
      RemoveSequence(t);
      var _ := AddQuery(CreateSequenceQuery(t));
    }

    method AlterSequence(t: Table, c: Column)
      requires Valid()
      modifies this`steps, this`queued
      ensures Valid() && queued == old(queued) + [AlterSequenceQuery(t, c)]
    {
      var _ := AddQuery(AlterSequenceQuery(t, c));
    }

    // -------------------------------------------------------------------------------------
    // Schemas and tables.

    method CreateSchema(sc: Schema)
      requires Valid()
      modifies this`steps, this`queued
      ensures Valid() && queued == old(queued) + [CreateSchemaQuery(sc)]
    {
      var _ := AddQuery(CreateSchemaQuery(sc));
    }

    method RemoveSchema(sc: Schema)
      requires Valid()
      modifies this`steps, this`queued
      ensures Valid() && queued == old(queued) + [RemoveSchemaQuery(sc)]
    {
      var _ := AddQuery(RemoveSchemaQuery(sc));
    }

    /**
     * `column`: the column's definition; an auto-increment column has its sequence queued
     * on the way. An unknown type or default throws before anything is queued.
     */
    method Column(t: Table, c: Column) returns (r: Result<string, ProcessError>)
      requires Valid()
      modifies this`steps, this`queued
      ensures Valid()
      ensures r.Ok? <==> ColumnParts(t, c).Ok?
      ensures r.Err? ==> queued == old(queued)
      ensures r.Ok? ==> r.value == Join(" ", ColumnParts(t, c).value) && queued == old(queued) + ColumnQueries(t, c)
    {
      var parts := ColumnParts(t, c);
      if parts.Err? {
        return Err(parts.error);
      }
      if c.auto {
        CreateSequence(t);
        AlterSequence(t, c);
      }
      r := Ok(Join(" ", parts.value));
    }

    /** The column definitions of `createTable`, each rendered by `column`. */
    method ColumnDefinitions(t: Table, cols: seq<Column>) returns (r: Result<seq<string>, ProcessError>)
      requires Valid()
      modifies this`steps, this`queued
      ensures Valid()
      ensures r.Ok? <==> ColumnDefs(t, cols).Ok?
      ensures r.Ok? ==> r.value == ColumnDefs(t, cols).value.0 && queued == old(queued) + ColumnDefs(t, cols).value.1
    {
      var defs: seq<string> := [];
      var i := 0;
      while i < |cols|
        invariant 0 <= i <= |cols| && Valid()
        invariant ColumnDefs(t, cols[..i]).Ok?
        invariant defs == ColumnDefs(t, cols[..i]).value.0
        invariant queued == old(queued) + ColumnDefs(t, cols[..i]).value.1
      {
        var c := ColumnDefinitionAt(t, cols, i, old(queued));
        if c.Err? {
          return Err(c.error);
        }
        defs := defs + [c.value];
        i := i + 1;
      }
      assert cols[..i] == cols;
      r := Ok(defs);
    }

    /** One iteration of the column loop of `createTable`. */
    method ColumnDefinitionAt(t: Table, cols: seq<Column>, i: nat, ghost base: seq<Query>) returns (r: Result<string, ProcessError>)
      requires Valid() && i < |cols| && ColumnDefs(t, cols[..i]).Ok?
      requires queued == base + ColumnDefs(t, cols[..i]).value.1
      modifies this`steps, this`queued
      ensures Valid()
      ensures r.Err? ==> ColumnDefs(t, cols).Err?
      ensures r.Ok? ==> ColumnDefs(t, cols[..i + 1]).Ok?
                        && ColumnDefs(t, cols[..i + 1]).value.0 == ColumnDefs(t, cols[..i]).value.0 + [r.value]
                        && queued == base + ColumnDefs(t, cols[..i + 1]).value.1
    {
      assert cols[..i + 1][..i] == cols[..i];
      r := Column(t, cols[i]);
      if r.Ok? {
        Appended(base, ColumnDefs(t, cols[..i]).value.1, ColumnQueries(t, cols[i]));
      }
    }

    method CreateUniques(s: Schema, t: Table, us: seq<Unique>)
      requires Valid()
      modifies this`steps, this`queued
      ensures Valid() && queued == old(queued) + UniquesQueries(s, t, us)
    {
      var i := 0;
      while i < |us|
        invariant 0 <= i <= |us| && Valid()
        invariant queued == old(queued) + UniquesQueries(s, t, us[..i])
      {
        CreateUnique(s, t, us[i]);
        PrefixStep(us, i);
        i := i + 1;
      }
      assert us[..i] == us;
    }

    method CreateIndexes(s: Schema, t: Table, ixs: seq<Index>)
      requires Valid()
      modifies this`steps, this`queued
      ensures Valid() && queued == old(queued) + IndexesQueries(s, t, ixs)
    {
      var i := 0;
      while i < |ixs|
        invariant 0 <= i <= |ixs| && Valid()
        invariant queued == old(queued) + IndexesQueries(s, t, ixs[..i])
      {
        CreateIndex(s, t, ixs[i]);
        PrefixStep(ixs, i);
        i := i + 1;
      }
      assert ixs[..i] == ixs;
    }

    method CreateForeigns(s: Schema, t: Table, fs: seq<Foreign>)
      requires Valid()
      modifies this`steps, this`queued
      ensures Valid() && queued == old(queued) + ForeignsQueries(s, t, fs)
    {
      var i := 0;
      while i < |fs|
        invariant 0 <= i <= |fs| && Valid()
        invariant queued == old(queued) + ForeignsQueries(s, t, fs[..i])
      {
        CreateForeign(s, t, fs[i]);
        PrefixStep(fs, i);
        i := i + 1;
      }
      assert fs[..i] == fs;
    }

    /** `createTable`: the CREATE TABLE, then one query per unique key, index and foreign key. */
    method CreateTable(s: Schema, t: Table) returns (r: Result<(), ProcessError>)
      requires Valid()
      modifies this`steps, this`queued
      ensures Valid()
      ensures r.Ok? <==> CreateTableQueries(s, t).Ok?
      ensures r.Ok? ==> queued == old(queued) + CreateTableQueries(s, t).value
    {
      var defs := ColumnDefinitions(t, ValuesOf(t.columns));
      if defs.Err? {
        return Err(defs.error);
      }
      var pk := PrimarySql(t.primaryKey);
      if pk.Err? {
        return Err(pk.error);
      }
      ghost var plan := ColumnDefs(t, ValuesOf(t.columns)).value.1;
      var create := Query(Step.CreateTable, CreateTableSql(s, defs.value, pk.value, t), Some(Label(s, t)), Some("creating table"), None);
      var _ := AddQuery(create);
      Appended(old(queued), plan, [create]);
      plan := plan + [create];
      CreateUniques(s, t, ValuesOf(t.uniqueKeys));
      Appended(old(queued), plan, UniquesQueries(s, t, ValuesOf(t.uniqueKeys)));
      plan := plan + UniquesQueries(s, t, ValuesOf(t.uniqueKeys));
      CreateIndexes(s, t, ValuesOf(t.indexes));
      Appended(old(queued), plan, IndexesQueries(s, t, ValuesOf(t.indexes)));
      plan := plan + IndexesQueries(s, t, ValuesOf(t.indexes));
      CreateForeigns(s, t, ValuesOf(t.foreignKeys));
      Appended(old(queued), plan, ForeignsQueries(s, t, ValuesOf(t.foreignKeys)));
      plan := plan + ForeignsQueries(s, t, ValuesOf(t.foreignKeys));
      assert plan == CreateTableQueries(s, t).value;
      r := Ok(());
    }

    /** `removeTable`: the table, then its sequence. */
    method RemoveTable(s: Schema, t: Table)
      requires Valid()
      modifies this`steps, this`queued
      ensures Valid() && queued == old(queued) + RemoveTableQueries(s, t)
    {
      var _ := AddQuery(RemoveTableQueries(s, t)[0]);
      RemoveSequence(t);
    }

    /** `updatePrimary`: one statement dropping the old primary key and adding the new one. */
    method UpdatePrimary(s: Schema, t: Table) returns (r: Result<(), ProcessError>)
      requires Valid()
      modifies this`steps, this`queued
      ensures Valid()
      ensures r.Ok? <==> UpdatePrimaryQueries(s, t).Ok?
      ensures r.Err? ==> queued == old(queued)
      ensures r.Ok? ==> queued == old(queued) + UpdatePrimaryQueries(s, t).value
    {
      var q := UpdatePrimaryQueries(s, t);
      if q.Err? {
        return Err(q.error);
      }
      var _ := AddQuery(q.value[0]);
      r := Ok(());
    }

    // -------------------------------------------------------------------------------------
    // Indexes, columns, unique keys and foreign keys.

    method CreateIndex(s: Schema, t: Table, ix: Index)
      requires Valid()
      modifies this`steps, this`queued
      ensures Valid() && queued == old(queued) + [CreateIndexQuery(s, t, ix)]
    {
      var _ := AddQuery(CreateIndexQuery(s, t, ix));
    }

    method RemoveIndex(s: Schema, t: Table, ix: Index)
      requires Valid()
      modifies this`steps, this`queued
      ensures Valid() && queued == old(queued) + [RemoveIndexQuery(s, t, ix)]
    {
      var _ := AddQuery(RemoveIndexQuery(s, t, ix));
    }

    /** `updateIndex`: the drop goes to `dropIndex`, the create to `createIndex`. */
    method UpdateIndex(s: Schema, t: Table, ix: Index)
      requires Valid()
      modifies this`steps, this`queued
      ensures Valid() && queued == old(queued) + UpdateIndexQueries(s, t, ix)
    {
      RemoveIndex(s, t, ix);
      CreateIndex(s, t, ix);
    }

    method CreateFulltext(s: Schema, t: Table, c: Column)
      requires Valid()
      modifies this`steps, this`queued
      ensures Valid() && queued == old(queued) + [CreateFulltextQuery(s, t, c)]
    {
      var _ := AddQuery(CreateFulltextQuery(s, t, c));
    }

    /**
     * `createColumn`: the full-text index, the sequence of an auto-increment column, then the
     * ADD COLUMN, whose rendering by `column` queues the sequence a second time.
     */
    method CreateColumn(s: Schema, t: Table, c: Column) returns (r: Result<(), ProcessError>)
      requires Valid()
      modifies this`steps, this`queued
      ensures Valid()
      ensures r.Ok? <==> CreateColumnQueries(s, t, c).Ok?
      ensures r.Ok? ==> queued == old(queued) + CreateColumnQueries(s, t, c).value
    {
      ghost var q0 := queued;
      ghost var full := FulltextQueries(s, t, c);
      if c.typ == "fulltext" {
        CreateFulltext(s, t, c);
      }
      assert queued == q0 + full;
      ghost var seqs := if c.auto then CreateSequenceQueries(t) + [AlterSequenceQuery(t, c)] else [];
      if c.auto {
        CreateSequence(t);
        AlterSequence(t, c);
      }
      Appended(q0, full, seqs);
      assert queued == q0 + (full + seqs);
      var def := Column(t, c);
      if def.Err? {
        return Err(def.error);
      }
      Appended(q0, full + seqs, ColumnQueries(t, c));
      ghost var before := full + seqs + ColumnQueries(t, c);
      assert queued == q0 + before;
      var add := AddColumnQuery(s, t, c, def.value);
      var _ := AddQuery(add);
      Appended(q0, before, [add]);
      assert CreateColumnQueries(s, t, c) == Ok(before + [add]);
      r := Ok(());
    }

    method RemoveColumn(s: Schema, t: Table, c: Column)
      requires Valid()
      modifies this`steps, this`queued
      ensures Valid() && queued == old(queued) + [RemoveColumnQuery(s, t, c)]
    {
      var _ := AddQuery(RemoveColumnQuery(s, t, c));
    }

    /** `updateColumn`: the sequence of an auto-increment column, then the ALTER TABLE. */
    method UpdateColumn(s: Schema, t: Table, c: Column) returns (r: Result<(), ProcessError>)
      requires Valid()
      modifies this`steps, this`queued
      ensures Valid()
      ensures r.Ok? <==> UpdateColumnQueries(s, t, c).Ok?
      ensures r.Ok? ==> queued == old(queued) + UpdateColumnQueries(s, t, c).value
    {
      if c.auto {
        CreateSequence(t);
        AlterSequence(t, c);
        Appended(old(queued), CreateSequenceQueries(t), [AlterSequenceQuery(t, c)]);
      }
      var parts := AlterColumnParts(t, c);
      if parts.Err? {
        return Err(parts.error);
      }
      var alter := Query(Step.AlterTable, "ALTER TABLE " + TableRef(s, t) + " " + Join(", ", parts.value),
                         Some(Label(s, t)), Some("updating column"), Some(c.name));
      var _ := AddQuery(alter);
      Appended(old(queued), ColumnQueries(t, c), [alter]);
      r := Ok(());
    }

    method CreateUnique(s: Schema, t: Table, u: Unique)
      requires Valid()
      modifies this`steps, this`queued
      ensures Valid() && queued == old(queued) + [CreateUniqueQuery(s, t, u)]
    {
      var _ := AddQuery(CreateUniqueQuery(s, t, u));
    }

    method RemoveUnique(s: Schema, t: Table, u: Unique)
      requires Valid()
      modifies this`steps, this`queued
      ensures Valid() && queued == old(queued) + [RemoveUniqueQuery(s, t, u)]
    {
      var _ := AddQuery(RemoveUniqueQuery(s, t, u));
    }

    method UpdateUnique(s: Schema, t: Table, u: Unique)
      requires Valid()
      modifies this`steps, this`queued
      ensures Valid() && queued == old(queued) + UpdateUniqueQueries(s, t, u)
    {
      RemoveUnique(s, t, u);
      CreateUnique(s, t, u);
    }

    method CreateForeign(s: Schema, t: Table, f: Foreign)
      requires Valid()
      modifies this`steps, this`queued
      ensures Valid() && queued == old(queued) + [CreateForeignQuery(s, t, f)]
    {
      var _ := AddQuery(CreateForeignQuery(s, t, f));
    }

    method RemoveForeign(s: Schema, t: Table, f: Foreign)
      requires Valid()
      modifies this`steps, this`queued
      ensures Valid() && queued == old(queued) + [RemoveForeignQuery(s, t, f)]
    {
      var _ := AddQuery(RemoveForeignQuery(s, t, f));
    }

    method UpdateForeign(s: Schema, t: Table, f: Foreign)
      requires Valid()
      modifies this`steps, this`queued
      ensures Valid() && queued == old(queued) + UpdateForeignQueries(s, t, f)
    {
      RemoveForeign(s, t, f);
      CreateForeign(s, t, f);
    }

    // -------------------------------------------------------------------------------------
    // Dispatch over the change set.

    method ProcessColumn(op: Op, s: Schema, t: Table, c: Column) returns (r: Result<(), ProcessError>)
      requires Valid()
      modifies this`steps, this`queued
      ensures Valid()
      ensures r.Ok? <==> P.ColumnChangeQueries(op, s, t, c).Ok?
      ensures r.Ok? ==> queued == old(queued) + P.ColumnChangeQueries(op, s, t, c).value
    {
      match op
      case Create => r := CreateColumn(s, t, c);
      case Remove => RemoveColumn(s, t, c); r := Ok(());
      case Update => r := UpdateColumn(s, t, c);
    }

    method ProcessForeignKey(op: Op, s: Schema, t: Table, f: Foreign)
      requires Valid()
      modifies this`steps, this`queued
      ensures Valid() && queued == old(queued) + P.ForeignChangeQueries(op, s, t, f)
    {
      match op
      case Create => CreateForeign(s, t, f);
      case Remove => RemoveForeign(s, t, f);
      case Update => UpdateForeign(s, t, f);
    }

    method ProcessIndex(op: Op, s: Schema, t: Table, ix: Index)
      requires Valid()
      modifies this`steps, this`queued
      ensures Valid() && queued == old(queued) + P.IndexChangeQueries(op, s, t, ix)
    {
      match op
      case Create => CreateIndex(s, t, ix);
      case Update => UpdateIndex(s, t, ix);
      case Remove => RemoveIndex(s, t, ix);
    }

    method ProcessUniqueKey(op: Op, s: Schema, t: Table, u: Unique)
      requires Valid()
      modifies this`steps, this`queued
      ensures Valid() && queued == old(queued) + P.UniqueChangeQueries(op, s, t, u)
    {
      match op
      case Create => CreateUnique(s, t, u);
      case Update => UpdateUnique(s, t, u);
      case Remove => RemoveUnique(s, t, u);
    }

    /** The columns loop of `processTable`. */
    method ProcessColumnNames(op: Op, s: Schema, t: Table, names: seq<string>) returns (r: Result<(), ProcessError>)
      requires Valid()
      modifies this`steps, this`queued
      ensures Valid()
      ensures r.Ok? <==> P.ColumnNamesQueries(op, oldDefinition, s, t, names).Ok?
      ensures r.Ok? ==> queued == old(queued) + P.ColumnNamesQueries(op, oldDefinition, s, t, names).value
    {
      var i := 0;
      while i < |names|
        invariant 0 <= i <= |names| && Valid()
        invariant P.ColumnNamesQueries(op, oldDefinition, s, t, names[..i]).Ok?
        invariant queued == old(queued) + P.ColumnNamesQueries(op, oldDefinition, s, t, names[..i]).value
      {
        r := ProcessColumnName(op, s, t, names, i, old(queued));
        if r.Err? {
          return;
        }
        i := i + 1;
      }
      assert names[..i] == names;
      r := Ok(());
    }

    /** One iteration of the columns loop: look the name up, then `process*` what it names. */
    method ProcessColumnName(op: Op, s: Schema, t: Table, names: seq<string>, i: nat, ghost base: seq<Query>)
      returns (r: Result<(), ProcessError>)
      requires Valid() && i < |names|
      requires P.ColumnNamesQueries(op, oldDefinition, s, t, names[..i]).Ok?
      requires queued == base + P.ColumnNamesQueries(op, oldDefinition, s, t, names[..i]).value
      modifies this`steps, this`queued
      ensures Valid()
      ensures r.Err? ==> P.ColumnNamesQueries(op, oldDefinition, s, t, names).Err?
      ensures r.Ok? ==> P.ColumnNamesQueries(op, oldDefinition, s, t, names[..i + 1]).Ok?
      ensures r.Ok? ==> queued == base + P.ColumnNamesQueries(op, oldDefinition, s, t, names[..i + 1]).value
    {
      ConcatResultsStep(names, P.EachColumn(op, oldDefinition, s, t), i);
      var c := FindColumn(oldDefinition, s, t, names[i]);
      if c.None? {
        return Err(NullArgument("column"));
      }
      r := ProcessColumn(op, s, t, c.value);
      if r.Err? {
        return;
      }
      Appended(base, P.ColumnNamesQueries(op, oldDefinition, s, t, names[..i]).value, P.ColumnNameQueries(op, oldDefinition, s, t, names[i]).value);
    }

    /** The foreignKeys loop of `processTable`. */
    method ProcessForeignNames(op: Op, s: Schema, t: Table, names: seq<string>) returns (r: Result<(), ProcessError>)
      requires Valid()
      modifies this`steps, this`queued
      ensures Valid()
      ensures r.Ok? <==> P.ForeignNamesQueries(op, oldDefinition, s, t, names).Ok?
      ensures r.Ok? ==> queued == old(queued) + P.ForeignNamesQueries(op, oldDefinition, s, t, names).value
    {
      var i := 0;
      while i < |names|
        invariant 0 <= i <= |names| && Valid()
        invariant P.ForeignNamesQueries(op, oldDefinition, s, t, names[..i]).Ok?
        invariant queued == old(queued) + P.ForeignNamesQueries(op, oldDefinition, s, t, names[..i]).value
      {
        r := ProcessForeignName(op, s, t, names, i, old(queued));
        if r.Err? {
          return;
        }
        i := i + 1;
      }
      assert names[..i] == names;
      r := Ok(());
    }

    /** One iteration of the foreignKeys loop: look the name up, then `process*` what it names. */
    method ProcessForeignName(op: Op, s: Schema, t: Table, names: seq<string>, i: nat, ghost base: seq<Query>)
      returns (r: Result<(), ProcessError>)
      requires Valid() && i < |names|
      requires P.ForeignNamesQueries(op, oldDefinition, s, t, names[..i]).Ok?
      requires queued == base + P.ForeignNamesQueries(op, oldDefinition, s, t, names[..i]).value
      modifies this`steps, this`queued
      ensures Valid()
      ensures r.Err? ==> P.ForeignNamesQueries(op, oldDefinition, s, t, names).Err?
      ensures r.Ok? ==> P.ForeignNamesQueries(op, oldDefinition, s, t, names[..i + 1]).Ok?
      ensures r.Ok? ==> queued == base + P.ForeignNamesQueries(op, oldDefinition, s, t, names[..i + 1]).value
    {
      ConcatResultsStep(names, P.EachForeign(op, oldDefinition, s, t), i);
      var f := FindForeign(oldDefinition, s, t, names[i]);
      if f.None? {
        return Err(NullArgument("foreignKey"));
      }
      ProcessForeignKey(op, s, t, f.value);
      Appended(base, P.ForeignNamesQueries(op, oldDefinition, s, t, names[..i]).value, P.ForeignNameQueries(op, oldDefinition, s, t, names[i]).value);
      r := Ok(());
    }

    /** The indexes loop of `processTable`. */
    method ProcessIndexNames(op: Op, s: Schema, t: Table, names: seq<string>) returns (r: Result<(), ProcessError>)
      requires Valid()
      modifies this`steps, this`queued
      ensures Valid()
      ensures r.Ok? <==> P.IndexNamesQueries(op, oldDefinition, s, t, names).Ok?
      ensures r.Ok? ==> queued == old(queued) + P.IndexNamesQueries(op, oldDefinition, s, t, names).value
    {
      var i := 0;
      while i < |names|
        invariant 0 <= i <= |names| && Valid()
        invariant P.IndexNamesQueries(op, oldDefinition, s, t, names[..i]).Ok?
        invariant queued == old(queued) + P.IndexNamesQueries(op, oldDefinition, s, t, names[..i]).value
      {
        r := ProcessIndexName(op, s, t, names, i, old(queued));
        if r.Err? {
          return;
        }
        i := i + 1;
      }
      assert names[..i] == names;
      r := Ok(());
    }

    /** One iteration of the indexes loop: look the name up, then `process*` what it names. */
    method ProcessIndexName(op: Op, s: Schema, t: Table, names: seq<string>, i: nat, ghost base: seq<Query>)
      returns (r: Result<(), ProcessError>)
      requires Valid() && i < |names|
      requires P.IndexNamesQueries(op, oldDefinition, s, t, names[..i]).Ok?
      requires queued == base + P.IndexNamesQueries(op, oldDefinition, s, t, names[..i]).value
      modifies this`steps, this`queued
      ensures Valid()
      ensures r.Err? ==> P.IndexNamesQueries(op, oldDefinition, s, t, names).Err?
      ensures r.Ok? ==> P.IndexNamesQueries(op, oldDefinition, s, t, names[..i + 1]).Ok?
      ensures r.Ok? ==> queued == base + P.IndexNamesQueries(op, oldDefinition, s, t, names[..i + 1]).value
    {
      ConcatResultsStep(names, P.EachIndex(op, oldDefinition, s, t), i);
      var ix := FindIndex(oldDefinition, s, t, names[i]);
      if ix.None? {
        return Err(NullArgument("index"));
      }
      ProcessIndex(op, s, t, ix.value);
      Appended(base, P.IndexNamesQueries(op, oldDefinition, s, t, names[..i]).value, P.IndexNameQueries(op, oldDefinition, s, t, names[i]).value);
      r := Ok(());
    }

    /** The uniqueKeys loop of `processTable`. */
    method ProcessUniqueNames(op: Op, s: Schema, t: Table, names: seq<string>) returns (r: Result<(), ProcessError>)
      requires Valid()
      modifies this`steps, this`queued
      ensures Valid()
      ensures r.Ok? <==> P.UniqueNamesQueries(op, oldDefinition, s, t, names).Ok?
      ensures r.Ok? ==> queued == old(queued) + P.UniqueNamesQueries(op, oldDefinition, s, t, names).value
    {
      var i := 0;
      while i < |names|
        invariant 0 <= i <= |names| && Valid()
        invariant P.UniqueNamesQueries(op, oldDefinition, s, t, names[..i]).Ok?
        invariant queued == old(queued) + P.UniqueNamesQueries(op, oldDefinition, s, t, names[..i]).value
      {
        r := ProcessUniqueName(op, s, t, names, i, old(queued));
        if r.Err? {
          return;
        }
        i := i + 1;
      }
      assert names[..i] == names;
      r := Ok(());
    }

    /** One iteration of the uniqueKeys loop: look the name up, then `process*` what it names. */
    method ProcessUniqueName(op: Op, s: Schema, t: Table, names: seq<string>, i: nat, ghost base: seq<Query>)
      returns (r: Result<(), ProcessError>)
      requires Valid() && i < |names|
      requires P.UniqueNamesQueries(op, oldDefinition, s, t, names[..i]).Ok?
      requires queued == base + P.UniqueNamesQueries(op, oldDefinition, s, t, names[..i]).value
      modifies this`steps, this`queued
      ensures Valid()
      ensures r.Err? ==> P.UniqueNamesQueries(op, oldDefinition, s, t, names).Err?
      ensures r.Ok? ==> P.UniqueNamesQueries(op, oldDefinition, s, t, names[..i + 1]).Ok?
      ensures r.Ok? ==> queued == base + P.UniqueNamesQueries(op, oldDefinition, s, t, names[..i + 1]).value
    {
      ConcatResultsStep(names, P.EachUnique(op, oldDefinition, s, t), i);
      var u := FindUnique(oldDefinition, s, t, names[i]);
      if u.None? {
        return Err(NullArgument("uniqueKey"));
      }
      ProcessUniqueKey(op, s, t, u.value);
      Appended(base, P.UniqueNamesQueries(op, oldDefinition, s, t, names[..i]).value, P.UniqueNameQueries(op, oldDefinition, s, t, names[i]).value);
      r := Ok(());
    }

    /** `processTable`: 'all', then 'primaryKey' with its early return, then the four lists. */
    method ProcessTable(op: Op, s: Schema, t: Table, tc: TableChange) returns (r: Result<(), ProcessError>)
      requires Valid()
      modifies this`steps, this`queued
      ensures Valid()
      ensures r.Ok? <==> P.TableQueries(op, oldDefinition, s, t, tc).Ok?
      ensures r.Ok? ==> queued == old(queued) + P.TableQueries(op, oldDefinition, s, t, tc).value
    {
      if tc.all {
        match op {
          case Create => r := CreateTable(s, t);
          case Remove => RemoveTable(s, t); r := Ok(());
          case Update => r := Err(UpdateWithAllTable(s.name, t.name));
        }
        return;
      }
      if tc.primaryKey {
        match op {
          case Create => r := Err(CreateWithPrimaryKey(t.name));
          case Remove => r := Err(RemoveWithPrimaryKey(t.name));
          case Update => r := UpdatePrimary(s, t);
        }
        return;
      }
      r := ProcessColumnNames(op, s, t, tc.columns);
      if r.Err? {
        return;
      }
      ghost var plan := P.ColumnNamesQueries(op, oldDefinition, s, t, tc.columns).value;
      r := ProcessForeignNames(op, s, t, tc.foreignKeys);
      if r.Err? {
        return;
      }
      ghost var more := P.ForeignNamesQueries(op, oldDefinition, s, t, tc.foreignKeys).value;
      Appended(old(queued), plan, more);
      plan := plan + more;
      r := ProcessIndexNames(op, s, t, tc.indexes);
      if r.Err? {
        return;
      }
      more := P.IndexNamesQueries(op, oldDefinition, s, t, tc.indexes).value;
      Appended(old(queued), plan, more);
      plan := plan + more;
      r := ProcessUniqueNames(op, s, t, tc.uniqueKeys);
      if r.Err? {
        return;
      }
      more := P.UniqueNamesQueries(op, oldDefinition, s, t, tc.uniqueKeys).value;
      Appended(old(queued), plan, more);
    }

    /** The table loop of `processSchema`. */
    method ProcessTables(op: Op, sc: Schema, entries: OMap<string, TableChange>) returns (r: Result<(), ProcessError>)
      requires Valid()
      modifies this`steps, this`queued
      ensures Valid()
      ensures r.Ok? <==> P.TablesQueries(op, oldDefinition, sc, entries).Ok?
      ensures r.Ok? ==> queued == old(queued) + P.TablesQueries(op, oldDefinition, sc, entries).value
    {
      var i := 0;
      while i < |entries|
        invariant 0 <= i <= |entries| && Valid()
        invariant P.TablesQueries(op, oldDefinition, sc, entries[..i]).Ok?
        invariant queued == old(queued) + P.TablesQueries(op, oldDefinition, sc, entries[..i]).value
      {
        r := ProcessTableEntry(op, sc, entries, i, old(queued));
        if r.Err? {
          return;
        }
        i := i + 1;
      }
      assert entries[..i] == entries;
      r := Ok(());
    }

    /** One iteration of the table loop: the table of the schema at hand, else of the database. */
    method ProcessTableEntry(op: Op, sc: Schema, entries: OMap<string, TableChange>, i: nat, ghost base: seq<Query>)
      returns (r: Result<(), ProcessError>)
      requires Valid() && i < |entries|
      requires P.TablesQueries(op, oldDefinition, sc, entries[..i]).Ok?
      requires queued == base + P.TablesQueries(op, oldDefinition, sc, entries[..i]).value
      modifies this`steps, this`queued
      ensures Valid()
      ensures r.Err? ==> P.TablesQueries(op, oldDefinition, sc, entries).Err?
      ensures r.Ok? ==> P.TablesQueries(op, oldDefinition, sc, entries[..i + 1]).Ok?
      ensures r.Ok? ==> queued == base + P.TablesQueries(op, oldDefinition, sc, entries[..i + 1]).value
    {
      ConcatResultsStep(entries, P.EachTable(op, oldDefinition, sc), i);
      var t := FindTable(oldDefinition, sc, entries[i].0);
      if t.None? {
        return Err(NullArgument("table"));
      }
      r := ProcessTable(op, sc, t.value, entries[i].1);
      if r.Err? {
        return;
      }
      Appended(base, P.TablesQueries(op, oldDefinition, sc, entries[..i]).value, P.TableEntryQueries(op, oldDefinition, sc, entries[i]).value);
    }

    /** `processSchema`: 'all' queues the schema query and returns; otherwise each table entry. */
    method ProcessSchema(op: Op, sc: Schema, change: SchemaChange) returns (r: Result<(), ProcessError>)
      requires Valid()
      modifies this`steps, this`queued
      ensures Valid()
      ensures r.Ok? <==> P.SchemaQueries(op, oldDefinition, sc, change).Ok?
      ensures r.Ok? ==> queued == old(queued) + P.SchemaQueries(op, oldDefinition, sc, change).value
    {
      if change.all {
        match op {
          case Create => CreateSchema(sc); r := Ok(());
          case Remove => RemoveSchema(sc); r := Ok(());
          case Update => r := Err(UpdateWithAllSchema(sc.name));
        }
        return;
      }
      r := ProcessTables(op, sc, change.tables);
    }

    /** `processType`: each schema entry of one operation. */
    method ProcessType(op: Op, entries: OMap<string, SchemaChange>) returns (r: Result<(), ProcessError>)
      requires Valid()
      modifies this`steps, this`queued
      ensures Valid()
      ensures r.Ok? <==> P.OpQueries(op, definition, oldDefinition, entries).Ok?
      ensures r.Ok? ==> queued == old(queued) + P.OpQueries(op, definition, oldDefinition, entries).value
    {
      var i := 0;
      while i < |entries|
        invariant 0 <= i <= |entries| && Valid()
        invariant P.OpQueries(op, definition, oldDefinition, entries[..i]).Ok?
        invariant queued == old(queued) + P.OpQueries(op, definition, oldDefinition, entries[..i]).value
      {
        r := ProcessSchemaEntry(op, entries, i, old(queued));
        if r.Err? {
          return;
        }
        i := i + 1;
      }
      assert entries[..i] == entries;
      r := Ok(());
    }

    /** One iteration of `processType`: the schema of the target definition, else of the database. */
    method ProcessSchemaEntry(op: Op, entries: OMap<string, SchemaChange>, i: nat, ghost base: seq<Query>)
      returns (r: Result<(), ProcessError>)
      requires Valid() && i < |entries|
      requires P.OpQueries(op, definition, oldDefinition, entries[..i]).Ok?
      requires queued == base + P.OpQueries(op, definition, oldDefinition, entries[..i]).value
      modifies this`steps, this`queued
      ensures Valid()
      ensures r.Err? ==> P.OpQueries(op, definition, oldDefinition, entries).Err?
      ensures r.Ok? ==> P.OpQueries(op, definition, oldDefinition, entries[..i + 1]).Ok?
      ensures r.Ok? ==> queued == base + P.OpQueries(op, definition, oldDefinition, entries[..i + 1]).value
    {
      ConcatResultsStep(entries, P.EachSchema(op, definition, oldDefinition), i);
      var sc := FindSchema(definition, oldDefinition, entries[i].0);
      if sc.None? {
        return Err(NullArgument("schema"));
      }
      r := ProcessSchema(op, sc.value, entries[i].1);
      if r.Err? {
        return;
      }
      Appended(base, P.OpQueries(op, definition, oldDefinition, entries[..i]).value, P.SchemaEntryQueries(op, definition, oldDefinition, entries[i]).value);
    }

    /**
     * `prepare`, with the two definitions `process` reads passed in: empty the lists,
     * compare (which normalises the target in place), then queue each operation's plan.
     */
    method Prepare(target: Definition, current: Definition) returns (r: Result<(), ProcessError>)
      requires Valid()
      modifies this
      ensures Valid()
      ensures r.Ok? <==> P.PrepareQueries(target, current).Ok?
      ensures r.Ok? ==> queued == P.PrepareQueries(target, current).value
      ensures r.Ok? ==> definition == Comparator.Normalized(target, current) && oldDefinition == current
    {
      definition := target;
      oldDefinition := current;
      Reset();
      var diff, updated := Comparator.CompareDefinitions(definition, oldDefinition);
      if diff.Err? {
        return Err(CompareFailed(diff.error.schema, diff.error.table));
      }
      definition := updated;
      var cs := diff.value;
      var i := 0;
      while i < |cs|
        invariant 0 <= i <= |cs| && Valid()
        invariant definition == Comparator.Normalized(target, current) && oldDefinition == current
        invariant P.ChangeQueries(cs[..i], definition, oldDefinition).Ok?
        invariant queued == P.ChangeQueries(cs[..i], definition, oldDefinition).value
      {
        r := ProcessTypeEntry(cs, i);
        if r.Err? {
          return;
        }
        i := i + 1;
      }
      assert cs[..i] == cs;
      r := Ok(());
    }

    /** One iteration of `prepare`: `processType` on one operation of the change set. */
    method ProcessTypeEntry(cs: ChangeSet, i: nat) returns (r: Result<(), ProcessError>)
      requires Valid() && i < |cs|
      requires P.ChangeQueries(cs[..i], definition, oldDefinition).Ok?
      requires queued == P.ChangeQueries(cs[..i], definition, oldDefinition).value
      modifies this`steps, this`queued
      ensures Valid()
      ensures r.Err? ==> P.ChangeQueries(cs, definition, oldDefinition).Err?
      ensures r.Ok? ==> P.ChangeQueries(cs[..i + 1], definition, oldDefinition).Ok?
      ensures r.Ok? ==> queued == P.ChangeQueries(cs[..i + 1], definition, oldDefinition).value
    {
      ConcatResultsStep(cs, P.EachOp(definition, oldDefinition), i);
      r := ProcessType(cs[i].0, cs[i].1);
    }
  }
}
