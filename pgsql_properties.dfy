/**
 * When the PostgreSQL queries run. `process` executes the step lists in their fixed order,
 * so what an operation queues runs in the order of the steps it picks, whatever else is
 * queued around it.
 */
module PgsqlProperties {
  import opened Wrappers
  import opened OrderedMaps
  import opened Config
  import opened Queries
  import opened PgsqlSql

  /** The queries `p` of a prepared run: everything queued, grouped and run step by step. */
  function Executed(qs: seq<Query>): seq<Query> {
    Program(Grouped(StepOrder, qs))
  }

  /** Dropping and re-adding a unique key: the drop runs first. */
  lemma UpdateUniqueDropsFirst(s: Schema, t: Table, u: Unique, qs: seq<Query>)
    requires forall q :: q in UpdateUniqueQueries(s, t, u) ==> q in qs
    ensures AlwaysBefore(Executed(qs), RemoveUniqueQuery(s, t, u), CreateUniqueQuery(s, t, u))
  {
    StepsDistinct();
    Ranks();
    RunsBefore(StepOrder, qs, RemoveUniqueQuery(s, t, u), CreateUniqueQuery(s, t, u));
  }

  /** Dropping and re-adding a foreign key: the drop runs first. */
  lemma UpdateForeignDropsFirst(s: Schema, t: Table, f: Foreign, qs: seq<Query>)
    requires forall q :: q in UpdateForeignQueries(s, t, f) ==> q in qs
    ensures AlwaysBefore(Executed(qs), RemoveForeignQuery(s, t, f), CreateForeignQuery(s, t, f))
  {
    StepsDistinct();
    Ranks();
    RunsBefore(StepOrder, qs, RemoveForeignQuery(s, t, f), CreateForeignQuery(s, t, f));
  }

  /**
   * `updateIndex` as written: the CREATE INDEX of the new index runs before the DROP INDEX
   * of the old one, which still holds the name.
   */
  lemma UpdateIndexAsWrittenCreatesFirst(s: Schema, t: Table, ix: Index, qs: seq<Query>)
    requires forall q :: q in UpdateIndexQueries(s, t, ix) ==> q in qs
    ensures AlwaysBefore(Executed(qs), CreateIndexQuery(s, t, ix), RemoveIndexQuery(s, t, ix))
  {
    StepsDistinct();
    Ranks();
    RunsBefore(StepOrder, qs, CreateIndexQuery(s, t, ix), RemoveIndexQuery(s, t, ix));
  }

  /** `updateIndex` corrected: the old index is dropped before the new one is created. */
  lemma UpdateIndexDropsFirst(s: Schema, t: Table, ix: Index, qs: seq<Query>)
    requires forall q :: q in UpdateIndexQueriesDropFirst(s, t, ix) ==> q in qs
    ensures AlwaysBefore(Executed(qs), UpdateIndexQueriesDropFirst(s, t, ix)[0], CreateIndexQuery(s, t, ix))
  {
    StepsDistinct();
    Ranks();
    RunsBefore(StepOrder, qs, UpdateIndexQueriesDropFirst(s, t, ix)[0], CreateIndexQuery(s, t, ix));
  }

  /** The ranks of the steps the lemmas below compare. */
  lemma Ranks()
    ensures Rank(StepOrder, Step.DropSequence) == 1 && Rank(StepOrder, Step.CreateSequence) == 2
    ensures Rank(StepOrder, Step.CreateTable) == 3 && Rank(StepOrder, Step.AlterTable) == 4
    ensures Rank(StepOrder, Step.AlterSequence) == 5 && Rank(StepOrder, Step.CreateIndex) == 6
    ensures Rank(StepOrder, Step.AlterTableDrop) == 7 && Rank(StepOrder, Step.AlterTableAdd) == 8
    ensures Rank(StepOrder, Step.DropIndex) == 11
  {
    StepsDistinct();
    RankAt(StepOrder, 1);
    RankAt(StepOrder, 2);
    RankAt(StepOrder, 3);
    RankAt(StepOrder, 4);
    RankAt(StepOrder, 5);
    RankAt(StepOrder, 6);
    RankAt(StepOrder, 7);
    RankAt(StepOrder, 8);
    RankAt(StepOrder, 11);
  }

  lemma AsWrittenShape(s: Schema, t: Table, c: Column)
    requires c.auto && CreateColumnQueries(s, t, c).Ok?
    ensures var plan := CreateColumnQueries(s, t, c).value;
            var seqs := [DropSequenceQuery(t), CreateSequenceQuery(t), AlterSequenceQuery(t, c)];
            |plan| > 0 && plan == FulltextQueries(s, t, c) + seqs + seqs + [plan[|plan| - 1]]
  {
  }

  lemma CorrectedShape(s: Schema, t: Table, c: Column)
    requires c.auto && CreateColumnQueriesSequenceOnce(s, t, c).Ok?
    ensures var plan := CreateColumnQueriesSequenceOnce(s, t, c).value;
            var seqs := [DropSequenceQuery(t), CreateSequenceQuery(t), AlterSequenceQuery(t, c)];
            |plan| > 0 && plan == FulltextQueries(s, t, c) + seqs + [plan[|plan| - 1]] && plan[|plan| - 1].step == Step.AlterTable
  {
  }

  /**
   * `createColumn` as written, for an auto-increment column: the CREATE SEQUENCE of the
   * table's sequence is executed twice in a row, and the second one finds the sequence
   * already there.
   */
  lemma CreateAutoColumnAsWrittenRepeats(s: Schema, t: Table, c: Column, before: seq<Query>, after: seq<Query>)
    requires c.auto && CreateColumnQueries(s, t, c).Ok?
    ensures var p := Executed(before + CreateColumnQueries(s, t, c).value + after);
            exists i :: 0 <= i < |p| - 1 && p[i] == CreateSequenceQuery(t) && p[i + 1] == CreateSequenceQuery(t)
  {
    StepsDistinct();
    var plan := CreateColumnQueries(s, t, c).value;
    var ds, cs, al := DropSequenceQuery(t), CreateSequenceQuery(t), AlterSequenceQuery(t, c);
    var ft := FulltextQueries(s, t, c);
    var add := plan[|plan| - 1];
    AsWrittenShape(s, t, c);
    var a, b, rest := before + ft + [ds], [al, ds], [al, add] + after;
    Regroup(before, ft, ds, cs, al, add, after);
    FilterNone(b, Step.CreateSequence);
    var n := Step.CreateSequence;
    FilterAround(a, cs, b, cs, rest);
    var i := SameStepInOrder(StepOrder, before + plan + after, n, Filter(a, n), cs, Filter(b, n), cs, Filter(rest, n));
    assert |Filter(b, n)| == 0;
    var p := Executed(before + plan + after);
    assert p[i] == cs && p[i + 1] == cs;
  }

  lemma FilterOnly(ft: seq<Query>, ds: Query, cs: Query, al: Query, add: Query, n: Step)
    requires cs.step == n && ds.step != n && al.step != n && add.step != n
    requires forall q :: q in ft ==> q.step != n
    ensures Filter(ft + [ds, cs, al] + [add], n) == [cs]
  {
    FilterMiddle(ft, [ds, cs, al], [add], n);
    assert [ds, cs, al] == [] + [ds] + [cs] + [al];
    FilterSnoc([], ds, n);
    FilterSnoc([ds], cs, n);
    FilterSnoc([ds, cs], al, n);
  }

  lemma Regroup(before: seq<Query>, ft: seq<Query>, ds: Query, cs: Query, al: Query, add: Query, after: seq<Query>)
    ensures before + (ft + [ds, cs, al] + [ds, cs, al] + [add]) + after
            == (before + ft + [ds]) + [cs] + [al, ds] + [cs] + ([al, add] + after)
  {
  }

  /**
   * `createColumn` for an auto-increment column: its sequence is created once, after it is
   * dropped; the column is added after the sequence exists, and the sequence is attached to
   * the column after the column exists.
   */
  lemma CreateAutoColumnSequence(s: Schema, t: Table, c: Column, qs: seq<Query>)
    requires c.auto && CreateColumnQueriesSequenceOnce(s, t, c).Ok?
    requires forall q :: q in CreateColumnQueriesSequenceOnce(s, t, c).value ==> q in qs
    ensures var plan := CreateColumnQueriesSequenceOnce(s, t, c).value;
            Filter(plan, Step.CreateSequence) == [CreateSequenceQuery(t)]
            && AlwaysBefore(Executed(qs), DropSequenceQuery(t), CreateSequenceQuery(t))
            && AlwaysBefore(Executed(qs), CreateSequenceQuery(t), plan[|plan| - 1])
            && AlwaysBefore(Executed(qs), plan[|plan| - 1], AlterSequenceQuery(t, c))
  {
    StepsDistinct();
    Ranks();
    var plan := CreateColumnQueriesSequenceOnce(s, t, c).value;
    var ds, cs, al := DropSequenceQuery(t), CreateSequenceQuery(t), AlterSequenceQuery(t, c);
    var ft := FulltextQueries(s, t, c);
    var add := plan[|plan| - 1];
    CorrectedShape(s, t, c);
    FilterOnly(ft, ds, cs, al, add, Step.CreateSequence);
    assert ds in plan && cs in plan && al in plan && add in plan;
    RunsBefore(StepOrder, qs, ds, cs);
    RunsBefore(StepOrder, qs, cs, add);
    RunsBefore(StepOrder, qs, add, al);
  }

  /** Rendering the columns of `createTable` queues each column's sequence queries. */
  lemma {:induction false} ColumnDefsQueue(t: Table, cols: seq<Column>, c: Column)
    requires c in cols && ColumnDefs(t, cols).Ok?
    ensures forall q :: q in ColumnQueries(t, c) ==> q in ColumnDefs(t, cols).value.1
    decreases |cols|
  {
    var init := cols[..|cols| - 1];
    ColumnDefsSnoc(t, cols);
    var acc := ColumnDefs(t, init).value.1;
    if c != cols[|cols| - 1] {
      InInit(cols, c);
      ColumnDefsQueue(t, init, c);
    }
    InAppendEither(acc, ColumnQueries(t, cols[|cols| - 1]), ColumnQueries(t, c));
  }

  /** The last column's queries follow those of the columns before it. */
  lemma ColumnDefsSnoc(t: Table, cols: seq<Column>)
    requires |cols| > 0 && ColumnDefs(t, cols).Ok?
    ensures ColumnDefs(t, cols[..|cols| - 1]).Ok?
    ensures ColumnDefs(t, cols).value.1 == ColumnDefs(t, cols[..|cols| - 1]).value.1 + ColumnQueries(t, cols[|cols| - 1])
  {
  }

  lemma InInit<T>(xs: seq<T>, x: T)
    requires x in xs && x != xs[|xs| - 1]
    ensures x in xs[..|xs| - 1]
  {
    var k :| 0 <= k < |xs| && xs[k] == x;
    assert xs[..|xs| - 1][k] == x;
  }

  /** Items of `c` are in `a + b` when `c` is `b` or all of `c` is already in `a`. */
  lemma InAppendEither<T>(a: seq<T>, b: seq<T>, c: seq<T>)
    requires c == b || forall q :: q in c ==> q in a
    ensures forall q :: q in c ==> q in a + b
  {
  }

  /** What rendering the columns queued is part of what `createTable` queues. */
  lemma CreateTableQueuesColumns(s: Schema, t: Table, q: Query)
    requires CreateTableQueries(s, t).Ok? && q in ColumnDefs(t, ValuesOf(t.columns)).value.1
    ensures q in CreateTableQueries(s, t).value
  {
  }

  /**
   * `createTable` with an auto-increment column: the sequence is dropped and created before
   * the CREATE TABLE whose column default calls `nextval` on it, and attached to the column
   * after the table exists.
   */
  lemma CreateTableSequence(s: Schema, t: Table, c: Column, qs: seq<Query>)
    requires c in ValuesOf(t.columns) && c.auto && CreateTableQueries(s, t).Ok?
    requires forall q :: q in CreateTableQueries(s, t).value ==> q in qs
    ensures forall q :: q in CreateTableQueries(s, t).value && q.step == Step.CreateTable ==>
              AlwaysBefore(Executed(qs), DropSequenceQuery(t), CreateSequenceQuery(t))
              && AlwaysBefore(Executed(qs), CreateSequenceQuery(t), q)
              && AlwaysBefore(Executed(qs), q, AlterSequenceQuery(t, c))
  {
    StepsDistinct();
    Ranks();
    var defs := ColumnDefs(t, ValuesOf(t.columns)).value;
    ColumnDefsQueue(t, ValuesOf(t.columns), c);
    var ds, cs, al := DropSequenceQuery(t), CreateSequenceQuery(t), AlterSequenceQuery(t, c);
    assert ds in defs.1 && cs in defs.1 && al in defs.1;
    CreateTableQueuesColumns(s, t, ds);
    CreateTableQueuesColumns(s, t, cs);
    CreateTableQueuesColumns(s, t, al);
    RunsBefore(StepOrder, qs, ds, cs);
    forall q | q in CreateTableQueries(s, t).value && q.step == Step.CreateTable
      ensures AlwaysBefore(Executed(qs), cs, q) && AlwaysBefore(Executed(qs), q, al)
    {
      RunsBefore(StepOrder, qs, cs, q);
      RunsBefore(StepOrder, qs, q, al);
    }
  }
}
