/**
 * When the MySQL queries run. `process` executes the step lists in their fixed order, so
 * what an operation queues runs in the order of the steps it picks, whatever else is queued
 * around it.
 */
module MysqlProperties {
  import opened Wrappers
  import opened Config
  import opened Queries
  import opened MysqlSql

  /** The queries of a prepared run: everything queued, grouped and run step by step. */
  function Executed(qs: seq<Query>): seq<Query> {
    Program(Grouped(StepOrder, qs))
  }

  lemma Ranks()
    ensures Rank(StepOrder, Step.AlterTable) == 3 && Rank(StepOrder, Step.CreateIndex) == 5
    ensures Rank(StepOrder, Step.AlterTableDrop) == 6 && Rank(StepOrder, Step.AlterTableAdd) == 7
    ensures Rank(StepOrder, Step.DropIndex) == 11
  {
    StepsDistinct();
    RankAt(StepOrder, 3);
    RankAt(StepOrder, 5);
    RankAt(StepOrder, 6);
    RankAt(StepOrder, 7);
    RankAt(StepOrder, 11);
  }

  /** Dropping and re-adding a unique key: the drop runs first. */
  lemma UpdateUniqueDropsFirst(s: Schema, t: Table, u: Unique, qs: seq<Query>)
    requires forall q :: q in UpdateUniqueQueries(s, t, u) ==> q in qs
    ensures AlwaysBefore(Executed(qs), RemoveUniqueQuery(s, t, u), CreateUniqueQuery(s, t, u))
  {
    StepsDistinct();
    Ranks();
    RunsBefore(StepOrder, qs, RemoveUniqueQuery(s, t, u), CreateUniqueQuery(s, t, u));
  }

  /** Dropping and re-adding a foreign key: the drop runs first. */
  lemma UpdateForeignDropsFirst(s: Schema, t: Table, f: Foreign, defaultSchema: Option<string>, qs: seq<Query>)
    requires UpdateForeignQueries(s, t, f, defaultSchema).Ok?
    requires forall q :: q in UpdateForeignQueries(s, t, f, defaultSchema).value ==> q in qs
    ensures AlwaysBefore(Executed(qs), RemoveForeignQuery(s, t, f), UpdateForeignQueries(s, t, f, defaultSchema).value[1])
  {
    StepsDistinct();
    Ranks();
    var plan := UpdateForeignQueries(s, t, f, defaultSchema).value;
    assert plan[1].step == Step.AlterTableAdd;
    RunsBefore(StepOrder, qs, RemoveForeignQuery(s, t, f), plan[1]);
  }

  /**
   * `updateIndex` as written: the CREATE INDEX of the new index runs before the DROP INDEX
   * of the old one, which still holds the name.
   */
  lemma UpdateIndexAsWrittenCreatesFirst(s: Schema, t: Table, ix: Index, qs: seq<Query>)
    requires forall q :: q in UpdateIndexQueries(s, t, ix) ==> q in qs
    ensures AlwaysBefore(Executed(qs), CreateIndexQuery(s, t, ix), RemoveIndexQuery(s, t, ix))
  {
    StepsDistinct();
    Ranks();
    RunsBefore(StepOrder, qs, CreateIndexQuery(s, t, ix), RemoveIndexQuery(s, t, ix));
  }

  /** `updateIndex` corrected: the old index is dropped before the new one is created. */
  lemma UpdateIndexDropsFirst(s: Schema, t: Table, ix: Index, qs: seq<Query>)
    requires forall q :: q in UpdateIndexQueriesDropFirst(s, t, ix) ==> q in qs
    ensures AlwaysBefore(Executed(qs), UpdateIndexQueriesDropFirst(s, t, ix)[0], CreateIndexQuery(s, t, ix))
  {
    StepsDistinct();
    Ranks();
    RunsBefore(StepOrder, qs, UpdateIndexQueriesDropFirst(s, t, ix)[0], CreateIndexQuery(s, t, ix));
  }

  /**
   * `column` as written, for a fulltext column: the DROP INDEX IF EXISTS of the fulltext
   * index runs after the ADD FULLTEXT INDEX of the same name, so the index does not survive.
   */
  lemma FulltextAsWrittenDroppedLast(s: Schema, t: Table, c: Column, qs: seq<Query>)
    requires c.typ == "fulltext"
    requires forall q :: q in ColumnQueries(s, t, c) ==> q in qs
    ensures AlwaysBefore(Executed(qs), CreateFulltextQuery(s, t, c), DropFulltextQuery(s, t, c))
  {
    StepsDistinct();
    Ranks();
    RunsBefore(StepOrder, qs, CreateFulltextQuery(s, t, c), DropFulltextQuery(s, t, c));
  }

  /** `column` corrected: the old fulltext index is dropped right before the new one is added. */
  lemma FulltextDroppedFirst(s: Schema, t: Table, c: Column, before: seq<Query>, after: seq<Query>)
    requires c.typ == "fulltext"
    ensures var p := Executed(before + ColumnQueriesDropFirst(s, t, c) + after);
            exists i :: 0 <= i < |p| - 1 && p[i] == ColumnQueriesDropFirst(s, t, c)[0] && p[i + 1] == CreateFulltextQuery(s, t, c)
  {
    StepsDistinct();
    Ranks();
    var drop, add := ColumnQueriesDropFirst(s, t, c)[0], CreateFulltextQuery(s, t, c);
    assert ColumnQueriesDropFirst(s, t, c) == [drop, add];
    Regroup(before, drop, add, after);
    var n := drop.step;
    FilterAround(before, drop, [], add, after);
    var i := SameStepInOrder(StepOrder, before + ColumnQueriesDropFirst(s, t, c) + after, n, Filter(before, n), drop, Filter([], n), add, Filter(after, n));
    assert |Filter([], n)| == 0;
    var p := Executed(before + ColumnQueriesDropFirst(s, t, c) + after);
    assert p[i] == drop && p[i + 1] == add;
  }

  lemma Regroup(before: seq<Query>, x: Query, y: Query, after: seq<Query>)
    ensures before + [x, y] + after == before + [x] + [] + [y] + after
  {
  }
}
