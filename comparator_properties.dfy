/**
 * What `Comparator::compare` records, stated per table and per schema against independent
 * reference lists, and the conditions under which it records nothing.
 */
module ComparatorProperties {
  import opened Wrappers
  import opened OrderedMaps
  import opened Config
  import opened ChangeSets
  import opened Comparator

  /** The recorded names of the elements whose key `others` lacks, in order. */
  function Missing<T, U>(items: seq<T>, others: OMap<string, U>, key: T -> string, rec: T -> string): seq<string>
    decreases |items|
  {
    if items == [] then []
    else
      Missing(items[..|items| - 1], others, key, rec) + MissingOne(items[|items| - 1], others, key, rec)
  }

  /** The recorded names of the elements present in `olds` under their key but not the same there, in order. */
  function Changed<T>(items: seq<T>, olds: OMap<string, T>, key: T -> string, rec: T -> string, same: (T, T) -> bool): seq<string>
    decreases |items|
  {
    if items == [] then []
    else
      Changed(items[..|items| - 1], olds, key, rec, same) + ChangedOne(items[|items| - 1], olds, key, rec, same)
  }

  /** Missing is a filter: a name is listed exactly when some element with that name has no counterpart. */
  lemma {:induction false} MissingMembers<T, U>(items: seq<T>, others: OMap<string, U>, key: T -> string, rec: T -> string, n: string)
    ensures n in Missing(items, others, key, rec) <==>
              exists i :: 0 <= i < |items| && rec(items[i]) == n && !HasKey(others, key(items[i]))
    decreases |items|
  {
    if items != [] {
      var pre := items[..|items| - 1];
      MissingMembers(pre, others, key, rec, n);
      if n in Missing(items, others, key, rec) && n !in Missing(pre, others, key, rec) {
        assert rec(items[|items| - 1]) == n;
      }
      if exists i :: 0 <= i < |items| && rec(items[i]) == n && !HasKey(others, key(items[i])) {
        var i :| 0 <= i < |items| && rec(items[i]) == n && !HasKey(others, key(items[i]));
        if i < |items| - 1 {
          assert pre[i] == items[i];
        }
      }
    }
  }

  /** Nothing is missing when every element's key is present. */
  lemma {:induction false} MissingNone<T, U>(items: seq<T>, others: OMap<string, U>, key: T -> string, rec: T -> string)
    requires forall i :: 0 <= i < |items| ==> HasKey(others, key(items[i]))
    ensures Missing(items, others, key, rec) == []
    decreases |items|
  {
    if items != [] {
      MissingNone(items[..|items| - 1], others, key, rec);
    }
  }

  /** Nothing is changed when every element finds a same counterpart. */
  lemma {:induction false} ChangedNone<T>(items: seq<T>, olds: OMap<string, T>, key: T -> string, rec: T -> string, same: (T, T) -> bool)
    requires forall i :: 0 <= i < |items| ==> HasKey(olds, key(items[i])) && same(items[i], Lookup(olds, key(items[i])).value)
    ensures Changed(items, olds, key, rec, same) == []
    decreases |items|
  {
    if items != [] {
      ChangedNone(items[..|items| - 1], olds, key, rec, same);
    }
  }

  /** The name one element contributes to Missing. */
  function MissingOne<T, U>(x: T, others: OMap<string, U>, key: T -> string, rec: T -> string): seq<string> {
    if HasKey(others, key(x)) then [] else [rec(x)]
  }

  /** The name one element contributes to Changed. */
  function ChangedOne<T>(x: T, olds: OMap<string, T>, key: T -> string, rec: T -> string, same: (T, T) -> bool): seq<string> {
    match Lookup(olds, key(x)) case Some(o) => if same(x, o) then [] else [rec(x)] case None => []
  }

  /** Outside the entries of table `t` of schema `s` under `ops`, `a` and `b` agree, and so do all schema-level flags. */
  ghost predicate Frame(a: ChangeSet, b: ChangeSet, ops: set<Op>, s: string, t: string) {
    SameTablesOutside(a, b, ops, s, t) && SameOutside(a, b, ops, s) && SameFlags(a, b)
  }

  lemma FrameTransitive(a: ChangeSet, b: ChangeSet, c: ChangeSet, ops: set<Op>, s: string, t: string)
    requires Frame(a, b, ops, s, t) && Frame(b, c, ops, s, t)
    ensures Frame(a, c, ops, s, t)
  {
  }

  lemma DiffNewStepEffect<T>(cs: ChangeSet, s: string, t: string, k: Kind, x: T, olds: OMap<string, T>,
                             key: T -> string, rec: T -> string, same: (T, T) -> bool)
    ensures var r := DiffNewStep(cs, s, t, k, x, olds, key, rec, same);
            TableAt(r, Create, s, t) == Extend(TableAt(cs, Create, s, t), k, MissingOne(x, olds, key, rec))
            && TableAt(r, Update, s, t) == Extend(TableAt(cs, Update, s, t), k, ChangedOne(x, olds, key, rec, same))
            && Frame(cs, r, {Create, Update}, s, t)
  {
    ExtendNone(TableAt(cs, Create, s, t), k);
    ExtendNone(TableAt(cs, Update, s, t), k);
    match Lookup(olds, key(x)) {
      case None =>
        AppendNameFrame(cs, Create, s, t, k, rec(x));
        ExtendSnoc(TableAt(cs, Create, s, t), k, [], rec(x));
      case Some(o) =>
        if !same(x, o) {
          AppendNameFrame(cs, Update, s, t, k, rec(x));
          ExtendSnoc(TableAt(cs, Update, s, t), k, [], rec(x));
        }
    }
  }

  lemma ExtendTwice(tc: TableChange, k: Kind, a: seq<string>, b: seq<string>)
    ensures Extend(Extend(tc, k, a), k, b) == Extend(tc, k, a + b)
  {
    assert tc.Names(k) + a + b == tc.Names(k) + (a + b);
  }

  /** One create/update loop appends the missing names to `create` and the changed ones to `update`, and touches nothing else. */
  lemma {:induction false} DiffNewEffect<T>(cs: ChangeSet, s: string, t: string, k: Kind, items: seq<T>, olds: OMap<string, T>,
                                            key: T -> string, rec: T -> string, same: (T, T) -> bool)
    ensures var r := DiffNew(cs, s, t, k, items, olds, key, rec, same);
            TableAt(r, Create, s, t) == Extend(TableAt(cs, Create, s, t), k, Missing(items, olds, key, rec))
            && TableAt(r, Update, s, t) == Extend(TableAt(cs, Update, s, t), k, Changed(items, olds, key, rec, same))
            && Frame(cs, r, {Create, Update}, s, t)
    decreases |items|
  {
    if items == [] {
      ExtendNone(TableAt(cs, Create, s, t), k);
      ExtendNone(TableAt(cs, Update, s, t), k);
    } else {
      var pre := items[..|items| - 1];
      var x := items[|items| - 1];
      DiffNewEffect(cs, s, t, k, pre, olds, key, rec, same);
      var acc := DiffNew(cs, s, t, k, pre, olds, key, rec, same);
      DiffNewStepEffect(acc, s, t, k, x, olds, key, rec, same);
      ExtendTwice(TableAt(cs, Create, s, t), k, Missing(pre, olds, key, rec), MissingOne(x, olds, key, rec));
      ExtendTwice(TableAt(cs, Update, s, t), k, Changed(pre, olds, key, rec, same), ChangedOne(x, olds, key, rec, same));
      FrameTransitive(cs, acc, DiffNew(cs, s, t, k, items, olds, key, rec, same), {Create, Update}, s, t);
    }
  }

  /** One remove loop appends the missing names to `remove` and touches nothing else. */
  lemma {:induction false} DiffOldEffect<T, U>(cs: ChangeSet, s: string, t: string, k: Kind, items: seq<T>, news: OMap<string, U>,
                                               key: T -> string, rec: T -> string)
    ensures var r := DiffOld(cs, s, t, k, items, news, key, rec);
            TableAt(r, Remove, s, t) == Extend(TableAt(cs, Remove, s, t), k, Missing(items, news, key, rec))
            && Frame(cs, r, {Remove}, s, t)
    decreases |items|
  {
    if items == [] {
      ExtendNone(TableAt(cs, Remove, s, t), k);
    } else {
      var pre := items[..|items| - 1];
      var x := items[|items| - 1];
      DiffOldEffect(cs, s, t, k, pre, news, key, rec);
      var acc := DiffOld(cs, s, t, k, pre, news, key, rec);
      if HasKey(news, key(x)) {
        assert Missing(items, news, key, rec) == Missing(pre, news, key, rec) + [];
      } else {
        AppendNameFrame(acc, Remove, s, t, k, rec(x));
        ExtendSnoc(TableAt(cs, Remove, s, t), k, Missing(pre, news, key, rec), rec(x));
        FrameTransitive(cs, acc, DiffOld(cs, s, t, k, items, news, key, rec), {Remove}, s, t);
      }
    }
  }

  // ---------------------------------------------------------------------------------------
  // One table present on both sides.

  /** What the first pass records under `create` for a table `old` also has. */
  function CreatedEntry(nt: Table, ot: Table): TableChange {
    TableChange(false,
      Missing(ValuesOf(nt.columns), ot.columns, ColumnKey, ColumnKey),
      Missing(ValuesOf(MapValues(nt.foreignKeys, ClearReverse)), ot.foreignKeys, ForeignNameKey, ForeignKeyColumn),
      Missing(ValuesOf(nt.indexes), ot.indexes, IndexKey, IndexKey),
      Missing(ValuesOf(nt.uniqueKeys), ot.uniqueKeys, UniqueKey, UniqueKey),
      false)
  }

  /** What the first pass records under `update` for a table `old` also has. */
  function UpdatedEntry(nt: Table, ot: Table): TableChange {
    TableChange(false,
      Changed(ValuesOf(nt.columns), ot.columns, ColumnKey, ColumnKey, SameColumn),
      Changed(ValuesOf(MapValues(nt.foreignKeys, ClearReverse)), ot.foreignKeys, ForeignNameKey, ForeignKeyColumn, SameForeign),
      Changed(ValuesOf(nt.indexes), ot.indexes, IndexKey, IndexKey, SameIndex),
      Changed(ValuesOf(nt.uniqueKeys), ot.uniqueKeys, UniqueKey, UniqueKey, SameUnique),
      nt.primaryKey != ot.primaryKey)
  }

  /** What the second pass records under `remove` for a table `new` also has. */
  function RemovedEntry(ot: Table, nt: Table): TableChange {
    TableChange(false,
      Missing(ValuesOf(ot.columns), nt.columns, ColumnKey, ColumnKey),
      Missing(ValuesOf(ot.foreignKeys), nt.foreignKeys, ForeignKeyColumn, ForeignNameKey),
      Missing(ValuesOf(ot.indexes), nt.indexes, IndexKey, IndexKey),
      Missing(ValuesOf(ot.uniqueKeys), nt.uniqueKeys, UniqueKey, UniqueKey),
      false)
  }

  /** The four element loops of the first pass fill the two entries from scratch and touch nothing else. */
  lemma DiffsEffect(cs: ChangeSet, s: string, nt: Table, ot: Table)
    requires TableAt(cs, Create, s, nt.name) == NoTableChange && TableAt(cs, Update, s, nt.name) == NoTableChange
    ensures var c1 := DiffNew(cs, s, nt.name, Columns, ValuesOf(nt.columns), ot.columns, ColumnKey, ColumnKey, SameColumn);
            var c2 := DiffNew(c1, s, nt.name, ForeignKeys, ValuesOf(MapValues(nt.foreignKeys, ClearReverse)), ot.foreignKeys,
                              ForeignNameKey, ForeignKeyColumn, SameForeign);
            var c3 := DiffNew(c2, s, nt.name, Indexes, ValuesOf(nt.indexes), ot.indexes, IndexKey, IndexKey, SameIndex);
            var c4 := DiffNew(c3, s, nt.name, UniqueKeys, ValuesOf(nt.uniqueKeys), ot.uniqueKeys, UniqueKey, UniqueKey, SameUnique);
            TableAt(c4, Create, s, nt.name) == CreatedEntry(nt, ot)
            && TableAt(c4, Update, s, nt.name) == UpdatedEntry(nt, ot).(primaryKey := false)
            && Frame(cs, c4, {Create, Update}, s, nt.name)
  {
    var t := nt.name;
    var c1 := DiffNew(cs, s, t, Columns, ValuesOf(nt.columns), ot.columns, ColumnKey, ColumnKey, SameColumn);
    var c2 := DiffNew(c1, s, t, ForeignKeys, ValuesOf(MapValues(nt.foreignKeys, ClearReverse)), ot.foreignKeys,
                      ForeignNameKey, ForeignKeyColumn, SameForeign);
    var c3 := DiffNew(c2, s, t, Indexes, ValuesOf(nt.indexes), ot.indexes, IndexKey, IndexKey, SameIndex);
    var c4 := DiffNew(c3, s, t, UniqueKeys, ValuesOf(nt.uniqueKeys), ot.uniqueKeys, UniqueKey, UniqueKey, SameUnique);
    DiffNewEffect(cs, s, t, Columns, ValuesOf(nt.columns), ot.columns, ColumnKey, ColumnKey, SameColumn);
    DiffNewEffect(c1, s, t, ForeignKeys, ValuesOf(MapValues(nt.foreignKeys, ClearReverse)), ot.foreignKeys,
                  ForeignNameKey, ForeignKeyColumn, SameForeign);
    DiffNewEffect(c2, s, t, Indexes, ValuesOf(nt.indexes), ot.indexes, IndexKey, IndexKey, SameIndex);
    DiffNewEffect(c3, s, t, UniqueKeys, ValuesOf(nt.uniqueKeys), ot.uniqueKeys, UniqueKey, UniqueKey, SameUnique);
    FrameTransitive(cs, c1, c2, {Create, Update}, s, t);
    FrameTransitive(cs, c2, c3, {Create, Update}, s, t);
    FrameTransitive(cs, c3, c4, {Create, Update}, s, t);
    var a := Missing(ValuesOf(nt.columns), ot.columns, ColumnKey, ColumnKey);
    var b := Missing(ValuesOf(MapValues(nt.foreignKeys, ClearReverse)), ot.foreignKeys, ForeignNameKey, ForeignKeyColumn);
    var c := Missing(ValuesOf(nt.indexes), ot.indexes, IndexKey, IndexKey);
    var d := Missing(ValuesOf(nt.uniqueKeys), ot.uniqueKeys, UniqueKey, UniqueKey);
    ExtendFour(a, b, c, d);
    var a' := Changed(ValuesOf(nt.columns), ot.columns, ColumnKey, ColumnKey, SameColumn);
    var b' := Changed(ValuesOf(MapValues(nt.foreignKeys, ClearReverse)), ot.foreignKeys, ForeignNameKey, ForeignKeyColumn, SameForeign);
    var c' := Changed(ValuesOf(nt.indexes), ot.indexes, IndexKey, IndexKey, SameIndex);
    var d' := Changed(ValuesOf(nt.uniqueKeys), ot.uniqueKeys, UniqueKey, UniqueKey, SameUnique);
    ExtendFour(a', b', c', d');
  }

  lemma ExtendFour(a: seq<string>, b: seq<string>, c: seq<string>, d: seq<string>)
    ensures Extend(Extend(Extend(Extend(NoTableChange, Columns, a), ForeignKeys, b), Indexes, c), UniqueKeys, d)
            == TableChange(false, a, b, c, d, false)
  {
  }

  /** The first pass on a table `old` also has: it fails exactly when `new` gives the table no primary key. */
  lemma CreateTableEntryEffect(cs: ChangeSet, s: string, nt: Table, ot: Table)
    requires TableAt(cs, Create, s, nt.name) == NoTableChange && TableAt(cs, Update, s, nt.name) == NoTableChange
    ensures var r := CreateTableEntry(cs, s, nt, ot);
            (r.Ok? <==> nt.primaryKey.Some?)
            && (r.Ok? ==>
                  TableAt(r.value, Create, s, nt.name) == CreatedEntry(nt, ot)
                  && TableAt(r.value, Update, s, nt.name) == UpdatedEntry(nt, ot)
                  && Frame(cs, r.value, {Create, Update}, s, nt.name))
  {
    var t := nt.name;
    DiffsEffect(cs, s, nt, ot);
    var c1 := DiffNew(cs, s, t, Columns, ValuesOf(nt.columns), ot.columns, ColumnKey, ColumnKey, SameColumn);
    var c2 := DiffNew(c1, s, t, ForeignKeys, ValuesOf(MapValues(nt.foreignKeys, ClearReverse)), ot.foreignKeys,
                      ForeignNameKey, ForeignKeyColumn, SameForeign);
    var c3 := DiffNew(c2, s, t, Indexes, ValuesOf(nt.indexes), ot.indexes, IndexKey, IndexKey, SameIndex);
    var c4 := DiffNew(c3, s, t, UniqueKeys, ValuesOf(nt.uniqueKeys), ot.uniqueKeys, UniqueKey, UniqueKey, SameUnique);
    if nt.primaryKey.Some? && ot.primaryKey != nt.primaryKey {
      MarkPrimaryFrame(c4, Update, s, t);
      FrameTransitive(cs, c4, MarkPrimary(c4, Update, s, t), {Create, Update}, s, t);
    }
  }

  /** The second pass on a table `new` also has fills its `remove` entry from scratch and touches nothing else. */
  lemma RemoveTableEntryEffect(cs: ChangeSet, s: string, ot: Table, nt: Table)
    requires TableAt(cs, Remove, s, ot.name) == NoTableChange
    ensures var r := RemoveTableEntry(cs, s, ot, nt);
            TableAt(r, Remove, s, ot.name) == RemovedEntry(ot, nt) && Frame(cs, r, {Remove}, s, ot.name)
  {
    var t := ot.name;
    var c1 := DiffOld(cs, s, t, Columns, ValuesOf(ot.columns), nt.columns, ColumnKey, ColumnKey);
    var c2 := DiffOld(c1, s, t, ForeignKeys, ValuesOf(ot.foreignKeys), nt.foreignKeys, ForeignKeyColumn, ForeignNameKey);
    var c3 := DiffOld(c2, s, t, Indexes, ValuesOf(ot.indexes), nt.indexes, IndexKey, IndexKey);
    var c4 := DiffOld(c3, s, t, UniqueKeys, ValuesOf(ot.uniqueKeys), nt.uniqueKeys, UniqueKey, UniqueKey);
    DiffOldEffect(cs, s, t, Columns, ValuesOf(ot.columns), nt.columns, ColumnKey, ColumnKey);
    DiffOldEffect(c1, s, t, ForeignKeys, ValuesOf(ot.foreignKeys), nt.foreignKeys, ForeignKeyColumn, ForeignNameKey);
    DiffOldEffect(c2, s, t, Indexes, ValuesOf(ot.indexes), nt.indexes, IndexKey, IndexKey);
    DiffOldEffect(c3, s, t, UniqueKeys, ValuesOf(ot.uniqueKeys), nt.uniqueKeys, UniqueKey, UniqueKey);
    FrameTransitive(cs, c1, c2, {Remove}, s, t);
    FrameTransitive(cs, c2, c3, {Remove}, s, t);
    FrameTransitive(cs, c3, c4, {Remove}, s, t);
    ExtendFour(Missing(ValuesOf(ot.columns), nt.columns, ColumnKey, ColumnKey),
               Missing(ValuesOf(ot.foreignKeys), nt.foreignKeys, ForeignKeyColumn, ForeignNameKey),
               Missing(ValuesOf(ot.indexes), nt.indexes, IndexKey, IndexKey),
               Missing(ValuesOf(ot.uniqueKeys), nt.uniqueKeys, UniqueKey, UniqueKey));
  }

  // ---------------------------------------------------------------------------------------
  // One table of a schema present on both sides.

  /** The `create` entry of a `new` table: everything when `old` lacks the table, else the missing elements. */
  function TableCreated(nt: Table, os: Schema): TableChange {
    match Lookup(os.tables, nt.name)
    case None => NoTableChange.(all := true)
    case Some(ot) => CreatedEntry(nt, ot)
  }

  /** The `update` entry of a `new` table: nothing when `old` lacks the table, else the changed elements. */
  function TableUpdated(nt: Table, os: Schema): TableChange {
    match Lookup(os.tables, nt.name)
    case None => NoTableChange
    case Some(ot) => UpdatedEntry(nt, ot)
  }

  /** The `remove` entry of an `old` table: everything when `new` lacks the table, else the missing elements. */
  function TableRemoved(ot: Table, ns: Schema): TableChange {
    match Lookup(ns.tables, ot.name)
    case None => NoTableChange.(all := true)
    case Some(nt) => RemovedEntry(ot, nt)
  }

  /** The first pass on one table fails exactly when `old` has the table and `new` gives it no primary key. */
  lemma CreateTableEffect(cs: ChangeSet, s: string, t: Table, os: Schema)
    requires TableAt(cs, Create, s, t.name) == NoTableChange && TableAt(cs, Update, s, t.name) == NoTableChange
    ensures var r := CreateTable(cs, s, t, os);
            (r.Ok? <==> (HasKey(os.tables, t.name) ==> t.primaryKey.Some?))
            && (r.Ok? ==>
                  TableAt(r.value, Create, s, t.name) == TableCreated(t, os)
                  && TableAt(r.value, Update, s, t.name) == TableUpdated(t, os)
                  && Frame(cs, r.value, {Create, Update}, s, t.name))
  {
    match Lookup(os.tables, t.name) {
      case None =>
        MarkTableAllFrame(cs, Create, s, t.name);
      case Some(ot) =>
        CreateTableEntryEffect(cs, s, t, ot);
    }
  }

  /** The second pass on one table fills its `remove` entry and touches nothing else. */
  lemma RemoveTableEffect(cs: ChangeSet, s: string, ot: Table, ns: Schema)
    requires TableAt(cs, Remove, s, ot.name) == NoTableChange
    ensures var r := RemoveTable(cs, s, ot, ns);
            TableAt(r, Remove, s, ot.name) == TableRemoved(ot, ns) && Frame(cs, r, {Remove}, s, ot.name)
  {
    match Lookup(ns.tables, ot.name) {
      case None =>
        MarkTableAllFrame(cs, Remove, s, ot.name);
      case Some(nt) =>
        RemoveTableEntryEffect(cs, s, ot, nt);
    }
  }
}
