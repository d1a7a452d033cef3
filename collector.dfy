/**
 * `Collector::mergeDefinitions`: the definitions read from every configuration file are
 * folded into the first one. A schema or a table the accumulated definition lacks is taken
 * over whole; a table both sides have is merged element by element, and an element the
 * accumulated table already has is an error. At the end the schemas are ordered by name
 * (`ksort`), and so are the tables of each schema.
 */
module DefinitionCollector {
  import opened Wrappers
  import opened OrderedMaps
  import opened Config

  /** The `InvalidArgumentException`s of the merge, each naming the element and its table. */
  datatype MergeError =
    | NoDefinitions
    | DuplicateColumn(column: string, table: string)
    | DuplicateForeignKey(keyColumn: string, table: string)
    | DuplicateUniqueKey(uniqueKey: string, table: string)
    | DuplicateIndex(index: string, table: string)
    | DuplicatePrimaryKey(table: string)

  // ---------------------------------------------------------------------------------------
  // Elements of one table.

  /** The entries that `items` add to a table's array, each under its key. */
  function Keyed<T>(items: seq<T>, key: T -> string): (r: OMap<string, T>)
    ensures |r| == |items| && forall i :: 0 <= i < |items| ==> r[i] == (key(items[i]), items[i])
  {
    seq(|items|, i requires 0 <= i < |items| => (key(items[i]), items[i]))
  }

  /** Item `i` collides: its key is already in `acc` or an earlier item has the same key. */
  predicate Clashes<T>(acc: OMap<string, T>, items: seq<T>, key: T -> string, i: nat)
    requires i < |items|
  {
    HasKey(acc, key(items[i])) || exists j :: 0 <= j < i && key(items[j]) == key(items[i])
  }

  predicate NoClash<T>(acc: OMap<string, T>, items: seq<T>, key: T -> string) {
    forall i :: 0 <= i < |items| ==> !Clashes(acc, items, key, i)
  }

  /** Item `i` is the first that collides: the one the merge throws on. */
  predicate FirstClash<T>(acc: OMap<string, T>, items: seq<T>, key: T -> string, i: nat) {
    i < |items| && Clashes(acc, items, key, i) && forall j :: 0 <= j < i ==> !Clashes(acc, items, key, j)
  }

  /** One `foreach` over a table's elements; the error is the element that collided. */
  function MergeElements<T>(acc: OMap<string, T>, items: seq<T>, key: T -> string): Result<OMap<string, T>, T>
    decreases |items|
  {
    if items == [] then Ok(acc)
    else
      match MergeElements(acc, items[..|items| - 1], key)
      case Err(x) => Err(x)
      case Ok(a) => AddElement(a, items[|items| - 1], key)
  }

  function AddElement<T>(a: OMap<string, T>, x: T, key: T -> string): Result<OMap<string, T>, T> {
    if HasKey(a, key(x)) then Err(x) else Ok(Put(a, key(x), x))
  }

  /**
   * Merging elements succeeds exactly when no key occurs twice; it then appends the new
   * elements after the existing ones, and otherwise reports the first duplicate.
   */
  lemma {:induction false} MergeElementsEffect<T>(acc: OMap<string, T>, items: seq<T>, key: T -> string)
    ensures MergeElements(acc, items, key).Ok? <==> NoClash(acc, items, key)
    ensures MergeElements(acc, items, key).Ok? ==> MergeElements(acc, items, key).value == acc + Keyed(items, key)
    ensures MergeElements(acc, items, key).Err? ==>
              exists i: nat :: FirstClash(acc, items, key, i) && MergeElements(acc, items, key).error == items[i]
    decreases |items|
  {
    if items != [] {
      var n := |items| - 1;
      var p := items[..n];
      MergeElementsEffect(acc, p, key);
      ClashesPrefix(acc, items, key, n);
      match MergeElements(acc, p, key)
      case Err(y) =>
        var i: nat :| FirstClash(acc, p, key, i) && y == p[i];
        assert FirstClash(acc, items, key, i);
      case Ok(a) =>
        HasKeyKeyed(acc, p, key, key(items[n]));
        if !HasKey(a, key(items[n])) {
          assert Keyed(items, key) == Keyed(p, key) + [(key(items[n]), items[n])];
        } else {
          assert FirstClash(acc, items, key, n);
        }
    }
  }

  lemma ClashesPrefix<T>(acc: OMap<string, T>, items: seq<T>, key: T -> string, n: nat)
    requires n <= |items|
    ensures forall i :: 0 <= i < n ==> (Clashes(acc, items[..n], key, i) <==> Clashes(acc, items, key, i))
  {
    forall i | 0 <= i < n ensures Clashes(acc, items[..n], key, i) <==> Clashes(acc, items, key, i) {
      assert forall j :: 0 <= j <= i ==> items[..n][j] == items[j];
    }
  }

  lemma HasKeyKeyed<T>(acc: OMap<string, T>, items: seq<T>, key: T -> string, k: string)
    ensures HasKey(acc + Keyed(items, key), k) <==> HasKey(acc, k) || exists j :: 0 <= j < |items| && key(items[j]) == k
  {
    var m := acc + Keyed(items, key);
    if HasKey(m, k) {
      var i :| 0 <= i < |m| && m[i].0 == k;
      if i >= |acc| {
        assert key(items[i - |acc|]) == k;
      } else {
        assert acc[i].0 == k;
      }
    }
    if HasKey(acc, k) {
      var i :| 0 <= i < |acc| && acc[i].0 == k;
      assert m[i].0 == k;
    }
    if exists j :: 0 <= j < |items| && key(items[j]) == k {
      var j :| 0 <= j < |items| && key(items[j]) == k;
      assert m[|acc| + j].0 == k;
    }
  }

  /** One table of a later definition merged into the accumulated table of the same name. */
  function MergeTable(mt: Table, t: Table): Result<Table, MergeError> {
    match MergeElements(mt.columns, ValuesOf(t.columns), ColumnKey)
    case Err(c) => Err(DuplicateColumn(c.name, t.name))
    case Ok(columns) =>
      match MergeElements(mt.foreignKeys, ValuesOf(t.foreignKeys), ForeignKeyColumn)
      case Err(f) => Err(DuplicateForeignKey(f.keyColumn, t.name))
      case Ok(foreignKeys) =>
        match MergeElements(mt.uniqueKeys, ValuesOf(t.uniqueKeys), UniqueKey)
        case Err(u) => Err(DuplicateUniqueKey(u.name, t.name))
        case Ok(uniqueKeys) =>
          match MergeElements(mt.indexes, ValuesOf(t.indexes), IndexKey)
          case Err(ix) => Err(DuplicateIndex(NameKey(ix.name), t.name))
          case Ok(indexes) =>
            if t.primaryKey.Some? && mt.primaryKey.Some? then Err(DuplicatePrimaryKey(t.name))
            else
              Ok(mt.(columns := columns, foreignKeys := foreignKeys, uniqueKeys := uniqueKeys,
                     indexes := indexes,
                     primaryKey := if t.primaryKey.Some? then t.primaryKey else mt.primaryKey))
  }

  /** No element of `t` repeats a key of `mt` or of `t`, and at most one of them has a primary key. */
  predicate Mergeable(mt: Table, t: Table) {
    NoClash(mt.columns, ValuesOf(t.columns), ColumnKey)
    && NoClash(mt.foreignKeys, ValuesOf(t.foreignKeys), ForeignKeyColumn)
    && NoClash(mt.uniqueKeys, ValuesOf(t.uniqueKeys), UniqueKey)
    && NoClash(mt.indexes, ValuesOf(t.indexes), IndexKey)
    && !(t.primaryKey.Some? && mt.primaryKey.Some?)
  }

  /**
   * A table merge succeeds exactly when nothing is defined twice, and then appends the
   * columns, foreign keys (by key column), unique keys and indexes of `t` after those of
   * `mt`, takes the primary key from whichever side has one and keeps the rest of `mt`.
   */
  lemma MergeTableEffect(mt: Table, t: Table)
    ensures MergeTable(mt, t).Ok? <==> Mergeable(mt, t)
    ensures MergeTable(mt, t).Ok? ==>
              MergeTable(mt, t).value ==
                mt.(columns := mt.columns + Keyed(ValuesOf(t.columns), ColumnKey),
                    foreignKeys := mt.foreignKeys + Keyed(ValuesOf(t.foreignKeys), ForeignKeyColumn),
                    uniqueKeys := mt.uniqueKeys + Keyed(ValuesOf(t.uniqueKeys), UniqueKey),
                    indexes := mt.indexes + Keyed(ValuesOf(t.indexes), IndexKey),
                    primaryKey := if t.primaryKey.Some? then t.primaryKey else mt.primaryKey)
  {
    MergeElementsEffect(mt.columns, ValuesOf(t.columns), ColumnKey);
    MergeElementsEffect(mt.foreignKeys, ValuesOf(t.foreignKeys), ForeignKeyColumn);
    MergeElementsEffect(mt.uniqueKeys, ValuesOf(t.uniqueKeys), UniqueKey);
    MergeElementsEffect(mt.indexes, ValuesOf(t.indexes), IndexKey);
  }

  /**
   * The checks run in the source's order (columns, foreign keys, unique keys, indexes,
   * primary key), and the error names the first duplicate of the first failing kind
   * together with the table.
   */
  lemma MergeTableErrors(mt: Table, t: Table)
    ensures !NoClash(mt.columns, ValuesOf(t.columns), ColumnKey) ==>
              exists i: nat :: FirstClash(mt.columns, ValuesOf(t.columns), ColumnKey, i)
                          && MergeTable(mt, t) == Err(DuplicateColumn(t.columns[i].1.name, t.name))
    ensures NoClash(mt.columns, ValuesOf(t.columns), ColumnKey)
            && !NoClash(mt.foreignKeys, ValuesOf(t.foreignKeys), ForeignKeyColumn) ==>
              exists i: nat :: FirstClash(mt.foreignKeys, ValuesOf(t.foreignKeys), ForeignKeyColumn, i)
                          && MergeTable(mt, t) == Err(DuplicateForeignKey(t.foreignKeys[i].1.keyColumn, t.name))
    ensures NoClash(mt.columns, ValuesOf(t.columns), ColumnKey)
            && NoClash(mt.foreignKeys, ValuesOf(t.foreignKeys), ForeignKeyColumn)
            && !NoClash(mt.uniqueKeys, ValuesOf(t.uniqueKeys), UniqueKey) ==>
              exists i: nat :: FirstClash(mt.uniqueKeys, ValuesOf(t.uniqueKeys), UniqueKey, i)
                          && MergeTable(mt, t) == Err(DuplicateUniqueKey(t.uniqueKeys[i].1.name, t.name))
    ensures NoClash(mt.columns, ValuesOf(t.columns), ColumnKey)
            && NoClash(mt.foreignKeys, ValuesOf(t.foreignKeys), ForeignKeyColumn)
            && NoClash(mt.uniqueKeys, ValuesOf(t.uniqueKeys), UniqueKey)
            && !NoClash(mt.indexes, ValuesOf(t.indexes), IndexKey) ==>
              exists i: nat :: FirstClash(mt.indexes, ValuesOf(t.indexes), IndexKey, i)
                          && MergeTable(mt, t) == Err(DuplicateIndex(NameKey(t.indexes[i].1.name), t.name))
    ensures NoClash(mt.columns, ValuesOf(t.columns), ColumnKey)
            && NoClash(mt.foreignKeys, ValuesOf(t.foreignKeys), ForeignKeyColumn)
            && NoClash(mt.uniqueKeys, ValuesOf(t.uniqueKeys), UniqueKey)
            && NoClash(mt.indexes, ValuesOf(t.indexes), IndexKey)
            && t.primaryKey.Some? && mt.primaryKey.Some? ==>
              MergeTable(mt, t) == Err(DuplicatePrimaryKey(t.name))
  {
    MergeElementsEffect(mt.columns, ValuesOf(t.columns), ColumnKey);
    MergeElementsEffect(mt.foreignKeys, ValuesOf(t.foreignKeys), ForeignKeyColumn);
    MergeElementsEffect(mt.uniqueKeys, ValuesOf(t.uniqueKeys), UniqueKey);
    MergeElementsEffect(mt.indexes, ValuesOf(t.indexes), IndexKey);
  }

  // ---------------------------------------------------------------------------------------
  // Tables of one schema, schemas of one definition.

  /** The `foreach` over the tables of a schema that the accumulated definition already has. */
  function MergeTables(acc: OMap<string, Table>, items: seq<Table>): Result<OMap<string, Table>, MergeError>
    decreases |items|
  {
    if items == [] then Ok(acc)
    else
      match MergeTables(acc, items[..|items| - 1])
      case Err(e) => Err(e)
      case Ok(a) => AddTable(a, items[|items| - 1])
  }

  /** A table the schema lacks is stored whole under its name; otherwise it is merged. */
  function AddTable(a: OMap<string, Table>, t: Table): Result<OMap<string, Table>, MergeError> {
    match Lookup(a, t.name)
    case None => Ok(Put(a, t.name, t))
    case Some(mt) =>
      match MergeTable(mt, t)
      case Err(e) => Err(e)
      case Ok(merged) => Ok(Put(a, t.name, merged))
  }

  /** The `foreach` over the schemas of one later definition. */
  function MergeSchemas(acc: OMap<string, Schema>, items: seq<Schema>): Result<OMap<string, Schema>, MergeError>
    decreases |items|
  {
    if items == [] then Ok(acc)
    else
      match MergeSchemas(acc, items[..|items| - 1])
      case Err(e) => Err(e)
      case Ok(a) => AddSchema(a, items[|items| - 1])
  }

  /** A schema the definition lacks is stored whole under its name; otherwise its tables are merged. */
  function AddSchema(a: OMap<string, Schema>, sc: Schema): Result<OMap<string, Schema>, MergeError> {
    match Lookup(a, sc.name)
    case None => Ok(Put(a, sc.name, sc))
    case Some(ms) =>
      match MergeSchema(ms, sc)
      case Err(e) => Err(e)
      case Ok(merged) => Ok(Put(a, sc.name, merged))
  }

  /** The tables of a later schema merged into those of the schema already collected. */
  function MergeSchema(ms: Schema, sc: Schema): Result<Schema, MergeError> {
    match MergeTables(ms.tables, ValuesOf(sc.tables))
    case Err(e) => Err(e)
    case Ok(tables) => Ok(ms.(tables := tables))
  }

  function TableName(t: Table): string { t.name }

  function SchemaName(sc: Schema): string { sc.name }

  /** Some item carries the name `k`. */
  predicate Names<V>(items: seq<V>, name: V -> string, k: string) {
    exists i :: 0 <= i < |items| && name(items[i]) == k
  }

  /** Item `i` is the only one of its name and `acc` lacks that name. */
  predicate OnlyNew<V>(acc: OMap<string, V>, items: seq<V>, name: V -> string, i: nat)
    requires i < |items|
  {
    !HasKey(acc, name(items[i])) && forall j :: 0 <= j < |items| && j != i ==> name(items[j]) != name(items[i])
  }

  /**
   * `r` is `acc` after every item was stored under its name: existing entries keep their
   * place, exactly the item names are added, entries no item names are untouched, and an
   * item whose name is new is stored as it is.
   */
  ghost predicate Absorbed<V>(acc: OMap<string, V>, items: seq<V>, name: V -> string, r: OMap<string, V>) {
    |acc| <= |r| && KeysOf(r)[..|acc|] == KeysOf(acc)
    && (forall k :: HasKey(r, k) <==> HasKey(acc, k) || Names(items, name, k))
    && (forall k :: !Names(items, name, k) ==> Lookup(r, k) == Lookup(acc, k))
    && (forall i :: 0 <= i < |items| && OnlyNew(acc, items, name, i) ==> Lookup(r, name(items[i])) == Some(items[i]))
  }

  lemma AbsorbedNone<V>(acc: OMap<string, V>, name: V -> string)
    ensures Absorbed(acc, [], name, acc)
  {
    assert KeysOf(acc)[..|acc|] == KeysOf(acc);
  }

  lemma NamesSnoc<V>(items: seq<V>, name: V -> string)
    requires items != []
    ensures forall k :: Names(items, name, k) <==> Names(items[..|items| - 1], name, k) || k == name(items[|items| - 1])
  {
    var p := items[..|items| - 1];
    forall k ensures Names(items, name, k) <==> Names(p, name, k) || k == name(items[|items| - 1]) {
      if Names(p, name, k) {
        var i :| 0 <= i < |p| && name(p[i]) == k;
        assert name(items[i]) == k;
      }
      if Names(items, name, k) {
        var i :| 0 <= i < |items| && name(items[i]) == k;
        if i < |p| { assert name(p[i]) == k; }
      }
    }
  }

  lemma AbsorbedKeys<V>(acc: OMap<string, V>, items: seq<V>, name: V -> string, a: OMap<string, V>, v: V)
    requires items != [] && Absorbed(acc, items[..|items| - 1], name, a)
    ensures var r := Put(a, name(items[|items| - 1]), v);
            |acc| <= |r| && KeysOf(r)[..|acc|] == KeysOf(acc)
            && forall k :: HasKey(r, k) <==> HasKey(acc, k) || Names(items, name, k)
  {
    var r := Put(a, name(items[|items| - 1]), v);
    PutKeys(a, name(items[|items| - 1]), v);
    assert KeysOf(r)[..|acc|] == KeysOf(r)[..|a|][..|acc|];
    NamesSnoc(items, name);
  }

  lemma AbsorbedLookup<V>(acc: OMap<string, V>, items: seq<V>, name: V -> string, a: OMap<string, V>, v: V)
    requires items != [] && Absorbed(acc, items[..|items| - 1], name, a)
    requires Lookup(a, name(items[|items| - 1])).None? ==> v == items[|items| - 1]
    ensures var r := Put(a, name(items[|items| - 1]), v);
            (forall k :: !Names(items, name, k) ==> Lookup(r, k) == Lookup(acc, k))
            && forall i :: 0 <= i < |items| && OnlyNew(acc, items, name, i) ==> Lookup(r, name(items[i])) == Some(items[i])
  {
    var n := |items| - 1;
    var p := items[..n];
    var r := Put(a, name(items[n]), v);
    NamesSnoc(items, name);
    forall k | !Names(items, name, k) ensures Lookup(r, k) == Lookup(acc, k) {
      PutLookup(a, name(items[n]), v, k);
    }
    forall i | 0 <= i < |items| && OnlyNew(acc, items, name, i) ensures Lookup(r, name(items[i])) == Some(items[i]) {
      PutLookup(a, name(items[n]), v, name(items[i]));
      if i == n {
        assert !Names(p, name, name(items[n]));
      } else {
        assert OnlyNew(acc, p, name, i) by {
          assert forall j :: 0 <= j < |p| ==> p[j] == items[j];
        }
      }
    }
  }

  /**
   * Merging tables stores each table under its name (see `Absorbed`); under every name is
   * what the tables of that name merge to, in order, from the table already there, and the
   * merge fails exactly when one of those merges fails.
   */
  lemma {:induction false} MergeTablesEffect(acc: OMap<string, Table>, items: seq<Table>)
    ensures MergeTables(acc, items).Ok? ==> Absorbed(acc, items, TableName, MergeTables(acc, items).value)
    ensures MergeTables(acc, items).Ok? ==> ByName(acc, items, TableName, MergeTable, MergeTables(acc, items).value)
    ensures MergeTables(acc, items).Err? <==> FailsUnderSomeName(acc, items, TableName, MergeTable)
    decreases |items|
  {
    MergeTablesByName(acc, items);
    if items == [] {
      AbsorbedNone(acc, TableName);
    } else if MergeTables(acc, items).Ok? {
      var t := items[|items| - 1];
      MergeTablesEffect(acc, items[..|items| - 1]);
      var a := MergeTables(acc, items[..|items| - 1]).value;
      var v := match Lookup(a, t.name) case None => t case Some(mt) => MergeTable(mt, t).value;
      assert MergeTables(acc, items).value == Put(a, TableName(t), v);
      AbsorbedKeys(acc, items, TableName, a, v);
      AbsorbedLookup(acc, items, TableName, a, v);
    }
  }

  /**
   * Merging schemas stores each schema under its name (see `Absorbed`); under every name is
   * what the schemas of that name merge to, in order, from the schema already there, and the
   * merge fails exactly when one of those merges fails.
   */
  lemma {:induction false} MergeSchemasEffect(acc: OMap<string, Schema>, items: seq<Schema>)
    ensures MergeSchemas(acc, items).Ok? ==> Absorbed(acc, items, SchemaName, MergeSchemas(acc, items).value)
    ensures MergeSchemas(acc, items).Ok? ==> ByName(acc, items, SchemaName, MergeSchema, MergeSchemas(acc, items).value)
    ensures MergeSchemas(acc, items).Err? <==> FailsUnderSomeName(acc, items, SchemaName, MergeSchema)
    decreases |items|
  {
    MergeSchemasByName(acc, items);
    if items == [] {
      AbsorbedNone(acc, SchemaName);
    } else if MergeSchemas(acc, items).Ok? {
      var sc := items[|items| - 1];
      MergeSchemasEffect(acc, items[..|items| - 1]);
      var a := MergeSchemas(acc, items[..|items| - 1]).value;
      var v := match Lookup(a, sc.name)
               case None => sc
               case Some(ms) => MergeSchema(ms, sc).value;
      assert MergeSchemas(acc, items).value == Put(a, SchemaName(sc), v);
      AbsorbedKeys(acc, items, SchemaName, a, v);
      AbsorbedLookup(acc, items, SchemaName, a, v);
    }
  }

  // ---------------------------------------------------------------------------------------
  // What ends up under one name.

  /** An item under a name that holds nothing yet is kept whole; otherwise it is merged into what is there. */
  function Combine<V>(cur: Option<V>, x: V, merge: (V, V) -> Result<V, MergeError>): Result<V, MergeError> {
    match cur
    case None => Ok(x)
    case Some(m) => merge(m, x)
  }

  /** The items named `k`, in their order. */
  function OfName<V>(items: seq<V>, name: V -> string, k: string): seq<V>
    decreases |items|
  {
    if items == [] then []
    else OfName(items[..|items| - 1], name, k) + (if name(items[|items| - 1]) == k then [items[|items| - 1]] else [])
  }

  /** The items `xs` combined one after the other into `cur`, up to the first failure. */
  function FoldNamed<V>(cur: Option<V>, xs: seq<V>, merge: (V, V) -> Result<V, MergeError>): Result<Option<V>, MergeError>
    decreases |xs|
  {
    if xs == [] then Ok(cur)
    else
      match FoldNamed(cur, xs[..|xs| - 1], merge)
      case Err(e) => Err(e)
      case Ok(c) =>
        match Combine(c, xs[|xs| - 1], merge)
        case Err(e) => Err(e)
        case Ok(v) => Ok(Some(v))
  }

  /** Under every name `r` holds what the items of that name, in order, merge to from what `acc` held. */
  ghost predicate ByName<V>(acc: OMap<string, V>, items: seq<V>, name: V -> string,
                            merge: (V, V) -> Result<V, MergeError>, r: OMap<string, V>) {
    forall k :: FoldNamed(Lookup(acc, k), OfName(items, name, k), merge) == Ok(Lookup(r, k))
  }

  /** For some name, merging its items, in order, into what `acc` held fails. */
  ghost predicate FailsUnderSomeName<V>(acc: OMap<string, V>, items: seq<V>, name: V -> string,
                                        merge: (V, V) -> Result<V, MergeError>) {
    exists k :: FoldNamed(Lookup(acc, k), OfName(items, name, k), merge).Err?
  }

  lemma OfNameSnoc<V>(items: seq<V>, x: V, name: V -> string, k: string)
    ensures OfName(items + [x], name, k) == OfName(items, name, k) + (if name(x) == k then [x] else [])
  {
    assert (items + [x])[..|items|] == items;
  }

  lemma FoldNamedSnoc<V>(cur: Option<V>, xs: seq<V>, x: V, merge: (V, V) -> Result<V, MergeError>)
    ensures FoldNamed(cur, xs, merge).Err? ==> FoldNamed(cur, xs + [x], merge).Err?
    ensures FoldNamed(cur, xs, merge).Ok? ==>
              (FoldNamed(cur, xs + [x], merge).Err? <==> Combine(FoldNamed(cur, xs, merge).value, x, merge).Err?)
    ensures FoldNamed(cur, xs, merge).Ok? && Combine(FoldNamed(cur, xs, merge).value, x, merge).Ok? ==>
              FoldNamed(cur, xs + [x], merge) == Ok(Some(Combine(FoldNamed(cur, xs, merge).value, x, merge).value))
  {
    assert (xs + [x])[..|xs|] == xs;
  }

  lemma ByNameNone<V>(acc: OMap<string, V>, name: V -> string, merge: (V, V) -> Result<V, MergeError>)
    ensures ByName(acc, [], name, merge, acc)
  {
    forall k ensures FoldNamed(Lookup(acc, k), OfName([], name, k), merge) == Ok(Lookup(acc, k)) {
    }
  }

  /** Storing the combined last item keeps every name's fold in step. */
  lemma ByNameStep<V>(acc: OMap<string, V>, items: seq<V>, x: V, name: V -> string,
                      merge: (V, V) -> Result<V, MergeError>, a: OMap<string, V>, v: V)
    requires ByName(acc, items, name, merge, a)
    requires Combine(Lookup(a, name(x)), x, merge) == Ok(v)
    ensures ByName(acc, items + [x], name, merge, Put(a, name(x), v))
  {
    forall k ensures FoldNamed(Lookup(acc, k), OfName(items + [x], name, k), merge) == Ok(Lookup(Put(a, name(x), v), k)) {
      OfNameSnoc(items, x, name, k);
      PutLookup(a, name(x), v, k);
      if name(x) == k {
        FoldNamedSnoc(Lookup(acc, k), OfName(items, name, k), x, merge);
      } else {
        assert OfName(items + [x], name, k) == OfName(items, name, k);
      }
    }
  }

  /** A last item that cannot be combined makes the fold of its name fail. */
  lemma ByNameStepErr<V>(acc: OMap<string, V>, items: seq<V>, x: V, name: V -> string,
                         merge: (V, V) -> Result<V, MergeError>, a: OMap<string, V>)
    requires ByName(acc, items, name, merge, a)
    requires Combine(Lookup(a, name(x)), x, merge).Err?
    ensures FailsUnderSomeName(acc, items + [x], name, merge)
  {
    var k := name(x);
    OfNameSnoc(items, x, name, k);
    FoldNamedSnoc(Lookup(acc, k), OfName(items, name, k), x, merge);
    assert FoldNamed(Lookup(acc, k), OfName(items + [x], name, k), merge).Err?;
  }

  lemma FailsSnoc<V>(acc: OMap<string, V>, items: seq<V>, x: V, name: V -> string, merge: (V, V) -> Result<V, MergeError>)
    requires FailsUnderSomeName(acc, items, name, merge)
    ensures FailsUnderSomeName(acc, items + [x], name, merge)
  {
    var k :| FoldNamed(Lookup(acc, k), OfName(items, name, k), merge).Err?;
    OfNameSnoc(items, x, name, k);
    if name(x) == k {
      FoldNamedSnoc(Lookup(acc, k), OfName(items, name, k), x, merge);
    } else {
      assert OfName(items + [x], name, k) == OfName(items, name, k);
    }
    assert FoldNamed(Lookup(acc, k), OfName(items + [x], name, k), merge).Err?;
  }

  lemma AddTableCombine(a: OMap<string, Table>, t: Table)
    ensures AddTable(a, t).Err? <==> Combine(Lookup(a, TableName(t)), t, MergeTable).Err?
    ensures AddTable(a, t).Ok? ==> AddTable(a, t).value == Put(a, TableName(t), Combine(Lookup(a, TableName(t)), t, MergeTable).value)
  {
  }

  lemma AddSchemaCombine(a: OMap<string, Schema>, sc: Schema)
    ensures AddSchema(a, sc).Err? <==> Combine(Lookup(a, SchemaName(sc)), sc, MergeSchema).Err?
    ensures AddSchema(a, sc).Ok? ==> AddSchema(a, sc).value == Put(a, SchemaName(sc), Combine(Lookup(a, SchemaName(sc)), sc, MergeSchema).value)
  {
  }

  /** Each table name ends up with its tables merged in order, and the merge fails exactly when one such fold fails. */
  lemma {:induction false} MergeTablesByName(acc: OMap<string, Table>, items: seq<Table>)
    ensures MergeTables(acc, items).Ok? ==> ByName(acc, items, TableName, MergeTable, MergeTables(acc, items).value)
    ensures MergeTables(acc, items).Err? ==> FailsUnderSomeName(acc, items, TableName, MergeTable)
    decreases |items|
  {
    if items == [] {
      ByNameNone(acc, TableName, MergeTable);
    } else {
      var p := items[..|items| - 1];
      var t := items[|items| - 1];
      assert p + [t] == items;
      MergeTablesByName(acc, p);
      if MergeTables(acc, p).Err? {
        FailsSnoc(acc, p, t, TableName, MergeTable);
      } else {
        var a := MergeTables(acc, p).value;
        AddTableCombine(a, t);
        if AddTable(a, t).Err? {
          ByNameStepErr(acc, p, t, TableName, MergeTable, a);
        } else {
          ByNameStep(acc, p, t, TableName, MergeTable, a, Combine(Lookup(a, TableName(t)), t, MergeTable).value);
        }
      }
    }
  }

  /** Each schema name ends up with its schemas merged in order, and the merge fails exactly when one such fold fails. */
  lemma {:induction false} MergeSchemasByName(acc: OMap<string, Schema>, items: seq<Schema>)
    ensures MergeSchemas(acc, items).Ok? ==> ByName(acc, items, SchemaName, MergeSchema, MergeSchemas(acc, items).value)
    ensures MergeSchemas(acc, items).Err? ==> FailsUnderSomeName(acc, items, SchemaName, MergeSchema)
    decreases |items|
  {
    if items == [] {
      ByNameNone(acc, SchemaName, MergeSchema);
    } else {
      var p := items[..|items| - 1];
      var sc := items[|items| - 1];
      assert p + [sc] == items;
      MergeSchemasByName(acc, p);
      if MergeSchemas(acc, p).Err? {
        FailsSnoc(acc, p, sc, SchemaName, MergeSchema);
      } else {
        var a := MergeSchemas(acc, p).value;
        AddSchemaCombine(a, sc);
        if AddSchema(a, sc).Err? {
          ByNameStepErr(acc, p, sc, SchemaName, MergeSchema, a);
        } else {
          ByNameStep(acc, p, sc, SchemaName, MergeSchema, a, Combine(Lookup(a, SchemaName(sc)), sc, MergeSchema).value);
        }
      }
    }
  }

  // ---------------------------------------------------------------------------------------
  // Whole definitions.

  /** The later definitions folded, in order, into the first. */
  function MergeAll(first: Definition, rest: seq<Definition>): Result<Definition, MergeError>
    decreases |rest|
  {
    if rest == [] then Ok(first)
    else MergeNext(MergeAll(first, rest[..|rest| - 1]), rest[|rest| - 1])
  }

  /** One more definition merged into what the earlier ones merged to, unless that failed. */
  function MergeNext(acc: Result<Definition, MergeError>, next: Definition): Result<Definition, MergeError> {
    match acc
    case Err(e) => Err(e)
    case Ok(d) =>
      match MergeSchemas(d.schemas, ValuesOf(next.schemas))
      case Err(e) => Err(e)
      case Ok(schemas) => Ok(Definition(schemas))
  }

  function SortTables(sc: Schema): Schema {
    sc.(tables := SortByKey(sc.tables))
  }

  /** `ksort` of the schemas, then of the tables of each schema. */
  function Sorted(d: Definition): (r: Definition)
    ensures KeySorted(r.schemas)
    ensures forall i :: 0 <= i < |r.schemas| ==> KeySorted(r.schemas[i].1.tables)
    ensures forall k :: HasKey(r.schemas, k) <==> HasKey(d.schemas, k)
  {
    var r := Definition(MapValues(SortByKey(d.schemas), SortTables));
    assert forall k :: HasKey(r.schemas, k) <==> HasKey(d.schemas, k) by {
      forall k ensures HasKey(r.schemas, k) <==> HasKey(d.schemas, k) {
        SortedKeys(d.schemas, k);
      }
    }
    r
  }

  lemma SortedKeys(m: OMap<string, Schema>, k: string)
    ensures HasKey(MapValues(SortByKey(m), SortTables), k) <==> HasKey(m, k)
  {
    var schemas := SortByKey(m);
    if HasKey(schemas, k) {
      var i :| 0 <= i < |schemas| && schemas[i].0 == k;
      assert MapValues(schemas, SortTables)[i].0 == k;
    }
    PermutedKeys(m, schemas, k);
  }

  /** `mergeDefinitions`: an empty list has nothing to merge into. */
  function MergeDefinitions(ds: seq<Definition>): Result<Definition, MergeError> {
    if ds == [] then Err(NoDefinitions)
    else
      match MergeAll(ds[0], ds[1..])
      case Err(e) => Err(e)
      case Ok(d) => Ok(Sorted(d))
  }

  /** The schemas some later definition names. */
  predicate NamedLater(rest: seq<Definition>, k: string) {
    exists i :: 0 <= i < |rest| && Names(ValuesOf(rest[i].schemas), SchemaName, k)
  }

  /**
   * The first definition is the accumulator: its schemas stay first and in place, and the
   * merged definition holds exactly its schemas and those the later definitions name.
   */
  lemma {:induction false} MergeAllKeys(first: Definition, rest: seq<Definition>)
    ensures MergeAll(first, rest).Ok? ==>
              var r := MergeAll(first, rest).value.schemas;
              |first.schemas| <= |r| && KeysOf(r)[..|first.schemas|] == KeysOf(first.schemas)
              && forall k :: HasKey(r, k) <==> HasKey(first.schemas, k) || NamedLater(rest, k)
    decreases |rest|
  {
    if rest != [] && MergeAll(first, rest).Ok? {
      var n := |rest| - 1;
      var p := rest[..n];
      MergeAllKeys(first, p);
      var d := MergeAll(first, p).value;
      MergeSchemasEffect(d.schemas, ValuesOf(rest[n].schemas));
      var r := MergeAll(first, rest).value.schemas;
      assert KeysOf(r)[..|first.schemas|] == KeysOf(r)[..|d.schemas|][..|first.schemas|];
      forall k ensures NamedLater(rest, k) <==> NamedLater(p, k) || Names(ValuesOf(rest[n].schemas), SchemaName, k) {
        NamedLaterSnoc(rest, k);
      }
    }
  }

  lemma NamedLaterSnoc(rest: seq<Definition>, k: string)
    requires rest != []
    ensures NamedLater(rest, k) <==> NamedLater(rest[..|rest| - 1], k) || Names(ValuesOf(rest[|rest| - 1].schemas), SchemaName, k)
  {
    var p := rest[..|rest| - 1];
    if NamedLater(p, k) {
      var i :| 0 <= i < |p| && Names(ValuesOf(p[i].schemas), SchemaName, k);
      assert rest[i] == p[i];
    }
  }

  /** The schemas of the later definitions, definition by definition, in the order the merge takes them. */
  function Later(rest: seq<Definition>): seq<Schema>
    decreases |rest|
  {
    if rest == [] then [] else Later(rest[..|rest| - 1]) + ValuesOf(rest[|rest| - 1].schemas)
  }

  lemma {:induction false} OfNameAppend<V>(xs: seq<V>, ys: seq<V>, name: V -> string, k: string)
    ensures OfName(xs + ys, name, k) == OfName(xs, name, k) + OfName(ys, name, k)
    decreases |ys|
  {
    if ys == [] {
      assert xs + ys == xs;
    } else {
      var q := ys[..|ys| - 1];
      var y := ys[|ys| - 1];
      assert xs + ys == (xs + q) + [y];
      assert q + [y] == ys;
      OfNameAppend(xs, q, name, k);
      OfNameSnoc(xs + q, y, name, k);
      OfNameSnoc(q, y, name, k);
    }
  }

  lemma {:induction false} FoldNamedAppend<V>(cur: Option<V>, u: seq<V>, w: seq<V>, merge: (V, V) -> Result<V, MergeError>)
    ensures FoldNamed(cur, u, merge).Err? ==> FoldNamed(cur, u + w, merge).Err?
    ensures FoldNamed(cur, u, merge).Ok? ==> FoldNamed(cur, u + w, merge) == FoldNamed(FoldNamed(cur, u, merge).value, w, merge)
    decreases |w|
  {
    if w == [] {
      assert u + w == u;
    } else {
      var q := w[..|w| - 1];
      FoldNamedAppend(cur, u, q, merge);
      assert (u + w)[..|u + w| - 1] == u + q;
      assert (u + w)[|u + w| - 1] == w[|w| - 1];
    }
  }

  lemma ByNameAppend<V>(acc: OMap<string, V>, xs: seq<V>, ys: seq<V>, name: V -> string,
                        merge: (V, V) -> Result<V, MergeError>, a: OMap<string, V>, r: OMap<string, V>)
    requires ByName(acc, xs, name, merge, a) && ByName(a, ys, name, merge, r)
    ensures ByName(acc, xs + ys, name, merge, r)
  {
    forall k ensures FoldNamed(Lookup(acc, k), OfName(xs + ys, name, k), merge) == Ok(Lookup(r, k)) {
      OfNameAppend(xs, ys, name, k);
      FoldNamedAppend(Lookup(acc, k), OfName(xs, name, k), OfName(ys, name, k), merge);
    }
  }

  lemma FailsAppend<V>(acc: OMap<string, V>, xs: seq<V>, ys: seq<V>, name: V -> string,
                       merge: (V, V) -> Result<V, MergeError>, a: OMap<string, V>)
    requires ByName(acc, xs, name, merge, a) && FailsUnderSomeName(a, ys, name, merge)
    ensures FailsUnderSomeName(acc, xs + ys, name, merge)
  {
    var k :| FoldNamed(Lookup(a, k), OfName(ys, name, k), merge).Err?;
    OfNameAppend(xs, ys, name, k);
    FoldNamedAppend(Lookup(acc, k), OfName(xs, name, k), OfName(ys, name, k), merge);
    assert FoldNamed(Lookup(acc, k), OfName(xs + ys, name, k), merge).Err?;
  }

  lemma FailsAppendLeft<V>(acc: OMap<string, V>, xs: seq<V>, ys: seq<V>, name: V -> string,
                           merge: (V, V) -> Result<V, MergeError>)
    requires FailsUnderSomeName(acc, xs, name, merge)
    ensures FailsUnderSomeName(acc, xs + ys, name, merge)
  {
    var k :| FoldNamed(Lookup(acc, k), OfName(xs, name, k), merge).Err?;
    OfNameAppend(xs, ys, name, k);
    FoldNamedAppend(Lookup(acc, k), OfName(xs, name, k), OfName(ys, name, k), merge);
    assert FoldNamed(Lookup(acc, k), OfName(xs + ys, name, k), merge).Err?;
  }

  lemma {:induction false} MergeSchemasDistinct(acc: OMap<string, Schema>, items: seq<Schema>)
    requires DistinctKeys(acc)
    ensures MergeSchemas(acc, items).Ok? ==> DistinctKeys(MergeSchemas(acc, items).value)
    decreases |items|
  {
    if items != [] && MergeSchemas(acc, items).Ok? {
      var sc := items[|items| - 1];
      MergeSchemasDistinct(acc, items[..|items| - 1]);
      var a := MergeSchemas(acc, items[..|items| - 1]).value;
      AddSchemaCombine(a, sc);
      PutDistinct(a, SchemaName(sc), Combine(Lookup(a, SchemaName(sc)), sc, MergeSchema).value);
    }
  }

  /** Folding the later definitions in is merging all their schemas, in order, into the first one's. */
  lemma {:induction false} MergeAllByName(first: Definition, rest: seq<Definition>)
    ensures MergeAll(first, rest).Ok? ==>
              ByName(first.schemas, Later(rest), SchemaName, MergeSchema, MergeAll(first, rest).value.schemas)
    ensures MergeAll(first, rest).Err? ==> FailsUnderSomeName(first.schemas, Later(rest), SchemaName, MergeSchema)
    ensures MergeAll(first, rest).Ok? && DistinctKeys(first.schemas) ==> DistinctKeys(MergeAll(first, rest).value.schemas)
    decreases |rest|
  {
    if rest == [] {
      ByNameNone(first.schemas, SchemaName, MergeSchema);
    } else {
      var p := rest[..|rest| - 1];
      var vs := ValuesOf(rest[|rest| - 1].schemas);
      MergeAllByName(first, p);
      if MergeAll(first, p).Err? {
        FailsAppendLeft(first.schemas, Later(p), vs, SchemaName, MergeSchema);
      } else {
        var a := MergeAll(first, p).value.schemas;
        MergeSchemasByName(a, vs);
        if DistinctKeys(first.schemas) {
          MergeSchemasDistinct(a, vs);
        }
        if MergeSchemas(a, vs).Err? {
          FailsAppend(first.schemas, Later(p), vs, SchemaName, MergeSchema, a);
        } else {
          ByNameAppend(first.schemas, Later(p), vs, SchemaName, MergeSchema, a, MergeSchemas(a, vs).value);
        }
      }
    }
  }

  /** A schema as the closing sorts leave it: its tables ordered by name. */
  function SortedUnder(o: Option<Schema>): Option<Schema> {
    match o
    case None => None
    case Some(sc) => Some(SortTables(sc))
  }

  lemma {:induction false} SortTablesLookup(m: OMap<string, Schema>, k: string)
    ensures Lookup(MapValues(m, SortTables), k) == SortedUnder(Lookup(m, k))
    decreases |m|
  {
    if m != [] {
      assert MapValues(m, SortTables)[1..] == MapValues(m[1..], SortTables);
      SortTablesLookup(m[1..], k);
    }
  }

  lemma SortedLookup(d: Definition, k: string)
    requires DistinctKeys(d.schemas)
    ensures Lookup(Sorted(d).schemas, k) == SortedUnder(Lookup(d.schemas, k))
  {
    SortTablesLookup(SortByKey(d.schemas), k);
    SortByKeyLookup(d.schemas, k);
  }

  /**
   * The merged definition is ordered by schema name and each schema by table name, and it
   * holds exactly the schemas of the first definition and those the later ones name. Under
   * each name is what the schemas of that name, taken definition by definition, merge to from
   * the first definition's, with its tables sorted; the merge fails exactly when one of those
   * merges fails.
   */
  lemma MergeDefinitionsEffect(ds: seq<Definition>)
    ensures ds == [] ==> MergeDefinitions(ds) == Err(NoDefinitions)
    ensures MergeDefinitions(ds).Ok? ==>
              var r := MergeDefinitions(ds).value.schemas;
              KeySorted(r) && (forall i :: 0 <= i < |r| ==> KeySorted(r[i].1.tables))
              && forall k :: HasKey(r, k) <==> HasKey(ds[0].schemas, k) || NamedLater(ds[1..], k)
    ensures ds != [] ==>
              (MergeDefinitions(ds).Err? <==> FailsUnderSomeName(ds[0].schemas, Later(ds[1..]), SchemaName, MergeSchema))
    ensures MergeDefinitions(ds).Ok? && DistinctKeys(ds[0].schemas) ==>
              forall k :: FoldNamed(Lookup(ds[0].schemas, k), OfName(Later(ds[1..]), SchemaName, k), MergeSchema).Ok?
                       && Lookup(MergeDefinitions(ds).value.schemas, k)
                            == SortedUnder(FoldNamed(Lookup(ds[0].schemas, k), OfName(Later(ds[1..]), SchemaName, k), MergeSchema).value)
  {
    if ds != [] {
      MergeAllKeys(ds[0], ds[1..]);
      MergeAllByName(ds[0], ds[1..]);
      if MergeAll(ds[0], ds[1..]).Ok? && DistinctKeys(ds[0].schemas) {
        var d := MergeAll(ds[0], ds[1..]).value;
        forall k ensures Lookup(Sorted(d).schemas, k) == SortedUnder(Lookup(d.schemas, k)) {
          SortedLookup(d, k);
        }
      }
    }
  }

  // ---------------------------------------------------------------------------------------
  // The method, loop by loop.

  lemma ElementsNext<T>(acc: OMap<string, T>, items: seq<T>, key: T -> string, i: nat)
    requires i < |items|
    ensures MergeElements(acc, items[..i + 1], key) ==
              match MergeElements(acc, items[..i], key)
              case Err(x) => Err(x)
              case Ok(a) => AddElement(a, items[i], key)
  {
    assert items[..i + 1][..i] == items[..i];
  }

  lemma {:induction false} ElementsErr<T>(acc: OMap<string, T>, items: seq<T>, key: T -> string, n: nat)
    requires n <= |items| && MergeElements(acc, items[..n], key).Err?
    ensures MergeElements(acc, items, key) == MergeElements(acc, items[..n], key)
    decreases |items|
  {
    if n < |items| {
      var p := items[..|items| - 1];
      assert p[..n] == items[..n];
      ElementsErr(acc, p, key, n);
    } else {
      assert items[..n] == items;
    }
  }

  method MergeElementsLoop<T>(acc: OMap<string, T>, m: OMap<string, T>, key: T -> string)
    returns (r: Result<OMap<string, T>, T>)
    ensures r == MergeElements(acc, ValuesOf(m), key)
  {
    var merged := acc;
    var i := 0;
    while i < |m|
      invariant 0 <= i <= |m|
      invariant MergeElements(acc, ValuesOf(m)[..i], key) == Ok(merged)
    {
      var x := m[i].1;
      ElementsNext(acc, ValuesOf(m), key, i);
      if HasKey(merged, key(x)) {
        ElementsErr(acc, ValuesOf(m), key, i + 1);
        return Err(x);
      }
      merged := Put(merged, key(x), x);
      i := i + 1;
    }
    assert ValuesOf(m)[..|m|] == ValuesOf(m);
    return Ok(merged);
  }

  /** The four element loops and the primary key check on one table that both sides have. */
  method MergeTableInto(mt: Table, t: Table) returns (r: Result<Table, MergeError>)
    ensures r == MergeTable(mt, t)
  {
    var columns := MergeElementsLoop(mt.columns, t.columns, ColumnKey);
    if columns.Err? {
      return Err(DuplicateColumn(columns.error.name, t.name));
    }
    var foreignKeys := MergeElementsLoop(mt.foreignKeys, t.foreignKeys, ForeignKeyColumn);
    if foreignKeys.Err? {
      return Err(DuplicateForeignKey(foreignKeys.error.keyColumn, t.name));
    }
    var uniqueKeys := MergeElementsLoop(mt.uniqueKeys, t.uniqueKeys, UniqueKey);
    if uniqueKeys.Err? {
      return Err(DuplicateUniqueKey(uniqueKeys.error.name, t.name));
    }
    var indexes := MergeElementsLoop(mt.indexes, t.indexes, IndexKey);
    if indexes.Err? {
      return Err(DuplicateIndex(NameKey(indexes.error.name), t.name));
    }
    var primaryKey := mt.primaryKey;
    if t.primaryKey.Some? {
      if mt.primaryKey.Some? {
        return Err(DuplicatePrimaryKey(t.name));
      }
      primaryKey := t.primaryKey;
    }
    return Ok(mt.(columns := columns.value, foreignKeys := foreignKeys.value,
                  uniqueKeys := uniqueKeys.value, indexes := indexes.value, primaryKey := primaryKey));
  }

  lemma TablesNext(acc: OMap<string, Table>, items: seq<Table>, i: nat)
    requires i < |items|
    ensures MergeTables(acc, items[..i + 1]) ==
              match MergeTables(acc, items[..i])
              case Err(e) => Err(e)
              case Ok(a) => AddTable(a, items[i])
  {
    assert items[..i + 1][..i] == items[..i];
  }

  lemma {:induction false} TablesErr(acc: OMap<string, Table>, items: seq<Table>, n: nat)
    requires n <= |items| && MergeTables(acc, items[..n]).Err?
    ensures MergeTables(acc, items) == MergeTables(acc, items[..n])
    decreases |items|
  {
    if n < |items| {
      var p := items[..|items| - 1];
      assert p[..n] == items[..n];
      TablesErr(acc, p, n);
    } else {
      assert items[..n] == items;
    }
  }

  method MergeTablesLoop(acc: OMap<string, Table>, m: OMap<string, Table>)
    returns (r: Result<OMap<string, Table>, MergeError>)
    ensures r == MergeTables(acc, ValuesOf(m))
  {
    var merged := acc;
    var i := 0;
    while i < |m|
      invariant 0 <= i <= |m|
      invariant MergeTables(acc, ValuesOf(m)[..i]) == Ok(merged)
    {
      var t := m[i].1;
      TablesNext(acc, ValuesOf(m), i);
      var existing := Lookup(merged, t.name);
      if existing.None? {
        merged := Put(merged, t.name, t);
      } else {
        var res := MergeTableInto(existing.value, t);
        if res.Err? {
          TablesErr(acc, ValuesOf(m), i + 1);
          return Err(res.error);
        }
        merged := Put(merged, t.name, res.value);
      }
      i := i + 1;
    }
    assert ValuesOf(m)[..|m|] == ValuesOf(m);
    return Ok(merged);
  }

  lemma SchemasNext(acc: OMap<string, Schema>, items: seq<Schema>, i: nat)
    requires i < |items|
    ensures MergeSchemas(acc, items[..i + 1]) ==
              match MergeSchemas(acc, items[..i])
              case Err(e) => Err(e)
              case Ok(a) => AddSchema(a, items[i])
  {
    assert items[..i + 1][..i] == items[..i];
  }

  lemma {:induction false} SchemasErr(acc: OMap<string, Schema>, items: seq<Schema>, n: nat)
    requires n <= |items| && MergeSchemas(acc, items[..n]).Err?
    ensures MergeSchemas(acc, items) == MergeSchemas(acc, items[..n])
    decreases |items|
  {
    if n < |items| {
      var p := items[..|items| - 1];
      assert p[..n] == items[..n];
      SchemasErr(acc, p, n);
    } else {
      assert items[..n] == items;
    }
  }

  method MergeSchemasLoop(acc: OMap<string, Schema>, m: OMap<string, Schema>)
    returns (r: Result<OMap<string, Schema>, MergeError>)
    ensures r == MergeSchemas(acc, ValuesOf(m))
  {
    var merged := acc;
    var i := 0;
    while i < |m|
      invariant 0 <= i <= |m|
      invariant MergeSchemas(acc, ValuesOf(m)[..i]) == Ok(merged)
    {
      var sc := m[i].1;
      SchemasNext(acc, ValuesOf(m), i);
      var existing := Lookup(merged, sc.name);
      if existing.None? {
        merged := Put(merged, sc.name, sc);
      } else {
        var res := MergeTablesLoop(existing.value.tables, sc.tables);
        if res.Err? {
          SchemasErr(acc, ValuesOf(m), i + 1);
          return Err(res.error);
        }
        merged := Put(merged, sc.name, existing.value.(tables := res.value));
      }
      i := i + 1;
    }
    assert ValuesOf(m)[..|m|] == ValuesOf(m);
    return Ok(merged);
  }

  lemma AllNext(ds: seq<Definition>, i: nat)
    requires 1 <= i < |ds|
    ensures MergeAll(ds[0], ds[1..i + 1]) == MergeNext(MergeAll(ds[0], ds[1..i]), ds[i])
  {
    SliceSnoc(ds, i);
  }

  lemma SliceSnoc<T>(s: seq<T>, i: nat)
    requires 1 <= i < |s|
    ensures s[1..i + 1][..i - 1] == s[1..i] && s[1..i + 1][i - 1] == s[i]
  {
  }

  lemma {:induction false} AllErr(first: Definition, rest: seq<Definition>, n: nat)
    requires n <= |rest| && MergeAll(first, rest[..n]).Err?
    ensures MergeAll(first, rest) == MergeAll(first, rest[..n])
    decreases |rest|
  {
    if n < |rest| {
      var p := rest[..|rest| - 1];
      assert p[..n] == rest[..n];
      AllErr(first, p, n);
    } else {
      assert rest[..n] == rest;
    }
  }

  /** `Collector::mergeDefinitions`. */
  method MergeDefinitionsLoop(ds: seq<Definition>) returns (r: Result<Definition, MergeError>)
    ensures r == MergeDefinitions(ds)
  {
    var merged: Option<Definition> := None;
    var i := 0;
    while i < |ds|
      invariant 0 <= i <= |ds|
      invariant merged.None? <==> i == 0
      invariant i > 0 ==> MergeAll(ds[0], ds[1..i]) == Ok(merged.value)
    {
      if merged.None? {
        merged := Some(ds[i]);
        assert ds[1..1] == [];
      } else {
        var res := MergeSchemasLoop(merged.value.schemas, ds[i].schemas);
        AllNext(ds, i);
        if res.Err? {
          assert ds[1..][..i] == ds[1..i + 1];
          AllErr(ds[0], ds[1..], i);
          return Err(res.error);
        }
        merged := Some(Definition(res.value));
      }
      i := i + 1;
    }
    if merged.None? {
      return Err(NoDefinitions);
    }
    assert ds[1..|ds|] == ds[1..];
    var d := SortDefinition(merged.value);
    return Ok(d);
  }

  /** The closing `ksort` of the schemas and the `foreach` that sorts each schema's tables. */
  method SortDefinition(d: Definition) returns (r: Definition)
    ensures r == Sorted(d)
  {
    var schemas := SortByKey(d.schemas);
    var sorted := schemas;
    var j := 0;
    while j < |schemas|
      invariant 0 <= j <= |schemas| && |sorted| == |schemas|
      invariant forall k :: 0 <= k < j ==> sorted[k] == (schemas[k].0, SortTables(schemas[k].1))
      invariant forall k :: j <= k < |schemas| ==> sorted[k] == schemas[k]
    {
      sorted := sorted[j := (schemas[j].0, SortTables(schemas[j].1))];
      j := j + 1;
    }
    assert sorted == MapValues(schemas, SortTables);
    return Definition(sorted);
  }
}
