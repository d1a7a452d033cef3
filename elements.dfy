/**
 * How the processors find what a change set names: a schema, table, column or key is looked
 * up in the definition being processed first and, when it is gone from there (a removal),
 * in the definition the database had before. A name found in neither is a null argument to
 * the `process*` method that receives it.
 */
module Elements {
  import opened Wrappers
  import opened OrderedMaps
  import opened Config

  /** `$this->oldDefinition->schemas[$s]->tables[$t]`, null when either level is missing. */
  function OldTable(current: Definition, s: string, t: string): (r: Option<Table>)
    ensures r.Some? <==> HasKey(current.schemas, s) && HasKey(Lookup(current.schemas, s).value.tables, t)
  {
    match Lookup(current.schemas, s)
    case None => None
    case Some(sc) => Lookup(sc.tables, t)
  }

  /** `$table->columns[$name] ?? <the same column of the old table>`. */
  function FindColumn(current: Definition, s: Schema, t: Table, n: string): (r: Option<Column>)
    ensures HasKey(t.columns, n) ==> r == Lookup(t.columns, n)
    ensures !HasKey(t.columns, n) ==>
              r == if OldTable(current, s.name, t.name).Some? then Lookup(OldTable(current, s.name, t.name).value.columns, n) else None
  {
    match Lookup(t.columns, n)
    case Some(c) => Some(c)
    case None => if OldTable(current, s.name, t.name).Some? then Lookup(OldTable(current, s.name, t.name).value.columns, n) else None
  }

  /** `$table->foreignKeys[$name] ?? <the same key of the old table>`. */
  function FindForeign(current: Definition, s: Schema, t: Table, n: string): (r: Option<Foreign>)
    ensures HasKey(t.foreignKeys, n) ==> r == Lookup(t.foreignKeys, n)
    ensures !HasKey(t.foreignKeys, n) ==>
              r == if OldTable(current, s.name, t.name).Some? then Lookup(OldTable(current, s.name, t.name).value.foreignKeys, n) else None
  {
    match Lookup(t.foreignKeys, n)
    case Some(f) => Some(f)
    case None => if OldTable(current, s.name, t.name).Some? then Lookup(OldTable(current, s.name, t.name).value.foreignKeys, n) else None
  }

  /** `$table->indexes[$name] ?? <the same index of the old table>`. */
  function FindIndex(current: Definition, s: Schema, t: Table, n: string): (r: Option<Index>)
    ensures HasKey(t.indexes, n) ==> r == Lookup(t.indexes, n)
    ensures !HasKey(t.indexes, n) ==>
              r == if OldTable(current, s.name, t.name).Some? then Lookup(OldTable(current, s.name, t.name).value.indexes, n) else None
  {
    match Lookup(t.indexes, n)
    case Some(ix) => Some(ix)
    case None => if OldTable(current, s.name, t.name).Some? then Lookup(OldTable(current, s.name, t.name).value.indexes, n) else None
  }

  /** `$table->uniqueKeys[$name] ?? <the same key of the old table>`. */
  function FindUnique(current: Definition, s: Schema, t: Table, n: string): (r: Option<Unique>)
    ensures HasKey(t.uniqueKeys, n) ==> r == Lookup(t.uniqueKeys, n)
    ensures !HasKey(t.uniqueKeys, n) ==>
              r == if OldTable(current, s.name, t.name).Some? then Lookup(OldTable(current, s.name, t.name).value.uniqueKeys, n) else None
  {
    match Lookup(t.uniqueKeys, n)
    case Some(u) => Some(u)
    case None => if OldTable(current, s.name, t.name).Some? then Lookup(OldTable(current, s.name, t.name).value.uniqueKeys, n) else None
  }

  /** `$schema->tables[$name] ?? $this->oldDefinition->schemas[$schema->name]->tables[$name]`. */
  function FindTable(current: Definition, sc: Schema, n: string): (r: Option<Table>)
    ensures HasKey(sc.tables, n) ==> r == Lookup(sc.tables, n)
    ensures !HasKey(sc.tables, n) ==> r == OldTable(current, sc.name, n)
  {
    match Lookup(sc.tables, n)
    case Some(t) => Some(t)
    case None => OldTable(current, sc.name, n)
  }

  /** `$this->definition->schemas[$name] ?? $this->oldDefinition->schemas[$name]`. */
  function FindSchema(target: Definition, current: Definition, n: string): (r: Option<Schema>)
    ensures HasKey(target.schemas, n) ==> r == Lookup(target.schemas, n)
    ensures !HasKey(target.schemas, n) ==> r == Lookup(current.schemas, n)
  {
    match Lookup(target.schemas, n)
    case Some(sc) => Some(sc)
    case None => Lookup(current.schemas, n)
  }
}
