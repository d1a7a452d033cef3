/**
 * The change set the comparator produces and the processors consume: a nested PHP array
 * `op -> schema -> ('all' | table -> ('all' | 'columns' | 'foreignKeys' | 'indexes' |
 * 'uniqueKeys' | 'primaryKey'))`. The op and schema levels are ordered maps, because the
 * processors visit them in insertion order; the per-table entry is a record, because the
 * processors read its parts in a fixed order whatever order they were inserted in.
 */
module ChangeSets {
  import opened Wrappers
  import opened OrderedMaps

  datatype Op = Create | Update | Remove

  /** The four lists a table entry may carry. */
  datatype Kind = Columns | ForeignKeys | Indexes | UniqueKeys

  datatype TableChange = TableChange(
    all: bool,
    columns: seq<string>,
    foreignKeys: seq<string>,
    indexes: seq<string>,
    uniqueKeys: seq<string>,
    primaryKey: bool)
  {
    function Names(k: Kind): seq<string> {
      match k
      case Columns => columns
      case ForeignKeys => foreignKeys
      case Indexes => indexes
      case UniqueKeys => uniqueKeys
    }

    /** `$entry[kind][] = $name`. */
    function WithName(k: Kind, n: string): (r: TableChange)
      ensures r.Names(k) == Names(k) + [n]
      ensures forall k2 :: k2 != k ==> r.Names(k2) == Names(k2)
      ensures r.all == all && r.primaryKey == primaryKey
    {
      match k
      case Columns => this.(columns := columns + [n])
      case ForeignKeys => this.(foreignKeys := foreignKeys + [n])
      case Indexes => this.(indexes := indexes + [n])
      case UniqueKeys => this.(uniqueKeys := uniqueKeys + [n])
    }
  }

  const NoTableChange := TableChange(false, [], [], [], [], false)

  datatype SchemaChange = SchemaChange(all: bool, tables: OMap<string, TableChange>)

  const NoSchemaChange := SchemaChange(false, [])

  type ChangeSet = OMap<Op, OMap<string, SchemaChange>>

  /** `$result[op] ?? []`. */
  function OpAt(cs: ChangeSet, op: Op): OMap<string, SchemaChange> {
    Lookup(cs, op).GetOr([])
  }

  /** `$result[op][schema]`, empty when absent. */
  function SchemaAt(cs: ChangeSet, op: Op, s: string): SchemaChange {
    Lookup(OpAt(cs, op), s).GetOr(NoSchemaChange)
  }

  /** `$result[op][schema][table]`, empty when absent. */
  function TableAt(cs: ChangeSet, op: Op, s: string, t: string): TableChange {
    Lookup(SchemaAt(cs, op, s).tables, t).GetOr(NoTableChange)
  }

  /** Assigning `$result[op][schema]`, creating the op level when missing. */
  function PutSchema(cs: ChangeSet, op: Op, s: string, sc: SchemaChange): ChangeSet {
    Put(cs, op, Put(OpAt(cs, op), s, sc))
  }

  /** Assigning `$result[op][schema][table]`, creating the outer levels when missing. */
  function PutTable(cs: ChangeSet, op: Op, s: string, t: string, tc: TableChange): ChangeSet {
    var sc := SchemaAt(cs, op, s);
    PutSchema(cs, op, s, sc.(tables := Put(sc.tables, t, tc)))
  }

  /** `$result[op][schema]['all'] = true`. */
  function MarkSchemaAll(cs: ChangeSet, op: Op, s: string): ChangeSet {
    PutSchema(cs, op, s, SchemaAt(cs, op, s).(all := true))
  }

  /** `$result[op][schema][table]['all'] = true`. */
  function MarkTableAll(cs: ChangeSet, op: Op, s: string, t: string): ChangeSet {
    PutTable(cs, op, s, t, TableAt(cs, op, s, t).(all := true))
  }

  /** `$result[op][schema][table]['primaryKey'] = true`. */
  function MarkPrimary(cs: ChangeSet, op: Op, s: string, t: string): ChangeSet {
    PutTable(cs, op, s, t, TableAt(cs, op, s, t).(primaryKey := true))
  }

  /** `$result[op][schema][table][kind][] = $name`. */
  function AppendName(cs: ChangeSet, op: Op, s: string, t: string, k: Kind, n: string): ChangeSet {
    PutTable(cs, op, s, t, TableAt(cs, op, s, t).WithName(k, n))
  }

  lemma SchemaAtPutSchema(cs: ChangeSet, op: Op, s: string, sc: SchemaChange, op2: Op, s2: string)
    ensures SchemaAt(PutSchema(cs, op, s, sc), op2, s2) ==
              if op == op2 && s == s2 then sc else SchemaAt(cs, op2, s2)
  {
    PutLookup(cs, op, Put(OpAt(cs, op), s, sc), op2);
    PutLookup(OpAt(cs, op), s, sc, s2);
  }

  lemma TableAtPutTable(cs: ChangeSet, op: Op, s: string, t: string, tc: TableChange, op2: Op, s2: string, t2: string)
    ensures TableAt(PutTable(cs, op, s, t, tc), op2, s2, t2) ==
              if op == op2 && s == s2 && t == t2 then tc else TableAt(cs, op2, s2, t2)
    ensures SchemaAt(PutTable(cs, op, s, t, tc), op2, s2).all == SchemaAt(cs, op2, s2).all
  {
    var sc := SchemaAt(cs, op, s);
    SchemaAtPutSchema(cs, op, s, sc.(tables := Put(sc.tables, t, tc)), op2, s2);
    PutLookup(sc.tables, t, tc, t2);
  }

  /** Appending a name changes only that list of that entry. */
  lemma TableAtAppendName(cs: ChangeSet, op: Op, s: string, t: string, k: Kind, n: string, op2: Op, s2: string, t2: string)
    ensures TableAt(AppendName(cs, op, s, t, k, n), op2, s2, t2) ==
              if op == op2 && s == s2 && t == t2 then TableAt(cs, op, s, t).WithName(k, n) else TableAt(cs, op2, s2, t2)
    ensures SchemaAt(AppendName(cs, op, s, t, k, n), op2, s2).all == SchemaAt(cs, op2, s2).all
  {
    TableAtPutTable(cs, op, s, t, TableAt(cs, op, s, t).WithName(k, n), op2, s2, t2);
  }

  /** `tc` with the names `ns` appended to its `k` list. */
  function Extend(tc: TableChange, k: Kind, ns: seq<string>): (r: TableChange)
    ensures r.Names(k) == tc.Names(k) + ns
    ensures forall k2 :: k2 != k ==> r.Names(k2) == tc.Names(k2)
    ensures r.all == tc.all && r.primaryKey == tc.primaryKey
  {
    match k
    case Columns => tc.(columns := tc.columns + ns)
    case ForeignKeys => tc.(foreignKeys := tc.foreignKeys + ns)
    case Indexes => tc.(indexes := tc.indexes + ns)
    case UniqueKeys => tc.(uniqueKeys := tc.uniqueKeys + ns)
  }

  lemma ExtendSnoc(tc: TableChange, k: Kind, ns: seq<string>, n: string)
    ensures Extend(tc, k, ns + [n]) == Extend(tc, k, ns).WithName(k, n)
  {
    assert tc.Names(k) + (ns + [n]) == tc.Names(k) + ns + [n];
  }

  lemma ExtendNone(tc: TableChange, k: Kind)
    ensures Extend(tc, k, []) == tc
  {
    assert tc.Names(k) + [] == tc.Names(k);
  }

  lemma SchemaAtPutTable(cs: ChangeSet, op: Op, s: string, t: string, tc: TableChange, op2: Op, s2: string)
    requires op2 != op || s2 != s
    ensures SchemaAt(PutTable(cs, op, s, t, tc), op2, s2) == SchemaAt(cs, op2, s2)
  {
    var sc := SchemaAt(cs, op, s);
    SchemaAtPutSchema(cs, op, s, sc.(tables := Put(sc.tables, t, tc)), op2, s2);
  }

  /** Outside the schemas of `s` under `ops`, `b` and `a` agree. */
  ghost predicate SameOutside(a: ChangeSet, b: ChangeSet, ops: set<Op>, s: string) {
    forall op2, s2 :: op2 !in ops || s2 != s ==> SchemaAt(b, op2, s2) == SchemaAt(a, op2, s2)
  }

  /** Outside the entries of table `t` of schema `s` under `ops`, `b` and `a` agree. */
  ghost predicate SameTablesOutside(a: ChangeSet, b: ChangeSet, ops: set<Op>, s: string, t: string) {
    forall op2, s2, t2 :: op2 !in ops || s2 != s || t2 != t ==> TableAt(b, op2, s2, t2) == TableAt(a, op2, s2, t2)
  }

  /** No schema-level 'all' flag differs between `a` and `b`. */
  ghost predicate SameFlags(a: ChangeSet, b: ChangeSet) {
    forall op2, s2 :: SchemaAt(b, op2, s2).all == SchemaAt(a, op2, s2).all
  }

  /** Appending a name touches only the entry it appends to. */
  lemma AppendNameFrame(cs: ChangeSet, op: Op, s: string, t: string, k: Kind, n: string)
    ensures var r := AppendName(cs, op, s, t, k, n);
            TableAt(r, op, s, t) == TableAt(cs, op, s, t).WithName(k, n)
            && SameTablesOutside(cs, r, {op}, s, t) && SameOutside(cs, r, {op}, s) && SameFlags(cs, r)
  {
    var r := AppendName(cs, op, s, t, k, n);
    forall op2, s2, t2 ensures TableAt(r, op2, s2, t2) == if op == op2 && s == s2 && t == t2 then TableAt(cs, op, s, t).WithName(k, n) else TableAt(cs, op2, s2, t2) {
      TableAtAppendName(cs, op, s, t, k, n, op2, s2, t2);
    }
    forall op2, s2 | op2 != op || s2 != s ensures SchemaAt(r, op2, s2) == SchemaAt(cs, op2, s2) {
      SchemaAtPutTable(cs, op, s, t, TableAt(cs, op, s, t).WithName(k, n), op2, s2);
    }
    forall op2, s2 ensures SchemaAt(r, op2, s2).all == SchemaAt(cs, op2, s2).all {
      TableAtAppendName(cs, op, s, t, k, n, op2, s2, t);
    }
  }

  /** Marking a table touches only that table's entry, and sets only its 'all' flag. */
  lemma MarkTableAllFrame(cs: ChangeSet, op: Op, s: string, t: string)
    ensures var r := MarkTableAll(cs, op, s, t);
            TableAt(r, op, s, t) == TableAt(cs, op, s, t).(all := true)
            && SameTablesOutside(cs, r, {op}, s, t) && SameOutside(cs, r, {op}, s) && SameFlags(cs, r)
  {
    var r := MarkTableAll(cs, op, s, t);
    var tc := TableAt(cs, op, s, t).(all := true);
    forall op2, s2, t2 ensures TableAt(r, op2, s2, t2) == if op == op2 && s == s2 && t == t2 then tc else TableAt(cs, op2, s2, t2) {
      TableAtPutTable(cs, op, s, t, tc, op2, s2, t2);
    }
    forall op2, s2 | op2 != op || s2 != s ensures SchemaAt(r, op2, s2) == SchemaAt(cs, op2, s2) {
      SchemaAtPutTable(cs, op, s, t, tc, op2, s2);
    }
    forall op2, s2 ensures SchemaAt(r, op2, s2).all == SchemaAt(cs, op2, s2).all {
      TableAtPutTable(cs, op, s, t, tc, op2, s2, t);
    }
  }

  /** Marking a primary-key change touches only that table's entry, and sets only its flag. */
  lemma MarkPrimaryFrame(cs: ChangeSet, op: Op, s: string, t: string)
    ensures var r := MarkPrimary(cs, op, s, t);
            TableAt(r, op, s, t) == TableAt(cs, op, s, t).(primaryKey := true)
            && SameTablesOutside(cs, r, {op}, s, t) && SameOutside(cs, r, {op}, s) && SameFlags(cs, r)
  {
    var r := MarkPrimary(cs, op, s, t);
    var tc := TableAt(cs, op, s, t).(primaryKey := true);
    forall op2, s2, t2 ensures TableAt(r, op2, s2, t2) == if op == op2 && s == s2 && t == t2 then tc else TableAt(cs, op2, s2, t2) {
      TableAtPutTable(cs, op, s, t, tc, op2, s2, t2);
    }
    forall op2, s2 | op2 != op || s2 != s ensures SchemaAt(r, op2, s2) == SchemaAt(cs, op2, s2) {
      SchemaAtPutTable(cs, op, s, t, tc, op2, s2);
    }
    forall op2, s2 ensures SchemaAt(r, op2, s2).all == SchemaAt(cs, op2, s2).all {
      TableAtPutTable(cs, op, s, t, tc, op2, s2, t);
    }
  }

  /** Marking a schema touches only that schema's entry, and sets only its 'all' flag. */
  lemma MarkSchemaAllFrame(cs: ChangeSet, op: Op, s: string)
    ensures var r := MarkSchemaAll(cs, op, s);
            SchemaAt(r, op, s) == SchemaAt(cs, op, s).(all := true) && SameOutside(cs, r, {op}, s)
  {
    var r := MarkSchemaAll(cs, op, s);
    forall op2, s2 ensures SchemaAt(r, op2, s2) == if op == op2 && s == s2 then SchemaAt(cs, op, s).(all := true) else SchemaAt(cs, op2, s2) {
      SchemaAtPutSchema(cs, op, s, SchemaAt(cs, op, s).(all := true), op2, s2);
    }
  }
}
