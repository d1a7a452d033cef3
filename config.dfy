/**
 * The definition tree: a Definition holds schemas, a Schema holds tables, a Table holds
 * columns, foreign keys, indexes, unique keys and an optional primary key. Every PHP array
 * of the tree is an ordered map (`OMap`) from the element's key to the element.
 */
module Config {
  import opened Wrappers
  import opened PhpStrings
  import opened OrderedMaps

  /** A PHP scalar as it appears in a column default: null, bool, int or string. */
  datatype Value = VNull | VBool(b: bool) | VInt(i: int) | VStr(s: string)

  /** PHP's conversion of a scalar to a string (`(string)` and string interpolation). */
  function StrOf(v: Value): (r: string)
    ensures v.VStr? ==> r == v.s
    ensures v.VInt? ==> IntCast(r) == v.i
  {
    match v
    case VNull => ""
    case VBool(b) => if b then "1" else ""
    case VInt(i) => IntCastRoundTrip(i); IntToString(i)
    case VStr(s) => s
  }

  /** PHP truthiness of a string: "" and "0" are falsy. */
  predicate Truthy(s: string) { s != "" && s != "0" }

  /** The column types the definition language knows. */
  const ColumnTypes: seq<string> := ["bool", "int", "bigint", "string", "text", "datetime", "float", "fulltext"]

  predicate IsColumnType(t: string) { t in ColumnTypes }

  datatype Column = Column(
    name: string,
    typ: string,
    nullable: bool,
    auto: bool,
    default: Value,
    onUpdate: Option<string>,
    // the fields below are excluded from comparison
    private: bool,
    internal: bool,
    dataDefault: Value,
    keyProperty: bool,
    valueProperty: bool,
    dontCache: bool,
    skipInManipulation: bool,
    showData: bool)

  /** A column with every optional field at its declared default. */
  function NewColumn(name: string, typ: string, nullable: bool): (c: Column)
    ensures c.name == name && c.typ == typ && c.nullable == nullable
    ensures !c.auto && c.default == VNull && c.onUpdate == None
    ensures !c.private && !c.internal && c.dataDefault == VNull
    ensures !c.keyProperty && !c.valueProperty && !c.dontCache && !c.skipInManipulation && !c.showData
  {
    Column(name, typ, nullable, false, VNull, None, false, false, VNull, false, false, false, false, false)
  }

  /** `isSameAs` for columns: equality on the fields that take part in comparison. */
  predicate SameColumn(a: Column, b: Column) {
    a.name == b.name && a.typ == b.typ && a.nullable == b.nullable && a.auto == b.auto
    && a.default == b.default && a.onUpdate == b.onUpdate
  }

  datatype Foreign = Foreign(
    name: Option<string>,
    keyColumn: string,
    schema: Option<string>,
    table: string,
    column: string,
    onDelete: string,
    onUpdate: string,
    reverseName: Option<string>,
    reverseOrder: Option<string>,
    // the fields below are excluded from comparison
    reverseSkipInManipulation: bool,
    reverseDontCache: bool)

  /** A foreign key with every optional field at its declared default. */
  function NewForeign(keyColumn: string, table: string, column: string): (f: Foreign)
    ensures f.keyColumn == keyColumn && f.table == table && f.column == column
    ensures f.name == None && f.schema == None
    ensures f.onDelete == "cascade" && f.onUpdate == "cascade"
    ensures f.reverseName == None && f.reverseOrder == None
    ensures !f.reverseSkipInManipulation && !f.reverseDontCache
  {
    Foreign(None, keyColumn, None, table, column, "cascade", "cascade", None, None, false, false)
  }

  /** `isSameAs` for foreign keys: every field except the two excluded ones. */
  predicate SameForeign(a: Foreign, b: Foreign) {
    a.name == b.name && a.keyColumn == b.keyColumn && a.schema == b.schema && a.table == b.table
    && a.column == b.column && a.onDelete == b.onDelete && a.onUpdate == b.onUpdate
    && a.reverseName == b.reverseName && a.reverseOrder == b.reverseOrder
  }

  /** The name of an index may be null, an int or a string. */
  datatype IndexName = NoName | IntName(i: int) | StrName(s: string)

  /** The PHP array key a name turns into: null becomes "", an int its decimal form. */
  function NameKey(n: IndexName): (k: string)
    ensures n.StrName? ==> k == n.s
  {
    match n
    case NoName => ""
    case IntName(i) => IntToString(i)
    case StrName(s) => s
  }

  /** The name is a non-empty string other than "0", so `process` keeps it. */
  predicate HasUsableName(n: IndexName) { n.StrName? && Truthy(n.s) }

  datatype Index = Index(name: IndexName, columns: seq<string>)

  /** A unique key: a name and its columns, shaped like an index. */
  datatype Unique = Unique(name: string, columns: seq<string>)

  datatype Primary = Primary(columns: seq<string>)

  datatype Table = Table(
    typ: string,
    name: string,
    moduleName: Option<string>,
    columns: OMap<string, Column>,
    primaryKey: Option<Primary>,
    uniqueKeys: OMap<string, Unique>,
    indexes: OMap<string, Index>,
    foreignKeys: OMap<string, Foreign>)

  /** A table with every optional field at its declared default. */
  function NewTable(name: string): (t: Table)
    ensures t.name == name && t.typ == "create" && t.moduleName == None && t.primaryKey == None
    ensures t.columns == [] && t.uniqueKeys == [] && t.indexes == [] && t.foreignKeys == []
  {
    Table("create", name, None, [], None, [], [], [])
  }

  datatype Schema = Schema(name: string, tables: OMap<string, Table>)

  datatype Definition = Definition(schemas: OMap<string, Schema>)

  // The array keys under which a table stores each kind of element.

  function ColumnKey(c: Column): string { c.name }

  /** A foreign key looked up by constraint name (null reads key ""). */
  function ForeignNameKey(f: Foreign): string { f.name.GetOr("") }

  /** Definitions key foreign keys by their key column. */
  function ForeignKeyColumn(f: Foreign): string { f.keyColumn }

  function IndexKey(ix: Index): string { NameKey(ix.name) }

  function UniqueKey(u: Unique): string { u.name }

  /**
   * `Index::process`: an index without a usable name gets its columns sorted and the name
   * `{table}_{c1}_..._{cn}_ix`; an index with one is left alone.
   */
  function ProcessIndex(tableName: string, ix: Index): (r: Index)
    ensures HasUsableName(ix.name) ==> r == ix
    ensures !HasUsableName(ix.name) ==>
              multiset(r.columns) == multiset(ix.columns) && SortedStrings(r.columns)
              && r.name == StrName(tableName + "_" + Join("_", r.columns) + "_ix")
  {
    if HasUsableName(ix.name) then ix
    else
      var cols := SortStrings(ix.columns);
      Index(StrName(tableName + "_" + Join("_", cols) + "_ix"), cols)
  }

  /** After `process` the name is usable, so a second call changes nothing. */
  lemma ProcessIndexIdempotent(tableName: string, ix: Index)
    ensures HasUsableName(ProcessIndex(tableName, ix).name)
    ensures ProcessIndex(tableName, ProcessIndex(tableName, ix)) == ProcessIndex(tableName, ix)
  {
    var r := ProcessIndex(tableName, ix);
    if !HasUsableName(ix.name) {
      assert |r.name.s| >= 4;
    }
  }

  /** A derived index name does not depend on the order in which the columns were listed. */
  lemma ProcessIndexOrderIndependent(tableName: string, a: Index, b: Index)
    requires !HasUsableName(a.name) && !HasUsableName(b.name)
    requires multiset(a.columns) == multiset(b.columns)
    ensures ProcessIndex(tableName, a) == ProcessIndex(tableName, b)
  {
    SortedUnique(ProcessIndex(tableName, a).columns, ProcessIndex(tableName, b).columns);
  }

  predicate HasUsableForeignName(f: Foreign) { f.name.Some? && Truthy(f.name.value) }

  /** `Foreign::process`: a key without a usable name is named `{table}_{keyColumn}_fk`. */
  function ProcessForeign(tableName: string, f: Foreign): (r: Foreign)
    ensures HasUsableForeignName(f) ==> r == f
    ensures !HasUsableForeignName(f) ==> r == f.(name := Some(tableName + "_" + f.keyColumn + "_fk"))
    ensures HasUsableForeignName(r)
  {
    if HasUsableForeignName(f) then f
    else
      var n := tableName + "_" + f.keyColumn + "_fk";
      assert |n| >= 4;
      f.(name := Some(n))
  }

  lemma ProcessForeignIdempotent(tableName: string, f: Foreign)
    ensures ProcessForeign(tableName, ProcessForeign(tableName, f)) == ProcessForeign(tableName, f)
  {
  }

  /** `getPhpType` without a foreign key; a type outside the table raises UnhandledMatchError. */
  function PhpType(typ: string): (r: string)
    requires IsColumnType(typ)
    ensures r in {"bool", "int", "string", "DateTimeImmutable", "float"}
  {
    match typ
    case "bool" => "bool"
    case "int" => "int"
    case "bigint" => "int"
    case "string" => "string"
    case "text" => "string"
    case "datetime" => "DateTimeImmutable"
    case "float" => "float"
    case "fulltext" => "string"
  }

  /** Which column types share each PHP type: the preimages of the mapping. */
  lemma PhpTypePreimages(typ: string)
    requires IsColumnType(typ)
    ensures PhpType(typ) == "int" <==> typ == "int" || typ == "bigint"
    ensures PhpType(typ) == "string" <==> typ == "string" || typ == "text" || typ == "fulltext"
    ensures PhpType(typ) == "bool" <==> typ == "bool"
    ensures PhpType(typ) == "float" <==> typ == "float"
    ensures PhpType(typ) == "DateTimeImmutable" <==> typ == "datetime"
  {
  }

  /** `getNextrasType` without a foreign key: the PHP type and the flag suffixes. */
  function NextrasType(c: Column): (r: string)
    requires IsColumnType(c.typ)
  {
    PhpType(c.typ) + Flag(c.nullable, "null") + Flag(c.private, "PrivateProperty") + Flag(c.internal, "InternalProperty")
  }

  /** `'|' . name` when the flag is set, nothing otherwise. */
  function Flag(on: bool, name: string): string {
    if on then "|" + name else ""
  }

  /** The flags `getNextrasType` appends, in the order it appends them. */
  function NextrasFlags(c: Column): (fs: seq<string>)
    ensures forall i :: 0 <= i < |fs| ==> '|' !in fs[i]
  {
    FlagList(c.nullable, "null") + FlagList(c.private, "PrivateProperty") + FlagList(c.internal, "InternalProperty")
  }

  function FlagList(on: bool, name: string): seq<string> {
    if on then [name] else []
  }

  predicate NoBar(fs: seq<string>) {
    forall i :: 0 <= i < |fs| ==> '|' !in fs[i]
  }

  /** Each flag preceded by '|'. */
  function BarJoined(fs: seq<string>): string
    decreases |fs|
  {
    if fs == [] then "" else "|" + fs[0] + BarJoined(fs[1..])
  }

  lemma {:induction false} BarJoinedAppend(a: seq<string>, b: seq<string>)
    ensures BarJoined(a + b) == BarJoined(a) + BarJoined(b)
    decreases |a|
  {
    if a != [] {
      assert (a + b)[0] == a[0] && (a + b)[1..] == a[1..] + b;
      BarJoinedAppend(a[1..], b);
    } else {
      assert a + b == b;
    }
  }

  /** One piece of `SplitBarJoined`: `w` splits off in front of the flags' own pieces. */
  lemma SplitBarStep(w: string, fs: seq<string>)
    requires '|' !in w && |fs| >= 1
    requires Split(fs[0] + BarJoined(fs[1..]), '|') == [fs[0]] + fs[1..]
    ensures Split(w + BarJoined(fs), '|') == [w] + fs
  {
    var rest := fs[0] + BarJoined(fs[1..]);
    BarJoinedCons(w, fs);
    SplitAfterPiece(w + BarJoined(fs), w, rest, fs);
  }

  lemma BarJoinedCons(w: string, fs: seq<string>)
    requires |fs| >= 1
    ensures w + BarJoined(fs) == w + ['|'] + (fs[0] + BarJoined(fs[1..]))
  {
    var bar: string := ['|'];
    var tail := BarJoined(fs[1..]);
    assert BarJoined(fs) == bar + fs[0] + tail;
    Assoc(bar, fs[0], tail);
    Assoc(w, bar, fs[0] + tail);
  }

  lemma Assoc<T>(a: seq<T>, b: seq<T>, c: seq<T>)
    ensures a + b + c == a + (b + c)
  {
  }

  lemma SplitAfterPiece(s: string, w: string, rest: string, fs: seq<string>)
    requires '|' !in w && s == w + ['|'] + rest && |fs| >= 1
    requires Split(rest, '|') == [fs[0]] + fs[1..]
    ensures Split(s, '|') == [w] + fs
  {
    SplitCons(w, rest, '|');
    ConsHeadTail(w, fs, Split(rest, '|'));
  }

  lemma ConsHeadTail<T>(w: T, fs: seq<T>, ps: seq<T>)
    requires |fs| >= 1 && ps == [fs[0]] + fs[1..]
    ensures [w] + ps == [w] + fs
  {
    assert fs == [fs[0]] + fs[1..];
  }

  /** explode('|', w . '|f1|f2...') == [w, f1, f2, ...] when no piece holds a '|'. */
  lemma {:induction false} SplitBarJoined(w: string, fs: seq<string>)
    requires '|' !in w && NoBar(fs)
    ensures Split(w + BarJoined(fs), '|') == [w] + fs
    decreases |fs|
  {
    if fs == [] {
      assert w + BarJoined(fs) == w;
    } else {
      SplitBarJoined(fs[0], fs[1..]);
      SplitBarStep(w, fs);
    }
  }

  lemma FlagJoined(on: bool, name: string)
    ensures BarJoined(FlagList(on, name)) == Flag(on, name)
  {
    if on {
      assert BarJoined([name]) == "|" + name + BarJoined([]);
    }
  }

  lemma FlagsJoined(n: bool, f1: string, p: bool, f2: string, i: bool, f3: string)
    ensures BarJoined(FlagList(n, f1) + FlagList(p, f2) + FlagList(i, f3)) == Flag(n, f1) + Flag(p, f2) + Flag(i, f3)
  {
    var ns, ps, xs := FlagList(n, f1), FlagList(p, f2), FlagList(i, f3);
    FlagJoined(n, f1);
    FlagJoined(p, f2);
    FlagJoined(i, f3);
    BarJoinedAppend(ns, ps);
    BarJoinedAppend(ns + ps, xs);
  }

  lemma FlagsNoBar(n: bool, f1: string, p: bool, f2: string, i: bool, f3: string)
    requires '|' !in f1 && '|' !in f2 && '|' !in f3
    ensures NoBar(FlagList(n, f1) + FlagList(p, f2) + FlagList(i, f3))
  {
    var fs := FlagList(n, f1) + FlagList(p, f2) + FlagList(i, f3);
    assert forall k :: 0 <= k < |fs| ==> fs[k] in {f1, f2, f3};
  }

  /** A type name followed by three optional flags splits back into its parts. */
  lemma FlaggedParts(t: string, n: bool, f1: string, p: bool, f2: string, i: bool, f3: string)
    requires '|' !in t && '|' !in f1 && '|' !in f2 && '|' !in f3
    ensures var fs := FlagList(n, f1) + FlagList(p, f2) + FlagList(i, f3);
            Split(t + BarJoined(fs), '|') == [t] + fs
            && BarJoined(fs) == Flag(n, f1) + Flag(p, f2) + Flag(i, f3)
  {
    var fs := FlagList(n, f1) + FlagList(p, f2) + FlagList(i, f3);
    FlagsJoined(n, f1, p, f2, i, f3);
    FlagsNoBar(n, f1, p, f2, i, f3);
    SplitBarJoined(t, fs);
  }

  lemma ConcatAssoc(t: string, a: string, b: string, d: string)
    ensures t + a + b + d == t + (a + b + d)
  {
  }

  /** Splitting the Nextras type at '|' gives the PHP type, then exactly the flags that are set, in order. */
  lemma NextrasTypeParts(c: Column)
    requires IsColumnType(c.typ)
    ensures Split(NextrasType(c), '|') == [PhpType(c.typ)] + NextrasFlags(c)
  {
    var t := PhpType(c.typ);
    assert '|' !in t;
    FlaggedParts(t, c.nullable, "null", c.private, "PrivateProperty", c.internal, "InternalProperty");
    var fs := FlagList(c.nullable, "null") + FlagList(c.private, "PrivateProperty") + FlagList(c.internal, "InternalProperty");
    ConcatAssoc(t, Flag(c.nullable, "null"), Flag(c.private, "PrivateProperty"), Flag(c.internal, "InternalProperty"));
    assert NextrasType(c) == t + BarJoined(fs);
    assert NextrasFlags(c) == fs;
  }

  /**
   * `getPhpDefault`: the default as PHP source text, or None for null. A bool column whose
   * default is an int fails the string return type (a TypeError under strict types).
   */
  function PhpDefault(c: Column): (r: Result<Option<string>, string>)
  {
    match c.default
    case VNull => Ok(None)
    case VStr("now") => Ok(Some("now"))
    case _ =>
      if c.typ == "bool" then
        match c.default
        case VBool(b) => Ok(Some(if b then "true" else "false"))
        case VStr(s) => Ok(Some(s))
        case _ => Err("TypeError")
      else if c.typ == "int" || c.typ == "bigint" || c.typ == "float" then
        Ok(Some(StrOf(c.default)))
      else
        Ok(Some("'" + StrOf(c.default) + "'"))
  }

  /** What `getPhpDefault` yields, read back: the default can be recovered from the text. */
  lemma PhpDefaultReadBack(c: Column)
    ensures PhpDefault(c) == Ok(None) <==> c.default == VNull
    ensures PhpDefault(c).Err? <==> c.typ == "bool" && c.default.VInt?
    ensures c.default == VStr("now") ==> PhpDefault(c) == Ok(Some("now"))
    ensures c.typ == "bool" && c.default.VBool? ==>
              PhpDefault(c) == Ok(Some(if c.default.b then "true" else "false"))
    ensures (c.typ == "int" || c.typ == "bigint" || c.typ == "float") && c.default.VInt? ==>
              PhpDefault(c).Ok? && PhpDefault(c).value.Some? && IntCast(PhpDefault(c).value.value) == c.default.i
    ensures !(c.typ in {"bool", "int", "bigint", "float"}) && c.default.VStr? && c.default != VStr("now") ==>
              PhpDefault(c).Ok? && PhpDefault(c).value.Some?
              && var t := PhpDefault(c).value.value;
                 |t| == |c.default.s| + 2 && t[0] == '\'' == t[|t| - 1] && t[1..|t| - 1] == c.default.s
  {
  }
}
