/**
 * The `select` argument of `ToArrayConverter::toArray` (src/Orm/ToArrayConverter.php,
 * `normalizeSelect` and `storeToTree`). A select is a PHP array naming the properties to
 * export: a list entry `'x'` selects `x`, a dotted name `'a.b'` selects `b` inside `a`, and a
 * named entry carries its own value or a nested select. Normalising turns it into a tree
 * whose leaves are `true` or the given values.
 */
module SelectTree {
  import opened Wrappers
  import opened OrderedMaps
  import opened PhpStrings
  import opened PhpValues

  datatype SelectError =
    | KeyNotString(index: int)  // an integer key reaches `string $key` with a value that is not a string (a nested select normalised first)
    | ScalarAsArray(key: Key)   // `&$temp[$k]` on a scalar: "Cannot use a scalar value as an array"

  // ---------------------------------------------------------------------------------------
  // storeToTree

  /** What `&$temp[$k]` walks into: null and false turn into an empty array, other scalars fail. */
  function Walkable(v: Value): (r: Option<Items>)
    ensures r.Some? <==> v == Null || v == Bool(false) || v.Array?
    ensures v.Array? ==> r == Some(v.entries)
  {
    match v
    case Null => Some([])
    case Bool(false) => Some([])
    case Array(es) => Some(es)
    case _ => None
  }

  /** `$a[$k]`, or null when the key is absent (the slot a reference creates). */
  function At(a: Items, k: Key): Value {
    match Lookup(a, k)
    case None => Null
    case Some(v) => v
  }

  /** The value at `path` inside `v`, if every step finds an array holding the key. */
  function GetPath(v: Value, path: seq<Key>): Option<Value>
    decreases |path|
  {
    if path == [] then Some(v)
    else if v.Array? && HasKey(v.entries, path[0]) then GetPath(Lookup(v.entries, path[0]).value, path[1..])
    else None
  }

  /**
   * The reference walk `$temp = &$temp[$k]` down `path`, then `$temp = $value`: the node
   * at the end of the path is replaced, and every node on the way becomes an array holding
   * the next one.
   */
  function StorePath(node: Value, path: seq<Key>, value: Value): (r: Result<Value, SelectError>)
    ensures path != [] && r.Ok? ==> r.value.Array? && r.value.entries != []
    decreases |path|
  {
    if path == [] then Ok(value)
    else
      match Walkable(node)
      case None => Err(ScalarAsArray(path[0]))
      case Some(es) =>
        match StorePath(At(es, path[0]), path[1..], value)
        case Err(x) => Err(x)
        case Ok(c) => PutKeys(es, path[0], c); Ok(Array(Put(es, path[0], c)))
  }

  /** `explode('.', $key)`, each piece taken as an array key. */
  function Path(key: string): (p: seq<Key>)
    ensures |p| == |Split(key, '.')| >= 1
  {
    var parts := Split(key, '.');
    seq(|parts|, i requires 0 <= i < |parts| => ArrayKey(parts[i]))
  }

  /** `storeToTree($key, $value, $tree)` */
  function StoreToTree(key: string, value: Value, tree: Items): Result<Items, SelectError> {
    if '.' in key then
      match StorePath(Array(tree), Path(key), value)
      case Err(x) => Err(x)
      case Ok(t) => Ok(t.entries)
    else
      Ok(Put(tree, ArrayKey(key), value))
  }

  /**
   * Putting the arrays met on the way down back together around the result `r` of the
   * store below them: `nodes[j]` is the array at depth `j`, entered through `keys[j]`.
   */
  function Rebuild(nodes: seq<Items>, keys: seq<Key>, r: Result<Value, SelectError>): Result<Value, SelectError>
    requires |nodes| == |keys|
    decreases |nodes|
  {
    if nodes == [] || r.Err? then r
    else
      var n := |nodes| - 1;
      Rebuild(nodes[..n], keys[..n], Ok(Array(Put(nodes[n], keys[n], r.value))))
  }

  lemma {:induction false} RebuildErr(nodes: seq<Items>, keys: seq<Key>, x: SelectError)
    requires |nodes| == |keys|
    ensures Rebuild(nodes, keys, Err(x)) == Err(x)
  {
  }

  /** One step down the path: the array entered joins the ones to put back together. */
  lemma DescendStep(nodes: seq<Items>, keys: seq<Key>, temp: Value, path: seq<Key>, value: Value)
    requires |nodes| == |keys| && path != [] && Walkable(temp).Some?
    ensures var es := Walkable(temp).value;
            Rebuild(nodes, keys, StorePath(temp, path, value)) ==
            Rebuild(nodes + [es], keys + [path[0]], StorePath(At(es, path[0]), path[1..], value))
  {
    var es := Walkable(temp).value;
    var n := |nodes|;
    assert (nodes + [es])[..n] == nodes && (keys + [path[0]])[..n] == keys;
    match StorePath(At(es, path[0]), path[1..], value)
    case Err(x) => RebuildErr(nodes, keys, x); RebuildErr(nodes + [es], keys + [path[0]], x);
    case Ok(c) =>
  }

  /**
   * `storeToTree` as the loop it is: walk down the path taking `&$temp[$k]` at each step,
   * then store the value at the end. Values have no references here, so the arrays met on
   * the way down are kept and put back together on the way up.
   */
  method StoreToTreeLoop(key: string, value: Value, tree: Items) returns (r: Result<Items, SelectError>)
    ensures r == StoreToTree(key, value, tree)
  {
    if '.' !in key {
      return Ok(Put(tree, ArrayKey(key), value));
    }
    var path := Path(key);
    var nodes := WalkDown(tree, path, value);
    if nodes.Err? {
      return Err(nodes.error);
    }
    var v := value;
    assert path[..|path|] == path && nodes.value[..|path|] == nodes.value;
    for j := |path| downto 0
      invariant StorePath(Array(tree), path, value) == Rebuild(nodes.value[..j], path[..j], Ok(v))
    {
      assert nodes.value[..j + 1][..j] == nodes.value[..j] && path[..j + 1][..j] == path[..j];
      v := Array(Put(nodes.value[j], path[j], v));
    }
    r := Ok(v.entries);
  }

  /** The `foreach` of `storeToTree`: the arrays met on the way down `path`. */
  method WalkDown(tree: Items, path: seq<Key>, value: Value) returns (r: Result<seq<Items>, SelectError>)
    ensures r.Ok? ==> |r.value| == |path| && StorePath(Array(tree), path, value) == Rebuild(r.value, path, Ok(value))
    ensures r.Err? ==> StorePath(Array(tree), path, value) == Err(r.error)
  {
    var nodes: seq<Items> := [];
    var temp := Array(tree);
    for i := 0 to |path|
      invariant |nodes| == i
      invariant StorePath(Array(tree), path, value) == Rebuild(nodes, path[..i], StorePath(temp, path[i..], value))
    {
      var es := Walkable(temp);
      if es.None? {
        RebuildErr(nodes, path[..i], ScalarAsArray(path[i]));
        return Err(ScalarAsArray(path[i]));
      }
      DescendStep(nodes, path[..i], temp, path[i..], value);
      assert path[i..][1..] == path[i + 1..] && path[..i] + [path[i]] == path[..i + 1];
      nodes := nodes + [es.value];
      temp := At(es.value, path[i]);
    }
    assert path[..|path|] == path && path[|path|..] == [];
    r := Ok(nodes);
  }

  /** After a successful store the value sits at the end of the path. */
  lemma {:induction false} StorePathGet(node: Value, path: seq<Key>, value: Value)
    requires StorePath(node, path, value).Ok?
    ensures GetPath(StorePath(node, path, value).value, path) == Some(value)
    decreases |path|
  {
    if path != [] {
      var es := Walkable(node).value;
      var c := StorePath(At(es, path[0]), path[1..], value).value;
      StorePathGet(At(es, path[0]), path[1..], value);
      PutLookup(es, path[0], c, path[0]);
    }
  }

  /** A path that leaves `path` at some step reads the same before and after the store. */
  lemma {:induction false} StorePathFrame(node: Value, path: seq<Key>, value: Value, other: seq<Key>, i: nat)
    requires StorePath(node, path, value).Ok?
    requires i < |path| && i < |other| && path[..i] == other[..i] && path[i] != other[i]
    ensures GetPath(StorePath(node, path, value).value, other) == GetPath(node, other)
    decreases i
  {
    var es := Walkable(node).value;
    var child := At(es, path[0]);
    var c := StorePath(child, path[1..], value).value;
    PutLookup(es, path[0], c, other[0]);
    PutKeys(es, path[0], c);
    if i > 0 {
      assert other[0] == path[..i][0];
      assert path[1..][..i - 1] == path[..i][1..] && other[1..][..i - 1] == other[..i][1..];
      StorePathFrame(child, path[1..], value, other[1..], i - 1);
    }
  }

  /** Whether `&$temp[$k]` can be taken at a point reached by the walk (absent reads as null). */
  predicate CanWalk(v: Option<Value>) {
    v.None? || Walkable(v.value).Some?
  }

  /** The store fails exactly when the walk meets a scalar other than null or false. */
  lemma {:induction false} StorePathOk(node: Value, path: seq<Key>, value: Value)
    ensures StorePath(node, path, value).Ok? <==>
              forall i :: 0 <= i < |path| ==> CanWalk(GetPath(node, path[..i]))
    decreases |path|
  {
    if path != [] {
      assert GetPath(node, path[..0]) == Some(node);
      match Walkable(node)
      case None =>
      case Some(es) =>
        var child := At(es, path[0]);
        StorePathOk(child, path[1..], value);
        forall i | 1 <= i <= |path|
          ensures CanWalk(GetPath(node, path[..i])) == CanWalk(GetPath(child, path[1..][..i - 1]))
        {
          assert path[..i][0] == path[0] && path[..i][1..] == path[1..][..i - 1];
          if !node.Array? || !HasKey(es, path[0]) {
            GetPathNull(path[1..][..i - 1]);
          }
        }
        if forall i :: 0 <= i < |path| - 1 ==> CanWalk(GetPath(child, path[1..][..i])) {
          forall i | 0 <= i < |path| ensures CanWalk(GetPath(node, path[..i])) {
            if i > 0 { assert CanWalk(GetPath(child, path[1..][..i - 1])); }
          }
        }
        if forall i :: 0 <= i < |path| ==> CanWalk(GetPath(node, path[..i])) {
          forall i | 0 <= i < |path| - 1 ensures CanWalk(GetPath(child, path[1..][..i])) {
            assert CanWalk(GetPath(node, path[..i + 1]));
          }
        }
    }
  }

  /** Below null, nothing is found but null itself. */
  lemma GetPathNull(path: seq<Key>)
    ensures GetPath(Null, path) == if path == [] then Some(Null) else None
  {
  }

  /** Without a dot the key is a one-step path, so both branches of `storeToTree` agree. */
  lemma StoreToTreeIsStorePath(key: string, value: Value, tree: Items)
    ensures StoreToTree(key, value, tree) ==
              match StorePath(Array(tree), Path(key), value)
              case Err(x) => Err(x)
              case Ok(t) => Ok(t.entries)
  {
    if '.' !in key {
      assert Split(key, '.') == [key];
      assert Path(key) == [ArrayKey(key)];
      assert Path(key)[1..] == [];
    }
  }

  /**
   * `storeToTree` puts the value at `tree[a][b][c]` for `a.b.c`, and every path that leaves
   * `a.b.c` at some step reads what it read before.
   */
  lemma StoreToTreeStores(key: string, value: Value, tree: Items, other: seq<Key>, i: nat)
    requires StoreToTree(key, value, tree).Ok?
    ensures GetPath(Array(StoreToTree(key, value, tree).value), Path(key)) == Some(value)
    ensures i < |Path(key)| && i < |other| && Path(key)[..i] == other[..i] && Path(key)[i] != other[i] ==>
              GetPath(Array(StoreToTree(key, value, tree).value), other) == GetPath(Array(tree), other)
  {
    StoreToTreeIsStorePath(key, value, tree);
    StorePathGet(Array(tree), Path(key), value);
    if i < |Path(key)| && i < |other| && Path(key)[..i] == other[..i] && Path(key)[i] != other[i] {
      StorePathFrame(Array(tree), Path(key), value, other, i);
    }
  }

  // ---------------------------------------------------------------------------------------
  // normalizeSelect

  /** A normalised select: distinct keys at every level, and no empty nested array. */
  predicate Proper(v: Value) {
    match v
    case Array(es) => es != [] && DistinctKeys(es) && forall e :: e in es ==> Proper(e.1)
    case _ => true
  }

  /** The top level of a normalised select, which may be empty. */
  predicate ProperItems(es: Items) {
    DistinctKeys(es) && forall e :: e in es ==> Proper(e.1)
  }

  /** Every entry of `Put(m, k, v)` is `(k, v)` or an entry of `m`. */
  lemma PutEntries(m: Items, k: Key, v: Value)
    ensures forall e :: e in Put(m, k, v) ==> e == (k, v) || e in m
  {
    if HasKey(m, k) {
      var i := IndexOf(m, k);
      forall e | e in Put(m, k, v) ensures e == (k, v) || e in m {
        var j :| 0 <= j < |m| && Put(m, k, v)[j] == e;
        if j != i { assert m[j] == e; }
      }
    }
  }

  /** Storing a normalised value keeps a normalised tree normalised. */
  lemma {:induction false} StorePathProper(node: Value, path: seq<Key>, value: Value)
    requires node.Array? ==> ProperItems(node.entries)
    requires Proper(value) && StorePath(node, path, value).Ok?
    ensures Proper(StorePath(node, path, value).value)
    decreases |path|
  {
    if path != [] {
      var es := Walkable(node).value;
      var child := At(es, path[0]);
      if Lookup(es, path[0]).Some? {
        assert (path[0], child) in es;
      }
      StorePathProper(child, path[1..], value);
      var c := StorePath(child, path[1..], value).value;
      PutEntries(es, path[0], c);
      PutDistinct(es, path[0], c);
    }
  }

  /** `normalizeSelect($select)`: the loop over `$select`, entry by entry. */
  function NormalizeSelect(select: Items): (r: Result<Items, SelectError>)
    ensures r.Ok? ==> ProperItems(r.value)
    decreases ItemsSize(select), 1
  {
    if select == [] then Ok([])
    else
      ItemsSizeSnoc(select);
      match NormalizeSelect(select[..|select| - 1])
      case Err(x) => Err(x)
      case Ok(acc) => NormalizeEntry(acc, select[|select| - 1])
  }

  /**
   * One iteration of `normalizeSelect`'s loop. A list entry `'x'` selects `x`; a nested
   * select is normalised, and one that comes out empty selects everything (`true`). The
   * nested select is normalised before the key reaches `storeToTree`, so its error comes
   * first; only then does an integer key fail the `string $key` parameter.
   */
  function NormalizeEntry(acc: Items, e: (Key, Value)): (r: Result<Items, SelectError>)
    requires ProperItems(acc)
    ensures r.Ok? ==> ProperItems(r.value)
    ensures NumericKey(e.0) && e.1.Str? ==>
              (r.Ok? <==> StoreToTree(e.1.s, Bool(true), acc).Ok?)
    ensures NumericKey(e.0) && e.1.Str? && r.Ok? ==>
              GetPath(Array(r.value), Path(e.1.s)) == Some(Bool(true))
    ensures e.0.Index? && !e.1.Str? && !e.1.Array? ==> r == Err(KeyNotString(e.0.n))
    ensures e.1.Array? && NormalizeSelect(e.1.entries).Err? ==> r == Err(NormalizeSelect(e.1.entries).error)
    ensures e.0.Index? && e.1.Array? && NormalizeSelect(e.1.entries).Ok? ==> r == Err(KeyNotString(e.0.n))
    ensures e.0.Name? && !(NumericKey(e.0) && e.1.Str?) && !e.1.Array? && r.Ok? ==>
              GetPath(Array(r.value), Path(e.0.s)) == Some(e.1)
    ensures e.0.Name? && e.1.Array? ==>
              match NormalizeSelect(e.1.entries)
              case Err(x) => r == Err(x)
              case Ok(n) => r.Ok? ==> GetPath(Array(r.value), Path(e.0.s)) == Some(if n == [] then Bool(true) else Array(n))
    decreases Size(e.1), 0
  {
    var (k, value) := e;
    if NumericKey(k) && value.Str? then
      Store(value.s, Bool(true), acc)
    else if value.Array? then
      ArraySize(value.entries);
      match NormalizeSelect(value.entries)
      case Err(x) => Err(x)
      case Ok(n) =>
        if k.Index? then Err(KeyNotString(k.n))
        else Store(k.s, if n == [] then Bool(true) else Array(n), acc)
    else if k.Index? then
      Err(KeyNotString(k.n))
    else
      Store(k.s, value, acc)
  }

  /** `storeToTree` on a normalised tree, with what the store promises. */
  function Store(key: string, value: Value, tree: Items): (r: Result<Items, SelectError>)
    requires ProperItems(tree) && Proper(value)
    ensures r == StoreToTree(key, value, tree)
    ensures r.Ok? ==> ProperItems(r.value) && GetPath(Array(r.value), Path(key)) == Some(value)
  {
    var r := StoreToTree(key, value, tree);
    if r.Err? then r
    else
      StoreToTreeIsStorePath(key, value, tree);
      StoreToTreeStores(key, value, tree, [], 0);
      StorePathProper(Array(tree), Path(key), value);
      r
  }

  /** The loop of `normalizeSelect`, calling itself on nested selects. */
  method NormalizeSelectLoop(select: Items) returns (r: Result<Items, SelectError>)
    ensures r == NormalizeSelect(select)
    decreases ItemsSize(select)
  {
    var result: Items := [];
    for i := 0 to |select|
      invariant NormalizeSelect(select[..i]) == Ok(result)
    {
      assert select[..i + 1][..i] == select[..i];
      var (key, value) := select[i];
      var k: string, v: Value;
      if NumericKey(key) && value.Str? {
        k, v := value.s, Bool(true);
      } else if value.Array? {
        ElementSize(select, i);
        var n := NormalizeSelectLoop(value.entries);
        if n.Err? {
          NormalizeErrSticks(select, i + 1);
          return Err(n.error);
        }
        if key.Index? {
          NormalizeErrSticks(select, i + 1);
          return Err(KeyNotString(key.n));
        }
        k, v := key.s, if n.value == [] then Bool(true) else Array(n.value);
      } else if key.Index? {
        NormalizeErrSticks(select, i + 1);
        return Err(KeyNotString(key.n));
      } else {
        k, v := key.s, value;
      }
      var stored := StoreToTreeLoop(k, v, result);
      if stored.Err? {
        NormalizeErrSticks(select, i + 1);
        return Err(stored.error);
      }
      result := stored.value;
    }
    assert select[..|select|] == select;
    r := Ok(result);
  }

  /** An error while normalising one entry ends the loop with that error. */
  lemma {:induction false} NormalizeErrSticks(select: Items, n: nat)
    requires n <= |select| && NormalizeSelect(select[..n]).Err?
    ensures NormalizeSelect(select) == NormalizeSelect(select[..n])
    decreases |select|
  {
    if n < |select| {
      assert select[..|select| - 1][..n] == select[..n];
      NormalizeErrSticks(select[..|select| - 1], n);
    } else {
      assert select[..n] == select;
    }
  }

  lemma PathExamples()
    ensures Path("a") == [Name("a")] && Path("a.b") == [Name("a"), Name("b")]
  {
    assert Split("a", '.') == ["a"];
    SplitCons("a", "b", '.');
    assert "a" + ['.'] + "b" == "a.b";
    assert Split("b", '.') == ["b"];
    assert ArrayKey("a") == Name("a") && ArrayKey("b") == Name("b");
  }

  /** A two-entry select is normalised entry by entry. */
  lemma NormalizeTwo(e0: (Key, Value), e1: (Key, Value))
    ensures NormalizeSelect([e0]) == NormalizeEntry([], e0)
    ensures NormalizeSelect([e0]).Err? ==> NormalizeSelect([e0, e1]) == NormalizeSelect([e0])
    ensures NormalizeSelect([e0]).Ok? ==> NormalizeSelect([e0, e1]) == NormalizeEntry(NormalizeSelect([e0]).value, e1)
  {
    assert [e0, e1][..1] == [e0] && [e0][..0] == [];
  }

  /** A list entry naming a string stores `true` under that name. */
  lemma ListEntry(acc: Items, n: int, s: string)
    requires ProperItems(acc)
    ensures NormalizeEntry(acc, (Index(n), Str(s))) == StoreToTree(s, Bool(true), acc)
  {
  }

  lemma StoreWhole(acc: Items)
    ensures StoreToTree("a", Bool(true), acc) == Ok(Put(acc, Name("a"), Bool(true)))
  {
    PathExamples();
    assert '.' !in "a";
  }

  lemma StoreFieldOnEmpty()
    ensures StoreToTree("a.b", Bool(true), []) == Ok([(Name("a"), Array([(Name("b"), Bool(true))]))])
  {
    PathExamples();
    var empty: Items := [];
    assert Walkable(Array(empty)) == Some(empty) && At(empty, Name("a")) == Null;
    assert [Name("a"), Name("b")][1..] == [Name("b")] && [Name("b")][1..] == [];
    assert At(empty, Name("b")) == Null && !HasKey(empty, Name("b"));
    assert Put(empty, Name("b"), Bool(true)) == [(Name("b"), Bool(true))];
    assert StorePath(Null, [Name("b")], Bool(true)) == Ok(Array([(Name("b"), Bool(true))]));
    assert !HasKey(empty, Name("a")) && Put(empty, Name("a"), Array([(Name("b"), Bool(true))])) == [(Name("a"), Array([(Name("b"), Bool(true))]))];
  }

  lemma StoreFieldOnWhole()
    ensures StoreToTree("a.b", Bool(true), [(Name("a"), Bool(true))]) == Err(ScalarAsArray(Name("b")))
  {
    PathExamples();
    var t: Items := [(Name("a"), Bool(true))];
    assert At(t, Name("a")) == Bool(true);
    assert [Name("a"), Name("b")][1..] == [Name("b")];
    assert StorePath(Bool(true), [Name("b")], Bool(true)) == Err(ScalarAsArray(Name("b")));
  }

  /**
   * Selecting a relation whole and then one of its fields fails: `'a'` stores `true`, and
   * the walk for `'a.b'` cannot take `&$temp['b']` on it.
   */
  lemma WholeThenField()
    ensures NormalizeSelect([(Index(0), Str("a")), (Index(1), Str("a.b"))]) == Err(ScalarAsArray(Name("b")))
  {
    var empty: Items := [];
    NormalizeTwo((Index(0), Str("a")), (Index(1), Str("a.b")));
    ListEntry(empty, 0, "a");
    StoreWhole(empty);
    assert Put(empty, Name("a"), Bool(true)) == [(Name("a"), Bool(true))];
    ListEntry([(Name("a"), Bool(true))], 1, "a.b");
    StoreFieldOnWhole();
  }

  /**
   * Under an integer key a nested select is normalised first, so its own failure is the one
   * reported, not the integer key that would reach `string $key` afterwards.
   */
  lemma NestedErrorFirst()
    ensures NormalizeSelect([(Index(0), Array([(Index(0), Str("a")), (Index(1), Str("a.b"))]))]) == Err(ScalarAsArray(Name("b")))
  {
    var nested: Items := [(Index(0), Str("a")), (Index(1), Str("a.b"))];
    var e := (Index(0), Array(nested));
    WholeThenField();
    NormalizeTwo(e, e);
  }

  /** In the other order the field is selected first, and selecting the whole relation replaces it. */
  lemma FieldThenWhole()
    ensures NormalizeSelect([(Index(0), Str("a.b")), (Index(1), Str("a"))]) == Ok([(Name("a"), Bool(true))])
  {
    var empty: Items := [];
    var t := [(Name("a"), Array([(Name("b"), Bool(true))]))];
    NormalizeTwo((Index(0), Str("a.b")), (Index(1), Str("a")));
    ListEntry(empty, 0, "a.b");
    StoreFieldOnEmpty();
    ListEntry(t, 1, "a");
    StoreWhole(t);
    assert HasKey(t, Name("a")) && IndexOf(t, Name("a")) == 0;
    assert Put(t, Name("a"), Bool(true)) == [(Name("a"), Bool(true))];
  }
}
