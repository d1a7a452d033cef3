/**
 * Merging the `items` of two manipulation configs for the same class
 * (src/Manipulation/Collector.php, `mergeItems` and `mergeItem`). `mergeItems` walks the
 * items of the later config: a numerically keyed item is appended, an array-valued item is
 * merged into the earlier one value by value, and a scalar item only has to agree with an
 * earlier one. `mergeItem` does the same one level down, where a scalar is copied over.
 * A disagreement throws, unless the later config is an override.
 */
module ManipulationItems {
  import opened Wrappers
  import opened OrderedMaps
  import opened PhpValues

  datatype MergeError =
    | ItemConflict(className: string, item: Key)              // "Unambiguous definition of item ..."
    | ValueConflict(className: string, item: Key, value: Key) // "Unambiguous definition of value ..."
    | NotAnArray(key: Key)  // `$one[$k] ?? []` is a scalar, handed to a parameter typed `array`

  /** `$one[$k] ?? []` as an array, or None when it holds a scalar other than null. */
  function Nested(a: Items, k: Key): (r: Option<Items>)
    ensures Lookup(a, k).None? ==> r == Some([])
    ensures r.None? <==> Lookup(a, k).Some? && Lookup(a, k).value != Null && !Lookup(a, k).value.Array?
  {
    var l := Lookup(a, k);
    if l.None? || l.value == Null then Some([])
    else if l.value.Array? then Some(l.value.entries)
    else None
  }

  // ---------------------------------------------------------------------------------------
  // mergeItem

  /** `mergeItem($class, $item, $one, $two, $override)`: the loop over `$two`, entry by entry. */
  function MergeItem(cls: string, item: Key, one: Items, two: Items, override: bool): Result<Items, MergeError>
    decreases ItemsSize(two), 1
  {
    if two == [] then Ok(one)
    else
      ItemsSizeSnoc(two);
      ElementSize(two, |two| - 1);
      match MergeItem(cls, item, one, two[..|two| - 1], override)
      case Err(x) => Err(x)
      case Ok(acc) => ValueStep(cls, item, acc, two[|two| - 1], override)
  }

  /** One iteration of `mergeItem`'s loop, for the entry `e` of `$two`. */
  function ValueStep(cls: string, item: Key, acc: Items, e: (Key, Value), override: bool): (r: Result<Items, MergeError>)
    ensures r.Ok? ==> forall k :: k != e.0 ==> Lookup(r.value, k) == Lookup(acc, k)
    ensures r.Ok? ==> forall k :: HasKey(r.value, k) <==> HasKey(acc, k) || k == e.0
    ensures r.Ok? && DistinctKeys(acc) ==> DistinctKeys(r.value)
    // a scalar is copied over; it throws only when it contradicts a value that is set
    ensures IsScalar(e.1) ==>
              (r.Ok? <==> override || !Isset(acc, e.0) || Lookup(acc, e.0) == Some(e.1))
              && (r.Ok? ==> Lookup(r.value, e.0) == Some(e.1))
              && (r.Err? ==> r.error == ValueConflict(cls, item, e.0))
    // an array is merged into what the key holds, which must be an array or unset
    ensures e.1.Array? && Nested(acc, e.0).None? ==> r == Err(NotAnArray(e.0))
    ensures e.1.Array? && Nested(acc, e.0).Some? ==>
              match MergeItem(cls, e.0, Nested(acc, e.0).value, e.1.entries, override)
              case Err(x) => r == Err(x)
              case Ok(m) => r.Ok? && Lookup(r.value, e.0) == Some(Array(m))
    decreases Size(e.1), 0
  {
    if e.1.Array? then
      match Nested(acc, e.0)
      case None => Err(NotAnArray(e.0))
      case Some(sub) =>
        ArraySize(e.1.entries);
        match MergeItem(cls, e.0, sub, e.1.entries, override)
        case Err(x) => Err(x)
        case Ok(m) => PutAll(acc, e.0, Array(m)); Ok(Put(acc, e.0, Array(m)))
    else if Isset(acc, e.0) && Lookup(acc, e.0).value != e.1 then
      if override then (PutAll(acc, e.0, e.1); Ok(Put(acc, e.0, e.1)))
      else Err(ValueConflict(cls, item, e.0))
    else
      PutAll(acc, e.0, e.1);
      Ok(Put(acc, e.0, e.1))
  }

  /** Everything `Put` promises, for every key at once. */
  lemma PutAll<K, V>(m: OMap<K, V>, k: K, v: V)
    ensures forall k2 :: Lookup(Put(m, k, v), k2) == if k2 == k then Some(v) else Lookup(m, k2)
    ensures forall k2 :: HasKey(Put(m, k, v), k2) <==> HasKey(m, k2) || k2 == k
    ensures DistinctKeys(m) ==> DistinctKeys(Put(m, k, v))
  {
    forall k2 ensures Lookup(Put(m, k, v), k2) == if k2 == k then Some(v) else Lookup(m, k2) {
      PutLookup(m, k, v, k2);
    }
    PutKeys(m, k, v);
    if DistinctKeys(m) { PutDistinct(m, k, v); }
  }

  // ---------------------------------------------------------------------------------------
  // mergeItems

  /** `mergeItems($class, $one, $two, $override)`: the loop over `$two`, item by item. */
  function MergeItems(cls: string, one: Items, two: Items, override: bool): Result<Items, MergeError>
    decreases |two|
  {
    if two == [] then Ok(one)
    else
      match MergeItems(cls, one, two[..|two| - 1], override)
      case Err(x) => Err(x)
      case Ok(acc) => ItemStep(cls, acc, two[|two| - 1], override)
  }

  /** One iteration of `mergeItems`'s loop, for the item `e` of `$two`. */
  function ItemStep(cls: string, acc: Items, e: (Key, Value), override: bool): (r: Result<Items, MergeError>)
    // a numerically keyed item is appended under a fresh index
    ensures NumericKey(e.0) ==> !HasKey(acc, Index(NextIndex(acc))) && r == Ok(acc + [(Index(NextIndex(acc)), e.1)])
    // a named scalar must agree with a value that is set, and is never added
    ensures !NumericKey(e.0) && IsScalar(e.1) ==>
              (r.Ok? <==> override || !Isset(acc, e.0) || Lookup(acc, e.0) == Some(e.1))
              && (r.Ok? ==> Lookup(r.value, e.0) == if Isset(acc, e.0) then Some(e.1) else Lookup(acc, e.0))
              && (r.Err? ==> r.error == ItemConflict(cls, e.0))
    // a named array is merged into the item of that name
    ensures !NumericKey(e.0) && e.1.Array? && Nested(acc, e.0).None? ==> r == Err(NotAnArray(e.0))
    ensures !NumericKey(e.0) && e.1.Array? && Nested(acc, e.0).Some? ==>
              match MergeItem(cls, e.0, Nested(acc, e.0).value, e.1.entries, override)
              case Err(x) => r == Err(x)
              case Ok(m) => r.Ok? && Lookup(r.value, e.0) == Some(Array(m))
    // the other names keep their values; no entry moves
    ensures r.Ok? ==> forall k: Key :: k.Name? && k != e.0 ==> Lookup(r.value, k) == Lookup(acc, k)
    ensures r.Ok? ==> |acc| <= |r.value| && KeysOf(r.value)[..|acc|] == KeysOf(acc)
    ensures r.Ok? && DistinctKeys(acc) ==> DistinctKeys(r.value)
  {
    var (k, v) := e;
    if NumericKey(k) then
      var n := NextIndex(acc);
      AppendFresh(acc, Index(n), v);
      Ok(acc + [(Index(n), v)])
    else if v.Array? then
      match Nested(acc, k)
      case None => Err(NotAnArray(k))
      case Some(sub) =>
        match MergeItem(cls, k, sub, v.entries, override)
        case Err(x) => Err(x)
        case Ok(m) => PutAll(acc, k, Array(m)); PutKeys(acc, k, Array(m)); Ok(Put(acc, k, Array(m)))
    else if Isset(acc, k) && Lookup(acc, k).value != v then
      if override then (PutAll(acc, k, v); PutKeys(acc, k, v); Ok(Put(acc, k, v)))
      else Err(ItemConflict(cls, k))
    else Ok(acc)
  }

  // ---------------------------------------------------------------------------------------
  // What mergeItem promises

  /** Merging `a + b` merges `a`, then merges `b` into the result. */
  lemma {:induction false} MergeItemSplit(cls: string, item: Key, one: Items, a: Items, b: Items, override: bool)
    ensures MergeItem(cls, item, one, a + b, override) ==
              match MergeItem(cls, item, one, a, override)
              case Err(x) => Err(x)
              case Ok(acc) => MergeItem(cls, item, acc, b, override)
    decreases |b|
  {
    if b == [] {
      assert a + b == a;
    } else {
      var b' := b[..|b| - 1];
      assert (a + b)[..|a + b| - 1] == a + b';
      assert (a + b)[|a + b| - 1] == b[|b| - 1];
      MergeItemSplit(cls, item, one, a, b', override);
    }
  }

  /** A key `$two` does not mention keeps the value it had in `$one`. */
  lemma {:induction false} MergeItemFrame(cls: string, item: Key, one: Items, two: Items, override: bool, k: Key)
    requires MergeItem(cls, item, one, two, override).Ok? && !HasKey(two, k)
    ensures Lookup(MergeItem(cls, item, one, two, override).value, k) == Lookup(one, k)
    decreases |two|
  {
    if two != [] {
      var init := two[..|two| - 1];
      assert !HasKey(init, k) by {
        forall i | 0 <= i < |init| ensures init[i].0 != k { assert init[i] == two[i]; }
      }
      MergeItemFrame(cls, item, one, init, override, k);
    }
  }

  /** The result has the keys of both arrays, each once. */
  lemma {:induction false} MergeItemKeys(cls: string, item: Key, one: Items, two: Items, override: bool)
    requires MergeItem(cls, item, one, two, override).Ok?
    ensures forall k :: HasKey(MergeItem(cls, item, one, two, override).value, k) <==> HasKey(one, k) || HasKey(two, k)
    ensures DistinctKeys(one) ==> DistinctKeys(MergeItem(cls, item, one, two, override).value)
    decreases |two|
  {
    if two != [] {
      var init := two[..|two| - 1];
      MergeItemKeys(cls, item, one, init, override);
      forall k ensures HasKey(two, k) <==> HasKey(init, k) || two[|two| - 1].0 == k {
        HasKeySnoc(two, k);
      }
      var acc := MergeItem(cls, item, one, init, override).value;
      assert MergeItem(cls, item, one, two, override) == ValueStep(cls, item, acc, two[|two| - 1], override);
    }
  }

  /** The second value wins: every scalar of `$two` is what the result holds. */
  lemma MergeItemSecondWins(cls: string, item: Key, one: Items, two: Items, override: bool, j: nat)
    requires MergeItem(cls, item, one, two, override).Ok?
    requires DistinctKeys(two) && j < |two| && IsScalar(two[j].1)
    ensures Lookup(MergeItem(cls, item, one, two, override).value, two[j].0) == Some(two[j].1)
  {
    var a, b := two[..j + 1], two[j + 1..];
    assert two == a + b;
    MergeItemSplit(cls, item, one, a, b, override);
    assert a[..j] == two[..j];
    var acc := MergeItem(cls, item, one, a, override).value;
    assert Lookup(acc, two[j].0) == Some(two[j].1);
    assert !HasKey(b, two[j].0) by {
      forall i | 0 <= i < |b| ensures b[i].0 != two[j].0 { assert b[i] == two[j + 1 + i]; }
    }
    MergeItemFrame(cls, item, acc, b, override, two[j].0);
  }

  /** With `override`, no value conflicts: the only failure left is a scalar where an array goes. */
  lemma {:induction false} MergeItemOverride(cls: string, item: Key, one: Items, two: Items)
    requires MergeItem(cls, item, one, two, true).Err?
    ensures MergeItem(cls, item, one, two, true).error.NotAnArray?
    decreases ItemsSize(two)
  {
    var init := two[..|two| - 1];
    var e := two[|two| - 1];
    ItemsSizeSnoc(two);
    ElementSize(two, |two| - 1);
    if MergeItem(cls, item, one, init, true).Err? {
      MergeItemOverride(cls, item, one, init);
    } else if e.1.Array? && Nested(MergeItem(cls, item, one, init, true).value, e.0).Some? {
      var acc := MergeItem(cls, item, one, init, true).value;
      ArraySize(e.1.entries);
      MergeItemOverride(cls, e.0, Nested(acc, e.0).value, e.1.entries);
    }
  }

  /**
   * For scalar values (distinct keys, as in every PHP array): without `override` the merge
   * succeeds exactly when every value of `$two` that `$one` has set agrees with it.
   */
  lemma {:induction false} MergeScalarsOk(cls: string, item: Key, one: Items, two: Items, override: bool)
    requires DistinctKeys(two) && forall j :: 0 <= j < |two| ==> IsScalar(two[j].1)
    ensures MergeItem(cls, item, one, two, override).Ok? <==>
              override || forall j :: 0 <= j < |two| ==> !Isset(one, two[j].0) || Lookup(one, two[j].0) == Some(two[j].1)
    decreases |two|
  {
    if two != [] {
      var init := two[..|two| - 1];
      var e := two[|two| - 1];
      assert forall j :: 0 <= j < |init| ==> init[j] == two[j];
      MergeScalarsOk(cls, item, one, init, override);
      AgreeSnoc(one, two);
      if MergeItem(cls, item, one, init, override).Ok? {
        DistinctKeyAlone(two, |two| - 1);
        MergeItemFrame(cls, item, one, init, override, e.0);
        var acc := MergeItem(cls, item, one, init, override).value;
        assert MergeItem(cls, item, one, two, override) == ValueStep(cls, item, acc, e, override);
      }
    }
  }

  /** Agreeing on every value of `two` is agreeing on those before the last, and on the last. */
  lemma AgreeSnoc(one: Items, two: Items)
    requires |two| > 0
    ensures (forall j :: 0 <= j < |two| ==> !Isset(one, two[j].0) || Lookup(one, two[j].0) == Some(two[j].1)) <==>
              (forall j :: 0 <= j < |two| - 1 ==> !Isset(one, two[j].0) || Lookup(one, two[j].0) == Some(two[j].1))
              && (!Isset(one, two[|two| - 1].0) || Lookup(one, two[|two| - 1].0) == Some(two[|two| - 1].1))
  {
  }

  /** `mergeItem($c, $i, $x, $x, $o)` is `$x`: merging an item with itself changes nothing. */
  lemma MergeItemSelf(cls: string, item: Key, x: Items, override: bool)
    requires WellFormed(Array(x))
    ensures MergeItem(cls, item, x, x, override) == Ok(x)
    decreases ItemsSize(x), |x| + 1
  {
    assert x[..|x|] == x;
    MergeItemSelfPrefix(cls, item, x, override, |x|);
  }

  lemma {:induction false} MergeItemSelfPrefix(cls: string, item: Key, x: Items, override: bool, i: nat)
    requires WellFormed(Array(x)) && i <= |x|
    ensures MergeItem(cls, item, x, x[..i], override) == Ok(x)
    decreases ItemsSize(x), i
  {
    if i > 0 {
      var pre := x[..i];
      assert pre[..i - 1] == x[..i - 1];
      MergeItemSelfPrefix(cls, item, x, override, i - 1);
      var e := x[i - 1];
      assert e in x;
      if e.1.Array? {
        ElementSize(x, i - 1);
        MergeItemSelf(cls, e.0, e.1.entries, override);
      }
      SelfStep(cls, item, x, override, i - 1);
    }
  }

  lemma SelfStep(cls: string, item: Key, x: Items, override: bool, i: nat)
    requires DistinctKeys(x) && i < |x|
    requires x[i].1.Array? ==> MergeItem(cls, x[i].0, x[i].1.entries, x[i].1.entries, override) == Ok(x[i].1.entries)
    ensures ValueStep(cls, item, x, x[i], override) == Ok(x)
  {
    LookupDistinct(x, i);
    PutSame(x, x[i].0, x[i].1);
  }

  // ---------------------------------------------------------------------------------------
  // What mergeItems promises

  /** The values of the numerically keyed entries, in order. */
  function NumericValues(m: Items): seq<Value>
    decreases |m|
  {
    if m == [] then []
    else NumericValues(m[..|m| - 1]) + (if NumericKey(m[|m| - 1].0) then [m[|m| - 1].1] else [])
  }

  lemma {:induction false} NumericValuesConcat(a: Items, b: Items)
    ensures NumericValues(a + b) == NumericValues(a) + NumericValues(b)
    decreases |b|
  {
    if b == [] {
      assert a + b == a;
    } else {
      assert (a + b)[..|a + b| - 1] == a + b[..|b| - 1];
      NumericValuesConcat(a, b[..|b| - 1]);
    }
  }

  /** Replacing a named entry by another named entry leaves the numeric values alone. */
  lemma {:induction false} NumericValuesUpdate(m: Items, i: nat, e: (Key, Value))
    requires i < |m| && !NumericKey(m[i].0) && !NumericKey(e.0)
    ensures NumericValues(m[i := e]) == NumericValues(m)
    decreases |m|
  {
    var n := |m| - 1;
    if i < n {
      assert m[i := e][..n] == m[..n][i := e];
      NumericValuesUpdate(m[..n], i, e);
    } else {
      assert m[i := e][..n] == m[..n];
    }
  }

  /** Updating one element of a sequence updates its tail at the shifted index, or not at all. */
  lemma UpdateTail<T>(m: seq<T>, i: nat, x: T, p: nat)
    requires i < |m| && p <= |m|
    ensures p <= i ==> m[i := x][p..] == m[p..][i - p := x]
    ensures i < p ==> m[i := x][p..] == m[p..]
  {
  }

  /** Writing a named entry leaves the numeric values of any tail alone. */
  lemma PutNameNumeric(m: Items, k: Key, v: Value, p: nat)
    requires !NumericKey(k) && p <= |m|
    ensures NumericValues(Put(m, k, v)[p..]) == NumericValues(m[p..])
  {
    if HasKey(m, k) {
      var i := IndexOf(m, k);
      assert Put(m, k, v) == m[i := (k, v)];
      ReplaceNameNumeric(m, i, (k, v), p);
    } else {
      assert Put(m, k, v) == m + [(k, v)];
      AppendNameNumeric(m, (k, v), p);
    }
  }

  lemma ReplaceNameNumeric(m: Items, i: nat, e: (Key, Value), p: nat)
    requires i < |m| && p <= |m| && !NumericKey(m[i].0) && !NumericKey(e.0)
    ensures NumericValues(m[i := e][p..]) == NumericValues(m[p..])
  {
    UpdateTail(m, i, e, p);
    if i >= p {
      NumericValuesUpdate(m[p..], i - p, e);
    }
  }

  lemma AppendNameNumeric(m: Items, e: (Key, Value), p: nat)
    requires p <= |m| && !NumericKey(e.0)
    ensures NumericValues((m + [e])[p..]) == NumericValues(m[p..])
  {
    assert (m + [e])[p..] == m[p..] + [e];
    NumericValuesConcat(m[p..], [e]);
    NamedNoNumeric(e.0, e.1);
  }

  lemma NamedNoNumeric(k: Key, v: Value)
    requires !NumericKey(k)
    ensures NumericValues([(k, v)]) == []
  {
    assert [(k, v)][..0] == [];
  }

  lemma {:induction false} MergeItemsSplit(cls: string, one: Items, a: Items, b: Items, override: bool)
    ensures MergeItems(cls, one, a + b, override) ==
              match MergeItems(cls, one, a, override)
              case Err(x) => Err(x)
              case Ok(acc) => MergeItems(cls, acc, b, override)
    decreases |b|
  {
    if b == [] {
      assert a + b == a;
    } else {
      var b' := b[..|b| - 1];
      assert (a + b)[..|a + b| - 1] == a + b';
      assert (a + b)[|a + b| - 1] == b[|b| - 1];
      MergeItemsSplit(cls, one, a, b', override);
    }
  }

  /** A name `$two` does not mention keeps the value it had in `$one`. */
  lemma {:induction false} MergeItemsFrame(cls: string, one: Items, two: Items, override: bool, k: Key)
    requires MergeItems(cls, one, two, override).Ok? && k.Name? && !HasKey(two, k)
    ensures Lookup(MergeItems(cls, one, two, override).value, k) == Lookup(one, k)
    decreases |two|
  {
    if two != [] {
      var init := two[..|two| - 1];
      assert !HasKey(init, k) by {
        forall i | 0 <= i < |init| ensures init[i].0 != k { assert init[i] == two[i]; }
      }
      MergeItemsFrame(cls, one, init, override, k);
    }
  }

  /**
   * A named scalar of `$two` replaces a value `$one` has set (it agrees with it unless
   * `override`), and is not added when `$one` has it unset.
   */
  lemma MergeItemsScalars(cls: string, one: Items, two: Items, override: bool, j: nat)
    requires MergeItems(cls, one, two, override).Ok?
    requires DistinctKeys(two) && j < |two| && !NumericKey(two[j].0) && IsScalar(two[j].1)
    ensures Lookup(MergeItems(cls, one, two, override).value, two[j].0) ==
              if Isset(one, two[j].0) then Some(two[j].1) else Lookup(one, two[j].0)
    ensures !override && Isset(one, two[j].0) ==> Lookup(one, two[j].0) == Some(two[j].1)
  {
    SplitAt(two, j + 1);
    MergeItemsOkSplit(cls, one, two[..j + 1], two[j + 1..], override);
    DistinctKeyAlone(two, j);
    ScalarAt(cls, one, two, j, override);
    MergeItemsFrame(cls, MergeItems(cls, one, two[..j + 1], override).value, two[j + 1..], override, two[j].0);
  }

  lemma SplitAt<T>(s: seq<T>, n: nat)
    requires n <= |s|
    ensures s[..n] + s[n..] == s
  {
  }

  /** A named scalar at `j`, and nowhere before it, decides the value the merge of `two[..j + 1]` leaves under its name. */
  lemma ScalarAt(cls: string, one: Items, two: Items, j: nat, override: bool)
    requires j < |two| && MergeItems(cls, one, two[..j + 1], override).Ok?
    requires !NumericKey(two[j].0) && IsScalar(two[j].1) && !HasKey(two[..j], two[j].0)
    ensures Lookup(MergeItems(cls, one, two[..j + 1], override).value, two[j].0) ==
              if Isset(one, two[j].0) then Some(two[j].1) else Lookup(one, two[j].0)
    ensures !override && Isset(one, two[j].0) ==> Lookup(one, two[j].0) == Some(two[j].1)
  {
    assert two[..j + 1][..j] == two[..j] && two[..j + 1][j] == two[j];
    var acc := MergeItems(cls, one, two[..j], override).value;
    NamedScalarStep(cls, acc, two[j], override);
    MergeItemsFrame(cls, one, two[..j], override, two[j].0);
  }

  /** One named scalar item: it replaces a set value (agreeing with it unless `override`) and is not added. */
  lemma NamedScalarStep(cls: string, acc: Items, e: (Key, Value), override: bool)
    requires ItemStep(cls, acc, e, override).Ok? && !NumericKey(e.0) && IsScalar(e.1)
    ensures Lookup(ItemStep(cls, acc, e, override).value, e.0) == if Isset(acc, e.0) then Some(e.1) else Lookup(acc, e.0)
    ensures !override && Isset(acc, e.0) ==> Lookup(acc, e.0) == Some(e.1)
  {
  }

  /** A merge of `a + b` that succeeds merged `a` first, then `b` into the result. */
  lemma MergeItemsOkSplit(cls: string, one: Items, a: Items, b: Items, override: bool)
    requires MergeItems(cls, one, a + b, override).Ok?
    ensures MergeItems(cls, one, a, override).Ok?
    ensures MergeItems(cls, MergeItems(cls, one, a, override).value, b, override) == MergeItems(cls, one, a + b, override)
  {
    MergeItemsSplit(cls, one, a, b, override);
  }

  /**
   * Nothing of `$one` moves, and the numerically keyed items of `$two` are appended after
   * it, in order.
   */
  lemma {:induction false} MergeItemsAppends(cls: string, one: Items, two: Items, override: bool)
    requires MergeItems(cls, one, two, override).Ok?
    ensures var r := MergeItems(cls, one, two, override).value;
            |one| <= |r| && KeysOf(r)[..|one|] == KeysOf(one)
            && NumericValues(r[|one|..]) == NumericValues(two)
    decreases |two|
  {
    if two == [] {
      assert one[|one|..] == [];
    } else {
      var init := two[..|two| - 1];
      var e := two[|two| - 1];
      MergeItemsAppends(cls, one, init, override);
      var acc := MergeItems(cls, one, init, override).value;
      assert MergeItems(cls, one, two, override) == ItemStep(cls, acc, e, override);
      AppendsStep(cls, acc, e, override, |one|);
    }
  }

  /** One item of `$two` keeps the keys before `p` and adds its value to the numeric tail if it is numerically keyed. */
  lemma AppendsStep(cls: string, acc: Items, e: (Key, Value), override: bool, p: nat)
    requires ItemStep(cls, acc, e, override).Ok? && p <= |acc|
    ensures var r := ItemStep(cls, acc, e, override).value;
            p <= |r| && KeysOf(r)[..p] == KeysOf(acc)[..p]
            && NumericValues(r[p..]) == NumericValues(acc[p..]) + (if NumericKey(e.0) then [e.1] else [])
  {
    var r := ItemStep(cls, acc, e, override).value;
    assert KeysOf(r)[..p] == KeysOf(r)[..|acc|][..p];
    if NumericKey(e.0) {
      var added := (Index(NextIndex(acc)), e.1);
      assert r[p..] == acc[p..] + [added];
      NumericValuesConcat(acc[p..], [added]);
      assert [added][..0] == [];
    } else if e.1.Array? {
      var m := MergeItem(cls, e.0, Nested(acc, e.0).value, e.1.entries, override).value;
      assert r == Put(acc, e.0, Array(m));
      PutNameNumeric(acc, e.0, Array(m), p);
    } else if r != acc {
      assert r == Put(acc, e.0, e.1);
      PutNameNumeric(acc, e.0, e.1, p);
    }
  }

  /** With `override`, the only failure left is a scalar where an array goes. */
  lemma {:induction false} MergeItemsOverride(cls: string, one: Items, two: Items)
    requires MergeItems(cls, one, two, true).Err?
    ensures MergeItems(cls, one, two, true).error.NotAnArray?
    decreases |two|
  {
    var init := two[..|two| - 1];
    var e := two[|two| - 1];
    if MergeItems(cls, one, init, true).Err? {
      MergeItemsOverride(cls, one, init);
    } else if !NumericKey(e.0) && e.1.Array? && Nested(MergeItems(cls, one, init, true).value, e.0).Some? {
      var acc := MergeItems(cls, one, init, true).value;
      MergeItemOverride(cls, e.0, Nested(acc, e.0).value, e.1.entries);
    }
  }

  // ---------------------------------------------------------------------------------------
  // The loops

  /** Once merging a prefix of `$two` fails, merging all of it fails the same way. */
  lemma {:induction false} MergeItemErrSticks(cls: string, item: Key, one: Items, two: Items, override: bool, n: nat)
    requires n <= |two| && MergeItem(cls, item, one, two[..n], override).Err?
    ensures MergeItem(cls, item, one, two, override) == MergeItem(cls, item, one, two[..n], override)
  {
    assert two[..n] + two[n..] == two;
    MergeItemSplit(cls, item, one, two[..n], two[n..], override);
  }

  lemma {:induction false} MergeItemsErrSticks(cls: string, one: Items, two: Items, override: bool, n: nat)
    requires n <= |two| && MergeItems(cls, one, two[..n], override).Err?
    ensures MergeItems(cls, one, two, override) == MergeItems(cls, one, two[..n], override)
  {
    assert two[..n] + two[n..] == two;
    MergeItemsSplit(cls, one, two[..n], two[n..], override);
  }

  /** `mergeItem`, walking `$two` and updating `$one` one entry at a time. */
  method MergeItemLoop(cls: string, item: Key, one: Items, two: Items, override: bool) returns (r: Result<Items, MergeError>)
    ensures r == MergeItem(cls, item, one, two, override)
    decreases ItemsSize(two)
  {
    var acc := one;
    for i := 0 to |two|
      invariant MergeItem(cls, item, one, two[..i], override) == Ok(acc)
    {
      var (k, v) := two[i];
      assert two[..i + 1][..i] == two[..i];
      var next: Result<Items, MergeError>;
      if v.Array? {
        var sub := Nested(acc, k);
        if sub.None? {
          next := Err(NotAnArray(k));
        } else {
          ElementSize(two, i);
          var m := MergeItemLoop(cls, k, sub.value, v.entries, override);
          next := if m.Err? then Err(m.error) else Ok(Put(acc, k, Array(m.value)));
        }
      } else if Isset(acc, k) && Lookup(acc, k).value != v && !override {
        next := Err(ValueConflict(cls, item, k));
      } else {
        next := Ok(Put(acc, k, v));
      }
      assert next == MergeItem(cls, item, one, two[..i + 1], override);
      if next.Err? {
        MergeItemErrSticks(cls, item, one, two, override, i + 1);
        return next;
      }
      acc := next.value;
    }
    assert two[..|two|] == two;
    r := Ok(acc);
  }

  /** `mergeItems`, walking `$two` and updating `$one` one item at a time. */
  method MergeItemsLoop(cls: string, one: Items, two: Items, override: bool) returns (r: Result<Items, MergeError>)
    ensures r == MergeItems(cls, one, two, override)
  {
    var acc := one;
    for i := 0 to |two|
      invariant MergeItems(cls, one, two[..i], override) == Ok(acc)
    {
      var (k, v) := two[i];
      assert two[..i + 1][..i] == two[..i];
      var next: Result<Items, MergeError>;
      if NumericKey(k) {
        next := Ok(acc + [(Index(NextIndex(acc)), v)]);
      } else if v.Array? {
        var sub := Nested(acc, k);
        if sub.None? {
          next := Err(NotAnArray(k));
        } else {
          var m := MergeItemLoop(cls, k, sub.value, v.entries, override);
          next := if m.Err? then Err(m.error) else Ok(Put(acc, k, Array(m.value)));
        }
      } else if Isset(acc, k) && Lookup(acc, k).value != v {
        next := if override then Ok(Put(acc, k, v)) else Err(ItemConflict(cls, k));
      } else {
        next := Ok(acc);
      }
      assert next == MergeItems(cls, one, two[..i + 1], override);
      if next.Err? {
        MergeItemsErrSticks(cls, one, two, override, i + 1);
        return next;
      }
      acc := next.value;
    }
    assert two[..|two|] == two;
    r := Ok(acc);
  }
}
