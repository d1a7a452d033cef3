/**
 * The PHP values the manipulation configs and the `toArray` select trees are made of: scalars
 * and arrays. An array is an ordered map from keys (integers or strings) to values, as in
 * `OrderedMaps`; the arrays nest, so a size measure is provided for recursion over them.
 */
module PhpValues {
  import opened Wrappers
  import opened OrderedMaps
  import opened PhpStrings

  /** An array key: PHP turns decimal-integer strings into integer keys, so both kinds occur. */
  datatype Key = Index(n: int) | Name(s: string)

  /** `is_numeric($key)`: an integer key, or a string key PHP reads as a number ("01", "1.5", "1e3"). */
  predicate NumericKey(k: Key) {
    k.Index? || IsNumeric(k.s)
  }

  datatype Value =
    | Null
    | Bool(b: bool)
    | Int(i: int)
    | Str(s: string)
    | Array(entries: seq<(Key, Value)>)

  type Items = OMap<Key, Value>

  predicate IsScalar(v: Value) { !v.Array? }

  /** The number of values in `v`, nested ones included. */
  function Size(v: Value): (n: nat)
    ensures n >= 1
  {
    match v
    case Array(es) => 1 + Sum(seq(|es|, i requires 0 <= i < |es| => (assert es[i] in es; Size(es[i].1))))
    case _ => 1
  }

  function Sum(s: seq<nat>): nat
    decreases |s|
  {
    if s == [] then 0 else Sum(s[..|s| - 1]) + s[|s| - 1]
  }

  function Sizes(es: Items): (s: seq<nat>)
    ensures |s| == |es| && forall i :: 0 <= i < |es| ==> s[i] == Size(es[i].1)
  {
    seq(|es|, i requires 0 <= i < |es| => Size(es[i].1))
  }

  /** The number of values held by the entries `es`. */
  function ItemsSize(es: Items): nat {
    Sum(Sizes(es))
  }

  lemma ArraySize(es: Items)
    ensures Size(Array(es)) == 1 + ItemsSize(es)
  {
    assert seq(|es|, i requires 0 <= i < |es| => Size(es[i].1)) == Sizes(es);
  }

  /** Dropping the last entry removes exactly that entry's size. */
  lemma ItemsSizeSnoc(es: Items)
    requires es != []
    ensures ItemsSize(es) == ItemsSize(es[..|es| - 1]) + Size(es[|es| - 1].1)
    ensures ItemsSize(es[..|es| - 1]) < ItemsSize(es)
  {
    assert Sizes(es)[..|es| - 1] == Sizes(es[..|es| - 1]);
  }

  /** A nested array is smaller than the entries holding it. */
  lemma {:induction false} ElementSize(es: Items, i: nat)
    requires i < |es|
    ensures Size(es[i].1) <= ItemsSize(es)
    ensures es[i].1.Array? ==> ItemsSize(es[i].1.entries) < ItemsSize(es)
    decreases |es|
  {
    ItemsSizeSnoc(es);
    if i < |es| - 1 {
      ElementSize(es[..|es| - 1], i);
    }
    if es[i].1.Array? {
      ArraySize(es[i].1.entries);
    }
  }

  /** Every array, nested ones included, has distinct keys: the shape every PHP value has. */
  predicate WellFormed(v: Value) {
    match v
    case Array(es) => DistinctKeys(es) && forall e :: e in es ==> WellFormed(e.1)
    case _ => true
  }

  /** `isset($a[$k])`: the key is present and its value is not null. */
  predicate Isset(a: Items, k: Key) {
    Lookup(a, k).Some? && Lookup(a, k).value != Null
  }

  /** The largest integer key of `a`, if it has one. */
  function MaxIndex(a: Items): (r: Option<int>)
    ensures r.Some? ==> HasKey(a, Index(r.value)) && forall j :: HasKey(a, Index(j)) ==> j <= r.value
    ensures r.None? ==> forall j :: !HasKey(a, Index(j))
    decreases |a|
  {
    if a == [] then None
    else
      var rest := a[..|a| - 1];
      var last := a[|a| - 1];
      var m := MaxIndex(rest);
      assert forall k :: HasKey(a, k) <==> HasKey(rest, k) || last.0 == k by {
        forall k ensures HasKey(a, k) <==> HasKey(rest, k) || last.0 == k {
          if HasKey(a, k) {
            var i :| 0 <= i < |a| && a[i].0 == k;
            if i < |rest| { assert rest[i].0 == k; }
          }
          if HasKey(rest, k) {
            var i :| 0 <= i < |rest| && rest[i].0 == k;
            assert a[i].0 == k;
          }
        }
      }
      if last.0.Index? && (m.None? || m.value <= last.0.n) then Some(last.0.n) else m
  }

  /**
   * The index `$a[] = $v` writes at: one past the largest integer key, or 0 when there is
   * none (PHP 8.3 and later).
   */
  function NextIndex(a: Items): (n: int)
    ensures !HasKey(a, Index(n))
    ensures forall j :: HasKey(a, Index(j)) ==> j < n
    ensures (exists j :: HasKey(a, Index(j))) ==> HasKey(a, Index(n - 1))
    ensures (forall j :: !HasKey(a, Index(j))) ==> n == 0
  {
    match MaxIndex(a)
    case None => 0
    case Some(m) => m + 1
  }

  const IntMax: int := 0x7fff_ffff_ffff_ffff

  /**
   * The key `$a[$s]` writes under: a string in canonical decimal form within the 64-bit
   * range becomes an integer key, anything else stays a string key.
   */
  function ArrayKey(s: string): (k: Key)
    ensures k.Name? ==> k.s == s
  {
    if s != [] && AllDigits(s) && (s[0] != '0' || |s| == 1) && DigitsValue(s) <= IntMax then
      Index(DigitsValue(s))
    else if |s| >= 2 && s[0] == '-' && AllDigits(s[1..]) && s[1] != '0' && DigitsValue(s[1..]) <= IntMax + 1 then
      Index(0 - DigitsValue(s[1..]))
    else
      Name(s)
  }

  /** A string key becomes the integer `n` exactly when it is `n` written in decimal. */
  lemma ArrayKeyIndex(s: string, n: int)
    ensures ArrayKey(s) == Index(n) <==> -IntMax - 1 <= n <= IntMax && s == IntToString(n)
  {
    if ArrayKey(s) == Index(n) {
      if s != [] && AllDigits(s) && (s[0] != '0' || |s| == 1) && DigitsValue(s) <= IntMax {
        DigitsValueRoundTrip(s);
      } else {
        var t := s[1..];
        DigitsValueRoundTrip(t);
        assert s == "-" + t;
      }
    }
    if -IntMax - 1 <= n <= IntMax && s == IntToString(n) {
      var m: nat := if n < 0 then -n else n;
      NatToStringValue(m);
      NatToStringLeading(m);
      if n < 0 {
        assert s[1..] == NatToString(m);
        assert !IsDigit(s[0]);
      }
    }
  }
}
