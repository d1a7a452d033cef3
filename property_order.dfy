/**
 * The order in which `ToArrayConverter::toArray` exports an entity's properties
 * (src/Orm/ToArrayConverter.php, `sortProperties` and `getNameFromFqn`). The comparator
 * handed to `uasort` ranks primary properties first, then by the kind of the property's
 * first declared type, then by the short type name, then by the property name.
 */
module PropertyOrder {
  import opened OrderedMaps
  import opened PhpStrings

  /** `getNameFromFqn($fqn)`: the last `\`-separated segment of a class name. */
  function NameFromFqn(fqn: string): (r: string)
    ensures '\\' !in r && |r| <= |fqn| && r == fqn[|fqn| - |r|..]
    ensures '\\' in fqn ==> |r| < |fqn| && fqn[|fqn| - |r| - 1] == '\\'
    ensures '\\' !in fqn ==> r == fqn
  {
    var parts := Split(fqn, '\\');
    SplitLast(fqn, '\\');
    SplitPiecesFree(fqn, '\\');
    parts[|parts| - 1]
  }

  /** A name in a namespace comes back out whole, whatever the namespace. */
  lemma NameFromQualified(ns: string, name: string)
    requires '\\' !in name
    ensures NameFromFqn(ns + "\\" + name) == name
  {
    var s := ns + "\\" + name;
    assert s[|s| - |name|..] == name;
    assert s[|s| - |name| - 1] == '\\';
    SameFreeSuffix(s, '\\', NameFromFqn(s), name);
  }

  /**
   * A `PropertyMetadata` as the comparator sees it: its name, whether it is the primary key,
   * and `key($p->types)`, the first of its declared types.
   */
  datatype Property = Property(name: string, isPrimary: bool, firstType: string)

  const Scalars: seq<string> := ["array", "int", "float", "bool", "string"]

  function ShortType(p: Property): string {
    NameFromFqn(p.firstType)
  }

  /** The array the comparator builds for a property. */
  function Flags(p: Property): seq<bool> {
    var t := ShortType(p);
    [p.isPrimary, t in Scalars, t == "DateTimeImmutable", !(t in ["OneHasMany", "ManyHasMany"]),
     t == "OneHasMany", t == "ManyHasMany"]
  }

  /** PHP's `<=>` on two lists of booleans of equal length: the first difference decides. */
  function CompareFlags(a: seq<bool>, b: seq<bool>): (r: int)
    requires |a| == |b|
    ensures -1 <= r <= 1 && (r == 0 <==> a == b)
    decreases |a|
  {
    if a == [] then 0
    else if a[0] == b[0] then
      assert a == [a[0]] + a[1..] && b == [b[0]] + b[1..];
      CompareFlags(a[1..], b[1..])
    else if b[0] then -1
    else 1
  }

  /** The closure `uasort` calls: negative when `a` goes first. */
  function CompareProperties(a: Property, b: Property): int {
    if Flags(b) == Flags(a) then
      if ShortType(a) == ShortType(b) then Strcmp(a.name, b.name)
      else Strcmp(ShortType(a), ShortType(b))
    else
      CompareFlags(Flags(b), Flags(a))
  }

  /** Scalars, DateTimeImmutable, other classes, OneHasMany, ManyHasMany, in that order. */
  function Kind(t: string): (k: nat)
    ensures k < 5
  {
    if t in Scalars then 0
    else if t == "DateTimeImmutable" then 1
    else if t == "OneHasMany" then 3
    else if t == "ManyHasMany" then 4
    else 2
  }

  /** Primary properties first, each group ordered by kind. */
  function Rank(p: Property): nat {
    (if p.isPrimary then 0 else 5) + Kind(ShortType(p))
  }

  /** The flags depend on the primary flag and the kind only, and tell both apart. */
  lemma FlagsOfRank(p: Property)
    ensures Flags(p) == RankFlags(p.isPrimary, Kind(ShortType(p)))
  {
  }

  function RankFlags(primary: bool, kind: nat): seq<bool>
    requires kind < 5
  {
    [primary, kind == 0, kind == 1, kind < 3, kind == 3, kind == 4]
  }

  lemma RankFlagsCompare(p: bool, k: nat, q: bool, l: nat)
    requires k < 5 && l < 5
    ensures var r, s := (if p then 0 else 5) + k, (if q then 0 else 5) + l;
            CompareFlags(RankFlags(q, l), RankFlags(p, k)) == (if r < s then -1 else if r > s then 1 else 0)
  {
    var a, b := RankFlags(q, l), RankFlags(p, k);
    CompareFlagsFirst(a, b);
    CompareFlagsFirst(a[1..], b[1..]);
    CompareFlagsFirst(a[2..], b[2..]);
    CompareFlagsFirst(a[3..], b[3..]);
    CompareFlagsFirst(a[4..], b[4..]);
    CompareFlagsFirst(a[5..], b[5..]);
    assert a[1..][1..] == a[2..] && a[2..][1..] == a[3..] && a[3..][1..] == a[4..] && a[4..][1..] == a[5..];
    assert b[1..][1..] == b[2..] && b[2..][1..] == b[3..] && b[3..][1..] == b[4..] && b[4..][1..] == b[5..];
    assert a[5..][1..] == [] && b[5..][1..] == [];
  }

  lemma CompareFlagsFirst(a: seq<bool>, b: seq<bool>)
    requires |a| == |b| > 0
    ensures CompareFlags(a, b) == if a[0] == b[0] then CompareFlags(a[1..], b[1..]) else if b[0] then -1 else 1
  {
  }

  /**
   * What the comparator computes: the order of (rank, short type name, property name), the
   * names compared with `strcmp`.
   */
  lemma CompareByKey(a: Property, b: Property)
    ensures CompareProperties(a, b) ==
              if Rank(a) < Rank(b) then -1
              else if Rank(a) > Rank(b) then 1
              else if ShortType(a) != ShortType(b) then Strcmp(ShortType(a), ShortType(b))
              else Strcmp(a.name, b.name)
  {
    FlagsOfRank(a);
    FlagsOfRank(b);
    RankFlagsCompare(a.isPrimary, Kind(ShortType(a)), b.isPrimary, Kind(ShortType(b)));
  }

  /** Swapping the arguments negates the result. */
  lemma CompareAntisymmetric(a: Property, b: Property)
    ensures CompareProperties(a, b) == -CompareProperties(b, a)
  {
    CompareByKey(a, b);
    CompareByKey(b, a);
    StrcmpAntisymmetric(ShortType(a), ShortType(b));
    StrcmpAntisymmetric(a.name, b.name);
  }

  /** Two properties tie only when rank, short type and name all agree. */
  lemma CompareZero(a: Property, b: Property)
    ensures CompareProperties(a, b) == 0 <==> Rank(a) == Rank(b) && ShortType(a) == ShortType(b) && a.name == b.name
  {
    CompareByKey(a, b);
  }

  predicate Precedes(a: Property, b: Property) {
    CompareProperties(a, b) <= 0
  }

  /** The comparator is a total preorder, as `uasort` needs. */
  lemma PrecedesTotal(a: Property, b: Property)
    ensures Precedes(a, b) || Precedes(b, a)
  {
    CompareAntisymmetric(a, b);
  }

  lemma PrecedesTransitive(a: Property, b: Property, c: Property)
    requires Precedes(a, b) && Precedes(b, c)
    ensures Precedes(a, c)
  {
    CompareByKey(a, b);
    CompareByKey(b, c);
    CompareByKey(a, c);
    if Rank(a) == Rank(b) == Rank(c) {
      var ta, tb, tc := ShortType(a), ShortType(b), ShortType(c);
      if ta == tb == tc {
        StrLeTransitive(a.name, b.name, c.name);
      } else if ta == tb {
        assert StrLe(tb, tc);
      } else if tb == tc {
        assert StrLe(ta, tb);
      } else {
        StrLeTransitive(ta, tb, tc);
        if ta == tc {
          StrLeTotal(ta, tb);
        }
      }
    }
  }

  // ---------------------------------------------------------------------------------------
  // uasort

  predicate Sorted(s: OMap<string, Property>) {
    forall i, j :: 0 <= i < j < |s| ==> Precedes(s[i].1, s[j].1)
  }

  /** Inserting into a sorted list after every entry that does not come after `e`. */
  function Insert(s: OMap<string, Property>, e: (string, Property)): (r: OMap<string, Property>)
    ensures multiset(r) == multiset(s) + multiset{e}
    decreases |s|
  {
    if s == [] then [e]
    else
      var n := |s| - 1;
      assert s == s[..n] + [s[n]];
      if Precedes(s[n].1, e.1) then s + [e] else Insert(s[..n], e) + [s[n]]
  }

  /**
   * `uasort($properties, ...)`: PHP 8's sort is stable, which insertion in input order
   * reproduces. Keys stay with their values.
   */
  function SortProperties(props: OMap<string, Property>): (r: OMap<string, Property>)
    ensures multiset(r) == multiset(props)
    decreases |props|
  {
    if props == [] then []
    else
      var n := |props| - 1;
      assert props == props[..n] + [props[n]];
      Insert(SortProperties(props[..n]), props[n])
  }

  lemma {:induction false} InsertSorted(s: OMap<string, Property>, e: (string, Property))
    requires Sorted(s)
    ensures Sorted(Insert(s, e))
    decreases |s|
  {
    if s != [] {
      var n := |s| - 1;
      if Precedes(s[n].1, e.1) {
        AppendSorted(s, e);
      } else {
        assert Sorted(s[..n]);
        InsertSorted(s[..n], e);
        PrecedesTotal(s[n].1, e.1);
        InsertedBefore(s, e, Insert(s[..n], e));
        SortedSnoc(Insert(s[..n], e), s[n]);
        assert Insert(s, e) == Insert(s[..n], e) + [s[n]];
      }
    }
  }

  lemma AppendSorted(s: OMap<string, Property>, e: (string, Property))
    requires Sorted(s) && s != [] && Precedes(s[|s| - 1].1, e.1)
    ensures Sorted(s + [e])
  {
    var n := |s| - 1;
    forall i | 0 <= i < |s| ensures Precedes(s[i].1, e.1) {
      if i < n { PrecedesTransitive(s[i].1, s[n].1, e.1); }
    }
    SortedSnoc(s, e);
  }

  /** An entry that every entry of a sorted list precedes can go last. */
  lemma SortedSnoc(m: OMap<string, Property>, x: (string, Property))
    requires Sorted(m) && forall i :: 0 <= i < |m| ==> Precedes(m[i].1, x.1)
    ensures Sorted(m + [x])
  {
    var r := m + [x];
    forall i, j | 0 <= i < j < |r| ensures Precedes(r[i].1, r[j].1) {
      assert r[i] == m[i];
      if j < |m| { assert r[j] == m[j]; }
    }
  }

  /** Each entry of `m`, which holds the entries but the last of `s` and `e`, precedes that last entry. */
  lemma InsertedBefore(s: OMap<string, Property>, e: (string, Property), m: OMap<string, Property>)
    requires Sorted(s) && s != [] && Precedes(e.1, s[|s| - 1].1)
    requires multiset(m) == multiset(s[..|s| - 1]) + multiset{e}
    ensures forall i :: 0 <= i < |m| ==> Precedes(m[i].1, s[|s| - 1].1)
  {
    var n := |s| - 1;
    forall i | 0 <= i < |m| ensures Precedes(m[i].1, s[n].1) {
      assert m[i] in multiset(m);
      if m[i] != e {
        assert m[i] in multiset(s[..n]);
        var k :| 0 <= k < n && s[..n][k] == m[i];
        assert s[k] == m[i];
      }
    }
  }

  /** `sortProperties` returns the properties reordered so that each precedes the next. */
  lemma {:induction false} SortPropertiesSorted(props: OMap<string, Property>)
    ensures Sorted(SortProperties(props))
    decreases |props|
  {
    if props != [] {
      var n := |props| - 1;
      SortPropertiesSorted(props[..n]);
      InsertSorted(SortProperties(props[..n]), props[n]);
    }
  }

  /**
   * In the sorted properties the primary ones come first, then those typed with a scalar,
   * DateTimeImmutable, any other class, OneHasMany and ManyHasMany.
   */
  lemma SortPropertiesRanked(props: OMap<string, Property>)
    ensures var r := SortProperties(props);
            forall i, j :: 0 <= i < j < |r| ==> Rank(r[i].1) <= Rank(r[j].1)
  {
    var r := SortProperties(props);
    SortPropertiesSorted(props);
    forall i, j | 0 <= i < j < |r| ensures Rank(r[i].1) <= Rank(r[j].1) {
      CompareByKey(r[i].1, r[j].1);
    }
  }
}
