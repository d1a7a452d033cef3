/**
 * The PHP string functions the schema pipeline relies on, over `string` (a sequence of
 * code points): implode, explode, strtolower/strtoupper (ASCII only, as in PHP 8.2+),
 * str_replace, strcmp, sort() on a list of strings, integer/string conversion.
 */
module PhpStrings {

  predicate IsDigit(c: char) { '0' <= c <= '9' }

  function DigitChar(d: nat): (c: char)
    requires d < 10
    ensures IsDigit(c)
  {
    (('0' as int) + d) as char
  }

  function DigitOf(c: char): (d: nat)
    requires IsDigit(c)
    ensures d < 10
  {
    (c as int) - ('0' as int)
  }

  predicate AllDigits(s: string) {
    forall i :: 0 <= i < |s| ==> IsDigit(s[i])
  }

  /** Decimal rendering of a natural number. */
  function NatToString(n: nat): (s: string)
    ensures |s| >= 1 && AllDigits(s)
    decreases n
  {
    if n < 10 then [DigitChar(n)] else NatToString(n / 10) + [DigitChar(n % 10)]
  }

  /** PHP's conversion of an int to a string: decimal, with a leading '-' when negative. */
  function IntToString(i: int): (s: string)
    ensures |s| >= 1
  {
    if i < 0 then "-" + NatToString(-i) else NatToString(i)
  }

  /** The value of a string of decimal digits. */
  function DigitsValue(s: string): nat
    requires AllDigits(s)
    decreases |s|
  {
    if s == [] then 0 else 10 * DigitsValue(s[..|s| - 1]) + DigitOf(s[|s| - 1])
  }

  /** The longest prefix of `s` made of decimal digits. */
  function LeadingDigits(s: string): (d: string)
    ensures |d| <= |s| && d == s[..|d|] && AllDigits(d)
    ensures |d| < |s| ==> !IsDigit(s[|d|])
  {
    if s == [] || !IsDigit(s[0]) then [] else [s[0]] + LeadingDigits(s[1..])
  }

  predicate IsSpace(c: char) {
    c == ' ' || c == '\t' || c == '\n' || c == '\r' || c as int == 11 || c as int == 12
  }

  function TrimLeadingSpace(s: string): (t: string)
    ensures |t| <= |s| && t == s[|s| - |t|..]
    ensures t == [] || !IsSpace(t[0])
  {
    if s != [] && IsSpace(s[0]) then TrimLeadingSpace(s[1..]) else s
  }

  /**
   * PHP's `(int)` cast of a string, for a decimal integer prefix: leading white space, an
   * optional sign and the longest run of digits that follows; 0 when there is none. PHP also
   * reads a prefix in exponent notation (`"1e3"` is 1000) and clamps to 64 bits; this cast
   * does neither.
   */
  function IntCast(s: string): int {
    var t := TrimLeadingSpace(s);
    if t != [] && (t[0] == '-' || t[0] == '+') then
      var v: int := DigitsValue(LeadingDigits(t[1..]));
      if t[0] == '-' then -v else v
    else
      DigitsValue(LeadingDigits(t))
  }

  lemma {:induction false} LeadingDigitsOfDigits(s: string)
    requires AllDigits(s)
    ensures LeadingDigits(s) == s
  {
    if s != [] {
      LeadingDigitsOfDigits(s[1..]);
    }
  }

  lemma {:induction false} NatToStringValue(n: nat)
    ensures DigitsValue(NatToString(n)) == n
    decreases n
  {
    var s := NatToString(n);
    if n >= 10 {
      NatToStringValue(n / 10);
      assert s[..|s| - 1] == NatToString(n / 10);
    }
  }

  /** Rendering an int and casting it back gives the same int. */
  lemma IntCastRoundTrip(i: int)
    ensures IntCast(IntToString(i)) == i
  {
    var n: nat := if i < 0 then -i else i;
    var s := IntToString(i);
    LeadingDigitsOfDigits(NatToString(n));
    NatToStringValue(n);
    assert !IsSpace(s[0]);
    assert TrimLeadingSpace(s) == s;
    if i < 0 {
      assert s[1..] == NatToString(n);
      assert DigitsValue(LeadingDigits(s[1..])) == n;
    } else {
      assert IsDigit(s[0]);
      assert DigitsValue(LeadingDigits(s)) == n;
    }
  }

  /** PHP's implode. */
  function Join(sep: string, parts: seq<string>): string
    decreases |parts|
  {
    if |parts| == 0 then ""
    else if |parts| == 1 then parts[0]
    else parts[0] + sep + Join(sep, parts[1..])
  }

  function IndexOfChar(s: string, c: char): (i: nat)
    requires c in s
    ensures i < |s| && s[i] == c && c !in s[..i]
  {
    if s[0] == c then 0 else 1 + IndexOfChar(s[1..], c)
  }

  /** PHP's explode on a one-character delimiter. */
  function Split(s: string, d: char): (parts: seq<string>)
    ensures |parts| >= 1
    decreases |s|
  {
    if d !in s then [s]
    else
      var i := IndexOfChar(s, d);
      [s[..i]] + Split(s[i + 1..], d)
  }

  /** No piece of explode(d, s) holds the delimiter. */
  lemma {:induction false} SplitPiecesFree(s: string, d: char)
    ensures forall k :: 0 <= k < |Split(s, d)| ==> d !in Split(s, d)[k]
    decreases |s|
  {
    if d in s {
      var i := IndexOfChar(s, d);
      SplitPiecesFree(s[i + 1..], d);
      var parts := Split(s[i + 1..], d);
      assert Split(s, d) == [s[..i]] + parts;
      forall k | 0 < k < |Split(s, d)| ensures d !in Split(s, d)[k] {
        assert Split(s, d)[k] == parts[k - 1];
      }
    }
  }

  /** implode(d, explode(d, s)) == s. */
  lemma {:induction false} JoinSplit(s: string, d: char)
    ensures Join([d], Split(s, d)) == s
    decreases |s|
  {
    if d in s {
      var i := IndexOfChar(s, d);
      var rest := s[i + 1..];
      JoinSplit(rest, d);
      assert Split(s, d) == [s[..i]] + Split(rest, d);
      JoinCons([d], s[..i], Split(rest, d));
      assert s == s[..i] + [d] + rest;
    }
  }

  /** Joining a first part onto at least one more puts the separator between them. */
  lemma JoinCons(sep: string, a: string, parts: seq<string>)
    requires |parts| >= 1
    ensures Join(sep, [a] + parts) == a + sep + Join(sep, parts)
  {
    assert ([a] + parts)[1..] == parts;
  }

  /** A piece free of the delimiter, then the delimiter, splits off as the first part. */
  lemma SplitCons(w: string, rest: string, d: char)
    requires d !in w
    ensures Split(w + [d] + rest, d) == [w] + Split(rest, d)
  {
    var s := w + [d] + rest;
    assert s[|w|] == d;
    assert s[..|w|] == w;
    IndexOfCharAt(s, d, |w|);
    assert s[|w| + 1..] == rest;
  }

  /** The first occurrence is the one with no earlier occurrence. */
  lemma {:induction false} IndexOfCharAt(s: string, d: char, k: nat)
    requires k < |s| && s[k] == d && d !in s[..k]
    ensures IndexOfChar(s, d) == k
  {
    if k > 0 {
      assert s[..k][0] == s[0];
      assert s[1..][..k - 1] == s[..k][1..];
      IndexOfCharAt(s[1..], d, k - 1);
    }
  }

  /** `r` is the longest suffix of `s` free of `d`: all of `s`, or what follows its last `d`. */
  predicate LastPiece(s: string, d: char, r: string) {
    |r| <= |s| && r == s[|s| - |r|..]
    && (d in s ==> |r| < |s| && s[|s| - |r| - 1] == d)
    && (d !in s ==> r == s)
  }

  predicate LastPieceOfSplit(s: string, d: char) {
    LastPiece(s, d, Split(s, d)[|Split(s, d)| - 1])
  }

  /** The last piece of explode(d, s) is the longest suffix of `s` free of `d`. */
  lemma {:induction false} SplitLast(s: string, d: char)
    ensures LastPieceOfSplit(s, d)
    decreases |s|
  {
    if d !in s {
      SplitNone(s, d);
    } else {
      var i := IndexOfChar(s, d);
      SplitLast(s[i + 1..], d);
      SplitSome(s, d, i);
    }
  }

  /** Without a delimiter, explode gives back the whole text. */
  lemma SplitNone(s: string, d: char)
    requires d !in s
    ensures LastPieceOfSplit(s, d)
  {
    assert Split(s, d) == [s];
    assert s[|s| - |s|..] == s;
  }

  /** Cutting off the first piece at the first `d` leaves the last piece where it was. */
  lemma SplitSome(s: string, d: char, i: nat)
    requires d in s && i == IndexOfChar(s, d)
    requires LastPieceOfSplit(s[i + 1..], d)
    ensures LastPieceOfSplit(s, d)
  {
    var parts := Split(s[i + 1..], d);
    LastOfEq(Split(s, d), s[..i], parts);
    LastPieceStep(s, d, i, parts[|parts| - 1]);
  }

  /** A last piece of what follows a `d` is a last piece of the whole text. */
  lemma LastPieceStep(s: string, d: char, i: nat, r: string)
    requires i < |s| && s[i] == d && LastPiece(s[i + 1..], d, r)
    ensures LastPiece(s, d, r)
  {
    var rest := s[i + 1..];
    SuffixOfTail(s, i + 1, rest, r);
    if d !in rest {
      assert |s| - |r| - 1 == i;
    }
  }

  lemma LastOfEq<T>(all: seq<T>, a: T, xs: seq<T>)
    requires |xs| >= 1 && all == [a] + xs
    ensures all[|all| - 1] == xs[|xs| - 1]
  {
  }

  /** A suffix `r` of a tail `t` of `s` is a suffix of `s`, and the element before it is the same in both. */
  lemma SuffixOfTail<T>(s: seq<T>, i: nat, t: seq<T>, r: seq<T>)
    requires i <= |s| && t == s[i..] && |r| <= |t| && r == t[|t| - |r|..]
    ensures r == s[|s| - |r|..]
    ensures |r| < |t| ==> s[|s| - |r| - 1] == t[|t| - |r| - 1]
  {
  }

  /** Two suffixes of `s`, each free of `d` and preceded by a `d`, are the same suffix. */
  lemma SameFreeSuffix<T>(s: seq<T>, d: T, r: seq<T>, q: seq<T>)
    requires |r| < |s| && |q| < |s| && r == s[|s| - |r|..] && q == s[|s| - |q|..]
    requires s[|s| - |r| - 1] == d && s[|s| - |q| - 1] == d && d !in r && d !in q
    ensures r == q
  {
    DelimInLonger(s, d, r, q);
    DelimInLonger(s, d, q, r);
  }

  /** A suffix longer than one preceded by `d` holds that `d`. */
  lemma DelimInLonger<T>(s: seq<T>, d: T, r: seq<T>, q: seq<T>)
    requires |r| < |s| && |q| <= |s| && r == s[|s| - |r|..] && q == s[|s| - |q|..]
    requires s[|s| - |r| - 1] == d
    ensures |r| < |q| ==> d in q
  {
    if |r| < |q| {
      assert q[|q| - |r| - 1] == d;
    }
  }

  function LowerChar(c: char): char {
    if 'A' <= c <= 'Z' then ((c as int) + 32) as char else c
  }

  function UpperChar(c: char): char {
    if 'a' <= c <= 'z' then ((c as int) - 32) as char else c
  }

  /** PHP 8.2+ strtolower: ASCII letters only. */
  function Lower(s: string): (r: string)
    ensures |r| == |s| && forall i :: 0 <= i < |s| ==> r[i] == LowerChar(s[i])
  {
    seq(|s|, i requires 0 <= i < |s| => LowerChar(s[i]))
  }

  /** PHP 8.2+ strtoupper: ASCII letters only. */
  function Upper(s: string): (r: string)
    ensures |r| == |s| && forall i :: 0 <= i < |s| ==> r[i] == UpperChar(s[i])
  {
    seq(|s|, i requires 0 <= i < |s| => UpperChar(s[i]))
  }

  predicate NoUpperCase(s: string) {
    forall i :: 0 <= i < |s| ==> !('A' <= s[i] <= 'Z')
  }

  /** strtolower undoes strtoupper on a string without capitals, and leaves it alone. */
  lemma LowerUpper(s: string)
    requires NoUpperCase(s)
    ensures Lower(s) == s && Lower(Upper(s)) == s
  {
    assert forall i :: 0 <= i < |s| ==> Lower(Upper(s))[i] == LowerChar(UpperChar(s[i])) == s[i];
  }

  predicate StartsWith(s: string, p: string) {
    |p| <= |s| && s[..|p|] == p
  }

  predicate ContainsStr(s: string, p: string)
    decreases |s|
  {
    StartsWith(s, p) || (s != [] && ContainsStr(s[1..], p))
  }

  /** PHP's str_replace with one non-empty search string: left to right, without overlaps. */
  function ReplaceAll(s: string, pat: string, rep: string): (r: string)
    requires |pat| > 0
    decreases |s|
  {
    if |s| < |pat| then s
    else if s[..|pat|] == pat then rep + ReplaceAll(s[|pat|..], pat, rep)
    else [s[0]] + ReplaceAll(s[1..], pat, rep)
  }

  lemma {:induction false} ReplaceAllAbsent(s: string, pat: string, rep: string)
    requires |pat| > 0 && !ContainsStr(s, pat)
    ensures ReplaceAll(s, pat, rep) == s
    decreases |s|
  {
    if |s| >= |pat| {
      ReplaceAllAbsent(s[1..], pat, rep);
      assert s == [s[0]] + s[1..];
    }
  }

  /** PHP 8 strcmp: -1, 0 or 1 by lexicographic comparison of code points. */
  function Strcmp(a: string, b: string): (r: int)
    ensures -1 <= r <= 1
    ensures r == 0 <==> a == b
  {
    if a == [] then (if b == [] then 0 else -1)
    else if b == [] then 1
    else if a[0] < b[0] then -1
    else if b[0] < a[0] then 1
    else
      assert a == [a[0]] + a[1..] && b == [b[0]] + b[1..];
      Strcmp(a[1..], b[1..])
  }

  predicate StrLe(a: string, b: string) { Strcmp(a, b) <= 0 }

  lemma {:induction false} StrcmpAntisymmetric(a: string, b: string)
    ensures Strcmp(a, b) == -Strcmp(b, a)
  {
    if a != [] && b != [] && a[0] == b[0] {
      StrcmpAntisymmetric(a[1..], b[1..]);
    }
  }

  lemma {:induction false} StrLeTransitive(a: string, b: string, c: string)
    requires StrLe(a, b) && StrLe(b, c)
    ensures StrLe(a, c)
  {
    if a != [] && b != [] && c != [] && a[0] == b[0] == c[0] {
      StrLeTransitive(a[1..], b[1..], c[1..]);
    }
  }

  lemma StrLeTotal(a: string, b: string)
    ensures StrLe(a, b) || StrLe(b, a)
    ensures StrLe(a, b) && StrLe(b, a) ==> a == b
  {
    StrcmpAntisymmetric(a, b);
  }

  predicate SortedStrings(s: seq<string>) {
    forall i, j :: 0 <= i < j < |s| ==> StrLe(s[i], s[j])
  }

  function InsertString(x: string, s: seq<string>): (r: seq<string>)
    ensures multiset(r) == multiset(s) + multiset{x}
  {
    if s == [] then [x]
    else if StrLe(x, s[0]) then [x] + s
    else
      assert s == [s[0]] + s[1..];
      [s[0]] + InsertString(x, s[1..])
  }

  lemma {:induction false} InsertStringSorted(x: string, s: seq<string>)
    requires SortedStrings(s)
    ensures SortedStrings(InsertString(x, s))
  {
    if s == [] {
    } else if StrLe(x, s[0]) {
      forall j | 0 < j < |s| ensures StrLe(x, s[j]) { StrLeTransitive(x, s[0], s[j]); }
    } else {
      StrLeTotal(x, s[0]);
      var t := InsertString(x, s[1..]);
      InsertStringSorted(x, s[1..]);
      forall k | 0 <= k < |t| ensures StrLe(s[0], t[k]) {
        assert t[k] in multiset(t);
        assert t[k] == x || t[k] in multiset(s[1..]);
        if t[k] != x {
          var m :| 0 <= m < |s[1..]| && s[1..][m] == t[k];
          assert s[m + 1] == t[k];
        }
      }
    }
  }

  /** PHP's sort() on a list of strings (compared with strcmp). */
  function SortStrings(s: seq<string>): (r: seq<string>)
    ensures multiset(r) == multiset(s)
    ensures SortedStrings(r)
  {
    if s == [] then []
    else
      assert s == [s[0]] + s[1..];
      InsertStringSorted(s[0], SortStrings(s[1..]));
      InsertString(s[0], SortStrings(s[1..]))
  }

  /** Two sorted lists holding the same strings are the same list. */
  lemma {:induction false} SortedUnique(a: seq<string>, b: seq<string>)
    requires SortedStrings(a) && SortedStrings(b) && multiset(a) == multiset(b)
    ensures a == b
    decreases |a|
  {
    if a != [] {
      SortedHeads(a, b);
      SameTails(a, b);
      SortedTail(a);
      SortedTail(b);
      SortedUnique(a[1..], b[1..]);
      assert a == [a[0]] + a[1..] && b == [b[0]] + b[1..];
    }
  }

  /** Sorted lists holding the same strings start with the same string. */
  lemma SortedHeads(a: seq<string>, b: seq<string>)
    requires SortedStrings(a) && SortedStrings(b) && multiset(a) == multiset(b) && a != []
    ensures b != [] && a[0] == b[0]
  {
    assert a[0] in multiset(b);
    var i :| 0 <= i < |b| && b[i] == a[0];
    assert b[0] in multiset(a);
    var j :| 0 <= j < |a| && a[j] == b[0];
    assert StrLe(b[0], a[0]) by { if i > 0 { assert StrLe(b[0], b[i]); } }
    assert StrLe(a[0], b[0]) by { if j > 0 { assert StrLe(a[0], a[j]); } }
    StrLeTotal(a[0], b[0]);
  }

  /** Lists with the same elements and the same first element have tails with the same elements. */
  lemma SameTails<T>(a: seq<T>, b: seq<T>)
    requires multiset(a) == multiset(b) && a != [] && b != [] && a[0] == b[0]
    ensures multiset(a[1..]) == multiset(b[1..])
  {
    assert a == [a[0]] + a[1..] && b == [b[0]] + b[1..];
    assert multiset(a) == multiset{a[0]} + multiset(a[1..]);
    assert multiset(b) == multiset{b[0]} + multiset(b[1..]);
    assert multiset(a[1..]) == multiset(a) - multiset{a[0]};
    assert multiset(b[1..]) == multiset(b) - multiset{b[0]};
  }

  lemma SortedTail(a: seq<string>)
    requires SortedStrings(a) && a != []
    ensures SortedStrings(a[1..])
  {
    forall i, j | 0 <= i < j < |a| - 1 ensures StrLe(a[1..][i], a[1..][j]) {
      assert a[1..][i] == a[i + 1] && a[1..][j] == a[j + 1];
    }
  }

  /** Sorting forgets the order in which the strings were supplied. */
  lemma SortOrderIndependent(a: seq<string>, b: seq<string>)
    requires multiset(a) == multiset(b)
    ensures SortStrings(a) == SortStrings(b)
  {
    SortedUnique(SortStrings(a), SortStrings(b));
  }

  /** The end of the run of characters satisfying `IsDigit` that starts at `i`. */
  function SpanDigits(s: string, i: nat): (j: nat)
    requires i <= |s|
    ensures i <= j <= |s| && AllDigits(s[i..j]) && (j < |s| ==> !IsDigit(s[j]))
    decreases |s| - i
  {
    if i < |s| && IsDigit(s[i]) then SpanDigits(s, i + 1) else i
  }

  /** The end of the run of white space that starts at `i`. */
  function SpanSpace(s: string, i: nat): (j: nat)
    requires i <= |s|
    ensures i <= j <= |s| && (forall k :: i <= k < j ==> IsSpace(s[k])) && (j < |s| ==> !IsSpace(s[j]))
    decreases |s| - i
  {
    if i < |s| && IsSpace(s[i]) then SpanSpace(s, i + 1) else i
  }

  /**
   * PHP 8's is_numeric on a string: optional white space, an optional sign, digits with at
   * most one decimal point (at least one digit in all), an optional exponent, then optional
   * white space.
   */
  predicate IsNumeric(s: string) {
    var a := SpanSpace(s, 0);
    var b := if a < |s| && (s[a] == '+' || s[a] == '-') then a + 1 else a;
    var c := SpanDigits(s, b);
    var d := if c < |s| && s[c] == '.' then SpanDigits(s, c + 1) else c;
    var e := if d < |s| && (s[d] == 'e' || s[d] == 'E') then
               var f := if d + 1 < |s| && (s[d + 1] == '+' || s[d + 1] == '-') then d + 2 else d + 1;
               if SpanDigits(s, f) > f then SpanDigits(s, f) else d
             else d;
    (c > b || d > c + 1) && SpanSpace(s, e) == |s|
  }

  /** A decimal integer without sign or leading zero is numeric. */
  lemma DigitsNumeric(s: string)
    requires s != [] && AllDigits(s)
    ensures IsNumeric(s)
  {
    assert !IsSpace(s[0]);
    SpanAllDigits(s, 0);
  }

  lemma {:induction false} SpanAllDigits(s: string, i: nat)
    requires i <= |s| && AllDigits(s)
    ensures SpanDigits(s, i) == |s|
    decreases |s| - i
  {
    if i < |s| {
      SpanAllDigits(s, i + 1);
    }
  }

  /** Decimal rendering inverts `DigitsValue` on digit strings without a leading zero. */
  lemma {:induction false} DigitsValueRoundTrip(s: string)
    requires s != [] && AllDigits(s) && (s[0] != '0' || |s| == 1)
    ensures NatToString(DigitsValue(s)) == s
    ensures s[0] != '0' ==> DigitsValue(s) >= 1
    decreases |s|
  {
    var init := s[..|s| - 1];
    var d := DigitOf(s[|s| - 1]);
    assert DigitChar(d) == s[|s| - 1];
    if |s| > 1 {
      assert init[0] == s[0];
      DigitsValueRoundTrip(init);
      var n := DigitsValue(s);
      assert n / 10 == DigitsValue(init) && n % 10 == d;
      assert s == init + [s[|s| - 1]];
    } else {
      assert s == [s[0]];
    }
  }

  /** A rendered natural number has no leading zero unless it is 0. */
  lemma {:induction false} NatToStringLeading(n: nat)
    ensures NatToString(n)[0] == '0' <==> n == 0
    decreases n
  {
    if n >= 10 {
      NatToStringLeading(n / 10);
      assert NatToString(n)[0] == NatToString(n / 10)[0];
    }
  }
}
