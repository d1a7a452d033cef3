/**
 * What the PostgreSQL and MySQL analyzers share: the errors reading the catalog raises, the
 * loop shape that turns the rows of one catalog query into a PHP array
 * (`foreach ($rows as $r) { $m[<key>] = <value>; }`), and the regular expression both use
 * to take a default out of its quotes.
 */
module Analysis {
  import opened Wrappers
  import opened OrderedMaps
  import opened Config

  datatype AnalyzeError =
    | UnhandledMatch(subject: string)               // a `match` without an arm for the catalog's value
    | MissingPrimaryKey(table: string)              // `getPrimaryKey(): Row` fetched null (a TypeError)
    | MissingColumn(table: string, column: string)  // a property assigned on a null column entry

  /** What one row does to the array: it fails, it is skipped, or it writes `$m[key] = value`. */
  type Entry<V> = Result<Option<(string, V)>, AnalyzeError>

  function Enter<V>(m: OMap<string, V>, e: Entry<V>): Result<OMap<string, V>, AnalyzeError> {
    match e
    case Err(x) => Err(x)
    case Ok(None) => Ok(m)
    case Ok(Some(kv)) => Ok(Put(m, kv.0, kv.1))
  }

  /** The array a `foreach` over `rows` builds; the first row that fails stops it. */
  function Collect<R, V>(rows: seq<R>, read: R -> Entry<V>): Result<OMap<string, V>, AnalyzeError>
    decreases |rows|
  {
    if rows == [] then Ok([])
    else
      match Collect(rows[..|rows| - 1], read)
      case Err(x) => Err(x)
      case Ok(m) => Enter(m, read(rows[|rows| - 1]))
  }

  /** The row writes key `k`. */
  predicate Writes<V>(e: Entry<V>, k: string) {
    e.Ok? && e.value.Some? && e.value.value.0 == k
  }

  /** One more iteration of the loop. */
  lemma CollectStep<R, V>(rows: seq<R>, read: R -> Entry<V>, i: nat)
    requires i < |rows|
    ensures Collect(rows[..i + 1], read) == match Collect(rows[..i], read)
                                            case Err(x) => Err(x)
                                            case Ok(m) => Enter(m, read(rows[i]))
  {
    assert rows[..i + 1][..i] == rows[..i];
  }

  /** Once a row has failed, the rest of the loop does not run. */
  lemma {:induction false} CollectErrSticks<R, V>(rows: seq<R>, read: R -> Entry<V>, i: nat)
    requires i <= |rows| && Collect(rows[..i], read).Err?
    ensures Collect(rows, read) == Collect(rows[..i], read)
    decreases |rows|
  {
    if i < |rows| {
      var init := rows[..|rows| - 1];
      assert init[..i] == rows[..i];
      CollectErrSticks(init, read, i);
    } else {
      assert rows[..i] == rows;
    }
  }

  /** The loop completes exactly when every row reads without an error. */
  lemma {:induction false} CollectOk<R, V>(rows: seq<R>, read: R -> Entry<V>)
    ensures Collect(rows, read).Ok? <==> forall i :: 0 <= i < |rows| ==> read(rows[i]).Ok?
    decreases |rows|
  {
    if rows != [] {
      var init := rows[..|rows| - 1];
      CollectOk(init, read);
      assert forall i :: 0 <= i < |init| ==> init[i] == rows[i];
    }
  }

  /** A failed loop reports the error of the first row that failed. */
  lemma {:induction false} CollectFirstError<R, V>(rows: seq<R>, read: R -> Entry<V>)
    requires Collect(rows, read).Err?
    ensures exists i :: 0 <= i < |rows| && read(rows[i]) == Err(Collect(rows, read).error)
                        && forall j :: 0 <= j < i ==> read(rows[j]).Ok?
    decreases |rows|
  {
    var init := rows[..|rows| - 1];
    assert forall i :: 0 <= i < |init| ==> init[i] == rows[i];
    if Collect(init, read).Err? {
      CollectFirstError(init, read);
      var i :| 0 <= i < |init| && read(init[i]) == Err(Collect(init, read).error)
               && forall j :: 0 <= j < i ==> read(init[j]).Ok?;
      assert read(rows[i]) == Err(Collect(rows, read).error);
    } else {
      CollectOk(init, read);
      var i := |rows| - 1;
      assert read(rows[i]) == Err(Collect(rows, read).error);
    }
  }

  /** The keys of the array are the keys the rows write, each once. */
  lemma {:induction false} CollectKeys<R, V>(rows: seq<R>, read: R -> Entry<V>)
    requires Collect(rows, read).Ok?
    ensures DistinctKeys(Collect(rows, read).value)
    ensures forall k :: HasKey(Collect(rows, read).value, k) <==> exists i :: 0 <= i < |rows| && Writes(read(rows[i]), k)
    decreases |rows|
  {
    if rows != [] {
      var init := rows[..|rows| - 1];
      var last := rows[|rows| - 1];
      var m := Collect(init, read).value;
      CollectKeys(init, read);
      var r := Collect(rows, read).value;
      forall k ensures HasKey(r, k) <==> exists i :: 0 <= i < |rows| && Writes(read(rows[i]), k) {
        if exists i :: 0 <= i < |init| && Writes(read(init[i]), k) {
          var i :| 0 <= i < |init| && Writes(read(init[i]), k);
          assert Writes(read(rows[i]), k);
        }
        if exists i :: 0 <= i < |rows| && Writes(read(rows[i]), k) {
          var i :| 0 <= i < |rows| && Writes(read(rows[i]), k);
          if i < |init| {
            assert Writes(read(init[i]), k);
          }
        }
        match read(last)
        case Ok(Some(kv)) => PutKeys(m, kv.0, kv.1);
        case _ =>
      }
      match read(last)
      case Ok(Some(kv)) => PutDistinct(m, kv.0, kv.1);
      case _ =>
    }
  }

  /** Every entry of the array is exactly what some row wrote. */
  lemma {:induction false} CollectFrom<R, V>(rows: seq<R>, read: R -> Entry<V>)
    requires Collect(rows, read).Ok?
    ensures forall j :: 0 <= j < |Collect(rows, read).value| ==>
              exists i :: 0 <= i < |rows| && read(rows[i]) == Ok(Some(Collect(rows, read).value[j]))
    decreases |rows|
  {
    if rows != [] {
      var init := rows[..|rows| - 1];
      var last := |rows| - 1;
      var m := Collect(init, read).value;
      CollectFrom(init, read);
      var r := Collect(rows, read).value;
      forall j | 0 <= j < |r| ensures exists i :: 0 <= i < |rows| && read(rows[i]) == Ok(Some(r[j])) {
        if j < |m| && r[j] == m[j] {
          var i :| 0 <= i < |init| && read(init[i]) == Ok(Some(m[j]));
          assert read(rows[i]) == Ok(Some(r[j]));
        } else {
          var kv := read(rows[last]).value.value;
          assert r[j] == kv;
        }
      }
    }
  }

  /** When every row writes its value under the value's own key, so does the array. */
  lemma CollectKeyed<R, V>(rows: seq<R>, read: R -> Entry<V>, key: V -> string)
    requires Collect(rows, read).Ok?
    requires forall i :: 0 <= i < |rows| && read(rows[i]).Ok? && read(rows[i]).value.Some? ==>
               read(rows[i]).value.value.0 == key(read(rows[i]).value.value.1)
    ensures forall j :: 0 <= j < |Collect(rows, read).value| ==>
              Collect(rows, read).value[j].0 == key(Collect(rows, read).value[j].1)
  {
    CollectFrom(rows, read);
  }

  /** The loop of one catalog query, proved to build `Collect(rows, read)`. */
  method CollectRows<R, V>(rows: seq<R>, read: R -> Entry<V>) returns (r: Result<OMap<string, V>, AnalyzeError>)
    ensures r == Collect(rows, read)
  {
    var m: OMap<string, V> := [];
    for i := 0 to |rows|
      invariant Collect(rows[..i], read) == Ok(m)
    {
      CollectStep(rows, read, i);
      match read(rows[i])
      case Err(x) =>
        CollectErrSticks(rows, read, i + 1);
        return Err(x);
      case Ok(None) =>
      case Ok(Some(kv)) =>
        m := Put(m, kv.0, kv.1);
    }
    assert rows[..|rows|] == rows;
    r := Ok(m);
  }

  // ---------------------------------------------------------------------------------------
  // preg_match("/'(.*)<close>/", $s, $m) followed by `$m[1] ?? $s`.

  /** `close` occurs in `s` at position `j`. */
  predicate ClosesAt(s: string, close: string, j: nat) {
    j + |close| <= |s| && s[j..j + |close|] == close
  }

  /** Where the line holding position `k` ends: at the next "\n", or at the end of `s`. */
  function LineEnd(s: string, k: nat): (e: nat)
    requires k <= |s|
    ensures k <= e <= |s| && (e < |s| ==> s[e] == '\n')
    ensures forall j :: k <= j < e ==> s[j] != '\n'
    decreases |s| - k
  {
    if k == |s| || s[k] == '\n' then k else LineEnd(s, k + 1)
  }

  /** The last position in `lo..hi` at which `close` occurs. */
  function LastClose(s: string, close: string, lo: nat, hi: int): (r: Option<nat>)
    ensures r.Some? ==> lo <= r.value <= hi && ClosesAt(s, close, r.value)
    ensures r.Some? ==> forall j: nat :: r.value < j <= hi ==> !ClosesAt(s, close, j)
    ensures r.None? ==> forall j: nat :: lo <= j <= hi ==> !ClosesAt(s, close, j)
    decreases hi - lo + 1
  {
    if hi < lo then None
    else if ClosesAt(s, close, hi) then Some(hi)
    else LastClose(s, close, lo, hi - 1)
  }

  /**
   * The first group of the match, searching from position `i`: the leftmost quote that is
   * followed by `close` on the same line, and the longest run up to a `close` (`.*` is greedy
   * and does not cross a newline).
   */
  function MatchFrom(s: string, close: string, i: nat): (r: Option<string>)
    ensures r.Some? ==> '\n' !in r.value
    decreases |s| - i
  {
    if i >= |s| then None
    else if s[i] == '\'' && LastClose(s, close, i + 1, LineEnd(s, i + 1)).Some? then
      var j := LastClose(s, close, i + 1, LineEnd(s, i + 1)).value;
      var g := s[i + 1..j];
      assert forall k :: 0 <= k < |g| ==> g[k] == s[i + 1 + k];
      Some(g)
    else MatchFrom(s, close, i + 1)
  }

  /** `if ($default) { preg_match(...); $default = $m[1] ?? $default; }` */
  function Unquote(d: Option<string>, close: string): (r: Option<string>)
    ensures d.None? ==> r.None?
  {
    if d.Some? && Truthy(d.value) then
      match MatchFrom(d.value, close, 0)
      case Some(g) => Some(g)
      case None => d
    else d
  }

  /** A literal wrapped in a quote and `close` on one line comes out whole. */
  lemma Unwrapped(x: string, close: string)
    requires '\n' !in x && '\n' !in close && |close| > 0
    ensures MatchFrom("'" + x + close, close, 0) == Some(x)
  {
    var s := "'" + x + close;
    forall j | 1 <= j < |s| ensures s[j] != '\n' {
      if j <= |x| { assert s[j] == x[j - 1]; } else { assert s[j] == close[j - 1 - |x|]; }
    }
    var e := LineEnd(s, 1);
    assert e == |s|;
    assert s[1 + |x|..1 + |x| + |close|] == close;
    assert ClosesAt(s, close, 1 + |x|);
    var r := LastClose(s, close, 1, e);
    assert r.Some? && r.value >= 1 + |x|;
    assert s[1..1 + |x|] == x;
  }

  /** A string without a quote has nothing to match. */
  lemma {:induction false} NoQuoteNoMatch(s: string, close: string, i: nat)
    requires '\'' !in s
    ensures MatchFrom(s, close, i) == None
    decreases |s| - i
  {
    if i < |s| {
      NoQuoteNoMatch(s, close, i + 1);
    }
  }
}
