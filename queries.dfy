/**
 * The statements a processor prepares. Each `Query` names the step it belongs to; the
 * processor keeps one list per step in a fixed order of steps, `addQuery` appends to the
 * list of the query's step, and `process` runs the lists one after another. So the
 * executed program is the queued queries grouped by step: steps in their fixed order,
 * queries of one step in the order they were queued.
 */
module Queries {
  import opened Wrappers
  import opened OrderedMaps

  /**
   * The keys of the processors' step lists. Both processors have the same twelve steps and
   * differ only in the order they run them.
   */
  newtype Step = k: int | 0 <= k < 12 {
    static const CreateSchema: Step := 0
    static const DropSequence: Step := 1
    static const CreateSequence: Step := 2
    static const CreateTable: Step := 3
    static const AlterTable: Step := 4
    static const AlterSequence: Step := 5
    static const CreateIndex: Step := 6
    static const AlterTableDrop: Step := 7
    static const AlterTableAdd: Step := 8
    static const DropSchema: Step := 9
    static const DropTable: Step := 10
    static const DropIndex: Step := 11
  }

  /** `new Query($step, $sql, $table, $text, $item)`. */
  datatype Query = Query(step: Step, sql: string, table: Option<string>, text: Option<string>, item: Option<string>)

  /** What can stop `prepare` (an exception or a PHP error). */
  datatype ProcessError =
    | UnknownStep(step: Step)
    | UpdateWithAllSchema(schema: string)
    | UpdateWithAllTable(schema: string, table: string)
    | CreateWithPrimaryKey(table: string)
    | RemoveWithPrimaryKey(table: string)
    | UnhandledMatch(subject: string)
    | NullArgument(what: string)
    | CompareFailed(schema: string, table: string)
    | Uninitialized(property: string)

  type Steps = OMap<Step, seq<Query>>

  predicate DistinctSteps(order: seq<Step>) {
    forall i, j :: 0 <= i < j < |order| ==> order[i] != order[j]
  }

  /** The queued queries of step `n`, in queue order. */
  function Filter(qs: seq<Query>, n: Step): (r: seq<Query>)
    ensures |r| <= |qs|
  {
    if qs == [] then []
    else Filter(qs[..|qs| - 1], n) + if qs[|qs| - 1].step == n then [qs[|qs| - 1]] else []
  }

  /** The filter keeps queries of step `n` only, and only queued ones. */
  lemma {:induction false} FilterMembers(qs: seq<Query>, n: Step)
    ensures forall q :: q in Filter(qs, n) ==> q in qs && q.step == n
    decreases |qs|
  {
    if qs != [] {
      FilterMembers(qs[..|qs| - 1], n);
      assert forall q :: q in qs[..|qs| - 1] ==> q in qs;
    }
  }

  /** The step lists after queueing `qs` into empty lists. */
  function Grouped(order: seq<Step>, qs: seq<Query>): (r: Steps)
    ensures |r| == |order| && forall i :: 0 <= i < |order| ==> r[i] == (order[i], Filter(qs, order[i]))
  {
    seq(|order|, i requires 0 <= i < |order| => (order[i], Filter(qs, order[i])))
  }

  /** Every query names one of the steps. */
  predicate Known(order: seq<Step>, qs: seq<Query>) {
    forall q :: q in qs ==> q.step in order
  }

  /** `reset`: every step present, in order, and empty. */
  function EmptySteps(order: seq<Step>): (r: Steps)
    ensures r == Grouped(order, [])
  {
    seq(|order|, i requires 0 <= i < |order| => (order[i], []))
  }

  /** `addQuery`: append to the query's step; a step the processor lacks is an error. */
  function AddQuery(steps: Steps, q: Query): (r: Result<Steps, ProcessError>)
    ensures r.Ok? <==> HasKey(steps, q.step)
    ensures r.Err? ==> r.error == UnknownStep(q.step)
    ensures r.Ok? ==> KeysOf(r.value) == KeysOf(steps)
    ensures r.Ok? ==> forall n :: Lookup(r.value, n) == if n == q.step then Some(Lookup(steps, n).value + [q]) else Lookup(steps, n)
  {
    if !HasKey(steps, q.step) then Err(UnknownStep(q.step))
    else
      var r := Put(steps, q.step, Lookup(steps, q.step).value + [q]);
      forall n ensures Lookup(r, n) == if n == q.step then Some(Lookup(steps, n).value + [q]) else Lookup(steps, n) {
        PutLookup(steps, q.step, Lookup(steps, q.step).value + [q], n);
      }
      Ok(r)
  }

  lemma GroupedKeys(order: seq<Step>, qs: seq<Query>, n: Step)
    ensures HasKey(Grouped(order, qs), n) <==> n in order
  {
    var g := Grouped(order, qs);
    if n in order {
      var i :| 0 <= i < |order| && order[i] == n;
      assert g[i].0 == n;
    }
  }

  lemma GroupedDistinct(order: seq<Step>, qs: seq<Query>)
    requires DistinctSteps(order)
    ensures DistinctKeys(Grouped(order, qs))
  {
  }

  /** Appending `q` to its step of the grouped lists is grouping `qs + [q]`. */
  lemma GroupedSnoc(order: seq<Step>, qs: seq<Query>, q: Query)
    requires DistinctSteps(order) && q.step in order
    ensures AddQuery(Grouped(order, qs), q) == Ok(Grouped(order, qs + [q]))
  {
    var g := Grouped(order, qs);
    var h := Grouped(order, qs + [q]);
    GroupedKeys(order, qs, q.step);
    var i :| 0 <= i < |order| && order[i] == q.step;
    assert IndexOf(g, q.step) == i;
    LookupAtIndex(g, q.step);
    var r := g[i := (q.step, Filter(qs, q.step) + [q])];
    assert AddQuery(g, q) == Ok(r);
    assert (qs + [q])[..|qs + [q]| - 1] == qs;
    forall j | 0 <= j < |order| ensures r[j] == h[j] {
      assert Filter(qs + [q], order[j]) == Filter(qs, order[j]) + if q.step == order[j] then [q] else [];
      if j != i {
        assert order[j] != q.step;
        assert Filter(qs, order[j]) + [] == Filter(qs, order[j]);
      }
    }
    assert r == h;
  }

  // ---------------------------------------------------------------------------------------
  // Execution order.

  /** `process`: the lists run one after another, each in its own order. */
  function Program(steps: Steps): seq<Query> {
    if steps == [] then [] else steps[0].1 + Program(steps[1..])
  }

  /** The position of step `n` in the fixed order. */
  function Rank(order: seq<Step>, n: Step): (k: nat)
    requires n in order
    ensures k < |order| && order[k] == n
    ensures forall j :: 0 <= j < k ==> order[j] != n
  {
    if order[0] == n then 0 else 1 + Rank(order[1..], n)
  }

  /** In a list of distinct steps, the step at position `k` has rank `k`. */
  lemma {:induction false} RankAt(order: seq<Step>, k: nat)
    requires DistinctSteps(order) && k < |order|
    ensures Rank(order, order[k]) == k
    decreases k
  {
    if k > 0 {
      assert order[0] != order[k];
      assert order[1..][k - 1] == order[k];
      RankAt(order[1..], k - 1);
    }
  }

  lemma {:induction false} FilterConcat(a: seq<Query>, b: seq<Query>, n: Step)
    ensures Filter(a + b, n) == Filter(a, n) + Filter(b, n)
    decreases |b|
  {
    if b == [] {
      assert a + b == a;
    } else {
      var c := b[..|b| - 1];
      assert (a + b)[..|a + b| - 1] == a + c;
      FilterConcat(a, c, n);
    }
  }

  lemma {:induction false} FilterOfFilter(qs: seq<Query>, m: Step, n: Step)
    ensures Filter(Filter(qs, m), n) == if m == n then Filter(qs, n) else []
    decreases |qs|
  {
    if qs != [] {
      var p := qs[..|qs| - 1];
      var x := qs[|qs| - 1];
      FilterOfFilter(p, m, n);
      FilterConcat(Filter(p, m), if x.step == m then [x] else [], n);
      if x.step == m {
        assert Filter([x], n) == (if x.step == n then [x] else []) by {
          assert [x][..0] == [];
        }
      }
    }
  }

  lemma {:induction false} FilterNone(qs: seq<Query>, n: Step)
    requires forall q :: q in qs ==> q.step != n
    ensures Filter(qs, n) == []
    decreases |qs|
  {
    if qs != [] {
      FilterNone(qs[..|qs| - 1], n);
    }
  }

  /** Queueing one more query adds it to the filter of its own step only. */
  lemma FilterSnoc(qs: seq<Query>, q: Query, n: Step)
    ensures Filter(qs + [q], n) == Filter(qs, n) + if q.step == n then [q] else []
  {
    assert (qs + [q])[..|qs|] == qs;
  }

  /** Queries of other steps around a block leave the block's filter as it is. */
  lemma FilterMiddle(a: seq<Query>, m: seq<Query>, b: seq<Query>, n: Step)
    requires forall q :: q in a ==> q.step != n
    requires forall q :: q in b ==> q.step != n
    ensures Filter(a + m + b, n) == Filter(m, n)
  {
    FilterConcat(a + m, b, n);
    FilterConcat(a, m, n);
    FilterNone(a, n);
    FilterNone(b, n);
    assert [] + Filter(m, n) + [] == Filter(m, n);
  }

  lemma {:induction false} FilterContains(qs: seq<Query>, q: Query)
    requires q in qs
    ensures q in Filter(qs, q.step)
    decreases |qs|
  {
    if qs[|qs| - 1] != q {
      assert q in qs[..|qs| - 1] by {
        var k :| 0 <= k < |qs| && qs[k] == q;
        assert qs[..|qs| - 1][k] == q;
      }
      FilterContains(qs[..|qs| - 1], q);
    }
  }

  /**
   * Running the grouped lists executes each step's queries in the order they were queued,
   * and only queries of the listed steps.
   */
  lemma {:induction false} ProgramPerStep(order: seq<Step>, qs: seq<Query>, n: Step)
    requires DistinctSteps(order)
    ensures Filter(Program(Grouped(order, qs)), n) == if n in order then Filter(qs, n) else []
    ensures forall q :: q in Program(Grouped(order, qs)) ==> q in qs && q.step in order
    decreases |order|
  {
    var g := Grouped(order, qs);
    if order != [] {
      var rest := order[1..];
      assert g[1..] == Grouped(rest, qs);
      ProgramPerStep(rest, qs, n);
      FilterMembers(qs, order[0]);
      FilterConcat(Filter(qs, order[0]), Program(Grouped(rest, qs)), n);
      FilterOfFilter(qs, order[0], n);
      if n == order[0] {
        assert n !in rest;
        FilterNone(Program(Grouped(rest, qs)), n);
      }
    }
  }

  /** The executed program runs the steps in their fixed order. */
  lemma {:induction false} ProgramRanked(order: seq<Step>, qs: seq<Query>)
    requires DistinctSteps(order)
    ensures var p := Program(Grouped(order, qs));
            forall i, j :: 0 <= i < j < |p| ==> p[i].step in order && p[j].step in order && Rank(order, p[i].step) <= Rank(order, p[j].step)
    decreases |order|
  {
    var p := Program(Grouped(order, qs));
    if order != [] {
      var rest := order[1..];
      var g := Grouped(order, qs);
      assert g[1..] == Grouped(rest, qs);
      ProgramRanked(rest, qs);
      ProgramPerStep(rest, qs, order[0]);
      FilterMembers(qs, order[0]);
      var head := Filter(qs, order[0]);
      var tail := Program(Grouped(rest, qs));
      assert p == head + tail;
      forall i | 0 <= i < |p|
        ensures p[i].step in order
        ensures i < |head| ==> Rank(order, p[i].step) == 0
        ensures |head| <= i ==> p[i] == tail[i - |head|] && Rank(order, p[i].step) == 1 + Rank(rest, tail[i - |head|].step)
      {
        if i < |head| {
          assert p[i] == head[i] && head[i] in head;
        } else {
          assert p[i] == tail[i - |head|] && tail[i - |head|] in tail;
        }
      }
    }
  }

  /** Both queries run, and every run of `x` comes before every run of `y`. */
  predicate AlwaysBefore(p: seq<Query>, x: Query, y: Query) {
    x in p && y in p && forall i, j :: 0 <= i < |p| && 0 <= j < |p| && p[i] == x && p[j] == y ==> i < j
  }

  /** A queued query of an earlier step runs before every query of a later step. */
  lemma RunsBefore(order: seq<Step>, qs: seq<Query>, x: Query, y: Query)
    requires DistinctSteps(order) && x.step in order && y.step in order
    requires Rank(order, x.step) < Rank(order, y.step)
    requires x in qs && y in qs
    ensures AlwaysBefore(Program(Grouped(order, qs)), x, y)
  {
    ProgramRanked(order, qs);
    Executed(order, qs, x);
    Executed(order, qs, y);
  }

  /** A queued query of a listed step is executed. */
  lemma Executed(order: seq<Step>, qs: seq<Query>, q: Query)
    requires DistinctSteps(order) && q.step in order && q in qs
    ensures q in Program(Grouped(order, qs))
  {
    ProgramPerStep(order, qs, q.step);
    FilterContains(qs, q);
    var p := Program(Grouped(order, qs));
    FilterMembers(p, q.step);
    assert q in Filter(p, q.step);
  }

  /** Where the block of step `n` starts in the executed program. */
  function Offset(order: seq<Step>, qs: seq<Query>, n: Step): nat
    requires n in order
  {
    if order[0] == n then 0 else |Filter(qs, order[0])| + Offset(order[1..], qs, n)
  }

  /** The executed program holds the queries of each listed step as one contiguous block. */
  lemma {:induction false} ProgramBlock(order: seq<Step>, qs: seq<Query>, n: Step)
    requires DistinctSteps(order) && n in order
    ensures var p := Program(Grouped(order, qs));
            var k := Offset(order, qs, n);
            k + |Filter(qs, n)| <= |p| && p[k..k + |Filter(qs, n)|] == Filter(qs, n)
    decreases |order|
  {
    var g := Grouped(order, qs);
    var rest := order[1..];
    assert g[1..] == Grouped(rest, qs);
    var h := Filter(qs, order[0]);
    var tail := Program(Grouped(rest, qs));
    assert Program(g) == h + tail;
    if order[0] != n {
      ProgramBlock(rest, qs, n);
      var k := Offset(rest, qs, n);
      var f := Filter(qs, n);
      assert (h + tail)[|h| + k..|h| + k + |f|] == tail[k..k + |f|];
    }
  }

  lemma FilterAround(a: seq<Query>, x: Query, b: seq<Query>, y: Query, c: seq<Query>)
    requires y.step == x.step
    ensures Filter(a + [x] + b + [y] + c, x.step) == Filter(a, x.step) + [x] + Filter(b, x.step) + [y] + Filter(c, x.step)
  {
    var n := x.step;
    FilterConcat(a + [x] + b + [y], c, n);
    FilterConcat(a + [x] + b, [y], n);
    FilterConcat(a + [x], b, n);
    FilterConcat(a, [x], n);
    assert Filter([x], n) == [x] && Filter([y], n) == [y] by {
      assert [x][..0] == [] && [y][..0] == [];
    }
  }

  /**
   * Two queries of one step run in the order they were queued: when the queries of step `n`
   * are queued as `fa + [x] + fb + [y] + fc`, `x` runs before `y`, with only the `fb` queued
   * between them running in between.
   */
  lemma SameStepInOrder(order: seq<Step>, qs: seq<Query>, n: Step, fa: seq<Query>, x: Query, fb: seq<Query>, y: Query, fc: seq<Query>)
    returns (i: nat)
    requires DistinctSteps(order) && n in order && Filter(qs, n) == fa + [x] + fb + [y] + fc
    ensures var p := Program(Grouped(order, qs));
            i + 1 + |fb| < |p| && p[i] == x && p[i + 1 + |fb|] == y
  {
    ProgramBlock(order, qs, n);
    var k := Offset(order, qs, n);
    i := k + |fa|;
    BlockAt(Program(Grouped(order, qs)), k, Filter(qs, n), fa, x, fb, y, fc, i);
  }

  /** A block `fa + [x] + fb + [y] + fc` at offset `k` of `p` puts `x` and `y` where expected. */
  lemma BlockAt(p: seq<Query>, k: nat, f: seq<Query>, fa: seq<Query>, x: Query, fb: seq<Query>, y: Query, fc: seq<Query>, i: nat)
    requires k + |f| <= |p| && p[k..k + |f|] == f && f == fa + [x] + fb + [y] + fc && i == k + |fa|
    ensures i + 1 + |fb| < |p| && p[i] == x && p[i + 1 + |fb|] == y
  {
    assert f[|fa|] == x && f[|fa| + 1 + |fb|] == y;
    SliceAt(p, k, f, |fa|);
    SliceAt(p, k, f, |fa| + 1 + |fb|);
  }

  lemma SliceAt(p: seq<Query>, k: nat, f: seq<Query>, m: nat)
    requires k + |f| <= |p| && p[k..k + |f|] == f && m < |f|
    ensures p[k + m] == f[m]
  {
    assert p[k..k + |f|][m] == p[k + m];
  }
  // ---------------------------------------------------------------------------------------
  // Running the program.

  /**
   * How many queries `process` runs: one after another until the database rejects one; the
   * rejected query is not counted.
   */
  function RunCount(p: seq<Query>, ok: Query -> bool): (n: nat)
    ensures n <= |p|
    ensures forall i :: 0 <= i < n ==> ok(p[i])
    ensures n < |p| ==> !ok(p[n])
    ensures n == |p| <==> forall q :: q in p ==> ok(q)
  {
    if p == [] then 0
    else if ok(p[0]) then
      var n := 1 + RunCount(p[1..], ok);
      assert forall i :: 1 <= i < |p| ==> p[1..][i - 1] == p[i];
      n
    else 0
  }

  /** Queries that all succeed are all counted, whatever follows them. */
  lemma {:induction false} RunCountAfter(a: seq<Query>, b: seq<Query>, ok: Query -> bool)
    requires forall q :: q in a ==> ok(q)
    ensures RunCount(a + b, ok) == |a| + RunCount(b, ok)
    decreases |a|
  {
    if a != [] {
      assert (a + b)[0] == a[0] && (a + b)[1..] == a[1..] + b;
      assert a[0] in a && forall q :: q in a[1..] ==> q in a;
      RunCountAfter(a[1..], b, ok);
    } else {
      assert a + b == b;
    }
  }
  /** The program from list `i` on: list `i`, then the rest. */
  lemma ProgramFrom(steps: Steps, i: nat)
    requires i < |steps|
    ensures Program(steps[i..]) == steps[i].1 + Program(steps[i + 1..])
  {
    assert steps[i..][1..] == steps[i + 1..];
  }

  /** A run that stops at the first query of `xs` has run exactly `done`. */
  lemma StopsAt(done: seq<Query>, xs: seq<Query>, rest: seq<Query>, ok: Query -> bool)
    requires forall q :: q in done ==> ok(q)
    requires |xs| > 0 && !ok(xs[0])
    ensures RunCount(done + xs + rest, ok) == |done|
  {
    RunCountAfter(done, xs + rest, ok);
    assert done + xs + rest == done + (xs + rest);
    assert (xs + rest)[0] == xs[0];
  }

  /** A run that reaches the end has run everything. */
  lemma RunsAll(done: seq<Query>, rest: seq<Query>, ok: Query -> bool)
    requires forall q :: q in done ==> ok(q)
    requires rest == []
    ensures RunCount(done + rest, ok) == |done|
  {
    assert done + rest == done;
  }

  lemma ShiftFirst(done: seq<Query>, xs: seq<Query>, rest: seq<Query>)
    requires |xs| > 0
    ensures done + xs + rest == done + [xs[0]] + xs[1..] + rest
  {
    assert xs == [xs[0]] + xs[1..];
  }

  /** The first `i + 1` items of `xs` are its first `i` and then `xs[i]`. */
  lemma PrefixStep<T>(xs: seq<T>, i: nat)
    requires i < |xs|
    ensures xs[..i + 1][..i] == xs[..i] && xs[..i + 1] == xs[..i] + [xs[i]]
  {
  }

  /** Queries queued in three batches are the first batch followed by the other two. */
  lemma Appended(a: seq<Query>, b: seq<Query>, c: seq<Query>)
    ensures a + b + c == a + (b + c)
  {
  }

  // ---------------------------------------------------------------------------------------
  // The loops of `prepare`: each item in order, appending what it queues; the first
  // exception stops the loop.

  function ConcatResults<T>(xs: seq<T>, f: T -> Result<seq<Query>, ProcessError>): (r: Result<seq<Query>, ProcessError>)
    decreases |xs|
  {
    if xs == [] then Ok([])
    else
      match f(xs[0])
      case Err(e) => Err(e)
      case Ok(qs) =>
        match ConcatResults(xs[1..], f)
        case Err(e) => Err(e)
        case Ok(rest) => Ok(qs + rest)
  }

  /** The loop fails exactly when one of its items does. */
  lemma {:induction false} ConcatResultsOk<T>(xs: seq<T>, f: T -> Result<seq<Query>, ProcessError>)
    ensures ConcatResults(xs, f).Ok? <==> forall i :: 0 <= i < |xs| ==> f(xs[i]).Ok?
    decreases |xs|
  {
    if xs != [] {
      ConcatResultsOk(xs[1..], f);
      assert forall i :: 1 <= i < |xs| ==> xs[1..][i - 1] == xs[i];
    }
  }

  /** A failing loop reports the error of its first failing item. */
  lemma {:induction false} ConcatResultsFirstError<T>(xs: seq<T>, f: T -> Result<seq<Query>, ProcessError>) returns (k: nat)
    requires ConcatResults(xs, f).Err?
    ensures k < |xs| && f(xs[k]).Err? && ConcatResults(xs, f).error == f(xs[k]).error
    ensures forall i :: 0 <= i < k ==> f(xs[i]).Ok?
    decreases |xs|
  {
    if f(xs[0]).Err? {
      k := 0;
    } else {
      var j := ConcatResultsFirstError(xs[1..], f);
      k := j + 1;
      assert forall i :: 1 <= i < k ==> xs[1..][i - 1] == xs[i];
    }
  }

  /** A loop over two runs of items queues what the first run queues, then the second. */
  lemma {:induction false} ConcatResultsAppend<T>(xs: seq<T>, ys: seq<T>, f: T -> Result<seq<Query>, ProcessError>)
    requires ConcatResults(xs, f).Ok?
    ensures ConcatResults(xs + ys, f).Ok? <==> ConcatResults(ys, f).Ok?
    ensures ConcatResults(ys, f).Ok? ==>
              ConcatResults(xs + ys, f).value == ConcatResults(xs, f).value + ConcatResults(ys, f).value
    decreases |xs|
  {
    if xs == [] {
      assert xs + ys == ys;
    } else {
      assert (xs + ys)[0] == xs[0];
      assert (xs + ys)[1..] == xs[1..] + ys;
      ConcatResultsAppend(xs[1..], ys, f);
      if ConcatResults(ys, f).Ok? {
        Appended(f(xs[0]).value, ConcatResults(xs[1..], f).value, ConcatResults(ys, f).value);
      }
    }
  }

  /** One more iteration, for the loop invariants of the processors. */
  lemma ConcatResultsStep<T>(xs: seq<T>, f: T -> Result<seq<Query>, ProcessError>, i: nat)
    requires i < |xs| && ConcatResults(xs[..i], f).Ok?
    ensures f(xs[i]).Err? ==> ConcatResults(xs, f).Err?
    ensures f(xs[i]).Ok? ==> ConcatResults(xs[..i + 1], f) == Ok(ConcatResults(xs[..i], f).value + f(xs[i]).value)
  {
    ConcatResultsOk(xs, f);
    assert xs[..i + 1] == xs[..i] + [xs[i]];
    ConcatResultsAppend(xs[..i], [xs[i]], f);
    assert [xs[i]][1..] == [];
    if f(xs[i]).Ok? {
      assert f(xs[i]).value + [] == f(xs[i]).value;
    }
  }
}
