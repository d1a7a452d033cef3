/**
 * Ordering the classes of one manipulation iteration (src/Manipulation/Processor.php,
 * `sortClasses` and `getDependentGroupClass`). Each class belongs to a manipulation group,
 * and a group may depend on other groups by name; a class is placed once every group it
 * depends on has been placed or has no class among the ones being sorted. Passes over the
 * classes repeat until all are placed; a pass that places nothing throws.
 */
module ManipulationProcessor {
  import opened Wrappers
  import opened OrderedMaps

  /** A `ManipulationGroup`: its name, the class of its entities, and the groups it depends on. */
  datatype Group = Group(name: string, className: string, dependencies: seq<string>)

  type Groups = OMap<string, Group>

  datatype SortError =
    | UnknownGroup(dependency: string)  // getDependentGroupClass: InvalidArgumentException
    | Unresolvable(className: string)   // "Order of class '...' could not be resolved."

  /** `getDependentGroupClass($dependency, $groups)`: the class of the first group so named. */
  function DependentGroupClass(dependency: string, groups: Groups): (r: Result<string, SortError>)
    ensures r.Err? <==> forall i :: 0 <= i < |groups| ==> groups[i].1.name != dependency
    ensures r.Err? ==> r.error == UnknownGroup(dependency)
    ensures r.Ok? ==> exists i :: 0 <= i < |groups| && groups[i].1.name == dependency && r.value == groups[i].1.className
                                  && forall j :: 0 <= j < i ==> groups[j].1.name != dependency
    decreases |groups|
  {
    if groups == [] then Err(UnknownGroup(dependency))
    else if groups[0].1.name == dependency then Ok(groups[0].1.className)
    else
      var r := DependentGroupClass(dependency, groups[1..]);
      assert forall i :: 0 < i < |groups| ==> groups[i] == groups[1..][i - 1];
      if r.Ok? then
        var i :| 0 <= i < |groups[1..]| && groups[1..][i].1.name == dependency && r.value == groups[1..][i].1.className
                 && forall j :: 0 <= j < i ==> groups[1..][j].1.name != dependency;
        assert forall j :: 0 <= j < i + 1 ==> groups[j].1.name != dependency by {
          forall j | 0 <= j < i + 1 ensures groups[j].1.name != dependency {
            if j > 0 { assert groups[j] == groups[1..][j - 1]; }
          }
        }
        r
      else r
  }

  /** The loop of `getDependentGroupClass`, proved to find the same group. */
  method FindDependentGroupClass(dependency: string, groups: Groups) returns (r: Result<string, SortError>)
    ensures r == DependentGroupClass(dependency, groups)
  {
    for i := 0 to |groups|
      invariant DependentGroupClass(dependency, groups) == DependentGroupClass(dependency, groups[i..])
    {
      assert groups[i..][1..] == groups[i + 1..];
      if groups[i].1.name == dependency {
        return Ok(groups[i].1.className);
      }
    }
    r := Err(UnknownGroup(dependency));
  }

  /** `$groups[$name]->dependencies`; a class without a group reads null, which has none. */
  function DependenciesOf(groups: Groups, name: string): seq<string> {
    match Lookup(groups, name)
    case None => []
    case Some(g) => g.dependencies
  }

  /** `$groups[$name]->name`; a class without a group reads null, which keys the array as "". */
  function GroupNameOf(groups: Groups, name: string): string {
    match Lookup(groups, name)
    case None => ""
    case Some(g) => g.name
  }

  /**
   * The inner `foreach` over the dependencies: Ok(true) when some dependency's group is not
   * done yet while its class is among `classes` (the loop breaks there). Every dependency up
   * to that one is looked up, done or not.
   */
  function Blocked<V>(deps: seq<string>, groups: Groups, classes: OMap<string, V>, done: set<string>): Result<bool, SortError>
    decreases |deps|
  {
    if deps == [] then Ok(false)
    else
      match DependentGroupClass(deps[0], groups)
      case Err(x) => Err(x)
      case Ok(c) => if deps[0] !in done && HasKey(classes, c) then Ok(true) else Blocked(deps[1..], groups, classes, done)
  }

  /** A dependency that does not hold a class back: its group is done or its class is not being sorted. */
  predicate Cleared<V>(d: string, groups: Groups, classes: OMap<string, V>, done: set<string>) {
    DependentGroupClass(d, groups).Ok? && (d in done || !HasKey(classes, DependentGroupClass(d, groups).value))
  }

  /** A class is unblocked exactly when each of its dependencies is done or outside `classes`. */
  lemma {:induction false} NotBlocked<V>(deps: seq<string>, groups: Groups, classes: OMap<string, V>, done: set<string>)
    ensures Blocked(deps, groups, classes, done) == Ok(false) <==> forall d :: d in deps ==> Cleared(d, groups, classes, done)
    decreases |deps|
  {
    if deps != [] {
      NotBlocked(deps[1..], groups, classes, done);
      ConsMembers(deps);
      assert Blocked(deps, groups, classes, done) == Ok(false) <==>
               Cleared(deps[0], groups, classes, done) && Blocked(deps[1..], groups, classes, done) == Ok(false);
    }
  }

  lemma ConsMembers<T>(xs: seq<T>)
    requires xs != []
    ensures forall x :: x in xs <==> x == xs[0] || x in xs[1..]
  {
    assert xs == [xs[0]] + xs[1..];
  }

  /** Where a pass stands: the classes placed so far, the groups done, and whether it placed any. */
  datatype PassState<V> = PassState(sorted: OMap<string, V>, doneGroups: set<string>, resolvable: bool)

  /** One iteration of the `foreach ($classes as $name => $class)` pass. */
  function PassStep<V>(st: PassState<V>, e: (string, V), groups: Groups, classes: OMap<string, V>): (r: Result<PassState<V>, SortError>)
    ensures r.Ok? && r.value.sorted != st.sorted ==>
              !HasKey(st.sorted, e.0)
              && r.value == PassState(st.sorted + [e], st.doneGroups + {GroupNameOf(groups, e.0)}, true)
              && Blocked(DependenciesOf(groups, e.0), groups, classes, st.doneGroups) == Ok(false)
    ensures r.Ok? && r.value.sorted == st.sorted ==> r.value == st
    ensures !HasKey(st.sorted, e.0) && Blocked(DependenciesOf(groups, e.0), groups, classes, st.doneGroups) == Ok(false) ==>
              r.Ok? && r.value.sorted != st.sorted
  {
    if HasKey(st.sorted, e.0) then Ok(st)
    else
      match Blocked(DependenciesOf(groups, e.0), groups, classes, st.doneGroups)
      case Err(x) => Err(x)
      case Ok(true) => Ok(st)
      case Ok(false) => Ok(PassState(st.sorted + [e], st.doneGroups + {GroupNameOf(groups, e.0)}, true))
  }

  /** A whole pass over `cs` (a prefix of the classes), as a fold. */
  function Pass<V>(cs: OMap<string, V>, st: PassState<V>, groups: Groups, classes: OMap<string, V>): Result<PassState<V>, SortError>
    decreases |cs|
  {
    if cs == [] then Ok(st)
    else
      match Pass(cs[..|cs| - 1], st, groups, classes)
      case Err(x) => Err(x)
      case Ok(s) => PassStep(s, cs[|cs| - 1], groups, classes)
  }

  /** Passes until every class is placed (`while (count($classes) > count($sortedClasses))`). */
  function SortFrom<V>(classes: OMap<string, V>, groups: Groups, sorted: OMap<string, V>, done: set<string>): Result<OMap<string, V>, SortError>
    decreases |classes| - |sorted|
  {
    if |classes| <= |sorted| then Ok(sorted)
    else
      match Pass(classes, PassState(sorted, done, false), groups, classes)
      case Err(x) => Err(x)
      case Ok(st) =>
        if !st.resolvable then Err(Unresolvable(classes[|classes| - 1].0))
        else
          PassGrows(classes, PassState(sorted, done, false), groups, classes);
          SortFrom(classes, groups, st.sorted, st.doneGroups)
  }

  /** `sortClasses($classes, $groups)` */
  function SortClasses<V>(classes: OMap<string, V>, groups: Groups): Result<OMap<string, V>, SortError> {
    SortFrom(classes, groups, [], {})
  }

  /** A pass only appends; one that places a class makes the placed list longer. */
  lemma {:induction false} PassGrows<V>(cs: OMap<string, V>, st: PassState<V>, groups: Groups, classes: OMap<string, V>)
    requires Pass(cs, st, groups, classes).Ok?
    ensures var r := Pass(cs, st, groups, classes).value;
            |st.sorted| <= |r.sorted| && r.sorted[..|st.sorted|] == st.sorted
            && (r.resolvable ==> st.resolvable || |st.sorted| < |r.sorted|)
    decreases |cs|
  {
    if cs != [] {
      PassGrows(cs[..|cs| - 1], st, groups, classes);
    }
  }

  /** The loop over a class's dependencies, proved to compute `Blocked`. */
  method CheckDependencies<V>(deps: seq<string>, groups: Groups, classes: OMap<string, V>, doneGroups: set<string>)
    returns (r: Result<bool, SortError>)
    ensures r == Blocked(deps, groups, classes, doneGroups)
  {
    var j := 0;
    while j < |deps|
      invariant 0 <= j <= |deps|
      invariant Blocked(deps, groups, classes, doneGroups) == Blocked(deps[j..], groups, classes, doneGroups)
    {
      var c := FindDependentGroupClass(deps[j], groups);
      if c.Err? {
        return Err(c.error);
      }
      if deps[j] !in doneGroups && HasKey(classes, c.value) {
        return Ok(true);
      }
      assert deps[j..][1..] == deps[j + 1..];
      j := j + 1;
    }
    r := Ok(false);
  }

  /** One pass of the `foreach` over the classes, proved to compute `Pass`. */
  method RunPass<V>(classes: OMap<string, V>, groups: Groups, sorted0: OMap<string, V>, doneGroups0: set<string>)
    returns (r: Result<PassState<V>, SortError>)
    ensures r == Pass(classes, PassState(sorted0, doneGroups0, false), groups, classes)
  {
    var sorted, doneGroups, resolvable := sorted0, doneGroups0, false;
    for i := 0 to |classes|
      invariant Pass(classes[..i], PassState(sorted0, doneGroups0, false), groups, classes) == Ok(PassState(sorted, doneGroups, resolvable))
    {
      PassSnoc(classes, i, PassState(sorted0, doneGroups0, false), groups, classes);
      ghost var next := PassStep(PassState(sorted, doneGroups, resolvable), classes[i], groups, classes);
      var (name, value) := classes[i];
      if HasKey(sorted, name) {
        assert next == Ok(PassState(sorted, doneGroups, resolvable));
        continue;
      }
      var blocked := CheckDependencies(DependenciesOf(groups, name), groups, classes, doneGroups);
      if blocked.Err? {
        assert next.Err?;
        PassErrSticks(classes, i + 1, PassState(sorted0, doneGroups0, false), groups, classes);
        return Err(blocked.error);
      }
      if !blocked.value {
        doneGroups := doneGroups + {GroupNameOf(groups, name)};
        sorted := sorted + [(name, value)];
        resolvable := true;
      }
      assert next == Ok(PassState(sorted, doneGroups, resolvable));
    }
    assert classes[..|classes|] == classes;
    r := Ok(PassState(sorted, doneGroups, resolvable));
  }

  /** A pass over one more class takes one more step. */
  lemma PassSnoc<V>(cs: OMap<string, V>, k: nat, st: PassState<V>, groups: Groups, classes: OMap<string, V>)
    requires k < |cs| && Pass(cs[..k], st, groups, classes).Ok?
    ensures Pass(cs[..k + 1], st, groups, classes) == PassStep(Pass(cs[..k], st, groups, classes).value, cs[k], groups, classes)
  {
    assert cs[..k + 1][..k] == cs[..k];
  }

  /** An error in a pass ends it: the whole pass fails with it. */
  lemma {:induction false} PassErrSticks<V>(cs: OMap<string, V>, k: nat, st: PassState<V>, groups: Groups, classes: OMap<string, V>)
    requires k <= |cs| && Pass(cs[..k], st, groups, classes).Err?
    ensures Pass(cs, st, groups, classes) == Pass(cs[..k], st, groups, classes)
    decreases |cs|
  {
    if k < |cs| {
      assert cs[..|cs| - 1][..k] == cs[..k];
      PassErrSticks(cs[..|cs| - 1], k, st, groups, classes);
    } else {
      assert cs[..k] == cs;
    }
  }

  /** The outer loop of `sortClasses`, proved to compute `SortClasses`. */
  method SortClassesLoop<V>(classes: OMap<string, V>, groups: Groups) returns (r: Result<OMap<string, V>, SortError>)
    ensures r == SortClasses(classes, groups)
  {
    var sorted: OMap<string, V> := [];
    var doneGroups: set<string> := {};
    while |classes| > |sorted|
      invariant SortFrom(classes, groups, sorted, doneGroups) == SortClasses(classes, groups)
      decreases |classes| - |sorted|
    {
      var st := RunPass(classes, groups, sorted, doneGroups);
      if st.Err? {
        return Err(st.error);
      }
      if !st.value.resolvable {
        return Err(Unresolvable(classes[|classes| - 1].0));
      }
      PassGrows(classes, PassState(sorted, doneGroups, false), groups, classes);
      sorted, doneGroups := st.value.sorted, st.value.doneGroups;
    }
    r := Ok(sorted);
  }

  // ---------------------------------------------------------------------------------------
  // What sortClasses promises

  /** The groups of the placed classes. */
  ghost function DoneGroups<V>(groups: Groups, sorted: OMap<string, V>): set<string> {
    set i | 0 <= i < |sorted| :: GroupNameOf(groups, sorted[i].0)
  }

  /**
   * Each placed class has every dependency resolved: its group is known, and when its class
   * is among `classes`, a class of that group was placed before.
   */
  ghost predicate DependenciesFirst<V>(groups: Groups, classes: OMap<string, V>, sorted: OMap<string, V>) {
    forall j, d :: 0 <= j < |sorted| && d in DependenciesOf(groups, sorted[j].0) ==>
      DependentGroupClass(d, groups).Ok?
      && (HasKey(classes, DependentGroupClass(d, groups).value) ==>
            exists i :: 0 <= i < j && GroupNameOf(groups, sorted[i].0) == d)
  }

  /** What holds of the placed classes between any two iterations. */
  ghost predicate Placed<V>(groups: Groups, classes: OMap<string, V>, sorted: OMap<string, V>, done: set<string>) {
    DistinctKeys(sorted)
    && (forall i :: 0 <= i < |sorted| ==> Lookup(classes, sorted[i].0) == Some(sorted[i].1))
    && done == DoneGroups(groups, sorted)
    && DependenciesFirst(groups, classes, sorted)
  }

  lemma PassStepPlaced<V>(st: PassState<V>, e: (string, V), groups: Groups, classes: OMap<string, V>)
    requires Placed(groups, classes, st.sorted, st.doneGroups) && Lookup(classes, e.0) == Some(e.1)
    requires PassStep(st, e, groups, classes).Ok?
    ensures var r := PassStep(st, e, groups, classes).value;
            Placed(groups, classes, r.sorted, r.doneGroups)
  {
    var r := PassStep(st, e, groups, classes).value;
    if r.sorted != st.sorted {
      var s := st.sorted + [e];
      DoneGroupsSnoc(groups, st.sorted, e);
      NotBlocked(DependenciesOf(groups, e.0), groups, classes, st.doneGroups);
      DependenciesFirstSnoc(groups, classes, st.sorted, e);
      assert e == (e.0, e.1);
      AppendFresh(st.sorted, e.0, e.1);
      assert forall i :: 0 <= i < |st.sorted| ==> s[i] == st.sorted[i];
    }
  }

  lemma DoneGroupsSnoc<V>(groups: Groups, sorted: OMap<string, V>, e: (string, V))
    ensures DoneGroups(groups, sorted + [e]) == DoneGroups(groups, sorted) + {GroupNameOf(groups, e.0)}
  {
    var s := sorted + [e];
    forall g ensures g in DoneGroups(groups, s) <==> g in DoneGroups(groups, sorted) || g == GroupNameOf(groups, e.0) {
      if g in DoneGroups(groups, s) {
        var i :| 0 <= i < |s| && GroupNameOf(groups, s[i].0) == g;
        if i < |sorted| { assert GroupNameOf(groups, sorted[i].0) == g; }
      }
      if g in DoneGroups(groups, sorted) {
        var i :| 0 <= i < |sorted| && GroupNameOf(groups, sorted[i].0) == g;
        assert GroupNameOf(groups, s[i].0) == g;
      }
      if g == GroupNameOf(groups, e.0) { assert GroupNameOf(groups, s[|sorted|].0) == g; }
    }
  }

  /** Placing a class whose dependencies are all cleared keeps every dependency placed first. */
  lemma DependenciesFirstSnoc<V>(groups: Groups, classes: OMap<string, V>, sorted: OMap<string, V>, e: (string, V))
    requires DependenciesFirst(groups, classes, sorted)
    requires forall d :: d in DependenciesOf(groups, e.0) ==> Cleared(d, groups, classes, DoneGroups(groups, sorted))
    ensures DependenciesFirst(groups, classes, sorted + [e])
  {
    var s := sorted + [e];
    forall j, d | 0 <= j < |s| && d in DependenciesOf(groups, s[j].0)
      ensures DependentGroupClass(d, groups).Ok?
      ensures HasKey(classes, DependentGroupClass(d, groups).value) ==>
                exists i :: 0 <= i < j && GroupNameOf(groups, s[i].0) == d
    {
      if j < |sorted| {
        assert s[j] == sorted[j];
        if HasKey(classes, DependentGroupClass(d, groups).value) {
          var i :| 0 <= i < j && GroupNameOf(groups, sorted[i].0) == d;
          assert s[i] == sorted[i];
        }
      } else {
        assert Cleared(d, groups, classes, DoneGroups(groups, sorted));
        if HasKey(classes, DependentGroupClass(d, groups).value) {
          var i :| 0 <= i < |sorted| && GroupNameOf(groups, sorted[i].0) == d;
          assert s[i] == sorted[i];
        }
      }
    }
  }

  /** A pass over entries of `classes` keeps the placed classes `Placed`. */
  lemma {:induction false} PassPlaced<V>(cs: OMap<string, V>, st: PassState<V>, groups: Groups, classes: OMap<string, V>)
    requires DistinctKeys(classes) && |cs| <= |classes| && cs == classes[..|cs|]
    requires Placed(groups, classes, st.sorted, st.doneGroups)
    requires Pass(cs, st, groups, classes).Ok?
    ensures var r := Pass(cs, st, groups, classes).value;
            Placed(groups, classes, r.sorted, r.doneGroups)
    decreases |cs|
  {
    if cs != [] {
      var n := |cs| - 1;
      assert cs[..n] == classes[..n];
      PassPlaced(cs[..n], st, groups, classes);
      LookupDistinct(classes, n);
      PassStepPlaced(Pass(cs[..n], st, groups, classes).value, cs[n], groups, classes);
    }
  }

  /** Every finished sort is `Placed` and as long as the input. */
  lemma {:induction false} SortFromPlaced<V>(classes: OMap<string, V>, groups: Groups, sorted: OMap<string, V>, done: set<string>)
    requires DistinctKeys(classes) && Placed(groups, classes, sorted, done)
    requires SortFrom(classes, groups, sorted, done).Ok?
    ensures var r := SortFrom(classes, groups, sorted, done).value;
            Placed(groups, classes, r, DoneGroups(groups, r)) && |classes| <= |r|
    decreases |classes| - |sorted|
  {
    if |classes| > |sorted| {
      assert classes[..|classes|] == classes;
      PassPlaced(classes, PassState(sorted, done, false), groups, classes);
      var st := Pass(classes, PassState(sorted, done, false), groups, classes).value;
      PassGrows(classes, PassState(sorted, done, false), groups, classes);
      SortFromPlaced(classes, groups, st.sorted, st.doneGroups);
    }
  }

  /** The keys of a map, as a set. */
  function KeySet<K, V>(m: OMap<K, V>): set<K> {
    set i | 0 <= i < |m| :: m[i].0
  }

  lemma {:induction false} KeySetSize<K, V>(m: OMap<K, V>)
    requires DistinctKeys(m)
    ensures |KeySet(m)| == |m|
    decreases |m|
  {
    if m != [] {
      var init := m[..|m| - 1];
      KeySetSize(init);
      assert KeySet(m) == KeySet(init) + {m[|m| - 1].0} by {
        forall k ensures k in KeySet(m) <==> k in KeySet(init) || k == m[|m| - 1].0 {
          if k in KeySet(m) {
            var i :| 0 <= i < |m| && m[i].0 == k;
            if i < |init| { assert init[i].0 == k; }
          }
          if k in KeySet(init) {
            var i :| 0 <= i < |init| && init[i].0 == k;
            assert m[i].0 == k;
          }
        }
      }
      assert m[|m| - 1].0 !in KeySet(init);
    }
  }

  /**
   * `sortClasses` returns every input class exactly once, with its value: the same entries,
   * reordered.
   */
  lemma SortClassesPermutes<V>(classes: OMap<string, V>, groups: Groups)
    requires DistinctKeys(classes) && SortClasses(classes, groups).Ok?
    ensures var r := SortClasses(classes, groups).value;
            DistinctKeys(r) && |r| == |classes| && forall k :: Lookup(r, k) == Lookup(classes, k)
  {
    assert Placed(groups, classes, [], {});
    SortFromPlaced(classes, groups, [], {});
    SameEntries(SortClasses(classes, groups).value, classes);
  }

  /** Distinct entries, all taken from `m` and at least as many: the entries of `m`. */
  lemma SameEntries<K, V>(r: OMap<K, V>, m: OMap<K, V>)
    requires DistinctKeys(r) && DistinctKeys(m) && |m| <= |r|
    requires forall i :: 0 <= i < |r| ==> Lookup(m, r[i].0) == Some(r[i].1)
    ensures |r| == |m| && forall k :: Lookup(r, k) == Lookup(m, k)
  {
    KeySetSize(r);
    KeySetSize(m);
    KeysIncluded(r, m);
    SubsetSameSize(KeySet(r), KeySet(m));
    forall k ensures Lookup(r, k) == Lookup(m, k) {
      LookupAgree(r, m, k);
    }
  }

  lemma KeysIncluded<K, V>(r: OMap<K, V>, m: OMap<K, V>)
    requires forall i :: 0 <= i < |r| ==> Lookup(m, r[i].0) == Some(r[i].1)
    ensures KeySet(r) <= KeySet(m)
  {
    forall k | k in KeySet(r) ensures k in KeySet(m) {
      var i :| 0 <= i < |r| && r[i].0 == k;
      assert Lookup(m, k).Some?;
    }
  }

  lemma SubsetSameSize<T>(a: set<T>, b: set<T>)
    requires a <= b && |b| <= |a|
    ensures a == b
  {
    assert b == a + (b - a) && a * (b - a) == {};
    assert |b| == |a| + |b - a|;
  }

  lemma LookupAgree<K, V>(r: OMap<K, V>, m: OMap<K, V>, k: K)
    requires DistinctKeys(r) && KeySet(r) == KeySet(m)
    requires forall i :: 0 <= i < |r| ==> Lookup(m, r[i].0) == Some(r[i].1)
    ensures Lookup(r, k) == Lookup(m, k)
  {
    if HasKey(r, k) {
      LookupDistinct(r, IndexOf(r, k));
    } else {
      assert k !in KeySet(r);
      assert !HasKey(m, k);
    }
  }

  /**
   * In the result, a class comes after a class of every group its own group depends on, unless
   * that group's class is not being sorted.
   */
  lemma SortClassesOrdered<V>(classes: OMap<string, V>, groups: Groups)
    requires DistinctKeys(classes) && SortClasses(classes, groups).Ok?
    ensures DependenciesFirst(groups, classes, SortClasses(classes, groups).value)
  {
    assert Placed(groups, classes, [], {});
    SortFromPlaced(classes, groups, [], {});
  }

  /** Two groups that depend on each other cannot be ordered: the sort throws, naming the last class. */
  lemma CycleUnresolvable<V>(x: V, y: V)
    ensures var groups := [("A", Group("a", "A", ["b"])), ("B", Group("b", "B", ["a"]))];
            SortClasses([("A", x), ("B", y)], groups) == Err(Unresolvable("B"))
  {
    var groups := [("A", Group("a", "A", ["b"])), ("B", Group("b", "B", ["a"]))];
    var classes := [("A", x), ("B", y)];
    var st := PassState([], {}, false);
    assert DependentGroupClass("b", groups) == Ok("B");
    assert DependentGroupClass("a", groups) == Ok("A");
    assert classes[0].0 == "A" && classes[1].0 == "B";
    assert Blocked(["b"], groups, classes, {}) == Ok(true);
    assert Blocked(["a"], groups, classes, {}) == Ok(true);
    assert classes[..1] == [("A", x)] && classes[..1][..0] == [];
    assert Pass(classes[..1], st, groups, classes) == Ok(st);
    assert Pass(classes, st, groups, classes) == Ok(st);
  }

  /** A dependency on a group none of whose classes is being sorted does not hold a class back. */
  lemma AbsentDependencyIgnored<V>(x: V)
    ensures var groups := [("A", Group("a", "A", ["b"])), ("B", Group("b", "B", []))];
            SortClasses([("A", x)], groups) == Ok([("A", x)])
  {
    var groups := [("A", Group("a", "A", ["b"])), ("B", Group("b", "B", []))];
    var classes := [("A", x)];
    var st := PassState([], {}, false);
    assert DependentGroupClass("b", groups) == Ok("B");
    assert !HasKey(classes, "B");
    assert ["b"][1..] == [];
    assert Blocked(["b"], groups, classes, {}) == Ok(false);
    assert classes[..0] == [];
    assert !HasKey(classes[..0], "A");
    assert Lookup(groups, "A") == Some(Group("a", "A", ["b"]));
    assert DependenciesOf(groups, "A") == ["b"] && GroupNameOf(groups, "A") == "a";
    assert Pass(classes[..0], st, groups, classes) == Ok(st);
    assert [] + [("A", x)] == classes;
    assert {} + {"a"} == {"a"};
    assert Pass(classes, st, groups, classes) == Ok(PassState(classes, {"a"}, true));
    assert SortFrom(classes, groups, classes, {"a"}) == Ok(classes);
  }
}
