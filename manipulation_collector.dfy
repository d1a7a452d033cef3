/**
 * Collecting the manipulation configs (src/Manipulation/Collector.php,
 * `getManipulationList`): the decoded NEON files are ordered so that overriding configs come
 * last, configs not meant for the current mode are dropped, and the first config for an
 * (iteration, class, forceUpdate) triple is stored while later ones have their items merged
 * into it.
 */
module ManipulationCollector {
  import opened Wrappers
  import opened OrderedMaps
  import opened PhpValues
  import opened ManipulationItems

  /** A decoded manipulation file; a key it does not set (or sets to null) is None. */
  datatype Config = Config(
    className: string,
    iteration: Option<int>,
    forceUpdate: Option<bool>,
    items: Option<Items>,
    modes: Option<seq<string>>,
    override: Option<bool>)

  /** Where the collector runs: debug mode, test mode, or neither (production). */
  datatype Mode = Mode(debug: bool, test: bool)

  const DefaultModes: seq<string> := ["prod", "dev", "test"]

  function IterationOf(c: Config): int { c.iteration.GetOr(1) }
  function ForceUpdateOf(c: Config): bool { c.forceUpdate.GetOr(true) }
  function ItemsOf(c: Config): Items { c.items.GetOr([]) }
  function ModesOf(c: Config): seq<string> { c.modes.GetOr(DefaultModes) }
  function OverrideOf(c: Config): bool { c.override.GetOr(false) }

  /** The slot `$list[$iteration][$class][$forceUpdate]` a config goes to. */
  function SlotOf(c: Config): (int, string, bool) {
    (IterationOf(c), c.className, ForceUpdateOf(c))
  }

  // ---------------------------------------------------------------------------------------
  // usort by `override`

  /** The configs whose `override` is `b`, in their order. */
  function WithOverride(cs: seq<Config>, b: bool): (r: seq<Config>)
    ensures forall c :: c in r <==> c in cs && OverrideOf(c) == b
    ensures |r| <= |cs|
    decreases |cs|
  {
    if cs == [] then []
    else
      var init := WithOverride(cs[..|cs| - 1], b);
      assert forall c :: c in cs <==> c in cs[..|cs| - 1] || c == cs[|cs| - 1] by {
        assert cs == cs[..|cs| - 1] + [cs[|cs| - 1]];
      }
      if OverrideOf(cs[|cs| - 1]) == b then init + [cs[|cs| - 1]] else init
  }

  /**
   * `usort($configs, fn($a, $b) => ($a['override'] ?? false) <=> ($b['override'] ?? false))`:
   * PHP's sort is stable, so this keeps the non-overriding configs in order, then the
   * overriding ones in order.
   */
  function SortByOverride(cs: seq<Config>): (r: seq<Config>)
    ensures forall i, j :: 0 <= i < j < |r| ==> !OverrideOf(r[j]) ==> !OverrideOf(r[i])
    ensures WithOverride(r, false) == WithOverride(cs, false) && WithOverride(r, true) == WithOverride(cs, true)
  {
    var lo, hi := WithOverride(cs, false), WithOverride(cs, true);
    HalvesRejoined(lo, hi);
    OverrideLast(lo, hi);
    lo + hi
  }

  /** Splitting the rejoined halves gives the halves back. */
  lemma HalvesRejoined(lo: seq<Config>, hi: seq<Config>)
    requires forall c :: c in lo ==> !OverrideOf(c)
    requires forall c :: c in hi ==> OverrideOf(c)
    ensures WithOverride(lo + hi, false) == lo && WithOverride(lo + hi, true) == hi
  {
    WithOverrideConcat(lo, hi, false);
    WithOverrideConcat(lo, hi, true);
    WithOverrideAll(lo, false);
    WithOverrideAll(hi, true);
    WithOverrideNone(lo, true);
    WithOverrideNone(hi, false);
  }

  /** The non-overriding half, then the overriding one: no overriding config comes first. */
  lemma OverrideLast(lo: seq<Config>, hi: seq<Config>)
    requires forall c :: c in lo ==> !OverrideOf(c)
    requires forall c :: c in hi ==> OverrideOf(c)
    ensures forall i, j :: 0 <= i < j < |lo + hi| ==> !OverrideOf((lo + hi)[j]) ==> !OverrideOf((lo + hi)[i])
  {
    var r := lo + hi;
    forall i, j | 0 <= i < j < |r| ensures !OverrideOf(r[j]) ==> !OverrideOf(r[i]) {
      if j < |lo| {
        assert r[i] == lo[i] && lo[i] in lo;
      } else {
        assert r[j] == hi[j - |lo|] && hi[j - |lo|] in hi;
      }
    }
  }

  lemma {:induction false} WithOverrideConcat(a: seq<Config>, b: seq<Config>, v: bool)
    ensures WithOverride(a + b, v) == WithOverride(a, v) + WithOverride(b, v)
    decreases |b|
  {
    if b == [] {
      assert a + b == a;
    } else {
      assert (a + b)[..|a + b| - 1] == a + b[..|b| - 1];
      WithOverrideConcat(a, b[..|b| - 1], v);
    }
  }

  lemma {:induction false} WithOverrideAll(cs: seq<Config>, v: bool)
    requires forall c :: c in cs ==> OverrideOf(c) == v
    ensures WithOverride(cs, v) == cs
    decreases |cs|
  {
    if cs != [] {
      assert cs == cs[..|cs| - 1] + [cs[|cs| - 1]];
      WithOverrideAll(cs[..|cs| - 1], v);
    }
  }

  lemma {:induction false} WithOverrideNone(cs: seq<Config>, v: bool)
    requires forall c :: c in cs ==> OverrideOf(c) != v
    ensures WithOverride(cs, v) == []
    decreases |cs|
  {
    if cs != [] {
      assert cs == cs[..|cs| - 1] + [cs[|cs| - 1]];
      WithOverrideNone(cs[..|cs| - 1], v);
    }
  }

  /** Splitting by a flag and putting the halves back together loses nothing. */
  lemma {:induction false} WithOverridePartition(cs: seq<Config>)
    ensures multiset(WithOverride(cs, false)) + multiset(WithOverride(cs, true)) == multiset(cs)
    decreases |cs|
  {
    if cs != [] {
      assert cs == cs[..|cs| - 1] + [cs[|cs| - 1]];
      WithOverridePartition(cs[..|cs| - 1]);
    }
  }

  /** The sort only reorders the configs. */
  lemma SortByOverridePermutes(cs: seq<Config>)
    ensures multiset(SortByOverride(cs)) == multiset(cs)
  {
    WithOverridePartition(cs);
  }

  // ---------------------------------------------------------------------------------------
  // The mode filter

  /** The config is kept for the mode: its `modes` name every mode the collector runs in. */
  predicate Selected(modes: seq<string>, m: Mode) {
    var prod := !m.debug && !m.test;
    !((prod && "prod" !in modes) || (m.debug && "dev" !in modes) || (m.test && "test" !in modes))
  }

  /** In production a config needs `prod`, in debug mode `dev`, in test mode `test`. */
  lemma SelectedModes(modes: seq<string>)
    ensures Selected(modes, Mode(false, false)) <==> "prod" in modes
    ensures Selected(modes, Mode(true, false)) <==> "dev" in modes
    ensures Selected(modes, Mode(false, true)) <==> "test" in modes
    ensures Selected(modes, Mode(true, true)) <==> "dev" in modes && "test" in modes
  {
  }

  /** A config that does not restrict its modes is kept in every mode. */
  lemma DefaultModesSelected(m: Mode)
    ensures Selected(DefaultModes, m)
  {
    assert "prod" == DefaultModes[0] && "dev" == DefaultModes[1] && "test" == DefaultModes[2];
  }

  // ---------------------------------------------------------------------------------------
  // $list[$iteration][$class][$forceUpdate]

  type Slot = (int, string, bool)
  type List = OMap<int, OMap<string, OMap<bool, Config>>>

  datatype CollectError =
    | MergeFailed(error: MergeError)
    | ItemsNotArray(className: string)  // the stored config has no `items`: null reaches `array $one`

  /** `$list[$i][$c][$f] ?? null` */
  function Get(list: List, s: Slot): Option<Config> {
    match Lookup(list, s.0)
    case None => None
    case Some(classes) =>
      match Lookup(classes, s.1)
      case None => None
      case Some(forceUpdates) => Lookup(forceUpdates, s.2)
  }

  /** `$list[$i][$c][$f] = $config`, creating the inner arrays on the way. */
  function Set(list: List, s: Slot, c: Config): (r: List)
    ensures forall s2 :: Get(r, s2) == if s2 == s then Some(c) else Get(list, s2)
  {
    var classes := Lookup(list, s.0).GetOr([]);
    var forceUpdates := Lookup(classes, s.1).GetOr([]);
    var r := Put(list, s.0, Put(classes, s.1, Put(forceUpdates, s.2, c)));
    forall s2: Slot ensures Get(r, s2) == if s2 == s then Some(c) else Get(list, s2) {
      PutLookup(list, s.0, Put(classes, s.1, Put(forceUpdates, s.2, c)), s2.0);
      PutLookup(classes, s.1, Put(forceUpdates, s.2, c), s2.1);
      PutLookup(forceUpdates, s.2, c, s2.2);
    }
    r
  }

  /** What the code merges into: the stored config's `items`, which it reads without a default. */
  function StoredItemsAsWritten(stored: Config): Result<Items, CollectError> {
    match stored.items
    case None => Err(ItemsNotArray(stored.className))
    case Some(items) => Ok(items)
  }

  /** The stored config's items with the same `[]` default as the config's own. */
  function StoredItems(stored: Config): Items {
    ItemsOf(stored)
  }

  /**
   * The second config for a slot has its items merged into the stored one's, whose `items`
   * are read without a default: a stored config without them fails.
   */
  function MergeInto(stored: Config, c: Config): Result<Config, CollectError> {
    match StoredItemsAsWritten(stored)
    case Err(x) => Err(x)
    case Ok(one) =>
      match MergeItems(c.className, one, ItemsOf(c), OverrideOf(c))
      case Err(x) => Err(MergeFailed(x))
      case Ok(m) => Ok(stored.(items := Some(m)))
  }

  /** The same, with the stored items read with the `[]` default (the intended merge). */
  function MergeIntoDefaulted(stored: Config, c: Config): Result<Config, CollectError> {
    match MergeItems(c.className, StoredItems(stored), ItemsOf(c), OverrideOf(c))
    case Err(x) => Err(MergeFailed(x))
    case Ok(m) => Ok(stored.(items := Some(m)))
  }

  /**
   * A first config without `items` makes the code fail on the next config for its slot,
   * although a missing `items` means `[]` everywhere else; wherever `items` is set the code
   * and the corrected reading agree.
   */
  lemma MissingItemsFinding(first: Config, second: Config, x: Items)
    requires first.items.None?
    ensures MergeInto(first, second) == Err(ItemsNotArray(first.className))
    ensures MergeInto(first.(items := Some(x)), second) == MergeIntoDefaulted(first.(items := Some(x)), second)
  {
  }

  /** Corrected: a stored config without `items` merges exactly like one with `items: []`. */
  lemma MissingItemsDefault(first: Config, second: Config)
    requires first.items.None?
    ensures MergeIntoDefaulted(first, second).Ok? <==> MergeIntoDefaulted(first.(items := Some([])), second).Ok?
    ensures MergeIntoDefaulted(first, second).Ok? ==>
              MergeIntoDefaulted(first, second).value.items == MergeIntoDefaulted(first.(items := Some([])), second).value.items
  {
  }

  /** One iteration of the loop over the sorted configs. */
  function Step(list: List, c: Config, m: Mode): (r: Result<List, CollectError>)
    ensures !Selected(ModesOf(c), m) ==> r == Ok(list)
    ensures Selected(ModesOf(c), m) && Get(list, SlotOf(c)).None? ==> r == Ok(Set(list, SlotOf(c), c))
    ensures Selected(ModesOf(c), m) && Get(list, SlotOf(c)).Some? ==>
              match MergeInto(Get(list, SlotOf(c)).value, c)
              case Err(x) => r == Err(x)
              case Ok(merged) => r == Ok(Set(list, SlotOf(c), merged))
  {
    if !Selected(ModesOf(c), m) then Ok(list)
    else
      match Get(list, SlotOf(c))
      case None => Ok(Set(list, SlotOf(c), c))
      case Some(stored) =>
        match MergeInto(stored, c)
        case Err(x) => Err(x)
        case Ok(merged) => Ok(Set(list, SlotOf(c), merged))
  }

  /** The loop over the sorted configs, as a fold: the first failing merge stops it. */
  function Gather(cs: seq<Config>, m: Mode): Result<List, CollectError>
    decreases |cs|
  {
    if cs == [] then Ok([])
    else
      match Gather(cs[..|cs| - 1], m)
      case Err(x) => Err(x)
      case Ok(list) => Step(list, cs[|cs| - 1], m)
  }

  /** The `j`-th config is the first one kept for mode `m` that goes to slot `s`. */
  predicate FirstFor(cs: seq<Config>, m: Mode, s: Slot, j: nat) {
    j < |cs| && Selected(ModesOf(cs[j]), m) && SlotOf(cs[j]) == s
    && forall i :: 0 <= i < j ==> !(Selected(ModesOf(cs[i]), m) && SlotOf(cs[i]) == s)
  }

  /** Some config kept for mode `m` goes to slot `s`. */
  predicate Occupied(cs: seq<Config>, m: Mode, s: Slot) {
    exists j :: 0 <= j < |cs| && Selected(ModesOf(cs[j]), m) && SlotOf(cs[j]) == s
  }

  /** One step fills at most the slot of its config, with a config of that slot. */
  lemma StepSlots(list: List, c: Config, m: Mode, s: Slot)
    requires Step(list, c, m).Ok?
    requires Get(list, s).Some? ==> SlotOf(Get(list, s).value) == s
    ensures Get(Step(list, c, m).value, s).Some? <==> Get(list, s).Some? || (Selected(ModesOf(c), m) && SlotOf(c) == s)
    ensures Get(Step(list, c, m).value, s).Some? ==> SlotOf(Get(Step(list, c, m).value, s).value) == s
  {
    if Selected(ModesOf(c), m) && Get(list, SlotOf(c)).Some? {
      var stored := Get(list, SlotOf(c)).value;
      assert SlotOf(MergeInto(stored, c).value) == SlotOf(stored);
    }
  }

  /**
   * The slots filled are exactly those of the configs kept for the mode, and each holds a
   * config that belongs there.
   */
  lemma {:induction false} GatherSlots(cs: seq<Config>, m: Mode, s: Slot)
    requires Gather(cs, m).Ok?
    ensures Get(Gather(cs, m).value, s).Some? <==> Occupied(cs, m, s)
    ensures Get(Gather(cs, m).value, s).Some? ==> SlotOf(Get(Gather(cs, m).value, s).value) == s
    decreases |cs|
  {
    if cs != [] {
      var init := cs[..|cs| - 1];
      GatherSlots(init, m, s);
      StepSlots(Gather(init, m).value, cs[|cs| - 1], m, s);
      assert forall j :: 0 <= j < |init| ==> init[j] == cs[j];
      if Occupied(cs, m, s) && !Occupied(init, m, s) {
        var j :| 0 <= j < |cs| && Selected(ModesOf(cs[j]), m) && SlotOf(cs[j]) == s;
        assert j == |cs| - 1;
      }
    }
  }

  /**
   * The first config kept for a slot is the one stored there: every setting but `items` is
   * its own, later configs only merging their items into it.
   */
  lemma {:induction false} GatherFirst(cs: seq<Config>, m: Mode, s: Slot, j: nat)
    requires Gather(cs, m).Ok? && FirstFor(cs, m, s, j)
    ensures Get(Gather(cs, m).value, s).Some?
    ensures Get(Gather(cs, m).value, s).value.(items := cs[j].items) == cs[j]
    decreases |cs|
  {
    var init := cs[..|cs| - 1];
    var last := cs[|cs| - 1];
    assert forall i :: 0 <= i < |init| ==> init[i] == cs[i];
    if j < |init| {
      GatherFirst(init, m, s, j);
    } else {
      GatherSlots(init, m, s);
    }
  }

  /** The loop of `getManipulationList` over the sorted configs, proved to build `Gather`. */
  method GatherLoop(cs: seq<Config>, m: Mode) returns (r: Result<List, CollectError>)
    ensures r == Gather(cs, m)
  {
    var list: List := [];
    for i := 0 to |cs|
      invariant Gather(cs[..i], m) == Ok(list)
    {
      assert cs[..i + 1][..i] == cs[..i];
      var c := cs[i];
      if !Selected(ModesOf(c), m) {
        continue;
      }
      var slot := SlotOf(c);
      var stored := Get(list, slot);
      if stored.Some? {
        if stored.value.items.None? {
          GatherErrSticks(cs, m, i + 1);
          return Err(ItemsNotArray(stored.value.className));
        }
        var merged := MergeItemsLoop(c.className, stored.value.items.value, ItemsOf(c), OverrideOf(c));
        if merged.Err? {
          GatherErrSticks(cs, m, i + 1);
          return Err(MergeFailed(merged.error));
        }
        list := Set(list, slot, stored.value.(items := Some(merged.value)));
      } else {
        list := Set(list, slot, c);
      }
    }
    assert cs[..|cs|] == cs;
    r := Ok(list);
  }

  lemma {:induction false} GatherErrSticks(cs: seq<Config>, m: Mode, i: nat)
    requires i <= |cs| && Gather(cs[..i], m).Err?
    ensures Gather(cs, m) == Gather(cs[..i], m)
    decreases |cs|
  {
    if i < |cs| {
      var init := cs[..|cs| - 1];
      assert init[..i] == cs[..i];
      GatherErrSticks(init, m, i);
    } else {
      assert cs[..i] == cs;
    }
  }

  // ---------------------------------------------------------------------------------------
  // The ManipulationList

  /** `Manipulation`, with the defaults of its properties. */
  datatype Manipulation = Manipulation(
    className: string,
    modes: seq<string>,
    forceUpdate: bool,
    override: bool,
    iteration: int,
    items: Items)

  type ManipulationList = OMap<int, OMap<string, OMap<bool, Manipulation>>>

  /** `Manipulation::createFromArray($config)`: a setting the config leaves out takes its default. */
  function ToManipulation(c: Config): (r: Manipulation)
    ensures r.iteration == IterationOf(c) && r.forceUpdate == ForceUpdateOf(c) && r.className == c.className
  {
    Manipulation(c.className, ModesOf(c), ForceUpdateOf(c), OverrideOf(c), IterationOf(c), ItemsOf(c))
  }

  /**
   * The closing loops: every stored config becomes a `Manipulation` and is written to
   * `manipulations[$m->iteration][$m->class][$m->forceUpdate]`.
   */
  function ListOf(list: List): ManipulationList {
    MapValues(list, (classes: OMap<string, OMap<bool, Config>>) =>
      MapValues(classes, (forceUpdates: OMap<bool, Config>) => MapValues(forceUpdates, ToManipulation)))
  }

  /**
   * Each `Manipulation` names the slot it is stored in, so writing it under its own
   * iteration, class and forceUpdate puts it back where the collector kept its config: the
   * defaults the collector assumes are the class's own.
   */
  lemma ListOfSlots(cs: seq<Config>, m: Mode, s: Slot)
    requires Gather(cs, m).Ok?
    ensures var ml := ListOf(Gather(cs, m).value);
            var mt := match Lookup(ml, s.0)
                      case None => None
                      case Some(classes) =>
                        match Lookup(classes, s.1)
                        case None => None
                        case Some(forceUpdates) => Lookup(forceUpdates, s.2);
            (mt.Some? <==> Occupied(cs, m, s))
            && (mt.Some? ==> (mt.value.iteration, mt.value.className, mt.value.forceUpdate) == s)
  {
    var list := Gather(cs, m).value;
    GatherSlots(cs, m, s);
    var f3 := (forceUpdates: OMap<bool, Config>) => MapValues(forceUpdates, ToManipulation);
    var f2 := (classes: OMap<string, OMap<bool, Config>>) => MapValues(classes, f3);
    LookupMapValues(list, f2, s.0);
    if HasKey(list, s.0) {
      var classes := Lookup(list, s.0).value;
      LookupMapValues(classes, f3, s.1);
      if HasKey(classes, s.1) {
        LookupMapValues(Lookup(classes, s.1).value, ToManipulation, s.2);
      }
    }
  }

  /**
   * `getManipulationList` after the files are read: sort, filter and merge the configs, then
   * turn each stored config into a `Manipulation`.
   */
  method GetManipulationList(configs: seq<Config>, m: Mode) returns (r: Result<ManipulationList, CollectError>)
    ensures match Gather(SortByOverride(configs), m)
            case Err(x) => r == Err(x)
            case Ok(list) => r == Ok(ListOf(list))
  {
    var sorted := SortByOverride(configs);
    var list := GatherLoop(sorted, m);
    if list.Err? {
      return Err(list.error);
    }
    r := Ok(ListOf(list.value));
  }
}
