/** The configuration and its expansion into the items that the collector tries to register. */
module Configuration {
  import opened CounterPath

  datatype PerfObject = PerfObject(
    sources: seq<string>,
    objectName: string,
    counters: seq<string>,
    instances: seq<string>,
    measurement: string,
    failOnMissing: bool,
    includeTotal: bool,
    useRawValues: bool)

  datatype Config = Config(
    sources: seq<string>,
    perfObjects: seq<PerfObject>,
    usePerfCounterTime: bool,
    refreshInterval: int,
    useWildcardsExpansion: bool,
    localizeWildcardsExpansion: bool,
    ignoredErrors: seq<string>,
    errorNames: map<nat, string>,
    maxBufferSize: nat)

  /** One call of `addItem`. */
  datatype Item = Item(perf: PerfObject, computer: string, counter: string, instance: string) {
    function Path(): string {
      FormatPath(computer, perf.objectName, instance, counter)
    }
  }

  function Last<T>(s: seq<T>): T
    requires s != []
  {
    s[|s| - 1]
  }

  function Front<T>(s: seq<T>): seq<T>
    requires s != []
  {
    s[..|s| - 1]
  }

  /** The computers of objects that name none: the local one, unless others are configured. */
  function OrLocalhost(sources: seq<string>): seq<string> {
    if sources == [] then ["localhost"] else sources
  }

  function ComputerName(source: string): string {
    if source == "" then "localhost" else source
  }

  function SourcesOf(perf: PerfObject, sources: seq<string>): seq<string> {
    if perf.sources == [] then sources else perf.sources
  }

  function InstanceItems(perf: PerfObject, computer: string, counter: string, instances: seq<string>): seq<Item> {
    if instances == [] then []
    else InstanceItems(perf, computer, counter, Front(instances)) + [Item(perf, computer, counter, Last(instances))]
  }

  function CounterItems(perf: PerfObject, computer: string, counters: seq<string>): seq<Item> {
    if counters == [] then []
    else CounterItems(perf, computer, Front(counters)) + InstanceItems(perf, computer, Last(counters), perf.instances)
  }

  function ComputerItems(perf: PerfObject, computers: seq<string>): seq<Item> {
    if computers == [] then []
    else ComputerItems(perf, Front(computers)) + CounterItems(perf, ComputerName(Last(computers)), perf.counters)
  }

  /** All items, in the order of the nested loops. */
  function Items(perfObjects: seq<PerfObject>, sources: seq<string>): seq<Item> {
    if perfObjects == [] then []
    else Items(Front(perfObjects), sources) + ComputerItems(Last(perfObjects), SourcesOf(Last(perfObjects), sources))
  }

  /** All items that a configuration asks for. */
  function AllItems(cfg: Config): seq<Item> {
    Items(cfg.perfObjects, OrLocalhost(cfg.sources))
  }

  /** The four nested loops of `parseConfig`, innermost first. */
  method EnumerateInstances(perf: PerfObject, computer: string, counter: string) returns (items: seq<Item>)
    ensures items == InstanceItems(perf, computer, counter, perf.instances)
  {
    items := [];
    for l := 0 to |perf.instances|
      invariant items == InstanceItems(perf, computer, counter, perf.instances[..l])
    {
      assert Front(perf.instances[..l + 1]) == perf.instances[..l];
      items := items + [Item(perf, computer, counter, perf.instances[l])];
    }
    assert perf.instances[..|perf.instances|] == perf.instances;
  }

  method EnumerateCounters(perf: PerfObject, computer: string) returns (items: seq<Item>)
    ensures items == CounterItems(perf, computer, perf.counters)
  {
    items := [];
    for k := 0 to |perf.counters|
      invariant items == CounterItems(perf, computer, perf.counters[..k])
    {
      assert Front(perf.counters[..k + 1]) == perf.counters[..k];
      var inner := EnumerateInstances(perf, computer, perf.counters[k]);
      items := items + inner;
    }
    assert perf.counters[..|perf.counters|] == perf.counters;
  }

  method EnumerateComputers(perf: PerfObject, computers: seq<string>) returns (items: seq<Item>)
    ensures items == ComputerItems(perf, computers)
  {
    items := [];
    for j := 0 to |computers|
      invariant items == ComputerItems(perf, computers[..j])
    {
      assert Front(computers[..j + 1]) == computers[..j];
      var inner := EnumerateCounters(perf, ComputerName(computers[j]));
      items := items + inner;
    }
    assert computers[..|computers|] == computers;
  }

  method EnumerateItems(perfObjects: seq<PerfObject>, sources: seq<string>) returns (items: seq<Item>)
    ensures items == Items(perfObjects, sources)
  {
    items := [];
    for i := 0 to |perfObjects|
      invariant items == Items(perfObjects[..i], sources)
    {
      assert Front(perfObjects[..i + 1]) == perfObjects[..i];
      var inner := EnumerateComputers(perfObjects[i], SourcesOf(perfObjects[i], sources));
      items := items + inner;
    }
    assert perfObjects[..|perfObjects|] == perfObjects;
  }

  /** Computers times counters times instances, summed over the objects. */
  function ItemCount(perfObjects: seq<PerfObject>, sources: seq<string>): nat {
    if perfObjects == [] then 0
    else
      var perf := Last(perfObjects);
      ItemCount(Front(perfObjects), sources) + |SourcesOf(perf, sources)| * (|perf.counters| * |perf.instances|)
  }

  lemma {:induction false} InstanceItemCount(perf: PerfObject, computer: string, counter: string,
                                             instances: seq<string>)
    ensures |InstanceItems(perf, computer, counter, instances)| == |instances|
  {
    if instances != [] {
      InstanceItemCount(perf, computer, counter, Front(instances));
    }
  }

  lemma OneMore(n: nat, k: nat)
    ensures (n + 1) * k == n * k + k
  {
  }

  lemma {:induction false} CounterItemCount(perf: PerfObject, computer: string, counters: seq<string>)
    ensures |CounterItems(perf, computer, counters)| == |counters| * |perf.instances|
  {
    if counters != [] {
      CounterItemCount(perf, computer, Front(counters));
      InstanceItemCount(perf, computer, Last(counters), perf.instances);
      OneMore(|Front(counters)|, |perf.instances|);
    }
  }

  lemma {:induction false} ComputerItemCount(perf: PerfObject, computers: seq<string>)
    ensures |ComputerItems(perf, computers)| == |computers| * (|perf.counters| * |perf.instances|)
  {
    if computers != [] {
      ComputerItemCount(perf, Front(computers));
      CounterItemCount(perf, ComputerName(Last(computers)), perf.counters);
      OneMore(|Front(computers)|, |perf.counters| * |perf.instances|);
    }
  }

  lemma {:induction false} ItemsAreCounted(perfObjects: seq<PerfObject>, sources: seq<string>)
    ensures |Items(perfObjects, sources)| == ItemCount(perfObjects, sources)
  {
    if perfObjects != [] {
      ItemsAreCounted(Front(perfObjects), sources);
      var perf := Last(perfObjects);
      ComputerItemCount(perf, SourcesOf(perf, sources));
    }
  }

  // ----- The order of the items

  /** The inner items stand together among the outer ones, behind the first n. */
  predicate StandAt(outer: seq<Item>, n: nat, inner: seq<Item>) {
    n + |inner| <= |outer| && outer[n..n + |inner|] == inner
  }

  lemma StandWithin(outer: seq<Item>, n: nat, middle: seq<Item>, m: nat, inner: seq<Item>)
    requires StandAt(outer, n, middle) && StandAt(middle, m, inner)
    ensures StandAt(outer, n + m, inner)
  {
    forall x | 0 <= x < |inner| ensures outer[n + m + x] == inner[x] {
      assert outer[n..n + |middle|][m + x] == middle[m + x];
      assert middle[m..m + |inner|][x] == inner[x];
    }
  }

  lemma StandsInFront(outer: seq<Item>, n: nat, inner: seq<Item>, more: seq<Item>)
    requires StandAt(outer, n, inner)
    ensures StandAt(outer + more, n, inner)
  {
    assert (outer + more)[n..n + |inner|] == outer[n..n + |inner|];
  }

  lemma StandsBehind(front: seq<Item>, inner: seq<Item>)
    ensures StandAt(front + inner, |front|, inner)
  {
    assert (front + inner)[|front|..|front| + |inner|] == inner;
  }

  lemma {:induction false} InstanceStands(perf: PerfObject, computer: string, counter: string, instances: seq<string>,
                                          l: nat)
    requires l < |instances|
    ensures StandAt(InstanceItems(perf, computer, counter, instances), l, [Item(perf, computer, counter, instances[l])])
  {
    var front, item := InstanceItems(perf, computer, counter, Front(instances)),
                       Item(perf, computer, counter, instances[l]);
    InstanceItemCount(perf, computer, counter, Front(instances));
    if l < |instances| - 1 {
      InstanceStands(perf, computer, counter, Front(instances), l);
      StandsInFront(front, l, [item], [Item(perf, computer, counter, Last(instances))]);
    } else {
      StandsBehind(front, [item]);
    }
  }

  lemma {:induction false} CounterStands(perf: PerfObject, computer: string, counters: seq<string>, k: nat)
    requires k < |counters|
    ensures StandAt(CounterItems(perf, computer, counters), |CounterItems(perf, computer, counters[..k])|,
                    InstanceItems(perf, computer, counters[k], perf.instances))
  {
    var front, inner := CounterItems(perf, computer, Front(counters)),
                        InstanceItems(perf, computer, counters[k], perf.instances);
    if k < |counters| - 1 {
      CounterStands(perf, computer, Front(counters), k);
      assert Front(counters)[..k] == counters[..k];
      StandsInFront(front, |CounterItems(perf, computer, counters[..k])|, inner,
                    InstanceItems(perf, computer, Last(counters), perf.instances));
    } else {
      assert counters[..k] == Front(counters);
      StandsBehind(front, inner);
    }
  }

  lemma {:induction false} ComputerStands(perf: PerfObject, computers: seq<string>, j: nat)
    requires j < |computers|
    ensures StandAt(ComputerItems(perf, computers), |ComputerItems(perf, computers[..j])|,
                    CounterItems(perf, ComputerName(computers[j]), perf.counters))
  {
    var front, inner := ComputerItems(perf, Front(computers)),
                        CounterItems(perf, ComputerName(computers[j]), perf.counters);
    if j < |computers| - 1 {
      ComputerStands(perf, Front(computers), j);
      assert Front(computers)[..j] == computers[..j];
      StandsInFront(front, |ComputerItems(perf, computers[..j])|, inner,
                    CounterItems(perf, ComputerName(Last(computers)), perf.counters));
    } else {
      assert computers[..j] == Front(computers);
      StandsBehind(front, inner);
    }
  }

  lemma {:induction false} ObjectStands(perfObjects: seq<PerfObject>, sources: seq<string>, i: nat)
    requires i < |perfObjects|
    ensures StandAt(Items(perfObjects, sources), |Items(perfObjects[..i], sources)|,
                    ComputerItems(perfObjects[i], SourcesOf(perfObjects[i], sources)))
  {
    var front := Items(Front(perfObjects), sources);
    var inner := ComputerItems(perfObjects[i], SourcesOf(perfObjects[i], sources));
    if i < |perfObjects| - 1 {
      ObjectStands(Front(perfObjects), sources, i);
      assert Front(perfObjects)[..i] == perfObjects[..i];
      StandsInFront(front, |Items(perfObjects[..i], sources)|, inner,
                    ComputerItems(Last(perfObjects), SourcesOf(Last(perfObjects), sources)));
    } else {
      assert perfObjects[..i] == Front(perfObjects);
      StandsBehind(front, inner);
    }
  }

  /** How many items of an object come before the one for its computer j, counter k and instance l. */
  function Before(perf: PerfObject, computers: seq<string>, j: nat, k: nat, l: nat): nat
    requires j < |computers| && k < |perf.counters|
  {
    |ComputerItems(perf, computers[..j])| + (|CounterItems(perf, ComputerName(computers[j]), perf.counters[..k])| + l)
  }

  lemma StandsInObject(perf: PerfObject, computers: seq<string>, j: nat, k: nat, l: nat)
    requires j < |computers| && k < |perf.counters| && l < |perf.instances|
    ensures StandAt(ComputerItems(perf, computers), Before(perf, computers, j, k, l),
                    [Item(perf, ComputerName(computers[j]), perf.counters[k], perf.instances[l])])
  {
    var computer := ComputerName(computers[j]);
    var instances := InstanceItems(perf, computer, perf.counters[k], perf.instances);
    var counters, n := CounterItems(perf, computer, perf.counters), |CounterItems(perf, computer, perf.counters[..k])|;
    var item := [Item(perf, computer, perf.counters[k], perf.instances[l])];
    InstanceStands(perf, computer, perf.counters[k], perf.instances, l);
    CounterStands(perf, computer, perf.counters, k);
    StandWithin(counters, n, instances, l, item);
    ComputerStands(perf, computers, j);
    StandWithin(ComputerItems(perf, computers), |ComputerItems(perf, computers[..j])|, counters, n + l, item);
  }

  /**
   The items stand in the order of the nested loops: in front of the one for object i, computer j, counter k and
   instance l are those of the objects before i, of i's computers before j, of that computer's counters
   before k, and of that counter's instances before l.
   */
  lemma ItemAt(perfObjects: seq<PerfObject>, sources: seq<string>, i: nat, j: nat, k: nat, l: nat)
    requires i < |perfObjects| && j < |SourcesOf(perfObjects[i], sources)|
    requires k < |perfObjects[i].counters| && l < |perfObjects[i].instances|
    ensures var perf, computers := perfObjects[i], SourcesOf(perfObjects[i], sources);
            StandAt(Items(perfObjects, sources), |Items(perfObjects[..i], sources)| + Before(perf, computers, j, k, l),
                    [Item(perf, ComputerName(computers[j]), perf.counters[k], perf.instances[l])])
  {
    var perf, computers := perfObjects[i], SourcesOf(perfObjects[i], sources);
    ObjectStands(perfObjects, sources, i);
    StandsInObject(perf, computers, j, k, l);
    StandWithin(Items(perfObjects, sources), |Items(perfObjects[..i], sources)|, ComputerItems(perf, computers),
                Before(perf, computers, j, k, l),
                [Item(perf, ComputerName(computers[j]), perf.counters[k], perf.instances[l])]);
  }
}
