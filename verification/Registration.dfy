/** What registering an item may add to a host, and what a whole pass over the items registers. */
module Registration {
  import opened Errors
  import opened CounterPath
  import opened CounterPathRoundTrip
  import opened Sanitizer
  import opened Gathering
  import opened Configuration

  /** Without wildcard expansion an item is registered under its own path. */
  function ItemCounter(item: Item, handle: nat): Counter {
    NewCounter(handle, item.Path(), item.computer, item.perf.objectName, item.instance, item.counter,
               item.perf.measurement, item.perf.includeTotal, item.perf.useRawValues)
  }

  /** With wildcard expansion: a path the item expanded to, and the handle its final registration got. */
  datatype Expansion = Expansion(path: string, handle: nat)

  /** The path under which an expanded path is registered: localized, or with the original names. */
  function ExpandedPath(localize: bool, item: Item, path: string): string
    requires Parse(path).Ok? && Parse(item.Path()).Ok?
  {
    var parts, orig := Parse(path).value, Parse(item.Path()).value;
    if localize then path else Reprint(parts.(objectName := orig.objectName, counter := orig.counter))
  }

  function ExpandedCounter(localize: bool, item: Item, e: Expansion): Counter
    requires Parse(e.path).Ok? && Parse(item.Path()).Ok?
  {
    var parts, orig := Parse(e.path).value, Parse(item.Path()).value;
    var named := if localize then parts else orig;
    NewCounter(e.handle, ExpandedPath(localize, item, e.path), parts.computer, named.objectName, parts.instance,
               named.counter, item.perf.measurement, item.perf.includeTotal, item.perf.useRawValues)
  }

  lemma ExpansionAgrees(localize: bool, item: Item, orig: Parts, path: string, parts: Parts, handle: nat)
    requires Parse(item.Path()) == Ok(orig) && Parse(path) == Ok(parts)
    ensures var newInstance := if parts.instance == "" then EMPTY_INSTANCE else parts.instance;
            var named := if localize then parts else orig;
            var registered := if localize then path
                              else FormatPath(parts.computer, orig.objectName, newInstance, orig.counter);
            ExpandedCounter(localize, item, Expansion(path, handle)) ==
            NewCounter(handle, registered, parts.computer, named.objectName, parts.instance, named.counter,
                       item.perf.measurement, item.perf.includeTotal, item.perf.useRawValues)
  {
  }

  /**
   With the original names put back, the registered path still parses to what was registered, under
   exactly the conditions of printing and parsing.
   */
  lemma DelocalizedPathParses(item: Item, path: string)
    requires Parse(path).Ok? && Parse(item.Path()).Ok?
    ensures var parts, orig := Parse(path).value, Parse(item.Path()).value;
            var p := parts.(objectName := orig.objectName, counter := orig.counter);
            Parse(ExpandedPath(false, item, path)) == Ok(p) <==> Reprintable(p)
  {
    var parts, orig := Parse(path).value, Parse(item.Path()).value;
    AcceptedPartsAreWellFormed(path);
    AcceptedPartsAreWellFormed(item.Path());
    ReprintRestoresIff(parts.(objectName := orig.objectName, counter := orig.counter));
  }

  /** A `_Total` that only a `*` produced is not registered unless asked for. */
  predicate Kept(item: Item, path: string)
    requires Parse(path).Ok?
  {
    !(Parse(path).value.instance == "_Total" && item.instance == "*" && !item.perf.includeTotal)
  }

  ghost predicate Parsable(item: Item, es: seq<Expansion>) {
    (es != [] ==> Parse(item.Path()).Ok?) && forall i :: 0 <= i < |es| ==> Parse(es[i].path).Ok?
  }

  ghost function ExpandedCounters(localize: bool, item: Item, es: seq<Expansion>): seq<Counter>
    requires Parsable(item, es)
  {
    if es == [] then []
    else ExpandedCounters(localize, item, Front(es)) +
         if Kept(item, Last(es).path) then [ExpandedCounter(localize, item, Last(es))] else []
  }

  lemma ExpandedOn(localize: bool, item: Item, es: seq<Expansion>, e: Expansion)
    requires Parsable(item, es) && Parse(item.Path()).Ok? && Parse(e.path).Ok?
    ensures Parsable(item, es + [e])
    ensures ExpandedCounters(localize, item, es + [e]) ==
            ExpandedCounters(localize, item, es) +
            if Kept(item, e.path) then [ExpandedCounter(localize, item, e)] else []
  {
    assert Front(es + [e]) == es;
  }

  /** The expansions that are kept. */
  function KeptOf(item: Item, es: seq<Expansion>): seq<Expansion>
    requires forall i :: 0 <= i < |es| ==> Parse(es[i].path).Ok?
  {
    if es == [] then []
    else KeptOf(item, Front(es)) + if Kept(item, Last(es).path) then [Last(es)] else []
  }

  /**
   Every kept expansion, in order, is registered under the handle it got last, with the computer and instance of its
   own path; the object and counter are the path's own if localized, and those of the item otherwise.
   */
  lemma {:induction false} ExpandedMeans(localize: bool, item: Item, es: seq<Expansion>, i: nat)
    requires Parsable(item, es) && i < |KeptOf(item, es)|
    ensures |ExpandedCounters(localize, item, es)| == |KeptOf(item, es)|
    ensures var e, metric := KeptOf(item, es)[i], ExpandedCounters(localize, item, es)[i];
            && e in es && Parse(e.path).Ok? && Parse(item.Path()).Ok?
            && var parts := Parse(e.path).value;
               var named := if localize then parts else Parse(item.Path()).value;
               && metric.handle == e.handle && metric.path == ExpandedPath(localize, item, e.path)
               && metric.computer == parts.computer && metric.instance == parts.instance
               && metric.objectName == named.objectName
               && metric.name == CounterName(named.counter, item.perf.useRawValues)
  {
    var front := Front(es);
    if i < |KeptOf(item, front)| {
      ExpandedMeans(localize, item, front, i);
    } else {
      ExpandedCount(localize, item, front);
    }
    ExpandedCount(localize, item, es);
  }

  lemma {:induction false} ExpandedCount(localize: bool, item: Item, es: seq<Expansion>)
    requires Parsable(item, es)
    ensures |ExpandedCounters(localize, item, es)| == |KeptOf(item, es)|
  {
    if es != [] {
      ExpandedCount(localize, item, Front(es));
    }
  }

  /** The expansions are the first of the given paths, in order. */
  ghost predicate Along(es: seq<Expansion>, paths: seq<string>) {
    |es| <= |paths| && (es == [] || (Along(Front(es), paths) && Last(es).path == paths[|es| - 1]))
  }

  lemma AlongOn(es: seq<Expansion>, paths: seq<string>, e: Expansion)
    requires Along(es, paths) && |es| < |paths| && e.path == paths[|es|]
    ensures Along(es + [e], paths)
  {
    assert Front(es + [e]) == es;
  }

  lemma {:induction false} AlongAt(es: seq<Expansion>, paths: seq<string>, i: nat)
    requires Along(es, paths) && i < |es|
    ensures es[i].path == paths[i]
  {
    if i < |es| - 1 {
      AlongAt(Front(es), paths, i);
    }
  }

  /** How one call of `addItem` ended, the paths its wildcard stood for, and the counters it left with the host. */
  datatype ItemOutcome = ItemOutcome(err: Option<Error>, paths: seq<string>, added: seq<Counter>)

  /** The counters are those of the first paths, and of all paths if there was no error. */
  ghost predicate FollowsPaths(localize: bool, item: Item, outcome: ItemOutcome, es: seq<Expansion>) {
    && Parsable(item, es) && Along(es, outcome.paths) && (outcome.err.None? ==> |es| == |outcome.paths|)
    && outcome.added == ExpandedCounters(localize, item, es)
  }

  ghost predicate Follows(cfg: Config, item: Item, outcome: ItemOutcome) {
    if cfg.useWildcardsExpansion then
      exists es :: FollowsPaths(cfg.localizeWildcardsExpansion, item, outcome, es)
    else if outcome.err.None? then
      |outcome.added| == 1 && outcome.added[0] == ItemCounter(item, outcome.added[0].handle)
    else outcome.added == []
  }

  /** A successful item has registered a counter for each of its paths that is kept. */
  lemma SuccessIsComplete(cfg: Config, item: Item, outcome: ItemOutcome) returns (es: seq<Expansion>)
    requires cfg.useWildcardsExpansion && Follows(cfg, item, outcome) && outcome.err.None?
    ensures Parsable(item, es) && |es| == |outcome.paths|
            && (forall i :: 0 <= i < |es| ==> es[i].path == outcome.paths[i])
    ensures |outcome.added| == |KeptOf(item, es)|
  {
    es :| FollowsPaths(cfg.localizeWildcardsExpansion, item, outcome, es);
    forall i | 0 <= i < |es| ensures es[i].path == outcome.paths[i] {
      AlongAt(es, outcome.paths, i);
    }
    ExpandedCount(cfg.localizeWildcardsExpansion, item, es);
  }

  /** The counters that the items attempted so far registered for one computer, in order. */
  function Registered(items: seq<Item>, outcomes: seq<ItemOutcome>, computer: string): seq<Counter>
    requires |outcomes| <= |items|
  {
    if outcomes == [] then []
    else
      var n := |outcomes| - 1;
      Registered(items, outcomes[..n], computer) + if items[n].computer == computer then outcomes[n].added else []
  }

  /** The items that were registered for one computer, in order. */
  function Successful(items: seq<Item>, outcomes: seq<ItemOutcome>, computer: string): seq<Item>
    requires |outcomes| <= |items|
  {
    if outcomes == [] then []
    else
      var n := |outcomes| - 1;
      Successful(items, outcomes[..n], computer) +
      if items[n].computer == computer && outcomes[n].err.None? then [items[n]] else []
  }

  lemma {:induction false} RegisteredIsSuccessful(cfg: Config, items: seq<Item>, outcomes: seq<ItemOutcome>,
                                                  computer: string)
    requires !cfg.useWildcardsExpansion && |outcomes| <= |items|
    requires forall i :: 0 <= i < |outcomes| ==> Follows(cfg, items[i], outcomes[i])
    ensures var counters, ok := Registered(items, outcomes, computer), Successful(items, outcomes, computer);
            |counters| == |ok| && forall i :: 0 <= i < |ok| ==> counters[i] == ItemCounter(ok[i], counters[i].handle)
  {
    if outcomes != [] {
      RegisteredIsSuccessful(cfg, items, outcomes[..|outcomes| - 1], computer);
    }
  }

  lemma {:induction false} AllSuccessful(items: seq<Item>, outcomes: seq<ItemOutcome>, computers: seq<string>)
    requires |outcomes| <= |items| && forall i :: 0 <= i < |outcomes| ==> outcomes[i].err.None?
    requires forall i, j :: 0 <= i < j < |computers| ==> computers[i] != computers[j]
    requires forall i :: 0 <= i < |outcomes| ==> items[i].computer in computers
    ensures SuccessCount(items, outcomes, computers) == |outcomes|
  {
    if outcomes != [] {
      var n := |outcomes| - 1;
      AllSuccessful(items, outcomes[..n], computers);
      OneComputerCounts(items, outcomes, computers);
    } else {
      NothingAttempted(items, computers);
    }
  }

  lemma {:induction false} NothingAttempted(items: seq<Item>, computers: seq<string>)
    ensures SuccessCount(items, [], computers) == 0
  {
    if computers != [] {
      NothingAttempted(items, Front(computers));
    }
  }

  /** The number of registered items over a list of computers. */
  function SuccessCount(items: seq<Item>, outcomes: seq<ItemOutcome>, computers: seq<string>): nat
    requires |outcomes| <= |items|
  {
    if computers == [] then 0
    else |Successful(items, outcomes, Last(computers))| + SuccessCount(items, outcomes, Front(computers))
  }

  lemma {:induction false} OneComputerCounts(items: seq<Item>, outcomes: seq<ItemOutcome>, computers: seq<string>)
    requires outcomes != [] && |outcomes| <= |items| && outcomes[|outcomes| - 1].err.None?
    requires forall i, j :: 0 <= i < j < |computers| ==> computers[i] != computers[j]
    ensures SuccessCount(items, outcomes, computers) ==
            SuccessCount(items, outcomes[..|outcomes| - 1], computers) +
            if items[|outcomes| - 1].computer in computers then 1 else 0
    decreases computers
  {
    if computers != [] {
      OneComputerCounts(items, outcomes, Front(computers));
      assert computers == Front(computers) + [Last(computers)];
    }
  }
}
