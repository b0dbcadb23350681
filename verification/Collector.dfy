/**
 The collector: it owns one query per host, refreshes its counters when the refresh interval has
 passed, and on every Gather samples all hosts and publishes what they read.
 */
module Collector {
  import opened Errors
  import opened CounterPath
  import opened Gathering
  import opened Configuration
  import opened Registration
  import opened Pdh
  import opened HostStates
  import opened RegistrySteps
  import opened GatherRuns
  import opened HostWork

  /** `hostCountersInfo` */
  class Host {
    const computer: string
    const tag: string
    const query: PerformanceQuery
    var counters: seq<Counter>
    var timestamp: int

    constructor (computer: string, tag: string, query: PerformanceQuery)
      ensures this.computer == computer && this.tag == tag && this.query == query
      ensures counters == [] && timestamp == 0
    {
      this.computer, this.tag, this.query := computer, tag, query;
      counters, timestamp := [], 0;
    }
  }

  /** `WinPerfCounters`; `published` records the calls of the collect function. */
  class WinPerfCounters {
    const cfg: Config
    const os: Os
    var sources: seq<string>
    var hosts: map<string, Host>
    var lastRefreshed: Option<nat>
    var cachedHostname: string
    var published: seq<Record>

    /** The objects the collector owns. */
    ghost var hostRepr: set<Host>
    ghost var queryRepr: set<PerformanceQuery>

    /** The registered hosts as values. */
    ghost var view: Hosts

    /**
     The view shows the objects; hosts and queries belong to the computer they are filed under, so
     distinct computers share no objects.
     */
    ghost predicate Valid()
      reads `hosts, `view, `hostRepr, `queryRepr, hostRepr, queryRepr
    {
      && view.Keys == hosts.Keys
      && forall c :: c in hosts ==> hosts[c] in hostRepr && hosts[c].query in queryRepr && Shows(hosts[c], c, view[c])
    }

    static ghost predicate Shows(h: Host, computer: string, s: HostState)
      reads h, h.query
    {
      && h.computer == computer && h.query.computer == computer
      && s.handle == h.query.handle && s.counters == h.counters && s.tag == h.tag && s.timestamp == h.timestamp
    }

    /** The sources are the configured ones, or the default that stands for none. */
    ghost predicate KnowsSources()
      reads `sources
    {
      OrLocalhost(sources) == OrLocalhost(cfg.sources)
    }

    ghost function Current(): State
      reads `view, `lastRefreshed, os`live, os`now
    {
      State(view, os.live, lastRefreshed, os.now)
    }

    constructor (cfg: Config, os: Os)
      requires os.live == map[]
      ensures this.cfg == cfg && this.os == os && published == [] && hostRepr == {} && queryRepr == {}
      ensures view == map[] && lastRefreshed == None
      ensures Valid() && KnowsSources() && Current() in SafeStates(cfg)
    {
      this.cfg, this.os, sources := cfg, os, cfg.sources;
      hosts, lastRefreshed, cachedHostname, published := map[], None, "", [];
      view, hostRepr, queryRepr := map[], {}, {};
    }

    ghost function Now(): World
      reads `view, os`live
    {
      World(view, os.live)
    }

    /** Closes one host's query. */
    method CloseHost(c: string) returns (err: Option<Error>)
      requires Valid() && c in view
      modifies `view, queryRepr`handle, os`live
      ensures Valid()
      ensures err.None? ==> old(view[c].handle) != 0 && Now() == CloseOne(old(Now()), c)
      ensures err.Some? ==> Now() == old(Now())
    {
      err := hosts[c].query.Close(os);
      if err.None? {
        view := view[c := view[c].(handle := 0)];
      }
    }

    /** Closes the hosts' queries one by one and forgets the hosts, unless a Close fails on the way. */
    method CleanQueries() returns (err: Option<Error>, ghost order: seq<string>)
      requires Valid()
      modifies `hosts, `view, queryRepr`handle, os`live
      ensures Valid() && Now() in AfterClean(old(Now()), order, err) && (err.None? ==> view == map[])
    {
      ghost var before := Now();
      order := [];
      CloseStart(before);
      var remaining := hosts.Keys;
      while remaining != {}
        invariant Valid() && remaining <= view.Keys && Now() in WhileClosing(before, remaining, order)
      {
        var c :| c in remaining;
        err, order := CloseNext(c, before, remaining, order);
        if err.Some? {
          return;
        }
        remaining := remaining - {c};
      }
      CleanCompletes(before, order, Now());
      hosts, view := map[], map[];
      err := None;
    }

    /** The next Close, or the one that stops the cleaning. */
    method CloseNext(c: string, ghost before: World, ghost remaining: set<string>, ghost order: seq<string>)
      returns (err: Option<Error>, ghost order': seq<string>)
      requires Valid() && c in remaining && c in view && Now() in WhileClosing(before, remaining, order)
      modifies `view, queryRepr`handle, os`live
      ensures Valid() && view.Keys == old(view).Keys
      ensures err.None? ==> Now() in WhileClosing(before, remaining - {c}, order')
      ensures err.Some? ==> Now() in AfterClean(before, order', err)
    {
      ghost var now := Now();
      err := CloseHost(c);
      if err.Some? {
        CleanStops(before, remaining, order, now, c, err.value);
        order' := order;
      } else {
        CloseStep(before, remaining, order, now, c);
        order' := order + [c];
      }
    }

    method Hostname() returns (name: string)
      modifies `cachedHostname
      ensures name == cachedHostname && (old(cachedHostname) != "" ==> name == old(cachedHostname))
    {
      if cachedHostname != "" {
        return cachedHostname;
      }
      var hostname := os.Hostname();
      cachedHostname := if hostname.None? then "localhost" else hostname.value;
      return cachedHostname;
    }

    /** The registration pass under way: where it began and the steps it has taken. */
    ghost var base: World
    ghost var steps: seq<Step>

    ghost predicate InSync()
      reads `base, `steps, `view, os`live
    {
      Leads(base, steps, Now())
    }

    /** Notes the step that has just been taken. */
    ghost method Note(before: World, step: Step)
      requires Leads(base, steps, before) && Legal(before, step) && Now() == ApplyOne(before, step)
      modifies `steps
      ensures InSync() && steps == old(steps) + [step]
      ensures step.Append? ==> Entries(steps) == Entries(old(steps)) + [Entry(step.c, step.item)]
      ensures !step.Append? ==> Entries(steps) == Entries(old(steps))
    {
      LeadsOn(base, steps, before, step);
      EntriesOn(steps, step);
      steps := steps + [step];
    }

    /** A new host and its query, neither filed nor open. */
    method CreateHost(computer: string, tag: string)
      requires Valid() && computer !in view
      modifies `hosts, `view, `hostRepr, `queryRepr
      ensures Valid() && fresh(hostRepr - old(hostRepr)) && fresh(queryRepr - old(queryRepr))
      ensures view == old(view)[computer := HostState(0, [], tag, 0)]
    {
      var query := new PerformanceQuery(computer, cfg.maxBufferSize);
      var host := new Host(computer, tag, query);
      hosts := hosts[computer := host];
      view := view[computer := HostState(0, [], tag, 0)];
      hostRepr, queryRepr := hostRepr + {host}, queryRepr + {query};
    }

    /** Opens the query of a host that has none open; handle is 0 if that fails. */
    method OpenQueryOf(c: string) returns (err: Option<Error>, ghost handle: nat)
      requires Valid() && c in view && view[c].handle == 0
      modifies `view, queryRepr`handle, os`live
      ensures Valid() && (err.None? <==> handle != 0)
      ensures view == old(view)[c := old(view[c]).(handle := handle)]
      ensures (handle != 0 ==> handle !in old(os.live)) && os.live == WithQuery(old(os.live), handle)
    {
      err := hosts[c].query.Open(os);
      handle := hosts[c].query.handle;
      view := view[c := view[c].(handle := handle)];
    }

    method AppendTo(c: string, counter: Counter)
      requires Valid() && c in view
      modifies `view, hostRepr`counters
      ensures Valid() && view.Keys == old(view).Keys && Now() == AppendedTo(old(Now()), c, counter)
    {
      hosts[c].counters := hosts[c].counters + [counter];
      view := Appended(view, c, [counter]);
    }

    /** A new host is filed before its query is opened, and stays filed if that fails. */
    method CreateAndOpen(computer: string, tag: string) returns (err: Option<Error>, ghost handle: nat)
      requires Valid() && computer !in view
      modifies `hosts, `view, `hostRepr, `queryRepr, queryRepr`handle, os`live
      ensures Valid() && fresh(hostRepr - old(hostRepr)) && fresh(queryRepr - old(queryRepr))
      ensures (err.None? <==> handle != 0) && (handle != 0 ==> handle !in old(os.live))
      ensures Now() == Filed(old(Now()), computer, tag, handle)
    {
      ghost var before := view;
      CreateHost(computer, tag);
      err, handle := OpenQueryOf(computer);
      OpenedWhenFiled(before, computer, tag, handle);
    }

    method FileHost(computer: string, tag: string) returns (err: Option<Error>)
      requires Valid() && InSync() && computer !in view && (computer != "localhost" ==> tag == computer)
      modifies `hosts, `view, `hostRepr, `queryRepr, `steps, queryRepr`handle, os`live
      ensures Valid() && InSync() && fresh(hostRepr - old(hostRepr)) && fresh(queryRepr - old(queryRepr))
      ensures view.Keys == old(view).Keys + {computer} && Entries(steps) == Entries(old(steps))
      ensures err.None? <==> view[computer].handle != 0
    {
      ghost var before := Now();
      ghost var handle;
      err, handle := CreateAndOpen(computer, tag);
      FiledHosts(before, computer, tag, handle);
      Note(before, Register(computer, tag, handle));
    }

    /** The host of a computer, registered if it is new. */
    method RegisterHost(computer: string) returns (err: Option<Error>)
      requires Valid() && InSync()
      modifies `hosts, `view, `hostRepr, `queryRepr, `cachedHostname, `steps, queryRepr`handle, os`live
      ensures Valid() && InSync() && fresh(hostRepr - old(hostRepr)) && fresh(queryRepr - old(queryRepr))
      ensures view.Keys == old(view).Keys + {computer} && Entries(steps) == Entries(old(steps))
      ensures computer in old(view) ==> err.None? && Now() == old(Now())
      ensures computer !in old(view) ==> (err.None? <==> view[computer].handle != 0)
    {
      var sourceTag := computer;
      if computer == "localhost" {
        sourceTag := Hostname();
      }
      if computer in hosts {
        return None;
      }
      err := FileHost(computer, sourceTag);
    }

    method IssueFor(c: string, path: string) returns (r: Result<nat>)
      requires Valid() && c in view
      modifies os`live
      ensures r.Ok? ==>
                view[c].handle in old(os.live) && r.value !in old(os.live)[view[c].handle] &&
                os.live == WithCounter(old(os.live), view[c].handle, r.value, path)
      ensures r.Err? ==> os.live == old(os.live)
    {
      r := hosts[c].query.AddCounter(os, path);
    }

    /** One more counter of the host's query, not yet the host's own. */
    method IssueCounter(c: string, path: string) returns (r: Result<nat>)
      requires Valid() && InSync() && c in view
      modifies `steps, os`live
      ensures InSync() && Entries(steps) == Entries(old(steps))
      ensures r.Ok? ==> InfoOf(os.live, view[c].handle, r.value) == Some(CounterInfo(path, 0))
    {
      ghost var before := Now();
      r := IssueFor(c, path);
      if r.Ok? {
        Note(before, Issue(c, r.value, path));
      }
    }

    /** Adds a counter of the host's query to the host. */
    method AppendCounter(c: string, counter: Counter)
      requires Valid() && InSync() && c in view
      requires view[c].handle in os.live && BelongsTo(counter, os.live[view[c].handle])
      modifies `view, `steps, hostRepr`counters
      ensures Valid() && InSync() && view.Keys == old(view).Keys
      ensures Entries(steps) == Entries(old(steps)) + [Entry(c, counter)]
    {
      ghost var before := Now();
      AppendTo(c, counter);
      Note(before, Append(c, counter));
    }

    /** The first half of an expanded path's registration: an unused counter is issued and the path is parsed. */
    method IssueAndParse(c: string, path: string) returns (r: Result<Parts>)
      requires Valid() && InSync() && c in view
      modifies `steps, os`live
      ensures InSync() && Entries(steps) == Entries(old(steps))
      ensures r.Ok? ==> Parse(path) == r
    {
      var issued := IssueCounter(c, path);
      if issued.Err? {
        return Err(issued.error);
      }
      r := ExtractCounterInfo(path);
    }

    /** The path and names under which an expanded path is registered. */
    method NewItem(item: Item, orig: Parts, path: string, parts: Parts, handle: nat) returns (newItem: Counter)
      requires Parse(item.Path()) == Ok(orig) && Parse(path) == Ok(parts)
      ensures newItem == ExpandedCounter(cfg.localizeWildcardsExpansion, item, Expansion(path, handle))
    {
      var objectName, counterName, registered := parts.objectName, parts.counter, path;
      if !cfg.localizeWildcardsExpansion {
        var newInstance := if parts.instance == "" then EMPTY_INSTANCE else parts.instance;
        objectName, counterName := orig.objectName, orig.counter;
        registered := FormatPath(parts.computer, objectName, newInstance, counterName);
      }
      ExpansionAgrees(cfg.localizeWildcardsExpansion, item, orig, path, parts, handle);
      newItem := NewCounter(handle, registered, parts.computer, objectName, parts.instance, counterName,
                            item.perf.measurement, item.perf.includeTotal, item.perf.useRawValues);
    }

    /** Registers one path of an expansion. */
    method ExpandOne(item: Item, orig: Parts, path: string)
      returns (err: Option<Error>, ghost e: Expansion, ghost added: seq<Counter>)
      requires Valid() && InSync() && item.computer in view && Parse(item.Path()) == Ok(orig)
      modifies `view, `steps, hostRepr`counters, os`live
      ensures Valid() && InSync() && view.Keys == old(view).Keys
      ensures Entries(steps) == Entries(old(steps)) + EntriesFor(item.computer, added)
      ensures err.Some? ==> added == []
      ensures err.None? ==>
                e.path == path && Parse(path).Ok? &&
                added == if Kept(item, path) then [ExpandedCounter(cfg.localizeWildcardsExpansion, item, e)] else []
    {
      var parsed := IssueAndParse(item.computer, path);
      if parsed.Err? {
        NoEntries(Entries(steps), item.computer);
        return Some(parsed.error), Expansion(path, 0), [];
      }
      err, e, added := RegisterExpanded(item, orig, path, parsed.value);
    }

    /** The second half: the counter that is kept, unless it is a total nobody asked for. */
    method RegisterExpanded(item: Item, orig: Parts, path: string, parts: Parts)
      returns (err: Option<Error>, ghost e: Expansion, ghost added: seq<Counter>)
      requires Valid() && InSync() && item.computer in view && Parse(item.Path()) == Ok(orig)
               && Parse(path) == Ok(parts)
      modifies `view, `steps, hostRepr`counters, os`live
      ensures Valid() && InSync() && view.Keys == old(view).Keys
      ensures Entries(steps) == Entries(old(steps)) + EntriesFor(item.computer, added)
      ensures err.Some? ==> added == []
      ensures err.None? ==>
                e.path == path &&
                added == if Kept(item, path) then [ExpandedCounter(cfg.localizeWildcardsExpansion, item, e)] else []
    {
      added, e := [], Expansion(path, 0);
      NoEntries(Entries(steps), item.computer);
      var r := IssueCounter(item.computer, ExpandedPath(cfg.localizeWildcardsExpansion, item, path));
      if r.Err? {
        return Some(r.error), e, added;
      }
      e := Expansion(path, r.value);
      var newItem := NewItem(item, orig, path, parts, r.value);
      if parts.instance == "_Total" && item.instance == "*" && !item.perf.includeTotal {
        return None, e, added;
      }
      AppendCounter(item.computer, newItem);
      OneEntry(item.computer, newItem);
      return None, e, [newItem];
    }

    /** The paths that a registered wildcard counter stands for. */
    method ExpandedPaths(c: string, first: nat) returns (r: Result<seq<string>>)
      requires Valid() && c in view
    {
      var full := hosts[c].query.GetCounterPath(first);
      if full.Err? {
        return Err(full.error);
      }
      r := hosts[c].query.ExpandWildCardPath(full.value);
    }

    /** The next of the expanded paths. */
    method ExpandNext(item: Item, orig: Parts, paths: seq<string>, i: nat, ghost es: seq<Expansion>,
                      ghost added: seq<Counter>, ghost before: seq<Entry>)
      returns (err: Option<Error>, ghost es': seq<Expansion>, ghost added': seq<Counter>)
      requires Valid() && InSync() && item.computer in view && Parse(item.Path()) == Ok(orig)
      requires i == |es| < |paths| && Along(es, paths)
      requires es in Expansions(cfg.localizeWildcardsExpansion, item, added, before, Entries(steps))
      modifies `view, `steps, hostRepr`counters, os`live
      ensures Valid() && InSync() && view.Keys == old(view).Keys
      ensures es' in Expansions(cfg.localizeWildcardsExpansion, item, added', before, Entries(steps))
      ensures Along(es', paths) && |es'| == if err.None? then i + 1 else i
    {
      ghost var entries := Entries(steps);
      ghost var e, more;
      err, e, more := ExpandOne(item, orig, paths[i]);
      ExpandingOn(cfg.localizeWildcardsExpansion, item, es, added, before, entries, e, more);
      if err.Some? {
        return err, es, added;
      }
      AlongOn(es, paths, e);
      return err, es + [e], added + more;
    }

    /** The loop over the expanded paths, up to the first that fails. */
    method ExpandAll(item: Item, orig: Parts, paths: seq<string>)
      returns (err: Option<Error>, ghost es: seq<Expansion>, ghost added: seq<Counter>)
      requires Valid() && InSync() && item.computer in view && Parse(item.Path()) == Ok(orig)
      modifies `view, `steps, hostRepr`counters, os`live
      ensures Valid() && InSync() && view.Keys == old(view).Keys
      ensures es in Expansions(cfg.localizeWildcardsExpansion, item, added, Entries(old(steps)), Entries(steps))
      ensures Along(es, paths) && (err.None? ==> |es| == |paths|)
    {
      ghost var keys, entries := view.Keys, Entries(steps);
      es, added := [], [];
      ExpandingStart(cfg.localizeWildcardsExpansion, item, entries);
      for i := 0 to |paths|
        invariant Valid() && InSync() && view.Keys == keys
        invariant es in Expansions(cfg.localizeWildcardsExpansion, item, added, entries, Entries(steps))
        invariant |es| == i && Along(es, paths)
      {
        err, es, added := ExpandNext(item, orig, paths, i, es, added, entries);
        if err.Some? {
          return;
        }
      }
      err := None;
    }

    /** The wildcard branch of `addItem`. */
    method ExpandItem(item: Item, first: nat)
      returns (err: Option<Error>, ghost es: seq<Expansion>, ghost expanded: seq<string>, ghost added: seq<Counter>)
      requires Valid() && InSync() && item.computer in view
      modifies `view, `steps, hostRepr`counters, os`live
      ensures Valid() && InSync() && view.Keys == old(view).Keys
      ensures es in Expansions(cfg.localizeWildcardsExpansion, item, added, Entries(old(steps)), Entries(steps))
      ensures Along(es, expanded) && (err.None? ==> |es| == |expanded|)
    {
      es, expanded, added := [], [], [];
      ExpandingStart(cfg.localizeWildcardsExpansion, item, Entries(steps));
      var paths := ExpandedPaths(item.computer, first);
      if paths.Err? {
        return Some(paths.error), es, expanded, added;
      }
      var orig := ExtractCounterInfo(item.Path());
      if orig.Err? {
        return Some(orig.error), es, expanded, added;
      }
      expanded := paths.value;
      err, es, added := ExpandAll(item, orig.value, paths.value);
    }

    /** Registers an item under its own path. */
    method AddPlain(item: Item, handle: nat) returns (ghost added: seq<Counter>)
      requires Valid() && InSync() && item.computer in view && !cfg.useWildcardsExpansion
      requires InfoOf(os.live, view[item.computer].handle, handle) == Some(CounterInfo(item.Path(), 0))
      modifies `view, `steps, hostRepr`counters
      ensures Valid() && InSync() && view.Keys == old(view).Keys
      ensures Entries(steps) == Entries(old(steps)) + EntriesFor(item.computer, added)
      ensures Follows(cfg, item, ItemOutcome(None, [], added))
    {
      var newItem := NewCounter(handle, item.Path(), item.computer, item.perf.objectName, item.instance, item.counter,
                                item.perf.measurement, item.perf.includeTotal, item.perf.useRawValues);
      AppendCounter(item.computer, newItem);
      OneEntry(item.computer, newItem);
      added := [newItem];
    }

    /** The part of `addItem` after the host has been found. */
    method AddToHost(item: Item) returns (err: Option<Error>, ghost expanded: seq<string>, ghost added: seq<Counter>)
      requires Valid() && InSync() && item.computer in view
      modifies `view, `steps, hostRepr`counters, os`live
      ensures Valid() && InSync() && view.Keys == old(view).Keys
      ensures Entries(steps) == Entries(old(steps)) + EntriesFor(item.computer, added)
      ensures Follows(cfg, item, ItemOutcome(err, expanded, added))
    {
      ghost var before := Entries(steps);
      var r := IssueCounter(item.computer, item.Path());
      if r.Err? {
        NothingAdded(cfg, item, Some(r.error), before);
        return Some(r.error), [], [];
      }
      if cfg.useWildcardsExpansion {
        ghost var es;
        err, es, expanded, added := ExpandItem(item, r.value);
        ExpansionFollows(cfg, item, es, expanded, added, before, Entries(steps), err);
      } else {
        added := AddPlain(item, r.value);
        err, expanded := None, [];
      }
    }

    /** Registers one item with its computer's host. */
    method AddItem(item: Item) returns (err: Option<Error>, ghost expanded: seq<string>, ghost added: seq<Counter>)
      requires Valid() && InSync()
      modifies `hosts, `view, `hostRepr, `queryRepr, `cachedHostname, `steps, hostRepr`counters, queryRepr`handle,
               os`live
      ensures Valid() && InSync() && fresh(hostRepr - old(hostRepr)) && fresh(queryRepr - old(queryRepr))
      ensures view.Keys == old(view).Keys + {item.computer}
      ensures Entries(steps) == Entries(old(steps)) + EntriesFor(item.computer, added)
      ensures Follows(cfg, item, ItemOutcome(err, expanded, added))
    {
      err := RegisterHost(item.computer);
      if err.Some? {
        NothingAdded(cfg, item, err, Entries(steps));
        return err, [], [];
      }
      err, expanded, added := AddToHost(item);
    }

    /** The next item of a pass. */
    method AddNext(items: seq<Item>, i: nat, ghost outcomes: seq<ItemOutcome>)
      returns (err: Option<Error>, ghost outcomes': seq<ItemOutcome>)
      requires Valid() && InSync() && i == |outcomes| < |items|
      requires outcomes in Passes(cfg, items, base.hosts.Keys, Entries(steps), view.Keys)
      modifies `hosts, `view, `hostRepr, `queryRepr, `cachedHostname, `steps, hostRepr`counters, queryRepr`handle,
               os`live
      ensures Valid() && InSync() && fresh(hostRepr - old(hostRepr)) && fresh(queryRepr - old(queryRepr))
      ensures outcomes' in Passes(cfg, items, base.hosts.Keys, Entries(steps), view.Keys)
      ensures |outcomes'| == i + 1 && Front(outcomes') == outcomes && Last(outcomes').err == err
    {
      ghost var entries, computers := Entries(steps), view.Keys;
      ghost var expanded, added;
      err, expanded, added := AddItem(items[i]);
      PassOn(cfg, items, outcomes, base.hosts.Keys, entries, computers, ItemOutcome(err, expanded, added));
      outcomes' := outcomes + [ItemOutcome(err, expanded, added)];
    }

    /** Goes through the items; a failure stops the pass only for an object that must not miss a counter. */
    method AddEach(items: seq<Item>) returns (err: Option<Error>, ghost outcomes: seq<ItemOutcome>)
      requires Valid() && base == Now() && steps == []
      modifies `hosts, `view, `hostRepr, `queryRepr, `cachedHostname, `steps, hostRepr`counters, queryRepr`handle,
               os`live
      ensures Valid() && InSync() && fresh(hostRepr - old(hostRepr)) && fresh(queryRepr - old(queryRepr))
      ensures outcomes in Passes(cfg, items, base.hosts.Keys, Entries(steps), view.Keys)
      ensures err in Endings(items, outcomes)
    {
      ghost var hosts0, queries0 := hostRepr, queryRepr;
      outcomes := [];
      PassStart(cfg, items, base.hosts.Keys);
      for i := 0 to |items|
        invariant Valid() && InSync() && fresh(hostRepr - hosts0) && fresh(queryRepr - queries0)
        invariant |outcomes| == i && Tolerated(items, outcomes)
        invariant outcomes in Passes(cfg, items, base.hosts.Keys, Entries(steps), view.Keys)
      {
        ghost var passed := outcomes;
        err, outcomes := AddNext(items, i, outcomes);
        PassGoesOn(items, passed, outcomes);
        if err.Some? && items[i].perf.failOnMissing {
          return;
        }
      }
      PassCompletes(items, outcomes);
      err := None;
    }

    /** A pass over the items, from the present state. */
    method AddItems(items: seq<Item>) returns (err: Option<Error>, ghost outcomes: seq<ItemOutcome>)
      requires Valid()
      modifies `hosts, `view, `hostRepr, `queryRepr, `cachedHostname, `base, `steps, hostRepr`counters,
               queryRepr`handle, os`live
      ensures Valid() && InSync() && fresh(hostRepr - old(hostRepr)) && fresh(queryRepr - old(queryRepr))
      ensures base == old(Now()) && outcomes in Passes(cfg, items, base.hosts.Keys, Entries(steps), view.Keys)
      ensures err in Endings(items, outcomes)
    {
      base, steps := Now(), [];
      err, outcomes := AddEach(items);
    }

    /** The registration pass over all configured items. */
    method RegisterAll() returns (err: Option<Error>, ghost outcomes: seq<ItemOutcome>)
      requires Valid() && cfg.perfObjects != [] && sources == OrLocalhost(cfg.sources)
      modifies `hosts, `view, `hostRepr, `queryRepr, `cachedHostname, `base, `steps, hostRepr`counters,
               queryRepr`handle, os`live
      ensures Valid() && fresh(hostRepr - old(hostRepr)) && fresh(queryRepr - old(queryRepr))
      ensures base == old(Now()) && Leads(base, steps, Now())
      ensures view in Configured(cfg, old(view), outcomes, err)
    {
      var items := EnumerateItems(cfg.perfObjects, sources);
      err, outcomes := AddItems(items);
      PassConfigures(cfg, base, steps, Now(), outcomes, err);
    }

    /** Registers everything the configuration asks for. */
    method ParseConfig() returns (err: Option<Error>, ghost outcomes: seq<ItemOutcome>)
      requires Valid() && KnowsSources()
      modifies `sources, `hosts, `view, `hostRepr, `queryRepr, `cachedHostname, `base, `steps, hostRepr`counters,
               queryRepr`handle, os`live
      ensures Valid() && fresh(hostRepr - old(hostRepr)) && fresh(queryRepr - old(queryRepr))
      ensures sources == OrLocalhost(old(sources)) && KnowsSources()
      ensures base == old(Now()) && Leads(base, steps, Now())
      ensures view in Configured(cfg, old(view), outcomes, err)
    {
      if |sources| == 0 {
        sources := ["localhost"];
      }
      if |cfg.perfObjects| == 0 {
        base, steps := Now(), [];
        return Some(NoObjectsConfigured), [];
      }
      err, outcomes := RegisterAll();
    }

    // ----- Sampling

    method CollectHost(c: string) returns (err: Option<Error>)
      requires Valid() && c in view
      modifies os`live
      ensures Valid()
      ensures err.None? ==> view[c].handle != 0 && os.live == Sampled(old(os.live), {view[c].handle})
      ensures err.Some? ==> os.live == old(os.live)
    {
      err := hosts[c].query.CollectData(os);
    }

    /** A sample with its time: the query's own time if asked for and supported, the present otherwise. */
    method CollectTimed(c: string) returns (stamp: int, err: Option<Error>)
      requires Valid() && c in view
      modifies os`live, os`now
      ensures old(os.now) <= os.now && (!(cfg.usePerfCounterTime && os.vista) ==> stamp == os.now)
      ensures err.None? ==> view[c].handle != 0 && os.live == Sampled(old(os.live), {view[c].handle})
      ensures err.Some? ==> MayHaveSampled(old(os.live), view[c].handle, os.live)
    {
      if cfg.usePerfCounterTime && os.vista {
        stamp, err := hosts[c].query.CollectDataWithTime(os);
      } else {
        stamp := os.Now();
        err := hosts[c].query.CollectData(os);
      }
    }

    method Stamp(c: string, time: int)
      requires Valid() && c in view
      modifies `view, hostRepr`timestamp
      ensures Valid() && view == old(view)[c := old(view[c]).(timestamp := time)]
    {
      hosts[c].timestamp := time;
      view := view[c := view[c].(timestamp := time)];
    }

    /** Takes a sample of the host and stamps it, even if the sample failed. */
    method CollectStamped(c: string) returns (err: Option<Error>, ghost time: int)
      requires Valid() && c in view
      modifies `view, hostRepr`timestamp, os`live, os`now
      ensures Valid() && old(os.now) <= os.now && view == old(view)[c := old(view[c]).(timestamp := time)]
      ensures !(cfg.usePerfCounterTime && os.vista) ==> time == os.now
      ensures err.None? ==> old(view[c].handle) != 0 && os.live == Sampled(old(os.live), {old(view[c].handle)})
      ensures err.Some? ==> MayHaveSampled(old(os.live), old(view[c].handle), os.live)
    {
      var stamp;
      stamp, err := CollectTimed(c);
      Stamp(c, stamp);
      time := stamp;
    }

    /** The first sample after a refresh, host by host; an error in the ignore list ends it without an error. */
    method WarmUp() returns (failed: bool, err: Option<Error>, ghost remaining: set<string>, ghost order: seq<string>)
      requires Valid()
      modifies os`live
      ensures Valid() && Now() in AfterCollect(old(Now()), remaining, order)
      ensures failed <==> remaining != {}
      ensures !failed ==> err.None?
    {
      ghost var before := Now();
      var left := hosts.Keys;
      order, remaining := [], left;
      CollectStart(before);
      while left != {}
        invariant Valid() && left == remaining && remaining <= view.Keys && Apart(remaining, order)
        invariant Now() in AfterCollect(before, remaining, order)
      {
        var c :| c in left;
        ghost var now := Now();
        var e := CollectHost(c);
        if e.Some? {
          return true, CheckError(cfg.ignoredErrors, cfg.errorNames, e.value), remaining, order;
        }
        CollectStep(before, remaining, order, now, c, now.hosts[c].timestamp);
        order, left, remaining := order + [c], left - {c}, remaining - {c};
      }
      return false, None, remaining, order;
    }

    /** The sample of one host within the round; `order'` tells whether it was taken, even if the call failed. */
    method CollectNext(c: string, ghost before: World, ghost remaining: set<string>, ghost order: seq<string>)
      returns (err: Option<Error>, ghost order': seq<string>)
      requires Valid() && c in view && c in remaining && Apart(remaining, order)
      requires Now() in AfterCollect(before, remaining, order)
      modifies `view, hostRepr`timestamp, os`live, os`now
      ensures Valid() && old(os.now) <= os.now && view.Keys == old(view).Keys
      ensures err.None? ==> Apart(remaining - {c}, order') && Now() in AfterCollect(before, remaining - {c}, order')
      ensures err.Some? ==> Now() in AfterCollect(before, remaining, order')
    {
      ghost var now := Now();
      ghost var time;
      err, time := CollectStamped(c);
      order' := CollectEnds(before, remaining, order, now, c, time, err.Some?, os.live);
    }

    /** The sample of this round, host by host. */
    method CollectAll() returns (err: Option<Error>, ghost remaining: set<string>, ghost order: seq<string>)
      requires Valid()
      modifies `view, hostRepr`timestamp, os`live, os`now
      ensures Valid() && old(os.now) <= os.now
      ensures Now() in AfterCollect(old(Now()), remaining, order)
      ensures err.None? <==> remaining == {}
    {
      ghost var before := Now();
      var left := hosts.Keys;
      order, remaining := [], left;
      CollectStart(before);
      while left != {}
        invariant Valid() && old(os.now) <= os.now && Apart(remaining, order)
        invariant left == remaining && remaining <= view.Keys && Now() in AfterCollect(before, remaining, order)
      {
        var c :| c in left;
        err, order := CollectNext(c, before, remaining, order);
        if err.Some? {
          return;
        }
        left, remaining := left - {c}, remaining - {c};
      }
      err := None;
    }

    // ----- Reading and publishing

    /** The next metric of a host: its reading, folded. */
    method ReadNext(ghost host: HostState, handle: nat, metric: Counter, local: Local, ghost job: Job,
                    ghost before: seq<Read>)
      returns (progress: Progress, ghost job': Job)
      requires job in JobsAt(cfg.useWildcardsExpansion, host, Running(local), os.live, before, os.trace)
      requires handle == host.handle && |job.readings| < |host.counters| && metric == host.counters[|job.readings|]
      modifies os`trace
      ensures job' in JobsAt(cfg.useWildcardsExpansion, host, progress, os.live, before, os.trace)
      ensures |job'.readings| == |job.readings| + 1
    {
      ghost var now := os.trace;
      var reading := os.ReadCounter(handle, metric.handle, cfg.useWildcardsExpansion);
      progress := ProcessMetric(cfg.useWildcardsExpansion, metric, reading, local);
      ReadStep(job, cfg.useWildcardsExpansion, host, local, os.live, before, now, reading);
      job' := job.(readings := job.readings + [reading]);
    }

    /** Reads one host's metrics, folds them and hands out its records; a fatal error abandons the host. */
    method GatherComputerCounters(c: string) returns (records: seq<Record>, ghost job: Job, ghost taken: seq<Reading>)
      requires Valid() && c in view
      modifies os`trace
      ensures WorksOn(job, cfg.useWildcardsExpansion, view[c]) && Took(job, taken)
      ensures os.trace == old(os.trace) + ReadsOf(os.live, view[c], taken)
      ensures multiset(records) == multiset(Published(job))
    {
      ghost var state := view[c];
      var host := hosts[c];
      var handle, metrics := host.query.handle, host.counters;
      job := Job(cfg.useWildcardsExpansion, metrics, [], host.tag, host.timestamp);
      var local := Local(None, map[]);
      NothingReadYet(cfg.useWildcardsExpansion, state, os.live, os.trace);
      for i := 0 to |metrics|
        invariant |job.readings| == i
        invariant job in JobsAt(cfg.useWildcardsExpansion, state, Running(local), os.live, old(os.trace), os.trace)
      {
        var progress;
        progress, job := ReadNext(state, handle, metrics[i], local, job, old(os.trace));
        if progress.Aborted? {
          AbandonedJob(job, cfg.useWildcardsExpansion, state, progress.error, os.live, old(os.trace), os.trace);
          return [], Completed(job), job.readings;
        }
        local := progress.local;
      }
      FinishedJob(job, cfg.useWildcardsExpansion, state, local, os.live, old(os.trace), os.trace);
      taken := job.readings;
      records := EmitRecords(local.fields, host.tag, host.timestamp);
    }

    /** Gathers one more host and publishes its records. */
    method GatherHost(c: string, ghost left: set<string>, ghost work: Work, ghost trace: seq<Read>,
                      ghost before: seq<Record>)
      returns (ghost work': Work)
      requires Valid() && c in left && c in view
      requires work in Doings(cfg, Now(), left, trace, before, os.trace, published)
      modifies `published, os`trace
      ensures work' in Doings(cfg, Now(), left - {c}, trace, before, os.trace, published)
    {
      ghost var job, readings, now := *, *, os.trace;
      var records;
      records, job, readings := GatherComputerCounters(c);
      WorkStep(cfg, Now(), left, work, c, job, readings, trace, before, now, published, records);
      published := published + records;
      work' := Then(work, c, job, readings);
    }

    /**
     The gathering phase, one host after the other in any order. Every interleaving of the goroutines
     publishes the same records: Goroutines.EveryInterleavingIsSequential.
     */
    method GatherHosts() returns (ghost work: Work)
      requires Valid()
      modifies `published, os`trace
      ensures Valid() && work in Doings(cfg, Now(), {}, old(os.trace), old(published), os.trace, published)
    {
      ghost var w, trace, before := Now(), os.trace, published;
      var left := hosts.Keys;
      work := Idle;
      NothingDone(cfg, w, trace, before);
      while left != {}
        invariant left <= view.Keys && Now() == w && work in Doings(cfg, w, left, trace, before, os.trace, published)
      {
        var c :| c in left;
        work := GatherHost(c, left, work, trace, before);
        left := left - {c};
      }
    }

    // ----- Gather

    /** Forgets all hosts and registers them anew. */
    method Reparse() returns (err: Option<Error>, ghost pass: Pass, ghost attempt: Attempt)
      requires Valid() && KnowsSources() && RefreshDue(lastRefreshed, cfg.refreshInterval, os.now)
      modifies `sources, `hosts, `view, `hostRepr, `queryRepr, `cachedHostname, `base, `steps,
               hostRepr`counters, queryRepr`handle, os`live
      ensures Valid() && KnowsSources() && fresh(hostRepr - old(hostRepr)) && fresh(queryRepr - old(queryRepr))
      ensures err.Some? ==> Failed(attempt, err) && Current() in AfterAttempt(cfg, old(Current()), attempt)
      ensures err.None? ==> Now() in AfterParse(cfg, old(Current()), pass, None)
    {
      ghost var before, hosts0, queries0 := Current(), hostRepr, queryRepr;
      ghost var closed;
      err, closed := CleanQueries();
      pass, attempt := Pass(closed, Now(), [], []), NotDue;
      if err.Some? {
        attempt := CleanFailed(closed, err.value);
        CleanFails(cfg, before, closed, Current(), err.value);
      } else {
        ghost var outcomes;
        err, outcomes := ParseConfig();
        pass := Pass(closed, base, steps, outcomes);
        Parses(cfg, before, pass, err, Now());
        if err.Some? {
          attempt := ParseFailed(pass, err.value);
          ParseFails(cfg, before, pass, err.value, Current());
        }
        assert fresh(hostRepr - hosts0) && fresh(queryRepr - queries0);
      }
    }

    /** Whether the counters are due for a refresh now. */
    method CheckDue() returns (due: bool)
      requires Valid()
      modifies os`now
      ensures Valid() && old(os.now) <= os.now && due == RefreshDue(lastRefreshed, cfg.refreshInterval, os.now)
    {
      var now := os.Now();
      due := lastRefreshed.None? || (cfg.refreshInterval > 0 && lastRefreshed.value + cfg.refreshInterval < now);
    }

    method MarkRefreshed()
      requires Valid()
      modifies `lastRefreshed, os`now
      ensures Valid() && old(os.now) <= os.now && lastRefreshed == Some(os.now)
    {
      var now := os.Now();
      lastRefreshed := Some(now);
    }

    /** The first sample after the registration, which completes the refresh. */
    method CompleteRefresh(ghost before: State, ghost pass: Pass)
      returns (done: bool, err: Option<Error>, ghost attempt: Attempt)
      requires Valid() && RefreshDue(before.lastRefreshed, cfg.refreshInterval, before.now)
      requires lastRefreshed == before.lastRefreshed && os.now == before.now
      requires Now() in AfterParse(cfg, before, pass, None)
      modifies `lastRefreshed, os`live, os`now
      ensures Valid() && Current() in AfterAttempt(cfg, before, attempt)
      ensures if done then attempt.Refreshed? && err.None? else attempt.WarmUpFailed?
    {
      ghost var parsed := Now();
      ghost var remaining, order;
      var failed;
      failed, err, remaining, order := WarmUp();
      if failed {
        done, attempt := false, WarmUpFailed(pass, parsed, Sampling(remaining, order));
        WarmUpFails(cfg, before, pass, parsed, Sampling(remaining, order), Current());
      } else {
        MarkRefreshed();
        done, attempt := true, Refreshed(pass, parsed, Sampling(remaining, order));
        RefreshCompletes(cfg, before, pass, parsed, Sampling(remaining, order), Current());
      }
    }

    /** Refreshes all hosts and takes their first sample. */
    method Refresh() returns (done: bool, err: Option<Error>, ghost attempt: Attempt)
      requires Valid() && KnowsSources() && RefreshDue(lastRefreshed, cfg.refreshInterval, os.now)
      modifies `sources, `hosts, `view, `hostRepr, `queryRepr, `cachedHostname, `base, `steps, `lastRefreshed,
               hostRepr`counters, queryRepr`handle, os`live, os`now
      ensures Valid() && KnowsSources() && fresh(hostRepr - old(hostRepr)) && fresh(queryRepr - old(queryRepr))
      ensures Current() in AfterAttempt(cfg, old(Current()), attempt)
      ensures if done then attempt.Refreshed? && err.None? else attempt.WarmUpFailed? || Failed(attempt, err)
    {
      ghost var before, hosts0, queries0 := Current(), hostRepr, queryRepr;
      ghost var pass;
      done := false;
      err, pass, attempt := Reparse();
      assert fresh(hostRepr - hosts0) && fresh(queryRepr - queries0);
      if err.None? {
        done, err, attempt := CompleteRefresh(before, pass);
      }
    }

    /** The head of Gather: a refresh if one is due. */
    method RefreshIfDue() returns (ready: bool, err: Option<Error>, ghost attempt: Attempt)
      requires Valid() && KnowsSources()
      modifies `sources, `hosts, `view, `hostRepr, `queryRepr, `cachedHostname, `base, `steps, `lastRefreshed,
               hostRepr`counters, queryRepr`handle, os`live, os`now
      ensures Valid() && KnowsSources() && fresh(hostRepr - old(hostRepr)) && fresh(queryRepr - old(queryRepr))
      ensures Current() in AfterAttempt(cfg, old(Current()), attempt)
      ensures ready <==> attempt.NotDue? || attempt.Refreshed?
      ensures !ready ==> attempt.WarmUpFailed? || Failed(attempt, err)
    {
      ghost var before := Current();
      var due := CheckDue();
      if due {
        ghost var checked := Current();
        ready, err, attempt := Refresh();
        AttemptLater(cfg, before, checked, attempt, Current());
      } else {
        ready, err, attempt := true, None, NotDue;
        RefreshNotDue(cfg, before, Current());
      }
    }

    /** The part of Gather after the refresh: one sample of every host. */
    method Sample(ghost before: State, ghost attempt: Attempt) returns (err: Option<Error>, ghost round: Round)
      requires Valid() && before in SafeStates(cfg) && Current() in AfterAttempt(cfg, before, attempt)
      requires attempt.NotDue? || attempt.Refreshed?
      modifies `view, hostRepr`timestamp, os`live, os`now
      ensures Valid() && Current() in AfterRound(cfg, before, round) && Returns(round, err)
      ensures round.attempt == attempt && round.middle == old(Current())
      ensures if err.None? then round.Publishes() && Warm(view, os.live, 2) else !round.Publishes()
      ensures Current() in SafeStates(cfg)
    {
      ghost var middle := Current();
      ghost var remaining, sampled;
      err, remaining, sampled := CollectAll();
      round := Round(attempt, middle, Some(Sampling(remaining, sampled)));
      RoundGoesOn(cfg, before, attempt, middle, Sampling(remaining, sampled), Current());
      RoundKeepsInv(cfg, before, round, Current());
    }

    /**
     What a publishing round has achieved: every host has worked on its own counters with the readings
     it took, the reads were safe, the records published are exactly those of the hosts' jobs, and all their
     field names are clean.
     */
    ghost predicate Achieved(work: Work, published0: seq<Record>, trace0: seq<Read>)
      reads `view, `published, os`live, os`trace
    {
      && WorkedOn(cfg, view, work) && Computers(work) == view.Keys
      && os.trace == trace0 + ReadsBy(os.live, view, work) && SafeReads(ReadsBy(os.live, view, work))
      && multiset(published) == multiset(published0) + RecordsBy(work) && CleanRecords(RecordsBy(work))
    }

    /** The work with which a round can have achieved that, or any if it did not publish. */
    ghost function Achievements(publishes: bool, published0: seq<Record>, trace0: seq<Read>): iset<Work>
      reads `view, `published, os`live, os`trace
    {
      iset work |
        if publishes then Achieved(work, published0, trace0) else published == published0 && os.trace == trace0
    }

    /** The reading and publishing, once all hosts are warm. */
    method Publish() returns (ghost work: Work)
      requires Valid() && Warm(view, os.live, 2)
      modifies `published, os`trace
      ensures Valid() && work in Achievements(true, old(published), old(os.trace))
    {
      work := GatherHosts();
      WarmWorkIsSafe(cfg, view, os.live, work);
      WarmWorkIsClean(cfg, view, os.live, work);
    }

    /** The part of Gather after the refresh. */
    method SampleAndPublish(ghost before: State, ghost attempt: Attempt)
      returns (err: Option<Error>, ghost round: Round, ghost work: Work)
      requires Valid() && before in SafeStates(cfg) && Current() in AfterAttempt(cfg, before, attempt)
      requires attempt.NotDue? || attempt.Refreshed?
      modifies `view, `published, hostRepr`timestamp, os`live, os`now, os`trace
      ensures Valid() && round in Rounds(cfg, before, Current(), err)
      ensures work in Achievements(round.Publishes(), old(published), old(os.trace))
    {
      work := Idle;
      err, round := Sample(before, attempt);
      RoundDone(cfg, before, round, Current(), err);
      if err.None? {
        work := Publish();
      }
    }

    /** What follows the refresh: nothing if it was not completed. */
    method Proceed(ready: bool, failure: Option<Error>, ghost before: State, ghost attempt: Attempt)
      returns (err: Option<Error>, ghost round: Round, ghost work: Work)
      requires Valid() && before in SafeStates(cfg) && Current() in AfterAttempt(cfg, before, attempt)
      requires ready <==> attempt.NotDue? || attempt.Refreshed?
      requires !ready ==> attempt.WarmUpFailed? || Failed(attempt, failure)
      modifies `view, `published, hostRepr`timestamp, os`live, os`now, os`trace
      ensures Valid() && round in Rounds(cfg, before, Current(), err)
      ensures work in Achievements(round.Publishes(), old(published), old(os.trace))
    {
      work := Idle;
      if ready {
        err, round, work := SampleAndPublish(before, attempt);
      } else {
        err, round := failure, Round(attempt, Current(), None);
        RoundEnds(cfg, before, attempt, Current());
        RoundKeepsInv(cfg, before, round, Current());
        RoundDone(cfg, before, round, Current(), err);
      }
    }

    /** A refresh if due, and what follows it. */
    method GatherRound() returns (err: Option<Error>, ghost round: Round, ghost work: Work)
      requires Valid() && KnowsSources() && Current() in SafeStates(cfg)
      modifies `sources, `hosts, `view, `hostRepr, `queryRepr, `cachedHostname, `base, `steps, `lastRefreshed,
               `published, hostRepr, queryRepr, os
      ensures Valid() && KnowsSources() && fresh(hostRepr - old(hostRepr)) && fresh(queryRepr - old(queryRepr))
      ensures round in Rounds(cfg, old(Current()), Current(), err)
      ensures work in Achievements(round.Publishes(), old(published), old(os.trace))
    {
      ghost var before, hosts0, queries0 := Current(), hostRepr, queryRepr;
      ghost var attempt;
      var ready, failure;
      ready, failure, attempt := RefreshIfDue();
      assert fresh(hostRepr - hosts0) && fresh(queryRepr - queries0);
      err, round, work := Proceed(ready, failure, before, attempt);
    }

    /**
     One gathering: refresh if due, sample every host, and then read and publish. Whatever call fails,
     the state reached is one of `AfterRound`, the invariant holds afterwards, and nothing is read or published
     unless every counter has been sampled twice on its host's own open query. Wherever a registration stopped, the
     hosts and counters are those of the configured items as far as it got, and its error is the one returned.
     */
    method Gather() returns (err: Option<Error>, ghost round: Round, ghost work: Work)
      requires Valid() && KnowsSources() && Current() in SafeStates(cfg)
      modifies `sources, `hosts, `view, `hostRepr, `queryRepr, `cachedHostname, `base, `steps, `lastRefreshed,
               `published, hostRepr, queryRepr, os
      ensures Valid() && KnowsSources() && fresh(hostRepr - old(hostRepr)) && fresh(queryRepr - old(queryRepr))
      ensures Current() in AfterRound(cfg, old(Current()), round) && Returns(round, err)
      ensures Current() in SafeStates(cfg)
      ensures round.attempt.ParseFailed? ==>
                err.Some? && round.middle.hosts in Configured(cfg, map[], round.attempt.pass.outcomes, err)
      ensures round.attempt.WarmUpFailed? || round.attempt.Refreshed? ==>
                round.middle.hosts in Configured(cfg, map[], round.attempt.pass.outcomes, None)
      ensures !round.Publishes() ==> published == old(published) && os.trace == old(os.trace)
      ensures round.Publishes() ==> Achieved(work, old(published), old(os.trace))
    {
      ghost var before := Current();
      err, round, work := GatherRound();
      RoundRegisters(cfg, before, round, Current(), err);
    }

    /** One more call of Gather in a history of them. */
    method GatherAgain(ghost states: seq<State>, ghost rounds: seq<Round>, results: seq<Option<Error>>)
      returns (ghost states': seq<State>, ghost rounds': seq<Round>, results': seq<Option<Error>>)
      requires Valid() && KnowsSources() && Current() in SafeStates(cfg)
      requires |states| == |rounds| + 1 && states in Runs(cfg, rounds, results) && Last(states) == Current()
      requires SafeReads(os.trace) && CleanRecords(multiset(published))
      modifies `sources, `hosts, `view, `hostRepr, `queryRepr, `cachedHostname, `base, `steps, `lastRefreshed,
               `published, hostRepr, queryRepr, os
      ensures Valid() && KnowsSources() && fresh(hostRepr - old(hostRepr)) && fresh(queryRepr - old(queryRepr))
      ensures Current() in SafeStates(cfg)
      ensures |states'| == |rounds'| + 1 == |states| + 1 && states' in Runs(cfg, rounds', results')
              && Last(states') == Current()
      ensures SafeReads(os.trace) && CleanRecords(multiset(published))
    {
      ghost var round, work;
      var err;
      ghost var trace, before := os.trace, published;
      err, round, work := Gather();
      RoundIsSafe(Now(), trace, os.trace, before, published, work);
      RunOn(cfg, states, rounds, results, round, err, Current());
      states', rounds', results' := states + [Current()], rounds + [round], results + [err];
    }
  }

  /**
   The program's main loop: a fresh collector on which Gather is called over and over. Its history is
   a run in the sense of GatherRuns, no read in it ever touched a dead or cold counter, and no record was ever
   published with a field name that the sanitizer would change.
   */
  method GatherRepeatedly(cfg: Config, os: Os, n: nat)
    returns (ghost states: seq<State>, ghost rounds: seq<Round>, results: seq<Option<Error>>, published: seq<Record>)
    requires os.live == map[] && os.trace == []
    modifies os
    ensures |rounds| == n && Run(cfg, states, rounds, results) && Last(states).live == os.live
    ensures SafeReads(os.trace) && CleanRecords(multiset(published))
  {
    var collector := new WinPerfCounters(cfg, os);
    states, rounds, results := [collector.Current()], [], [];
    RunStart(cfg, collector.Current());
    for i := 0 to n
      invariant fresh(collector) && collector.os == os && collector.cfg == cfg
      invariant fresh(collector.hostRepr) && fresh(collector.queryRepr)
      invariant collector.Valid() && collector.KnowsSources() && collector.Current() in SafeStates(cfg)
      invariant |rounds| == i && |states| == i + 1 && states in Runs(cfg, rounds, results)
      invariant Last(states) == collector.Current()
      invariant SafeReads(os.trace) && CleanRecords(multiset(collector.published))
    {
      states, rounds, results := collector.GatherAgain(states, rounds, results);
    }
    published := collector.published;
  }
}
