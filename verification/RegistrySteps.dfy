/** A registration pass as the sequence of its atomic steps on hosts and open queries. */
module RegistrySteps {
  import opened Errors
  import opened CounterPath
  import opened Gathering
  import opened Configuration
  import opened Registration
  import opened Pdh
  import opened HostStates

  /** A host is filed with the handle its query got, or with none if opening it failed; it is never opened later. */
  datatype Step =
    | Register(c: string, tag: string, handle: nat)
    | Issue(c: string, counter: nat, path: string)
    | Append(c: string, item: Counter)

  /** What the environment and the program guarantee about a step when it is taken. */
  ghost predicate Legal(w: World, s: Step) {
    match s
    case Register(c, tag, handle) =>
      c !in w.hosts && (c != "localhost" ==> tag == c) && (handle != 0 ==> handle !in w.live)
    case Issue(c, counter, path) =>
      c in w.hosts && w.hosts[c].handle in w.live && counter !in w.live[w.hosts[c].handle]
    case Append(c, item) =>
      c in w.hosts && w.hosts[c].handle in w.live && BelongsTo(item, w.live[w.hosts[c].handle])
  }

  function Filed(w: World, c: string, tag: string, handle: nat): World {
    World(w.hosts[c := HostState(handle, [], tag, 0)], WithQuery(w.live, handle))
  }

  lemma FiledHosts(w: World, c: string, tag: string, handle: nat)
    ensures Filed(w, c, tag, handle).hosts.Keys == w.hosts.Keys + {c}
            && Filed(w, c, tag, handle).hosts[c].handle == handle
  {
  }

  ghost function ApplyOne(w: World, s: Step): World
    requires Legal(w, s)
  {
    match s
    case Register(c, tag, handle) => Filed(w, c, tag, handle)
    case Issue(c, counter, path) => w.(live := WithCounter(w.live, w.hosts[c].handle, counter, path))
    case Append(c, item) => AppendedTo(w, c, item)
  }

  /** The worlds that a sequence of legal steps leads to. */
  ghost predicate Leads(w: World, steps: seq<Step>, after: World) {
    if steps == [] then after == w
    else exists mid :: Leads(w, Front(steps), mid) && Legal(mid, Last(steps)) && after == ApplyOne(mid, Last(steps))
  }

  lemma LeadsOn(w: World, steps: seq<Step>, mid: World, s: Step)
    requires Leads(w, steps, mid) && Legal(mid, s)
    ensures Leads(w, steps + [s], ApplyOne(mid, s))
  {
    assert Front(steps + [s]) == steps;
  }

  /** Filing a host and then opening its query is filing it with the query's handle. */
  lemma OpenedWhenFiled(hosts: Hosts, c: string, tag: string, handle: nat)
    ensures hosts[c := HostState(0, [], tag, 0)][c := HostState(0, [], tag, 0).(handle := handle)] ==
            hosts[c := HostState(handle, [], tag, 0)]
  {
  }

  lemma FilingKeepsConsistent(hosts: Hosts, live: Live, c: string, tag: string, handle: nat)
    requires Consistent(hosts, live) && c !in hosts && (handle != 0 ==> handle !in live)
    ensures Consistent(hosts[c := HostState(handle, [], tag, 0)], WithQuery(live, handle))
  {
    var filed := hosts[c := HostState(0, [], tag, 0)];
    RegisteringKeepsConsistent(hosts, live, c, HostState(0, [], tag, 0));
    if handle != 0 {
      OpeningKeepsConsistent(filed, live, c, handle);
      OpenedWhenFiled(hosts, c, tag, handle);
    }
  }

  lemma StepKeepsConsistent(w: World, s: Step)
    requires Consistent(w.hosts, w.live) && Legal(w, s)
    ensures Consistent(ApplyOne(w, s).hosts, ApplyOne(w, s).live)
  {
    match s
    case Register(c, tag, handle) => FilingKeepsConsistent(w.hosts, w.live, c, tag, handle);
    case Issue(c, counter, path) => IssuingKeepsConsistent(w.hosts, w.live, w.hosts[c].handle, counter, path);
    case Append(c, item) => AppendingKeepsConsistent(w.hosts, w.live, c, item);
  }

  /**
   However far a registration pass gets, no handle is leaked or shared and every counter belongs to its host's query
   under its own path.
   */
  lemma {:induction false} StepsKeepConsistent(w: World, steps: seq<Step>, after: World)
    requires Consistent(w.hosts, w.live) && Leads(w, steps, after)
    ensures Consistent(after.hosts, after.live)
  {
    if steps != [] {
      var mid :| Leads(w, Front(steps), mid) && Legal(mid, Last(steps)) && after == ApplyOne(mid, Last(steps));
      StepsKeepConsistent(w, Front(steps), mid);
      StepKeepsConsistent(mid, Last(steps));
    }
  }

  /** A counter together with the computer it was registered for. */
  datatype Entry = Entry(c: string, item: Counter)

  /** The counters appended by the steps, in order. */
  function Entries(steps: seq<Step>): seq<Entry> {
    if steps == [] then []
    else Entries(Front(steps)) + if Last(steps).Append? then [Entry(Last(steps).c, Last(steps).item)] else []
  }

  lemma EntriesOn(steps: seq<Step>, s: Step)
    ensures s.Append? ==> Entries(steps + [s]) == Entries(steps) + [Entry(s.c, s.item)]
    ensures !s.Append? ==> Entries(steps + [s]) == Entries(steps)
  {
    assert Front(steps + [s]) == steps;
  }

  function ForComputer(entries: seq<Entry>, c: string): seq<Counter> {
    if entries == [] then []
    else ForComputer(Front(entries), c) + if Last(entries).c == c then [Last(entries).item] else []
  }

  lemma ForComputerOn(entries: seq<Entry>, e: Entry, c: string)
    ensures ForComputer(entries + [e], c) == ForComputer(entries, c) + if e.c == c then [e.item] else []
  {
    assert Front(entries + [e]) == entries;
  }

  /** What one step does to a host that is there. */
  lemma StepAt(w: World, s: Step, c: string)
    requires Legal(w, s) && c in w.hosts
    ensures c in ApplyOne(w, s).hosts
    ensures var before, after := w.hosts[c], ApplyOne(w, s).hosts[c];
            && after == before.(counters := after.counters)
            && after.counters == if s.Append? && s.c == c then before.counters + [s.item] else before.counters
  {
  }

  /** What one more step adds to the entries of a computer. */
  lemma EntriesAt(steps: seq<Step>, c: string)
    requires steps != []
    ensures var front, s := Front(steps), Last(steps);
            ForComputer(Entries(steps), c) ==
            if s.Append? && s.c == c then ForComputer(Entries(front), c) + [s.item] else ForComputer(Entries(front), c)
  {
    var front, s := Front(steps), Last(steps);
    assert steps == front + [s];
    EntriesOn(front, s);
    if s.Append? {
      ForComputerOn(Entries(front), Entry(s.c, s.item), c);
      assert ForComputer(Entries(front), c) + [] == ForComputer(Entries(front), c);
    }
  }

  /** The host has got these counters on top of those it had, if it was there, and nothing else has changed for it. */
  ghost predicate Grown(before: Hosts, after: Hosts, c: string, more: seq<Counter>) {
    && c in after
    && after[c].counters == CountersOf(before, c) + more
    && (c in before ==> after[c] == before[c].(counters := after[c].counters))
    && (c !in before && c != "localhost" ==> after[c].tag == c)
  }

  lemma GrowOn(before: Hosts, w: World, s: Step, c: string, more: seq<Counter>)
    requires Legal(w, s) && c in w.hosts && Grown(before, w.hosts, c, more)
    ensures Grown(before, ApplyOne(w, s).hosts, c, if s.Append? && s.c == c then more + [s.item] else more)
  {
    StepAt(w, s, c);
    if s.Append? {
      assert CountersOf(before, c) + more + [s.item] == CountersOf(before, c) + (more + [s.item]);
    }
  }

  lemma GrowFirst(before: Hosts, w: World, s: Step, c: string)
    requires Legal(w, s) && c !in w.hosts && c !in before && c in ApplyOne(w, s).hosts
    ensures s.Register? && Grown(before, ApplyOne(w, s).hosts, c, [])
  {
  }

  /** A host's counters are what was appended for its computer, and nothing else changes for a host that was there. */
  lemma {:induction false} StepsRegister(w: World, steps: seq<Step>, after: World, c: string)
    requires Leads(w, steps, after) && c in after.hosts
    ensures Grown(w.hosts, after.hosts, c, ForComputer(Entries(steps), c))
  {
    if steps == [] {
      assert CountersOf(w.hosts, c) + [] == CountersOf(w.hosts, c);
    } else {
      var front, s := Front(steps), Last(steps);
      var mid :| Leads(w, front, mid) && Legal(mid, s) && after == ApplyOne(mid, s);
      EntriesAt(steps, c);
      if c in mid.hosts {
        StepsRegister(w, front, mid, c);
        GrowOn(w.hosts, mid, s, c, ForComputer(Entries(front), c));
      } else {
        StepsFile(w, front, mid, c);
        GrowFirst(w.hosts, mid, s, c);
      }
    }
  }

  /** A host whose query could not be opened is without one to the end of the pass. */
  lemma {:induction false} FailedOpenStays(w: World, steps: seq<Step>, after: World, i: nat)
    requires Leads(w, steps, after) && i < |steps| && steps[i].Register? && steps[i].handle == 0
    ensures steps[i].c in after.hosts && after.hosts[steps[i].c].handle == 0
  {
    var front, s := Front(steps), Last(steps);
    var mid :| Leads(w, front, mid) && Legal(mid, s) && after == ApplyOne(mid, s);
    if i < |front| {
      FailedOpenStays(w, front, mid, i);
    }
  }

  /** If every query could be opened, all hosts are open to the end of the pass. */
  lemma {:induction false} OpenedStay(w: World, steps: seq<Step>, after: World, c: string)
    requires Leads(w, steps, after) && c in after.hosts
    requires (forall i :: 0 <= i < |steps| ==> !(steps[i].Register? && steps[i].handle == 0))
    requires c in w.hosts ==> w.hosts[c].handle != 0
    ensures after.hosts[c].handle != 0
  {
    if steps != [] {
      var front, s := Front(steps), Last(steps);
      var mid :| Leads(w, front, mid) && Legal(mid, s) && after == ApplyOne(mid, s);
      if c in mid.hosts {
        OpenedStay(w, front, mid, c);
        StepAt(mid, s, c);
      } else {
        assert s == steps[|steps| - 1] && s.Register? && s.c == c;
      }
    }
  }

  /** Registered hosts stay registered, and nothing is appended for others. */
  lemma {:induction false} StepsFile(w: World, steps: seq<Step>, after: World, c: string)
    requires Leads(w, steps, after)
    ensures c in w.hosts ==> c in after.hosts
    ensures c !in after.hosts ==> ForComputer(Entries(steps), c) == []
  {
    if steps != [] {
      var front, s := Front(steps), Last(steps);
      var mid :| Leads(w, front, mid) && Legal(mid, s) && after == ApplyOne(mid, s);
      StepsFile(w, front, mid, c);
      EntriesAt(steps, c);
    }
  }

  // ----- The entries that a pass over the items leaves

  function EntriesFor(c: string, added: seq<Counter>): seq<Entry> {
    if added == [] then [] else EntriesFor(c, Front(added)) + [Entry(c, Last(added))]
  }

  lemma NoEntries(before: seq<Entry>, c: string)
    ensures before + EntriesFor(c, []) == before
  {
  }

  lemma OneEntry(c: string, item: Counter)
    ensures EntriesFor(c, [item]) == [Entry(c, item)]
  {
    assert Front([item]) == [];
  }

  lemma {:induction false} EntriesForSplit(before: seq<Entry>, c: string, a: seq<Counter>, b: seq<Counter>)
    ensures before + EntriesFor(c, a) + EntriesFor(c, b) == before + EntriesFor(c, a + b)
    decreases b
  {
    if b == [] {
      assert a + b == a;
    } else {
      EntriesForSplit(before, c, a, Front(b));
      assert Front(a + b) == a + Front(b);
      assert before + EntriesFor(c, a + b) == before + EntriesFor(c, a + Front(b)) + [Entry(c, Last(b))];
      assert before + EntriesFor(c, a) + EntriesFor(c, b)
             == before + EntriesFor(c, a) + EntriesFor(c, Front(b)) + [Entry(c, Last(b))];
    }
  }

  /** A wildcard item has registered the kept ones among the expansions es. */
  ghost predicate Expanding(localize: bool, item: Item, es: seq<Expansion>, added: seq<Counter>, before: seq<Entry>,
                            now: seq<Entry>) {
    && Parsable(item, es) && added == ExpandedCounters(localize, item, es)
    && now == before + EntriesFor(item.computer, added)
  }

  /** The expansions with which a wildcard item can have got there. */
  ghost function Expansions(localize: bool, item: Item, added: seq<Counter>, before: seq<Entry>, now: seq<Entry>)
    : iset<seq<Expansion>>
  {
    iset es | Expanding(localize, item, es, added, before, now)
  }

  lemma ExpandingStart(localize: bool, item: Item, before: seq<Entry>)
    ensures [] in Expansions(localize, item, [], before, before)
  {
  }

  lemma ExpandingOn(localize: bool, item: Item, es: seq<Expansion>, added: seq<Counter>, before: seq<Entry>,
                    now: seq<Entry>, e: Expansion, more: seq<Counter>)
    requires es in Expansions(localize, item, added, before, now) && Parse(item.Path()).Ok?
    ensures more == [] ==> now + EntriesFor(item.computer, more) == now
    ensures Parse(e.path).Ok? && more == (if Kept(item, e.path) then [ExpandedCounter(localize, item, e)] else []) ==>
              es + [e] in Expansions(localize, item, added + more, before, now + EntriesFor(item.computer, more))
  {
    EntriesForSplit(before, item.computer, added, more);
    if Parse(e.path).Ok? {
      ExpandedOn(localize, item, es, e);
    }
  }

  /** An item that failed before registering anything. */
  lemma NothingAdded(cfg: Config, item: Item, err: Option<Error>, entries: seq<Entry>)
    requires err.Some?
    ensures Follows(cfg, item, ItemOutcome(err, [], [])) && entries + EntriesFor(item.computer, []) == entries
  {
    assert FollowsPaths(cfg.localizeWildcardsExpansion, item, ItemOutcome(err, [], []), []);
  }

  lemma ExpansionFollows(cfg: Config, item: Item, es: seq<Expansion>, paths: seq<string>, added: seq<Counter>,
                         before: seq<Entry>, now: seq<Entry>, err: Option<Error>)
    requires cfg.useWildcardsExpansion && es in Expansions(cfg.localizeWildcardsExpansion, item, added, before, now)
    requires Along(es, paths) && (err.None? ==> |es| == |paths|)
    ensures Follows(cfg, item, ItemOutcome(err, paths, added)) && now == before + EntriesFor(item.computer, added)
  {
    assert FollowsPaths(cfg.localizeWildcardsExpansion, item, ItemOutcome(err, paths, added), es);
  }

  function PassEntries(items: seq<Item>, outcomes: seq<ItemOutcome>): seq<Entry>
    requires |outcomes| <= |items|
  {
    if outcomes == [] then []
    else PassEntries(items, Front(outcomes)) + EntriesFor(items[|outcomes| - 1].computer, Last(outcomes).added)
  }

  lemma SplitLast<T>(a: seq<T>, b: seq<T>)
    requires b != []
    ensures a + b == a + Front(b) + [Last(b)] && b == Front(b) + [Last(b)]
  {
  }

  lemma Reassociate<T>(a: seq<T>, b: seq<T>, c: seq<T>)
    ensures a + (b + c) == a + b + c
  {
  }

  lemma {:induction false} ForComputerSplit(a: seq<Entry>, b: seq<Entry>, c: string)
    ensures ForComputer(a + b, c) == ForComputer(a, c) + ForComputer(b, c)
    decreases b
  {
    if b == [] {
      assert a + b == a;
    } else {
      var front, last := Front(b), Last(b);
      ForComputerSplit(a, front, c);
      ForComputerOn(a + front, last, c);
      ForComputerOn(front, last, c);
      SplitLast(a, b);
      Reassociate(ForComputer(a, c), ForComputer(front, c), if last.c == c then [last.item] else []);
    }
  }

  lemma {:induction false} EntriesForComputer(d: string, added: seq<Counter>, c: string)
    ensures ForComputer(EntriesFor(d, added), c) == if c == d then added else []
  {
    if added != [] {
      EntriesForComputer(d, Front(added), c);
      ForComputerOn(EntriesFor(d, Front(added)), Entry(d, Last(added)), c);
      assert added == Front(added) + [Last(added)];
    }
  }

  lemma {:induction false} PassRegisters(items: seq<Item>, outcomes: seq<ItemOutcome>, c: string)
    requires |outcomes| <= |items|
    ensures ForComputer(PassEntries(items, outcomes), c) == Registered(items, outcomes, c)
  {
    if outcomes != [] {
      PassRegisters(items, Front(outcomes), c);
      var more := EntriesFor(items[|outcomes| - 1].computer, Last(outcomes).added);
      ForComputerSplit(PassEntries(items, Front(outcomes)), more, c);
      EntriesForComputer(items[|outcomes| - 1].computer, Last(outcomes).added, c);
    }
  }

  /** Every attempted item ended as `addItem` may end on it. */
  ghost predicate AllFollow(cfg: Config, items: seq<Item>, outcomes: seq<ItemOutcome>) {
    |outcomes| <= |items| &&
    (outcomes == [] ||
     (AllFollow(cfg, items, Front(outcomes)) && Follows(cfg, items[|outcomes| - 1], Last(outcomes))))
  }

  /** Every failure among the attempted items was one to ignore. */
  ghost predicate Tolerated(items: seq<Item>, outcomes: seq<ItemOutcome>) {
    |outcomes| <= |items| &&
    (outcomes == [] ||
     (Tolerated(items, Front(outcomes)) && (Last(outcomes).err.None? || !items[|outcomes| - 1].perf.failOnMissing)))
  }

  /** The computers of the first n items. */
  function Seen(items: seq<Item>, n: nat): set<string>
    requires n <= |items|
  {
    if n == 0 then {} else Seen(items, n - 1) + {items[n - 1].computer}
  }

  /** What a pass has registered after the given outcomes, and for which computers. */
  ghost predicate PassProgress(cfg: Config, items: seq<Item>, outcomes: seq<ItemOutcome>, before: set<string>,
                               entries: seq<Entry>, computers: set<string>) {
    && AllFollow(cfg, items, outcomes)
    && entries == PassEntries(items, outcomes)
    && computers == before + Seen(items, |outcomes|)
  }

  /** The outcomes with which a pass can have got there. */
  ghost function Passes(cfg: Config, items: seq<Item>, before: set<string>, entries: seq<Entry>,
                        computers: set<string>): iset<seq<ItemOutcome>> {
    iset outcomes | PassProgress(cfg, items, outcomes, before, entries, computers)
  }

  lemma PassStart(cfg: Config, items: seq<Item>, before: set<string>)
    ensures [] in Passes(cfg, items, before, [], before)
  {
  }

  lemma PassOn(cfg: Config, items: seq<Item>, outcomes: seq<ItemOutcome>, before: set<string>, entries: seq<Entry>,
               computers: set<string>, outcome: ItemOutcome)
    requires outcomes in Passes(cfg, items, before, entries, computers) && |outcomes| < |items|
    requires Follows(cfg, items[|outcomes|], outcome)
    ensures var c := items[|outcomes|].computer;
            outcomes + [outcome] in Passes(cfg, items, before, entries + EntriesFor(c, outcome.added), computers + {c})
    ensures Front(outcomes + [outcome]) == outcomes && Last(outcomes + [outcome]) == outcome
  {
    assert Front(outcomes + [outcome]) == outcomes;
  }

  /** The pass goes through the items in order and stops only at a failure that must not be ignored. */
  ghost predicate PassEnds(items: seq<Item>, outcomes: seq<ItemOutcome>, err: Option<Error>) {
    && |outcomes| <= |items|
    && if err.None? then |outcomes| == |items| && Tolerated(items, outcomes)
       else outcomes != [] && Tolerated(items, Front(outcomes)) &&
            items[|outcomes| - 1].perf.failOnMissing && Last(outcomes).err == err
  }

  /** The results with which a pass can end after these outcomes. */
  ghost function Endings(items: seq<Item>, outcomes: seq<ItemOutcome>): iset<Option<Error>> {
    iset err | PassEnds(items, outcomes, err)
  }

  /** After one more item the pass goes on, or its failure is the end. */
  lemma PassGoesOn(items: seq<Item>, outcomes: seq<ItemOutcome>, outcomes': seq<ItemOutcome>)
    requires Tolerated(items, outcomes) && |outcomes'| == |outcomes| + 1 <= |items| && Front(outcomes') == outcomes
    ensures if Last(outcomes').err.Some? && items[|outcomes|].perf.failOnMissing
            then Last(outcomes').err in Endings(items, outcomes')
            else Tolerated(items, outcomes')
  {
  }

  lemma PassCompletes(items: seq<Item>, outcomes: seq<ItemOutcome>)
    requires Tolerated(items, outcomes) && |outcomes| == |items|
    ensures None in Endings(items, outcomes)
  {
  }

  lemma {:induction false} AllFollowAt(cfg: Config, items: seq<Item>, outcomes: seq<ItemOutcome>, i: nat)
    requires AllFollow(cfg, items, outcomes) && i < |outcomes|
    ensures Follows(cfg, items[i], outcomes[i])
  {
    if i < |outcomes| - 1 {
      AllFollowAt(cfg, items, Front(outcomes), i);
    }
  }

  /**
   Configuration expansion is exact. Whatever failed, every host's counters are, in nested-loop order,
   those that the attempted items registered for its computer; without wildcard expansion these are
   exactly the successful items.
   */
  lemma PassMeans(cfg: Config, items: seq<Item>, outcomes: seq<ItemOutcome>, before: World, steps: seq<Step>,
                  after: World, c: string)
    requires Leads(before, steps, after) && c in after.hosts
    requires PassProgress(cfg, items, outcomes, before.hosts.Keys, Entries(steps), after.hosts.Keys)
    ensures after.hosts[c].counters == CountersOf(before.hosts, c) + Registered(items, outcomes, c)
    ensures !cfg.useWildcardsExpansion ==>
              var counters, ok := Registered(items, outcomes, c), Successful(items, outcomes, c);
              |counters| == |ok| && forall i :: 0 <= i < |ok| ==> counters[i] == ItemCounter(ok[i], counters[i].handle)
  {
    StepsRegister(before, steps, after, c);
    PassRegisters(items, outcomes, c);
    if !cfg.useWildcardsExpansion {
      forall i | 0 <= i < |outcomes| ensures Follows(cfg, items[i], outcomes[i]) {
        AllFollowAt(cfg, items, outcomes, i);
      }
      RegisteredIsSuccessful(cfg, items, outcomes, c);
    }
  }

  // ----- What a whole registration leaves

  /** The hosts that a registration pass over the configuration, with these outcomes, leaves. */
  ghost function Configured(cfg: Config, before: Hosts, outcomes: seq<ItemOutcome>, err: Option<Error>): iset<Hosts> {
    iset after | ConfiguredHosts(cfg, before, outcomes, err, after)
  }

  ghost predicate ConfiguredHosts(cfg: Config, before: Hosts, outcomes: seq<ItemOutcome>, err: Option<Error>,
                                  after: Hosts) {
    if cfg.perfObjects == [] then
      err == Some(NoObjectsConfigured) && outcomes == [] && after == before
    else
      && PassEnds(AllItems(cfg), outcomes, err) && AllFollow(cfg, AllItems(cfg), outcomes)
      && after.Keys == before.Keys + Seen(AllItems(cfg), |outcomes|)
      && forall c :: c in after ==> after[c].counters == CountersOf(before, c) + Registered(AllItems(cfg), outcomes, c)
  }

  lemma PassConfigures(cfg: Config, before: World, steps: seq<Step>, after: World, outcomes: seq<ItemOutcome>,
                       err: Option<Error>)
    requires cfg.perfObjects != [] && Leads(before, steps, after) && err in Endings(AllItems(cfg), outcomes)
    requires outcomes in Passes(cfg, AllItems(cfg), before.hosts.Keys, Entries(steps), after.hosts.Keys)
    ensures after.hosts in Configured(cfg, before.hosts, outcomes, err)
  {
    var items := AllItems(cfg);
    forall c | c in after.hosts
      ensures after.hosts[c].counters == CountersOf(before.hosts, c) + Registered(items, outcomes, c)
    {
      PassMeans(cfg, items, outcomes, before, steps, after, c);
    }
  }

  /** Handles and timestamps have no part in this. */
  lemma ConfiguredStays(cfg: Config, hosts: Hosts, outcomes: seq<ItemOutcome>, err: Option<Error>, after: Hosts)
    requires hosts in Configured(cfg, map[], outcomes, err)
    requires after.Keys == hosts.Keys && forall c :: c in hosts ==> after[c].counters == hosts[c].counters
    ensures after in Configured(cfg, map[], outcomes, err)
  {
    if cfg.perfObjects == [] {
      assert hosts.Keys == {} && after == map[];
    }
  }

  /** A configuration without items has no hosts. */
  lemma NoItemsNoHosts(cfg: Config, outcomes: seq<ItemOutcome>, err: Option<Error>, hosts: Hosts)
    requires AllItems(cfg) == [] && hosts in Configured(cfg, map[], outcomes, err)
    ensures hosts == map[]
  {
    assert hosts.Keys == {};
  }

  // ----- Registrations in which no query can be opened

  /** An item that could not be registered. */
  function Missed(): ItemOutcome {
    ItemOutcome(Some(UninitializedQuery), [], [])
  }

  function AllMissed(n: nat): (outcomes: seq<ItemOutcome>)
    ensures |outcomes| == n
  {
    if n == 0 then [] else AllMissed(n - 1) + [Missed()]
  }

  /** The first n items' hosts, filed and without query. */
  function Unopened(items: seq<Item>, n: nat): Hosts
    requires n <= |items|
  {
    map c | c in Seen(items, n) :: HostState(0, [], c, 0)
  }

  function Filing(items: seq<Item>, n: nat): seq<Step>
    requires n <= |items|
  {
    if n == 0 then []
    else
      var c := items[n - 1].computer;
      Filing(items, n - 1) + if c in Seen(items, n - 1) then [] else [Register(c, c, 0)]
  }

  lemma UnopenedOn(items: seq<Item>, n: nat)
    requires 0 < n <= |items|
    ensures var c := items[n - 1].computer;
            if c in Seen(items, n - 1) then Unopened(items, n) == Unopened(items, n - 1)
            else World(Unopened(items, n), map[]) == Filed(World(Unopened(items, n - 1), map[]), c, c, 0)
  {
    var c := items[n - 1].computer;
    assert Seen(items, n) == Seen(items, n - 1) + {c};
  }

  lemma {:induction false} FilingLeads(items: seq<Item>, n: nat)
    requires n <= |items|
    ensures Leads(World(map[], map[]), Filing(items, n), World(Unopened(items, n), map[]))
  {
    if n == 0 {
      assert Unopened(items, 0) == map[];
    } else {
      FilingLeads(items, n - 1);
      UnopenedOn(items, n);
      var c, front := items[n - 1].computer, Filing(items, n - 1);
      if c in Seen(items, n - 1) {
        assert front + [] == front;
      } else {
        LeadsOn(World(map[], map[]), front, World(Unopened(items, n - 1), map[]), Register(c, c, 0));
      }
    }
  }

  lemma {:induction false} MissedFollow(cfg: Config, items: seq<Item>, n: nat)
    requires n <= |items|
    ensures AllFollow(cfg, items, AllMissed(n))
  {
    if n > 0 {
      MissedFollow(cfg, items, n - 1);
      NothingAdded(cfg, items[n - 1], Missed().err, []);
      assert Front(AllMissed(n)) == AllMissed(n - 1);
    }
  }

  lemma {:induction false} MissedRegisterNothing(items: seq<Item>, n: nat, c: string)
    requires n <= |items|
    ensures Registered(items, AllMissed(n), c) == []
  {
    if n > 0 {
      MissedRegisterNothing(items, n - 1, c);
      assert AllMissed(n)[..n - 1] == AllMissed(n - 1);
    }
  }

  lemma {:induction false} MissedTolerated(items: seq<Item>, n: nat)
    requires n <= |items| && forall i :: 0 <= i < n ==> !items[i].perf.failOnMissing
    ensures Tolerated(items, AllMissed(n))
  {
    if n > 0 {
      MissedTolerated(items, n - 1);
      assert Front(AllMissed(n)) == AllMissed(n - 1);
    }
  }

  /** How many items are attempted if each fails: those up to the first that must not be missed. */
  function Attempts(items: seq<Item>, n: nat): (m: nat)
    requires n <= |items| && forall i :: 0 <= i < n ==> !items[i].perf.failOnMissing
    ensures n <= m <= |items| && (n < |items| ==> n < m)
    ensures forall i :: 0 <= i < m - 1 ==> !items[i].perf.failOnMissing
    ensures m < |items| ==> items[m - 1].perf.failOnMissing
    decreases |items| - n
  {
    if n == |items| then n else if items[n].perf.failOnMissing then n + 1 else Attempts(items, n + 1)
  }

  /** How such a registration ends. */
  function MissedError(items: seq<Item>): Option<Error> {
    var m := Attempts(items, 0);
    if m > 0 && items[m - 1].perf.failOnMissing then Missed().err else None
  }

  lemma MissedEnds(items: seq<Item>)
    ensures PassEnds(items, AllMissed(Attempts(items, 0)), MissedError(items))
  {
    var m := Attempts(items, 0);
    if m > 0 && items[m - 1].perf.failOnMissing {
      MissedTolerated(items, m - 1);
      assert Front(AllMissed(m)) == AllMissed(m - 1);
    } else {
      MissedTolerated(items, m);
    }
  }

  lemma UnopenedHoldNothing(items: seq<Item>, m: nat, c: string)
    requires m <= |items| && c in Unopened(items, m)
    ensures Unopened(items, m)[c].counters == CountersOf(map[], c) + Registered(items, AllMissed(m), c)
  {
    MissedRegisterNothing(items, m, c);
  }

  /** Such a registration leaves exactly the hosts of the attempted items, none of them open. */
  lemma UnopenedAreConfigured(cfg: Config)
    requires AllItems(cfg) != []
    ensures var items := AllItems(cfg);
            var m := Attempts(items, 0);
            Unopened(items, m) in Configured(cfg, map[], AllMissed(m), MissedError(items))
  {
    var items := AllItems(cfg);
    var m := Attempts(items, 0);
    MissedEnds(items);
    MissedFollow(cfg, items, m);
    forall c | c in Unopened(items, m)
      ensures Unopened(items, m)[c].counters == CountersOf(map[], c) + Registered(items, AllMissed(m), c)
    {
      UnopenedHoldNothing(items, m, c);
    }
  }

  // ----- Totals

  /** The number of counters that the hosts of these computers hold together. */
  ghost function HeldBy(hosts: Hosts, computers: seq<string>): nat
    requires forall i :: 0 <= i < |computers| ==> computers[i] in hosts
  {
    if computers == [] then 0 else HeldBy(hosts, Front(computers)) + |hosts[Last(computers)].counters|
  }

  lemma {:induction false} HeldAreSuccessful(cfg: Config, items: seq<Item>, outcomes: seq<ItemOutcome>, hosts: Hosts,
                                             computers: seq<string>)
    requires !cfg.useWildcardsExpansion && AllFollow(cfg, items, outcomes)
    requires forall i :: 0 <= i < |computers| ==>
               computers[i] in hosts && hosts[computers[i]].counters == Registered(items, outcomes, computers[i])
    ensures HeldBy(hosts, computers) == SuccessCount(items, outcomes, computers)
    decreases computers
  {
    if computers != [] {
      HeldAreSuccessful(cfg, items, outcomes, hosts, Front(computers));
      forall i | 0 <= i < |outcomes| ensures Follows(cfg, items[i], outcomes[i]) {
        AllFollowAt(cfg, items, outcomes, i);
      }
      RegisteredIsSuccessful(cfg, items, outcomes, Last(computers));
    }
  }

  lemma {:induction false} SeenAt(items: seq<Item>, n: nat, i: nat)
    requires i < n <= |items|
    ensures items[i].computer in Seen(items, n)
  {
    if i < n - 1 {
      SeenAt(items, n - 1, i);
    }
  }

  /**
   If every item succeeds, without wildcard expansion, the hosts together hold computers times counters times instances
   counters, summed over the objects; `computers` lists the hosts, each once.
   */
  lemma FullExpansionTotals(cfg: Config, outcomes: seq<ItemOutcome>, hosts: Hosts, computers: seq<string>)
    requires hosts in Configured(cfg, map[], outcomes, None) && !cfg.useWildcardsExpansion
    requires forall i :: 0 <= i < |outcomes| ==> outcomes[i].err.None?
    requires forall i, j :: 0 <= i < j < |computers| ==> computers[i] != computers[j]
    requires forall c :: c in hosts <==> c in computers
    ensures HeldBy(hosts, computers) == ItemCount(cfg.perfObjects, OrLocalhost(cfg.sources))
  {
    var items := AllItems(cfg);
    forall c | c in hosts ensures hosts[c].counters == Registered(items, outcomes, c) {
      assert [] + Registered(items, outcomes, c) == Registered(items, outcomes, c);
    }
    HeldAreSuccessful(cfg, items, outcomes, hosts, computers);
    forall i | 0 <= i < |outcomes| ensures items[i].computer in computers {
      SeenAt(items, |outcomes|, i);
    }
    AllSuccessful(items, outcomes, computers);
    ItemsAreCounted(cfg.perfObjects, OrLocalhost(cfg.sources));
  }
}
