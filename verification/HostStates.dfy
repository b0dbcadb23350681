/** The collector's registered hosts as values, and what must hold between them and the open queries. */
module HostStates {
  import opened Errors
  import opened Gathering
  import opened Pdh
  import opened Configuration

  datatype HostState = HostState(handle: nat, counters: seq<Counter>, tag: string, timestamp: int)

  type Hosts = map<string, HostState>

  /** The collector between two calls of Gather. */
  datatype State = State(hosts: Hosts, live: Live, lastRefreshed: Option<nat>, now: nat)

  function Handles(hosts: Hosts, computers: set<string>): set<nat> {
    set c | c in computers && c in hosts && hosts[c].handle != 0 :: hosts[c].handle
  }

  /** No leak and no double ownership: the open queries are exactly the hosts' nonzero handles. */
  ghost predicate Owned(hosts: Hosts, live: Live) {
    && live.Keys == Handles(hosts, hosts.Keys)
    && forall c, d :: c in hosts && d in hosts && c != d && hosts[c].handle != 0 ==> hosts[c].handle != hosts[d].handle
  }

  /**
   Every counter of an open host was issued by the host's own query, under the counter's own path, and is well
   named.
   */
  ghost predicate Issued(hosts: Hosts, live: Live) {
    forall c, k :: c in hosts && hosts[c].handle in live && 0 <= k < |hosts[c].counters| ==>
      BelongsTo(hosts[c].counters[k], live[hosts[c].handle])
  }

  /** The query has issued the counter under its own path, and its values will be published under a clean name. */
  predicate BelongsTo(counter: Counter, issued: map<nat, CounterInfo>) {
    counter.handle in issued && issued[counter.handle].path == counter.path && WellNamed(counter)
  }

  ghost predicate Consistent(hosts: Hosts, live: Live) {
    Owned(hosts, live) && Issued(hosts, live)
  }

  /** Every host is open, and all its counters have been sampled at least n times since they were added. */
  ghost predicate Warm(hosts: Hosts, live: Live, n: nat) {
    && (forall c :: c in hosts ==> hosts[c].handle != 0 && hosts[c].handle in live)
    && (forall c, k :: c in hosts && 0 <= k < |hosts[c].counters| ==>
          BelongsTo(hosts[c].counters[k], live[hosts[c].handle]) &&
          live[hosts[c].handle][hosts[c].counters[k].handle].samples >= n)
  }

  /** The refresh condition at the head of Gather. */
  predicate RefreshDue(last: Option<nat>, interval: int, now: nat) {
    last.None? || (interval > 0 && last.value + interval < now)
  }

  /** The invariant of the collector: a refresh is still due, or every host is open and warmed up. */
  ghost predicate Inv(cfg: Config, s: State) {
    && Consistent(s.hosts, s.live)
    && (RefreshDue(s.lastRefreshed, cfg.refreshInterval, s.now) || Warm(s.hosts, s.live, 1))
  }

  /**
   The states that satisfy the invariant. Wherever a predicate is repeated as a set like this, callers state membership
   in place of the predicate: the verifier then keeps its definition out of their proofs, which would otherwise
   have to establish it part by part.
   */
  ghost function SafeStates(cfg: Config): iset<State> {
    iset s | Inv(cfg, s)
  }

  /** Some registered host has no open query. */
  ghost predicate Stuck(s: State) {
    exists c :: c in s.hosts && s.hosts[c].handle == 0
  }

  /** With a non-decreasing clock a due refresh stays due until it succeeds. */
  lemma DueStaysDue(last: Option<nat>, interval: int, now: nat, later: nat)
    requires RefreshDue(last, interval, now) && now <= later
    ensures RefreshDue(last, interval, later)
  {
  }

  // ----- How the steps of the collector act on these values

  function Closed(hosts: Hosts, closed: set<string>): Hosts {
    map c | c in hosts :: if c in closed then hosts[c].(handle := 0) else hosts[c]
  }

  /** The hosts and open queries as a pair. */
  datatype World = World(hosts: Hosts, live: Live)

  function CloseOne(w: World, c: string): World
    requires c in w.hosts
  {
    World(w.hosts[c := w.hosts[c].(handle := 0)], w.live - {w.hosts[c].handle})
  }

  /** Computers of w, none twice. */
  ghost predicate Order(hosts: Hosts, order: seq<string>) {
    && (forall i :: 0 <= i < |order| ==> order[i] in hosts)
    && (forall i, j :: 0 <= i < j < |order| ==> order[i] != order[j])
  }

  /** Closing the hosts' queries in the given order. */
  ghost function CloseInOrder(w: World, order: seq<string>): (r: World)
    requires Order(w.hosts, order)
    ensures r.hosts.Keys == w.hosts.Keys
  {
    if order == [] then w else CloseOne(CloseInOrder(w, Front(order)), Last(order))
  }

  /** Closing has gone through `order`, and the hosts in `remaining` are still as they were. */
  ghost predicate CloseProgress(before: World, remaining: set<string>, order: seq<string>, now: World) {
    && Order(before.hosts, order) && (forall c :: c in order ==> before.hosts[c].handle != 0)
    && (forall c :: c in before.hosts <==> c in remaining || c in order)
    && (forall c :: c in remaining ==> c !in order && c in now.hosts && now.hosts[c] == before.hosts[c])
    && now == CloseInOrder(before, order)
  }

  /** The worlds that closing in this order, with these hosts remaining, can leave. */
  ghost function WhileClosing(before: World, remaining: set<string>, order: seq<string>): iset<World> {
    iset w | CloseProgress(before, remaining, order, w)
  }

  lemma CloseStart(before: World)
    ensures before in WhileClosing(before, before.hosts.Keys, [])
  {
  }

  lemma CloseStep(before: World, remaining: set<string>, order: seq<string>, now: World, c: string)
    requires now in WhileClosing(before, remaining, order) && c in remaining && c in now.hosts
             && now.hosts[c].handle != 0
    ensures CloseOne(now, c) in WhileClosing(before, remaining - {c}, order + [c])
  {
    assert Front(order + [c]) == order;
  }

  function Elements(order: seq<string>): set<string> {
    set c | c in order
  }

  lemma {:induction false} ClosingMeans(w: World, order: seq<string>)
    requires Order(w.hosts, order) && forall c :: c in order ==> w.hosts[c].handle != 0
    ensures CloseInOrder(w, order)
            == World(Closed(w.hosts, Elements(order)), w.live - Handles(w.hosts, Elements(order)))
  {
    if order == [] {
      assert Closed(w.hosts, {}) == w.hosts;
      assert w.live - Handles(w.hosts, {}) == w.live;
    } else {
      var front, c := Front(order), Last(order);
      ClosingMeans(w, front);
      assert order == front + [c];
      assert Elements(order) == Elements(front) + {c};
      assert c !in Elements(front);
      ClosingOneMore(w.hosts, Elements(front), c);
      TwoDifferences(w.live, Handles(w.hosts, Elements(front)), w.hosts[c].handle);
    }
  }

  lemma TwoDifferences(live: Live, qs: set<nat>, q: nat)
    ensures live - qs - {q} == live - (qs + {q})
  {
  }

  lemma ClosingOneMore(hosts: Hosts, closed: set<string>, c: string)
    requires c in hosts && hosts[c].handle != 0 && c !in closed
    ensures Closed(hosts, closed)[c].handle == hosts[c].handle
    ensures Closed(hosts, closed + {c}) == Closed(hosts, closed)[c := hosts[c].(handle := 0)]
    ensures Handles(hosts, closed + {c}) == Handles(hosts, closed) + {hosts[c].handle}
  {
  }

  /** `cleanQueries`: it closed the queries in `order`, and then forgot all hosts or stopped at a failing Close. */
  ghost predicate Cleaned(before: World, order: seq<string>, after: World, err: Option<Error>) {
    && Order(before.hosts, order) && (forall c :: c in order ==> before.hosts[c].handle != 0)
    && after.live == CloseInOrder(before, order).live
    && if err.None? then after.hosts == map[] && forall c :: c in before.hosts ==> c in order
       else after.hosts == CloseInOrder(before, order).hosts && exists c :: c in before.hosts && c !in order
  }

  /** The worlds that closing in this order, with this result, can leave. */
  ghost function AfterClean(before: World, order: seq<string>, err: Option<Error>): iset<World> {
    iset w | Cleaned(before, order, w, err)
  }

  lemma CleanStops(before: World, remaining: set<string>, order: seq<string>, now: World, c: string, e: Error)
    requires now in WhileClosing(before, remaining, order) && c in remaining
    ensures now in AfterClean(before, order, Some(e))
  {
    assert c in before.hosts && c !in order;
  }

  lemma CleanCompletes(before: World, order: seq<string>, now: World)
    requires now in WhileClosing(before, {}, order)
    ensures World(map[], now.live) in AfterClean(before, order, None)
  {
  }

  /** Nothing leaks; a host without open query makes the cleaning fail, and such a host is still there then. */
  lemma CleaningKeepsConsistent(before: World, order: seq<string>, after: World, err: Option<Error>)
    requires Consistent(before.hosts, before.live) && after in AfterClean(before, order, err)
    ensures Consistent(after.hosts, after.live)
    ensures err.None? ==> after == World(map[], map[]) && forall c :: c in before.hosts ==> before.hosts[c].handle != 0
    ensures err.Some? ==> after.hosts.Keys == before.hosts.Keys &&
                          forall c :: c in before.hosts && before.hosts[c].handle == 0 ==> after.hosts[c].handle == 0
    ensures err.Some? && order != [] ==> order[0] in after.hosts && after.hosts[order[0]].handle == 0
  {
    ClosingMeans(before, order);
    ClosingKeepsConsistent(before.hosts, before.live, Elements(order));
    if err.None? {
      assert Elements(order) == before.hosts.Keys;
      ClosingAllLeavesNothing(before.hosts, before.live);
    } else if order != [] {
      assert order[0] in Elements(order);
    }
  }

  lemma ClosingKeepsConsistent(hosts: Hosts, live: Live, closed: set<string>)
    requires Consistent(hosts, live) && closed <= hosts.Keys
    ensures Consistent(Closed(hosts, closed), live - Handles(hosts, closed))
  {
    var after, rest := Closed(hosts, closed), live - Handles(hosts, closed);
    forall q | q in rest ensures q in Handles(after, after.Keys) {
      var c :| c in hosts && hosts[c].handle == q;
      assert after[c].handle == q;
    }
  }

  lemma ClosingAllLeavesNothing(hosts: Hosts, live: Live)
    requires Consistent(hosts, live)
    ensures live - Handles(hosts, hosts.Keys) == map[]
    ensures Consistent(map[], map[])
  {
  }

  /** A new host without an open query owns nothing. */
  lemma RegisteringKeepsConsistent(hosts: Hosts, live: Live, c: string, host: HostState)
    requires Consistent(hosts, live) && c !in hosts && host.handle == 0
    ensures Consistent(hosts[c := host], live)
  {
    var after := hosts[c := host];
    forall q | q in Handles(hosts, hosts.Keys) ensures q in Handles(after, after.Keys) {
      var d :| d in hosts && hosts[d].handle == q && q != 0;
      assert after[d].handle == q;
    }
    assert Handles(after, after.Keys) == Handles(hosts, hosts.Keys);
    OpenHandlesAreLive(hosts, live);
  }

  lemma OpenHandlesAreLive(hosts: Hosts, live: Live)
    requires Owned(hosts, live)
    ensures forall c :: c in hosts && hosts[c].handle != 0 ==> hosts[c].handle in live
    ensures 0 !in live
  {
    forall c | c in hosts && hosts[c].handle != 0 ensures hosts[c].handle in live {
      assert hosts[c].handle in Handles(hosts, hosts.Keys);
    }
  }

  /** A fresh handle for a host without counters. */
  lemma OpeningKeepsConsistent(hosts: Hosts, live: Live, c: string, handle: nat)
    requires Consistent(hosts, live) && c in hosts && hosts[c].handle == 0 && hosts[c].counters == []
    requires handle != 0 && handle !in live
    ensures Consistent(hosts[c := hosts[c].(handle := handle)], live[handle := map[]])
  {
    var after := hosts[c := hosts[c].(handle := handle)];
    OpenHandlesAreLive(hosts, live);
    forall q | q in Handles(hosts, hosts.Keys) + {handle} ensures q in Handles(after, after.Keys) {
      if q == handle {
        assert after[c].handle == q;
      } else {
        var d :| d in hosts && hosts[d].handle == q && q != 0;
        assert after[d].handle == q;
      }
    }
    assert Handles(after, after.Keys) == Handles(hosts, hosts.Keys) + {handle};
  }

  lemma IssuingKeepsConsistent(hosts: Hosts, live: Live, query: nat, counter: nat, path: string)
    requires Consistent(hosts, live) && query in live && counter !in live[query]
    ensures Consistent(hosts, WithCounter(live, query, counter, path))
  {
  }

  function Appended(hosts: Hosts, c: string, counters: seq<Counter>): Hosts
    requires c in hosts
  {
    hosts[c := hosts[c].(counters := hosts[c].counters + counters)]
  }

  lemma AppendingKeepsConsistent(hosts: Hosts, live: Live, c: string, counter: Counter)
    requires Consistent(hosts, live) && c in hosts && hosts[c].handle in live
    requires BelongsTo(counter, live[hosts[c].handle])
    ensures Consistent(Appended(hosts, c, [counter]), live)
  {
    var after := Appended(hosts, c, [counter]);
    assert forall d :: d in hosts ==> after[d].handle == hosts[d].handle;
    assert Handles(after, after.Keys) == Handles(hosts, hosts.Keys);
  }

  function AppendedTo(w: World, c: string, counter: Counter): World
    requires c in w.hosts
  {
    w.(hosts := Appended(w.hosts, c, [counter]))
  }

  function CountersOf(hosts: Hosts, computer: string): seq<Counter> {
    if computer in hosts then hosts[computer].counters else []
  }

  /** The hosts differ in their timestamps only. */
  ghost predicate SameButTimestamps(hosts: Hosts, after: Hosts) {
    && after.Keys == hosts.Keys
    && forall c :: c in hosts ==> after[c] == hosts[c].(timestamp := after[c].timestamp)
  }

  /** Collecting on the hosts' own queries keeps ownership ... */
  lemma CollectingKeepsConsistent(hosts: Hosts, live: Live, after: Hosts, done: set<string>)
    requires Consistent(hosts, live) && SameButTimestamps(hosts, after)
    ensures Consistent(after, Sampled(live, Handles(hosts, done)))
  {
    assert forall c :: c in hosts ==> after[c].handle == hosts[c].handle && after[c].counters == hosts[c].counters;
    assert Handles(after, after.Keys) == Handles(hosts, hosts.Keys);
    assert Sampled(live, Handles(hosts, done)).Keys == live.Keys;
  }

  /** ... and never loses a sample; on all hosts it adds one to all their counters. */
  lemma CollectingWarms(hosts: Hosts, live: Live, after: Hosts, done: set<string>, n: nat)
    requires SameButTimestamps(hosts, after) && Warm(hosts, live, n)
    ensures Warm(after, Sampled(live, Handles(hosts, done)), n)
    ensures hosts.Keys <= done ==> Warm(after, Sampled(live, Handles(hosts, done)), n + 1)
  {
    assert forall c :: c in hosts ==> after[c].handle == hosts[c].handle && after[c].counters == hosts[c].counters;
    if hosts.Keys <= done {
      assert forall c :: c in hosts ==> hosts[c].handle in Handles(hosts, done);
    }
  }

  /** Hosts that all own an open query are warm to degree zero. */
  lemma OpenIsWarmZero(hosts: Hosts, live: Live)
    requires Consistent(hosts, live) && forall c :: c in hosts ==> hosts[c].handle != 0
    ensures Warm(hosts, live, 0)
  {
    forall c | c in hosts ensures hosts[c].handle in live {
      assert hosts[c].handle in Handles(hosts, hosts.Keys);
    }
  }

  // ----- Collecting host by host

  /** The open queries after the given hosts' queries have been collected, one after the other. */
  ghost function CollectInOrder(hosts: Hosts, live: Live, order: seq<string>): Live
    requires Order(hosts, order)
  {
    if order == [] then live
    else Sampled(CollectInOrder(hosts, live, Front(order)), {hosts[Last(order)].handle})
  }

  /**
   The hosts in `order` have been sampled, and those in `remaining` have not succeeded. A host is in both if
   its sample was taken but the call failed. The hosts differ in their timestamps only.
   */
  ghost predicate CollectProgress(before: World, remaining: set<string>, order: seq<string>, now: World) {
    && Order(before.hosts, order) && (forall c :: c in order ==> before.hosts[c].handle != 0)
    && (forall c :: c in before.hosts <==> c in remaining || c in order)
    && SameButTimestamps(before.hosts, now.hosts)
    && now.live == CollectInOrder(before.hosts, before.live, order)
  }

  /** The worlds that collecting in this order can leave. */
  ghost function AfterCollect(before: World, remaining: set<string>, order: seq<string>): iset<World> {
    iset w | CollectProgress(before, remaining, order, w)
  }

  ghost predicate Apart(remaining: set<string>, order: seq<string>) {
    forall c :: c in order ==> c !in remaining
  }

  lemma CollectStart(before: World)
    ensures before in AfterCollect(before, before.hosts.Keys, []) && Apart(before.hosts.Keys, [])
  {
  }

  lemma CollectStep(before: World, remaining: set<string>, order: seq<string>, now: World, c: string, time: int)
    requires now in AfterCollect(before, remaining, order) && Apart(remaining, order)
    requires c in remaining && c in now.hosts && now.hosts[c].handle != 0
    ensures World(now.hosts[c := now.hosts[c].(timestamp := time)], Sampled(now.live, {now.hosts[c].handle}))
         in AfterCollect(before, remaining - {c}, order + [c])
    ensures Apart(remaining - {c}, order + [c])
    ensures now.hosts[c := now.hosts[c].(timestamp := now.hosts[c].timestamp)] == now.hosts
  {
    assert Front(order + [c]) == order;
  }

  /** A failed collect leaves at most a timestamp behind ... */
  lemma CollectFails(before: World, remaining: set<string>, order: seq<string>, now: World, c: string, time: int)
    requires now in AfterCollect(before, remaining, order) && c in now.hosts
    ensures now.(hosts := now.hosts[c := now.hosts[c].(timestamp := time)]) in AfterCollect(before, remaining, order)
  {
  }

  /** ... or a sample whose time was lost. */
  lemma CollectLosesTime(before: World, remaining: set<string>, order: seq<string>, now: World, c: string, time: int)
    requires now in AfterCollect(before, remaining, order) && Apart(remaining, order)
    requires c in remaining && c in now.hosts && now.hosts[c].handle != 0
    ensures World(now.hosts[c := now.hosts[c].(timestamp := time)], Sampled(now.live, {now.hosts[c].handle}))
         in AfterCollect(before, remaining, order + [c])
  {
    assert Front(order + [c]) == order;
  }

  /** A failed call left the open queries alone, or took the sample of this one. */
  ghost predicate MayHaveSampled(before: Live, handle: nat, after: Live) {
    after == before || (handle != 0 && after == Sampled(before, {handle}))
  }

  /** How far collecting is after one more host, whichever way its call ended. */
  lemma CollectEnds(before: World, remaining: set<string>, order: seq<string>, now: World, c: string, time: int,
                    failed: bool, live: Live)
    returns (order': seq<string>)
    requires now in AfterCollect(before, remaining, order) && Apart(remaining, order) && c in remaining
             && c in now.hosts
    requires if failed then MayHaveSampled(now.live, now.hosts[c].handle, live)
             else now.hosts[c].handle != 0 && live == Sampled(now.live, {now.hosts[c].handle})
    ensures var after := World(now.hosts[c := now.hosts[c].(timestamp := time)], live);
            if failed then after in AfterCollect(before, remaining, order')
            else after in AfterCollect(before, remaining - {c}, order') && Apart(remaining - {c}, order')
  {
    if failed && live == now.live {
      CollectFails(before, remaining, order, now, c, time);
      order' := order;
    } else {
      CollectStep(before, remaining, order, now, c, time);
      CollectLosesTime(before, remaining, order, now, c, time);
      order' := order + [c];
    }
  }

  lemma {:induction false} CollectingMeans(hosts: Hosts, live: Live, order: seq<string>)
    requires Owned(hosts, live) && Order(hosts, order) && forall c :: c in order ==> hosts[c].handle != 0
    ensures CollectInOrder(hosts, live, order) == Sampled(live, Handles(hosts, Elements(order)))
  {
    if order == [] {
      assert Sampled(live, Handles(hosts, {})) == live;
    } else {
      var front, c := Front(order), Last(order);
      CollectingMeans(hosts, live, front);
      assert order == front + [c];
      assert Elements(order) == Elements(front) + {c};
      assert Handles(hosts, Elements(order)) == Handles(hosts, Elements(front)) + {hosts[c].handle};
      assert hosts[c].handle !in Handles(hosts, Elements(front));
      SampledTwice(live, Handles(hosts, Elements(front)), hosts[c].handle);
    }
  }

  lemma SampledTwice(live: Live, qs: set<nat>, q: nat)
    requires q !in qs
    ensures Sampled(Sampled(live, qs), {q}) == Sampled(live, qs + {q})
  {
  }

  /** What one round of collecting does to consistency and warmth, wherever it stops. */
  lemma CollectRound(before: World, remaining: set<string>, order: seq<string>, now: World, n: nat)
    requires Consistent(before.hosts, before.live) && now in AfterCollect(before, remaining, order)
    ensures Consistent(now.hosts, now.live)
    ensures remaining == {} ==> Warm(now.hosts, now.live, 1)
    ensures Warm(before.hosts, before.live, n) ==>
              Warm(now.hosts, now.live, n) && (remaining == {} ==> Warm(now.hosts, now.live, n + 1))
  {
    CollectingMeans(before.hosts, before.live, order);
    CollectingKeepsConsistent(before.hosts, before.live, now.hosts, Elements(order));
    if Warm(before.hosts, before.live, n) {
      CollectingWarms(before.hosts, before.live, now.hosts, Elements(order), n);
    }
    if remaining == {} {
      assert before.hosts.Keys <= Elements(order);
      OpenIsWarmZero(before.hosts, before.live);
      CollectingWarms(before.hosts, before.live, now.hosts, Elements(order), 0);
    }
  }
}
