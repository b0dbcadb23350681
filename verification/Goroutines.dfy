/**
 The gathering phase as interleaved goroutines: the main thread adds one goroutine per host to a
 wait group and waits for the group; each goroutine reads its host's metrics one by one and then calls
 the collect function once per group, in whatever order the map yields them.
 */
module Goroutines {
  import Errors
  import opened Gathering
  import opened Configuration
  import opened Pdh
  import opened HostStates
  import opened HostWork

  /** What a goroutine is doing, with its loop variables and the records still to publish. */
  datatype Phase = NotStarted | Folding(local: Local) | Publishing(pending: set<Record>) | Done

  /** One goroutine: the readings it has taken, and the reads and records it has contributed. */
  datatype Thread = Thread(host: HostState, phase: Phase, readings: seq<Reading>, reads': seq<Read>, sent: seq<Record>)

  function JobOf(expand: bool, host: HostState, readings: seq<Reading>): Job {
    Job(expand, host.counters, readings, host.tag, host.timestamp)
  }

  /** All metrics have been read, or a read failed fatally. */
  ghost predicate Finished(job: Job) {
    job.Started() && (|job.readings| == |job.metrics| || After(job, |job.readings|).Aborted?)
  }

  /** What a goroutine with these readings publishes in the end. */
  ghost function Outcome(job: Job): set<Record>
    requires job.Started()
  {
    Published(Completed(job))
  }

  ghost predicate ValidThread(expand: bool, live: Live, t: Thread) {
    var job := JobOf(expand, t.host, t.readings);
    && job.Started() && t.reads' == ReadsOf(live, t.host, t.readings)
    && match t.phase
       case NotStarted => t.readings == [] && t.sent == []
       case Folding(local) => After(job, |t.readings|) == Running(local) && t.sent == []
       case Publishing(pending) => Finished(job) && multiset(t.sent) + multiset(pending) == multiset(Outcome(job))
       case Done => Finished(job) && multiset(t.sent) == multiset(Outcome(job))
  }

  function AllRead(threads: seq<Thread>): multiset<Read> {
    if threads == [] then multiset{} else AllRead(Front(threads)) + multiset(Last(threads).reads')
  }

  function AllSent(threads: seq<Thread>): multiset<Record> {
    if threads == [] then multiset{} else AllSent(Front(threads)) + multiset(Last(threads).sent)
  }

  /** Threads that have been added to the wait group and not called Done. */
  function Unfinished(threads: seq<Thread>): nat {
    if threads == [] then 0 else Unfinished(Front(threads)) + if Last(threads).phase.Done? then 0 else 1
  }

  /** The whole phase; `waitGroup` is the counter of the wait group, `live` the open queries, which nobody changes. */
  datatype System = System(
    expand: bool,
    live: Live,
    spawned: nat,
    waitGroup: nat,
    threads: seq<Thread>,
    trace: seq<Read>,
    published: seq<Record>,
    returned: bool)
  {
    ghost predicate Valid() {
      && spawned <= |threads|
      && (forall i :: 0 <= i < |threads| ==> ValidThread(expand, live, threads[i]))
      && (forall i :: 0 <= i < |threads| ==> (threads[i].phase.NotStarted? <==> spawned <= i))
      && waitGroup == Unfinished(threads[..spawned])
      && (returned ==> spawned == |threads| && waitGroup == 0)
      && Accounted()
    }

    /** Reads and records are exactly those of the goroutines. */
    ghost predicate Accounted() {
      multiset(trace) == AllRead(threads) && multiset(published) == AllSent(threads)
    }
  }

  function Waiting(host: HostState): Thread {
    Thread(host, NotStarted, [], [], [])
  }

  function Start(expand: bool, live: Live, hosts: seq<HostState>): System {
    System(expand, live, 0, 0, seq(|hosts|, i requires 0 <= i < |hosts| => Waiting(hosts[i])), [], [], false)
  }

  lemma {:induction false} NothingYet(threads: seq<Thread>)
    requires forall i :: 0 <= i < |threads| ==> threads[i].reads' == [] && threads[i].sent == []
    ensures AllRead(threads) == multiset{} && AllSent(threads) == multiset{}
  {
    if threads != [] {
      NothingYet(Front(threads));
    }
  }

  lemma StartIsValid(expand: bool, live: Live, hosts: seq<HostState>)
    ensures Start(expand, live, hosts).Valid()
  {
    var s := Start(expand, live, hosts);
    NothingYet(s.threads);
    assert s.threads[..0] == [];
  }

  // ----- Steps

  /**
   A scheduling decision: start the next goroutine, let goroutine i take the reading of its next metric, publish
   a record or go on to its next phase, or return from the wait.
   */
  datatype Action =
    | Spawn
    | TakeReading(i: nat, reading: Reading)
    | Emit(i: nat, record: Record)
    | GoOn(i: nat)
    | Return

  predicate Enabled(s: System, a: Action) {
    match a
    case Spawn => !s.returned && s.spawned < |s.threads|
    case TakeReading(i, reading) => i < |s.threads| && CanRead(s.threads[i]) && reading.Scalar? == s.expand
    case Emit(i, r) => i < |s.threads| && s.threads[i].phase.Publishing? && r in s.threads[i].phase.pending
    case GoOn(i) => i < |s.threads| && CanGoOn(s.threads[i])
    case Return => !s.returned && s.spawned == |s.threads| && s.waitGroup == 0
  }

  predicate CanRead(t: Thread) {
    t.phase.Folding? && |t.readings| < |t.host.counters|
  }

  predicate CanGoOn(t: Thread) {
    (t.phase.Folding? && |t.readings| == |t.host.counters|) || (t.phase.Publishing? && t.phase.pending == {})
  }

  function Begun(t: Thread): Thread {
    t.(phase := Folding(Local(Errors.None, map[])))
  }

  /** The next reading, folded or fatal. */
  function AfterReading(expand: bool, live: Live, t: Thread, reading: Reading): Thread
    requires CanRead(t)
  {
    var phase := match MetricStep(expand, t.host.counters[|t.readings|], reading, t.phase.local)
      case Aborted(_) => Publishing({})
      case Running(local) => Folding(local);
    t.(phase := phase, readings := t.readings + [reading], reads' := t.reads' + [ReadFor(live, t, reading)])
  }

  function ReadFor(live: Live, t: Thread, reading: Reading): Read
    requires CanRead(t)
  {
    var counter := t.host.counters[|t.readings|].handle;
    Read(t.host.handle, counter, InfoOf(live, t.host.handle, counter), reading)
  }

  /** One record handed to the collect function. */
  function AfterEmit(t: Thread, r: Record): Thread
    requires t.phase.Publishing?
  {
    t.(phase := Publishing(t.phase.pending - {r}), sent := t.sent + [r])
  }

  /** From folding to publishing, and from publishing to the end. */
  function AfterPhase(t: Thread): Thread
    requires CanGoOn(t)
  {
    t.(phase := if t.phase.Folding? then Publishing(Records(t.phase.local.fields, t.host.tag, t.host.timestamp))
                else Done)
  }

  /** Goroutine i has become t, and these are its new reads and records. */
  function Replace(s: System, i: nat, t: Thread, more: seq<Read>, records: seq<Record>): System
    requires i < |s.threads|
  {
    s.(threads := s.threads[i := t], trace := s.trace + more, published := s.published + records,
       waitGroup := if t.phase.Done? && s.waitGroup > 0 then s.waitGroup - 1 else s.waitGroup)
  }

  function Step(s: System, a: Action): System
    requires Enabled(s, a)
  {
    match a
    case Spawn =>
      var threads := s.threads[s.spawned := Begun(s.threads[s.spawned])];
      s.(spawned := s.spawned + 1, waitGroup := s.waitGroup + 1, threads := threads)
    case TakeReading(i, reading) =>
      Replace(s, i, AfterReading(s.expand, s.live, s.threads[i], reading), [ReadFor(s.live, s.threads[i], reading)], [])
    case Emit(i, r) => Replace(s, i, AfterEmit(s.threads[i], r), [], [r])
    case GoOn(i) => Replace(s, i, AfterPhase(s.threads[i]), [], [])
    case Return => s.(returned := true)
  }

  // ----- What a step of one goroutine does

  /** The goroutine goes on to t' and makes exactly these reads and records. */
  ghost predicate Steps(expand: bool, live: Live, t: Thread, t': Thread, more: seq<Read>, records: seq<Record>) {
    && ValidThread(expand, live, t') && t'.host == t.host && !t'.phase.NotStarted?
    && t'.reads' == t.reads' + more && t'.sent == t.sent + records
  }

  lemma ReadingSteps(expand: bool, live: Live, t: Thread, reading: Reading)
    requires ValidThread(expand, live, t) && CanRead(t) && reading.Scalar? == expand
    ensures Steps(expand, live, t, AfterReading(expand, live, t, reading), [ReadFor(live, t, reading)], [])
  {
    var job := JobOf(expand, t.host, t.readings);
    var job' := JobOf(expand, t.host, t.readings + [reading]);
    assert job' == job.(readings := job.readings + [reading]);
    AfterOn(job, reading);
    ReadsOn(live, t.host, t.readings, reading);
    if AfterReading(expand, live, t, reading).phase.Publishing? {
      AbortedPublishesNothing(job');
    }
  }

  /** With all metrics read, what is left to publish is what the fold holds. */
  lemma CompletedWhenRead(job: Job)
    requires job.Started() && |job.readings| == |job.metrics|
    ensures Completed(job) == job
  {
    assert Completed(job).readings == job.readings;
  }

  lemma PhaseSteps(expand: bool, live: Live, t: Thread)
    requires ValidThread(expand, live, t) && CanGoOn(t)
    ensures Steps(expand, live, t, AfterPhase(t), [], [])
  {
    var job := JobOf(expand, t.host, t.readings);
    if t.phase.Folding? {
      CompletedWhenRead(job);
    } else {
      assert multiset(t.sent) + multiset(t.phase.pending) == multiset(t.sent);
    }
    assert t.reads' + [] == t.reads' && t.sent + [] == t.sent;
  }

  lemma MoveOver(sent: seq<Record>, pending: set<Record>, r: Record)
    requires r in pending
    ensures multiset(sent + [r]) + multiset(pending - {r}) == multiset(sent) + multiset(pending)
  {
    assert multiset(sent + [r]) == multiset(sent) + multiset{r};
    assert multiset(pending) == multiset(pending - {r}) + multiset{r};
  }

  lemma EmitSteps(expand: bool, live: Live, t: Thread, r: Record)
    requires ValidThread(expand, live, t) && t.phase.Publishing? && r in t.phase.pending
    ensures Steps(expand, live, t, AfterEmit(t, r), [], [r])
  {
    MoveOver(t.sent, t.phase.pending, r);
    assert t.reads' + [] == t.reads';
  }

  // ----- What a step of the system keeps

  lemma {:induction false} AllReadGrows(threads: seq<Thread>, i: nat, t: Thread, more: seq<Read>)
    requires i < |threads| && t.reads' == threads[i].reads' + more
    ensures AllRead(threads[i := t]) == AllRead(threads) + multiset(more)
  {
    if i == |threads| - 1 {
      assert Front(threads[i := t]) == Front(threads);
    } else {
      AllReadGrows(Front(threads), i, t, more);
      assert Front(threads[i := t]) == Front(threads)[i := t];
    }
  }

  lemma {:induction false} AllSentGrows(threads: seq<Thread>, i: nat, t: Thread, more: seq<Record>)
    requires i < |threads| && t.sent == threads[i].sent + more
    ensures AllSent(threads[i := t]) == AllSent(threads) + multiset(more)
  {
    if i == |threads| - 1 {
      assert Front(threads[i := t]) == Front(threads);
    } else {
      AllSentGrows(Front(threads), i, t, more);
      assert Front(threads[i := t]) == Front(threads)[i := t];
    }
  }

  lemma {:induction false} UnfinishedUpdate(threads: seq<Thread>, i: nat, t: Thread)
    requires i < |threads| && !threads[i].phase.Done?
    ensures Unfinished(threads[i := t]) == Unfinished(threads) - if t.phase.Done? then 1 else 0
    ensures Unfinished(threads) > 0
  {
    var updated := threads[i := t];
    if i == |threads| - 1 {
      assert Front(updated) == Front(threads);
    } else {
      UnfinishedUpdate(Front(threads), i, t);
      assert Front(updated) == Front(threads)[i := t];
    }
  }

  lemma {:induction false} AllFinished(threads: seq<Thread>, i: nat)
    requires Unfinished(threads) == 0 && i < |threads|
    ensures threads[i].phase.Done?
  {
    if i < |threads| - 1 {
      AllFinished(Front(threads), i);
    }
  }

  lemma AccountsReplace(s: System, i: nat, t: Thread, more: seq<Read>, records: seq<Record>)
    requires s.Accounted() && i < |s.threads| && t.reads' == s.threads[i].reads' + more
             && t.sent == s.threads[i].sent + records
    ensures Replace(s, i, t, more, records).Accounted()
  {
    AllReadGrows(s.threads, i, t, more);
    AllSentGrows(s.threads, i, t, records);
    assert multiset(s.trace + more) == multiset(s.trace) + multiset(more);
    assert multiset(s.published + records) == multiset(s.published) + multiset(records);
  }

  lemma ReplaceKeepsValid(s: System, i: nat, t: Thread, more: seq<Read>, records: seq<Record>)
    requires s.Valid() && i < |s.threads| && !s.threads[i].phase.Done? && !s.threads[i].phase.NotStarted?
    requires Steps(s.expand, s.live, s.threads[i], t, more, records)
    ensures Replace(s, i, t, more, records).Valid()
  {
    UnfinishedUpdate(s.threads[..s.spawned], i, t);
    assert s.threads[i := t][..s.spawned] == s.threads[..s.spawned][i := t];
    AccountsReplace(s, i, t, more, records);
  }

  lemma UnfinishedSpawn(threads: seq<Thread>, k: nat)
    requires k < |threads|
    ensures Unfinished(threads[k := Begun(threads[k])][..k + 1]) == Unfinished(threads[..k]) + 1
  {
    var updated := threads[k := Begun(threads[k])][..k + 1];
    assert Front(updated) == threads[..k] && Last(updated).phase.Folding?;
  }

  lemma BegunIsValid(expand: bool, live: Live, t: Thread)
    requires ValidThread(expand, live, t) && t.phase.NotStarted?
    ensures ValidThread(expand, live, Begun(t))
  {
  }

  lemma BegunAddsNothing(threads: seq<Thread>, k: nat)
    requires k < |threads|
    ensures AllRead(threads[k := Begun(threads[k])]) == AllRead(threads)
            && AllSent(threads[k := Begun(threads[k])]) == AllSent(threads)
  {
    var t := threads[k];
    assert t.reads' + [] == t.reads' && t.sent + [] == t.sent;
    AllReadGrows(threads, k, Begun(t), []);
    AllSentGrows(threads, k, Begun(t), []);
  }

  lemma BegunAreValid(s: System)
    requires s.Valid() && s.spawned < |s.threads|
    ensures var threads := s.threads[s.spawned := Begun(s.threads[s.spawned])];
            && (forall i :: 0 <= i < |threads| ==> ValidThread(s.expand, s.live, threads[i]))
            && (forall i :: 0 <= i < |threads| ==> (threads[i].phase.NotStarted? <==> s.spawned < i))
  {
    BegunIsValid(s.expand, s.live, s.threads[s.spawned]);
  }

  lemma SpawnKeepsValid(s: System)
    requires s.Valid() && Enabled(s, Spawn)
    ensures Step(s, Spawn).Valid()
  {
    BegunAreValid(s);
    BegunAddsNothing(s.threads, s.spawned);
    UnfinishedSpawn(s.threads, s.spawned);
  }

  /** Nobody changes the hosts, the mode or the open queries. */
  ghost predicate SameHosts(s: System, s': System) {
    && s'.expand == s.expand && s'.live == s.live && |s'.threads| == |s.threads|
    && forall i :: 0 <= i < |s.threads| ==> s'.threads[i].host == s.threads[i].host
  }

  /** The valid systems on the same hosts, as a set for the reason given at HostStates.SafeStates. */
  ghost function ValidOn(s: System): iset<System> {
    iset s': System | s'.Valid() && SameHosts(s, s')
  }

  lemma SpawnStaysOn(s: System)
    requires s.Valid() && Enabled(s, Spawn)
    ensures Step(s, Spawn) in ValidOn(s)
  {
    SpawnKeepsValid(s);
  }

  lemma ReplaceStaysOn(s: System, i: nat, t: Thread, more: seq<Read>, records: seq<Record>)
    requires s.Valid() && i < |s.threads| && !s.threads[i].phase.Done? && !s.threads[i].phase.NotStarted?
    requires Steps(s.expand, s.live, s.threads[i], t, more, records)
    ensures Replace(s, i, t, more, records) in ValidOn(s)
  {
    ReplaceKeepsValid(s, i, t, more, records);
  }

  lemma ReturnStaysOn(s: System)
    requires s.Valid() && Enabled(s, Return)
    ensures Step(s, Return) in ValidOn(s)
  {
  }

  lemma StepStaysOn(s: System, a: Action)
    requires s.Valid() && Enabled(s, a)
    ensures Step(s, a) in ValidOn(s)
  {
    match a {
      case Spawn => SpawnStaysOn(s);
      case TakeReading(i, reading) =>
        var t := s.threads[i];
        ReadingSteps(s.expand, s.live, t, reading);
        ReplaceStaysOn(s, i, AfterReading(s.expand, s.live, t, reading), [ReadFor(s.live, t, reading)], []);
      case Emit(i, r) =>
        EmitSteps(s.expand, s.live, s.threads[i], r);
        ReplaceStaysOn(s, i, AfterEmit(s.threads[i], r), [], [r]);
      case GoOn(i) =>
        PhaseSteps(s.expand, s.live, s.threads[i]);
        ReplaceStaysOn(s, i, AfterPhase(s.threads[i]), [], []);
      case Return => ReturnStaysOn(s);
    }
  }

  /** Every scheduling decision keeps the wait group exact and accounts for every read and every record. */
  lemma StepKeepsValid(s: System, a: Action)
    requires s.Valid() && Enabled(s, a)
    ensures Step(s, a).Valid() && SameHosts(s, Step(s, a))
  {
    StepStaysOn(s, a);
  }

  // ----- Whole schedules

  /** The actions can be taken one after the other. */
  ghost predicate Schedule(s: System, actions: seq<Action>)
    decreases |actions|
  {
    actions == [] || (Enabled(s, actions[0]) && Schedule(Step(s, actions[0]), actions[1..]))
  }

  ghost function RunSchedule(s: System, actions: seq<Action>): System
    requires Schedule(s, actions)
    decreases |actions|
  {
    if actions == [] then s else RunSchedule(Step(s, actions[0]), actions[1..])
  }

  lemma {:induction false} ScheduleKeepsValid(s: System, actions: seq<Action>)
    requires s.Valid() && Schedule(s, actions)
    ensures RunSchedule(s, actions).Valid() && SameHosts(s, RunSchedule(s, actions))
    decreases |actions|
  {
    if actions != [] {
      StepKeepsValid(s, actions[0]);
      ScheduleKeepsValid(Step(s, actions[0]), actions[1..]);
    }
  }

  /** Gather returns only after all hosts have finished. */
  lemma ReturnedIsDone(s: System)
    requires s.Valid() && s.returned
    ensures forall i :: 0 <= i < |s.threads| ==> s.threads[i].phase.Done?
  {
    assert s.threads[..s.spawned] == s.threads;
    forall i | 0 <= i < |s.threads| ensures s.threads[i].phase.Done? {
      AllFinished(s.threads, i);
    }
  }

  ghost predicate Distinct(computers: seq<string>) {
    forall i, j :: 0 <= i < j < |computers| ==> computers[i] != computers[j]
  }

  /** The goroutine of this host is done. */
  ghost predicate DoneOn(expand: bool, live: Live, host: HostState, t: Thread) {
    t.phase.Done? && t.host == host && ValidThread(expand, live, t)
  }

  /** The goroutines of these computers, each a different one, are done. */
  ghost predicate AllDoneOn(expand: bool, live: Live, hosts: Hosts, computers: seq<string>, threads: seq<Thread>) {
    && |threads| == |computers| && Distinct(computers)
    && forall i :: 0 <= i < |threads| ==> computers[i] in hosts && DoneOn(expand, live, hosts[computers[i]], threads[i])
  }

  /** The hosts' work, as if they had run one after the other with the readings they took. */
  ghost function WorkOf(expand: bool, live: Live, hosts: Hosts, computers: seq<string>, threads: seq<Thread>): Work
    requires AllDoneOn(expand, live, hosts, computers, threads)
    decreases threads
  {
    if threads == [] then Idle
    else
      assert DoneOn(expand, live, hosts[computers[|threads| - 1]], threads[|threads| - 1]);
      var t := Last(threads);
      Then(WorkOf(expand, live, hosts, Front(computers), Front(threads)), Last(computers),
           Completed(JobOf(expand, t.host, t.readings)), t.readings)
  }

  lemma DoneTook(expand: bool, live: Live, host: HostState, t: Thread)
    requires DoneOn(expand, live, host, t)
    ensures var job := Completed(JobOf(expand, host, t.readings)); Took(job, t.readings) && WorksOn(job, expand, host)
  {
    var job := JobOf(expand, host, t.readings);
    AfterUsesPrefix(job, Completed(job), |t.readings|);
  }

  lemma AmongFront(computers: seq<string>, c: string)
    requires computers != []
    ensures c in computers <==> c in Front(computers) || c == Last(computers)
  {
    assert computers == Front(computers) + [Last(computers)];
  }

  lemma {:induction false} WorkComputers(expand: bool, live: Live, hosts: Hosts, computers: seq<string>,
                                         threads: seq<Thread>, c: string)
    requires AllDoneOn(expand, live, hosts, computers, threads)
    ensures c in Computers(WorkOf(expand, live, hosts, computers, threads)) <==> c in computers
    decreases threads
  {
    if threads != [] {
      WorkComputers(expand, live, hosts, Front(computers), Front(threads), c);
      AmongFront(computers, c);
    }
  }

  lemma {:induction false} WorkIsWork(cfg: Config, live: Live, hosts: Hosts, computers: seq<string>,
                                      threads: seq<Thread>)
    requires AllDoneOn(cfg.useWildcardsExpansion, live, hosts, computers, threads)
    ensures WorkedOn(cfg, hosts, WorkOf(cfg.useWildcardsExpansion, live, hosts, computers, threads))
    decreases threads
  {
    if threads != [] {
      WorkIsWork(cfg, live, hosts, Front(computers), Front(threads));
      WorkComputers(cfg.useWildcardsExpansion, live, hosts, Front(computers), Front(threads), Last(computers));
      DoneTook(cfg.useWildcardsExpansion, live, hosts[Last(computers)], Last(threads));
    }
  }

  lemma {:induction false} WorkReads(expand: bool, live: Live, hosts: Hosts, computers: seq<string>,
                                     threads: seq<Thread>)
    requires AllDoneOn(expand, live, hosts, computers, threads)
    ensures multiset(ReadsBy(live, hosts, WorkOf(expand, live, hosts, computers, threads))) == AllRead(threads)
    decreases threads
  {
    if threads != [] {
      WorkReads(expand, live, hosts, Front(computers), Front(threads));
      DoneTook(expand, live, hosts[Last(computers)], Last(threads));
    }
  }

  lemma {:induction false} WorkRecords(expand: bool, live: Live, hosts: Hosts, computers: seq<string>,
                                       threads: seq<Thread>)
    requires AllDoneOn(expand, live, hosts, computers, threads)
    ensures RecordsBy(WorkOf(expand, live, hosts, computers, threads)) == AllSent(threads)
    decreases threads
  {
    if threads != [] {
      WorkRecords(expand, live, hosts, Front(computers), Front(threads));
      DoneTook(expand, live, hosts[Last(computers)], Last(threads));
    }
  }

  lemma WorkOnAll(expand: bool, live: Live, hosts: Hosts, computers: seq<string>, threads: seq<Thread>)
    requires AllDoneOn(expand, live, hosts, computers, threads) && forall c :: c in hosts <==> c in computers
    ensures Computers(WorkOf(expand, live, hosts, computers, threads)) == hosts.Keys
  {
    forall c ensures c in Computers(WorkOf(expand, live, hosts, computers, threads)) <==> c in hosts {
      WorkComputers(expand, live, hosts, computers, threads, c);
    }
  }

  /** The states of the hosts of these computers. */
  function HostsOf(hosts: Hosts, computers: seq<string>): seq<HostState>
    requires forall i :: 0 <= i < |computers| ==> computers[i] in hosts
  {
    seq(|computers|, i requires 0 <= i < |computers| => hosts[computers[i]])
  }

  lemma EndIsDone(w: World, computers: seq<string>, r: System)
    requires Distinct(computers) && (forall c :: c in w.hosts <==> c in computers)
    requires r.Valid() && r.returned && |r.threads| == |computers|
    requires forall i :: 0 <= i < |computers| ==> r.threads[i].host == w.hosts[computers[i]]
    ensures AllDoneOn(r.expand, r.live, w.hosts, computers, r.threads)
  {
    ReturnedIsDone(r);
  }

  /** The systems that the gathering phase on these hosts can reach. */
  ghost predicate Reached(cfg: Config, w: World, computers: seq<string>, actions: seq<Action>, r: System) {
    && Distinct(computers) && (forall c :: c in w.hosts <==> c in computers)
    && var start := Start(cfg.useWildcardsExpansion, w.live, HostsOf(w.hosts, computers));
       Schedule(start, actions) && r == RunSchedule(start, actions)
  }

  lemma ReachedIsValid(cfg: Config, w: World, computers: seq<string>, actions: seq<Action>, r: System)
    requires Reached(cfg, w, computers, actions, r)
    ensures r.Valid() && r.expand == cfg.useWildcardsExpansion && r.live == w.live && |r.threads| == |computers|
    ensures forall i :: 0 <= i < |computers| ==> r.threads[i].host == w.hosts[computers[i]]
  {
    var start := Start(cfg.useWildcardsExpansion, w.live, HostsOf(w.hosts, computers));
    StartIsValid(cfg.useWildcardsExpansion, w.live, HostsOf(w.hosts, computers));
    ScheduleKeepsValid(start, actions);
    forall i | 0 <= i < |computers| ensures r.threads[i].host == w.hosts[computers[i]] {
      assert r.threads[i].host == start.threads[i].host;
    }
  }

  /**
   Whatever the schedule, once Gather has returned all hosts have finished, and the reads made and the records
   published are, as multisets, exactly those of the hosts run one after the other with the same readings.
   */
  lemma EveryInterleavingIsSequential(cfg: Config, w: World, computers: seq<string>, actions: seq<Action>, r: System)
    returns (work: Work)
    requires Reached(cfg, w, computers, actions, r) && r.returned
    ensures forall i :: 0 <= i < |r.threads| ==> r.threads[i].phase.Done?
    ensures WorkedOn(cfg, w.hosts, work) && Computers(work) == w.hosts.Keys
    ensures multiset(r.trace) == multiset(ReadsBy(w.live, w.hosts, work)) && multiset(r.published) == RecordsBy(work)
  {
    ReachedIsValid(cfg, w, computers, actions, r);
    ReturnedIsDone(r);
    EndIsDone(w, computers, r);
    work := WorkOf(r.expand, r.live, w.hosts, computers, r.threads);
    WorkIsWork(cfg, r.live, w.hosts, computers, r.threads);
    WorkOnAll(r.expand, r.live, w.hosts, computers, r.threads);
    WorkReads(r.expand, r.live, w.hosts, computers, r.threads);
    WorkRecords(r.expand, r.live, w.hosts, computers, r.threads);
  }

  /** Everything a valid goroutine has published belongs to what it publishes in the end. */
  lemma SentBelongs(expand: bool, live: Live, t: Thread, r: Record)
    requires ValidThread(expand, live, t) && r in t.sent
    ensures r in Outcome(JobOf(expand, t.host, t.readings))
  {
    var outcome := multiset(Outcome(JobOf(expand, t.host, t.readings)));
    assert r in multiset(t.sent);
    if t.phase.Publishing? {
      assert r in multiset(t.sent) + multiset(t.phase.pending);
    }
    assert r in outcome;
  }

  /** What a goroutine of a warm host has read and published so far. */
  lemma ThreadIsSafe(expand: bool, w: World, c: string, t: Thread)
    requires Warm(w.hosts, w.live, 2) && c in w.hosts && t.host == w.hosts[c] && ValidThread(expand, w.live, t)
    ensures SafeReads(t.reads') && CleanRecords(multiset(t.sent))
  {
    WarmHostReadsAreSafe(w.live, w.hosts, c, t.readings);
    forall r | r in multiset(t.sent) ensures CleanRecord(r) {
      SentBelongs(expand, w.live, t, r);
      WarmHostIsWellNamed(w.hosts, w.live, c);
      PublishedRecordsAreClean(Completed(JobOf(expand, t.host, t.readings)), r);
    }
  }

  /** Every read of the bag was of a counter sampled twice on its own open query. */
  ghost predicate SafeBag(reads': multiset<Read>) {
    forall r :: r in reads' ==> r.known.Some? && r.known.value.samples >= 2
  }

  lemma {:induction false} SumsAreSafe(threads: seq<Thread>)
    requires forall i :: 0 <= i < |threads| ==> SafeReads(threads[i].reads') && CleanRecords(multiset(threads[i].sent))
    ensures SafeBag(AllRead(threads)) && CleanRecords(AllSent(threads))
  {
    if threads != [] {
      SumsAreSafe(Front(threads));
      assert SafeReads(Last(threads).reads') && CleanRecords(multiset(Last(threads).sent));
    }
  }

  /**
   If the hosts are warm, then at every moment of every interleaving all reads made so far were safe, and all records
   published so far have clean names only.
   */
  lemma EveryInterleavingIsSafe(cfg: Config, w: World, computers: seq<string>, actions: seq<Action>, r: System)
    requires Reached(cfg, w, computers, actions, r) && Warm(w.hosts, w.live, 2)
    ensures SafeReads(r.trace) && CleanRecords(multiset(r.published))
  {
    ReachedIsValid(cfg, w, computers, actions, r);
    forall i | 0 <= i < |r.threads|
      ensures SafeReads(r.threads[i].reads') && CleanRecords(multiset(r.threads[i].sent))
    {
      ThreadIsSafe(r.expand, w, computers[i], r.threads[i]);
    }
    SumsAreSafe(r.threads);
    forall i | 0 <= i < |r.trace| ensures r.trace[i].known.Some? && r.trace[i].known.value.samples >= 2 {
      assert r.trace[i] in multiset(r.trace);
    }
  }

  /** A goroutine that is done has read and sent what its readings determine. */
  lemma DoneIsDetermined(expand: bool, live: Live, t: Thread, t': Thread)
    requires ValidThread(expand, live, t) && ValidThread(expand, live, t') && t.phase.Done? && t'.phase.Done?
    requires t.host == t'.host && t.readings == t'.readings
    ensures t.reads' == t'.reads' && multiset(t.sent) == multiset(t'.sent)
  {
  }

  lemma {:induction false} SameSums(threads: seq<Thread>, threads': seq<Thread>)
    requires |threads| == |threads'|
    requires forall i :: 0 <= i < |threads| ==>
               threads[i].reads' == threads'[i].reads' && multiset(threads[i].sent) == multiset(threads'[i].sent)
    ensures AllRead(threads) == AllRead(threads') && AllSent(threads) == AllSent(threads')
  {
    if threads != [] {
      SameSums(Front(threads), Front(threads'));
    }
  }

  /** Phases on the same hosts in which these take the same readings end with the same reads and the same records. */
  lemma SameReadingsSameRecords(r: System, r': System)
    requires r.Valid() && r'.Valid() && r.returned && r'.returned && SameHosts(r, r')
    requires forall i :: 0 <= i < |r.threads| ==> r.threads[i].readings == r'.threads[i].readings
    ensures multiset(r.published) == multiset(r'.published) && multiset(r.trace) == multiset(r'.trace)
  {
    ReturnedIsDone(r);
    ReturnedIsDone(r');
    forall i | 0 <= i < |r.threads|
      ensures r.threads[i].reads' == r'.threads[i].reads' && multiset(r.threads[i].sent) == multiset(r'.threads[i].sent)
    {
      DoneIsDetermined(r.expand, r.live, r.threads[i], r'.threads[i]);
    }
    SameSums(r.threads, r'.threads);
  }

  // ----- Progress

  /** Readings a goroutine still has to take, at most. */
  function ReadsLeft(t: Thread): nat {
    if (t.phase.NotStarted? || t.phase.Folding?) && |t.readings| <= |t.host.counters|
    then |t.host.counters| - |t.readings| else 0
  }

  /** Steps it can still take before the next reading, or before its end. */
  function StepsLeft(t: Thread): nat {
    match t.phase
    case NotStarted => 3
    case Folding(local) =>
      2 + if |t.readings| == |t.host.counters| then |Records(local.fields, t.host.tag, t.host.timestamp)| else 0
    case Publishing(pending) => |pending| + 1
    case Done => 0
  }

  function AllReadsLeft(threads: seq<Thread>): nat {
    if threads == [] then 0 else AllReadsLeft(Front(threads)) + ReadsLeft(Last(threads))
  }

  function AllStepsLeft(threads: seq<Thread>): nat {
    if threads == [] then 0 else AllStepsLeft(Front(threads)) + StepsLeft(Last(threads))
  }

  lemma {:induction false} LeftUpdate(threads: seq<Thread>, i: nat, t: Thread)
    requires i < |threads|
    ensures AllReadsLeft(threads[i := t]) + ReadsLeft(threads[i]) == AllReadsLeft(threads) + ReadsLeft(t)
    ensures AllStepsLeft(threads[i := t]) + StepsLeft(threads[i]) == AllStepsLeft(threads) + StepsLeft(t)
  {
    var updated := threads[i := t];
    if i == |threads| - 1 {
      assert Front(updated) == Front(threads);
    } else {
      LeftUpdate(Front(threads), i, t);
      assert Front(updated) == Front(threads)[i := t];
    }
  }

  function Tail(s: System): nat {
    AllStepsLeft(s.threads) + if s.returned then 0 else 1
  }

  /** Fewer readings are left, or as many and fewer other steps. */
  predicate Nearer(s': System, s: System) {
    || AllReadsLeft(s'.threads) < AllReadsLeft(s.threads)
    || (AllReadsLeft(s'.threads) == AllReadsLeft(s.threads) && Tail(s') < Tail(s))
  }

  lemma ReplaceIsNearer(s: System, i: nat, t: Thread, more: seq<Read>, records: seq<Record>)
    requires i < |s.threads|
    requires ReadsLeft(t) < ReadsLeft(s.threads[i])
             || (ReadsLeft(t) == ReadsLeft(s.threads[i]) && StepsLeft(t) < StepsLeft(s.threads[i]))
    ensures Nearer(Replace(s, i, t, more, records), s)
  {
    LeftUpdate(s.threads, i, t);
  }

  lemma SpawnIsNearer(s: System)
    requires s.Valid() && Enabled(s, Spawn)
    ensures Nearer(Step(s, Spawn), s)
  {
    var t := Begun(s.threads[s.spawned]);
    LeftUpdate(s.threads, s.spawned, t);
    assert Records(map[], t.host.tag, t.host.timestamp) == {};
  }

  lemma LessToRead(expand: bool, live: Live, t: Thread, reading: Reading)
    requires CanRead(t)
    ensures ReadsLeft(AfterReading(expand, live, t, reading)) < ReadsLeft(t)
  {
  }

  lemma LessToDo(t: Thread)
    requires CanGoOn(t)
    ensures ReadsLeft(AfterPhase(t)) == ReadsLeft(t) && StepsLeft(AfterPhase(t)) < StepsLeft(t)
  {
  }

  /** Every action takes a reading or brings the phase nearer to its end. */
  lemma EveryStepMakesProgress(s: System, a: Action)
    requires s.Valid() && Enabled(s, a)
    ensures Nearer(Step(s, a), s)
  {
    match a {
      case Spawn => SpawnIsNearer(s);
      case TakeReading(i, reading) =>
        var t := s.threads[i];
        LessToRead(s.expand, s.live, t, reading);
        ReplaceIsNearer(s, i, AfterReading(s.expand, s.live, t, reading), [ReadFor(s.live, t, reading)], []);
      case Emit(i, r) =>
        ReplaceIsNearer(s, i, AfterEmit(s.threads[i], r), [], [r]);
      case GoOn(i) =>
        LessToDo(s.threads[i]);
        ReplaceIsNearer(s, i, AfterPhase(s.threads[i]), [], []);
      case Return =>
    }
  }

  /** Every schedule is finite: an endless sequence of decisions contains one that is not possible any more. */
  lemma {:induction false} SchedulesEnd(states: nat -> System, actions: nat -> Action, k: nat) returns (n: nat)
    requires forall m: nat ::
               states(m).Valid() && (Enabled(states(m), actions(m)) ==> states(m + 1) == Step(states(m), actions(m)))
    ensures n >= k && !Enabled(states(n), actions(n))
    decreases AllReadsLeft(states(k).threads), Tail(states(k))
  {
    n := k;
    if Enabled(states(k), actions(k)) {
      EveryStepMakesProgress(states(k), actions(k));
      n := SchedulesEnd(states, actions, k + 1);
    }
  }

  /** No deadlock: until Gather has returned, some action is enabled. */
  lemma NeverStuck(s: System) returns (a: Action)
    requires s.Valid() && !s.returned
    ensures Enabled(s, a)
  {
    if s.spawned < |s.threads| {
      return Spawn;
    }
    if s.waitGroup == 0 {
      return Return;
    }
    assert s.threads[..s.spawned] == s.threads;
    var i := FindUnfinished(s.threads);
    var t := s.threads[i];
    if CanRead(t) {
      return TakeReading(i, if s.expand then Scalar(Errors.Err(Errors.UninitializedQuery)) else Array(Errors.Ok([])));
    }
    if t.phase.Publishing? && t.phase.pending != {} {
      var r :| r in t.phase.pending;
      return Emit(i, r);
    }
    return GoOn(i);
  }

  /** Hence a schedule that cannot be extended has returned. */
  lemma MaximalScheduleReturns(s: System, actions: seq<Action>)
    requires s.Valid() && Schedule(s, actions) && forall a :: !Enabled(RunSchedule(s, actions), a)
    ensures RunSchedule(s, actions).returned
  {
    ScheduleKeepsValid(s, actions);
    if !RunSchedule(s, actions).returned {
      var a := NeverStuck(RunSchedule(s, actions));
    }
  }

  lemma {:induction false} FindUnfinished(threads: seq<Thread>) returns (i: nat)
    requires Unfinished(threads) > 0
    ensures i < |threads| && !threads[i].phase.Done?
  {
    if Last(threads).phase.Done? {
      i := FindUnfinished(Front(threads));
    } else {
      i := |threads| - 1;
    }
  }
}
