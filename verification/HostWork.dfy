/** The gathering phase on values: what each host reads, in which order, and what it publishes. */
module HostWork {
  import opened Errors
  import opened Gathering
  import opened Configuration
  import opened Pdh
  import opened HostStates

  /** Every read was of a counter that the host's open query had issued and sampled at least twice. */
  ghost predicate SafeReads(reads': seq<Read>) {
    forall i :: 0 <= i < |reads'| ==> reads'[i].known.Some? && reads'[i].known.value.samples >= 2
  }

  lemma SafeConcat(a: seq<Read>, b: seq<Read>)
    ensures SafeReads(a) && SafeReads(b) ==> SafeReads(a + b)
  {
  }

  /** The job is that of the host: its counters, in its mode, under its tag and time. */
  ghost predicate WorksOn(job: Job, expand: bool, host: HostState) {
    job.expand == expand && job.metrics == host.counters && job.tag == host.tag && job.timestamp == host.timestamp
  }

  /** The reads of a host's first metrics, in metric order, each on the host's own query. */
  function ReadsOf(live: Live, host: HostState, readings: seq<Reading>): seq<Read>
    requires |readings| <= |host.counters|
  {
    if readings == [] then []
    else
      var n := |readings| - 1;
      var counter := host.counters[n].handle;
      ReadsOf(live, host, Front(readings))
        + [Read(host.handle, counter, InfoOf(live, host.handle, counter), readings[n])]
  }

  lemma ReadsOn(live: Live, host: HostState, readings: seq<Reading>, reading: Reading)
    requires |readings| < |host.counters|
    ensures var counter := host.counters[|readings|].handle;
            ReadsOf(live, host, readings + [reading]) ==
            ReadsOf(live, host, readings) + [Read(host.handle, counter, InfoOf(live, host.handle, counter), reading)]
  {
    assert Front(readings + [reading]) == readings;
  }

  /** The job's readings are those actually taken: all of them, or those up to the fatal one. */
  ghost predicate Took(job: Job, taken: seq<Reading>) {
    job.Valid() && taken <= job.readings && (|taken| == |job.metrics| || After(job, |taken|).Aborted?)
  }

  /** The host's first metrics have been read and folded, with this result. */
  ghost predicate ReadProgress(job: Job, expand: bool, host: HostState, progress: Progress, live: Live,
                               before: seq<Read>, now: seq<Read>) {
    && job.Started() && WorksOn(job, expand, host)
    && After(job, |job.readings|) == progress
    && now == before + ReadsOf(live, host, job.readings)
  }

  /** The jobs that have got that far. */
  ghost function JobsAt(expand: bool, host: HostState, progress: Progress, live: Live, before: seq<Read>,
                        now: seq<Read>): iset<Job> {
    iset job | ReadProgress(job, expand, host, progress, live, before, now)
  }

  lemma NothingReadYet(expand: bool, host: HostState, live: Live, before: seq<Read>)
    ensures Job(expand, host.counters, [], host.tag, host.timestamp) in
            JobsAt(expand, host, Running(Local(None, map[])), live, before, before)
  {
  }

  lemma ReadStep(job: Job, expand: bool, host: HostState, local: Local, live: Live, before: seq<Read>, now: seq<Read>,
                 reading: Reading)
    requires job in JobsAt(expand, host, Running(local), live, before, now)
    requires |job.readings| < |job.metrics| && reading.Scalar? == expand
    ensures var n := |job.readings|;
            var counter := host.counters[n].handle;
            job.(readings := job.readings + [reading]) in
            JobsAt(expand, host, MetricStep(expand, host.counters[n], reading, local), live, before,
                   now + [Read(host.handle, counter, InfoOf(live, host.handle, counter), reading)])
  {
    AfterOn(job, reading);
    ReadsOn(live, host, job.readings, reading);
  }

  /** An abandoned host has published nothing. */
  lemma AbandonedJob(job: Job, expand: bool, host: HostState, e: Error, live: Live, before: seq<Read>, now: seq<Read>)
    requires job in JobsAt(expand, host, Aborted(e), live, before, now)
    ensures var full := Completed(job);
            && WorksOn(full, expand, host) && Took(full, job.readings) && Published(full) == {}
            && now == before + ReadsOf(live, host, job.readings)
  {
    AbortedPublishesNothing(job);
    AfterUsesPrefix(job, Completed(job), |job.readings|);
  }

  /** A host that has been read to the end publishes what its fold holds. */
  lemma FinishedJob(job: Job, expand: bool, host: HostState, local: Local, live: Live, before: seq<Read>,
                    now: seq<Read>)
    requires job in JobsAt(expand, host, Running(local), live, before, now) && |job.readings| == |host.counters|
    ensures WorksOn(job, expand, host) && Took(job, job.readings)
    ensures Published(job) == Records(local.fields, host.tag, host.timestamp)
    ensures now == before + ReadsOf(live, host, job.readings)
  {
  }

  /** The hosts gathered so far, last first: each with its job and the readings it took. */
  datatype Work = Idle | Then(rest: Work, c: string, job: Job, taken: seq<Reading>)

  function Computers(work: Work): set<string> {
    if work.Idle? then {} else Computers(work.rest) + {work.c}
  }

  /** Each host worked once, on its own counters. */
  ghost predicate WorkedOn(cfg: Config, hosts: Hosts, work: Work) {
    work.Idle? ||
    (&& WorkedOn(cfg, hosts, work.rest)
     && work.c in hosts && work.c !in Computers(work.rest)
     && Took(work.job, work.taken) && WorksOn(work.job, cfg.useWildcardsExpansion, hosts[work.c]))
  }

  /** All reads of the phase. */
  function ReadsBy(live: Live, hosts: Hosts, work: Work): seq<Read> {
    if work.Idle? then []
    else ReadsBy(live, hosts, work.rest) +
         if work.c in hosts && |work.taken| <= |hosts[work.c].counters|
         then ReadsOf(live, hosts[work.c], work.taken) else []
  }

  /** All records of the phase. */
  ghost function RecordsBy(work: Work): multiset<Record> {
    if work.Idle? then multiset{}
    else RecordsBy(work.rest) + if work.job.Valid() then multiset(Published(work.job)) else multiset{}
  }

  /** The work on all hosts but the left ones that leads from one trace and one list of published records to another. */
  ghost function Doings(cfg: Config, w: World, left: set<string>, trace: seq<Read>, before: seq<Record>,
                        trace': seq<Read>, now: seq<Record>): iset<Work> {
    iset work |
      && WorkedOn(cfg, w.hosts, work) && left <= w.hosts.Keys && Computers(work) == w.hosts.Keys - left
      && trace' == trace + ReadsBy(w.live, w.hosts, work)
      && multiset(now) == multiset(before) + RecordsBy(work)
  }

  lemma NothingDone(cfg: Config, w: World, trace: seq<Read>, published: seq<Record>)
    ensures Idle in Doings(cfg, w, w.hosts.Keys, trace, published, trace, published)
  {
  }

  lemma ReadsGrow(live: Live, hosts: Hosts, work: Work, c: string, job: Job, readings: seq<Reading>, trace: seq<Read>)
    requires c in hosts && |readings| <= |hosts[c].counters|
    ensures trace + ReadsBy(live, hosts, work) + ReadsOf(live, hosts[c], readings)
         == trace + ReadsBy(live, hosts, Then(work, c, job, readings))
  {
    var a, b := ReadsBy(live, hosts, work), ReadsOf(live, hosts[c], readings);
    assert ReadsBy(live, hosts, Then(work, c, job, readings)) == a + b;
    assert (trace + a) + b == trace + (a + b);
  }

  lemma RecordsGrow(work: Work, c: string, job: Job, readings: seq<Reading>, before: seq<Record>, now: seq<Record>,
                    records: seq<Record>)
    requires job.Valid() && multiset(now) == multiset(before) + RecordsBy(work)
             && multiset(records) == multiset(Published(job))
    ensures multiset(now + records) == multiset(before) + RecordsBy(Then(work, c, job, readings))
  {
    assert multiset(now + records) == multiset(before) + RecordsBy(work) + multiset(records);
    assert RecordsBy(Then(work, c, job, readings)) == RecordsBy(work) + multiset(records);
  }

  lemma WorkStep(cfg: Config, w: World, left: set<string>, work: Work, c: string, job: Job, readings: seq<Reading>,
                 trace: seq<Read>, before: seq<Record>, trace': seq<Read>, now: seq<Record>, records: seq<Record>)
    requires work in Doings(cfg, w, left, trace, before, trace', now) && c in left && c in w.hosts
    requires Took(job, readings) && WorksOn(job, cfg.useWildcardsExpansion, w.hosts[c])
    requires multiset(records) == multiset(Published(job))
    ensures Then(work, c, job, readings) in
            Doings(cfg, w, left - {c}, trace, before, trace' + ReadsOf(w.live, w.hosts[c], readings), now + records)
  {
    ReadsGrow(w.live, w.hosts, work, c, job, readings, trace);
    RecordsGrow(work, c, job, readings, before, now, records);
  }

  /** Warm hosts are read safely. */
  lemma {:induction false} WarmWorkIsSafe(cfg: Config, hosts: Hosts, live: Live, work: Work)
    requires WorkedOn(cfg, hosts, work) && Warm(hosts, live, 2)
    ensures SafeReads(ReadsBy(live, hosts, work))
  {
    if work.Then? {
      WarmWorkIsSafe(cfg, hosts, live, work.rest);
      WarmHostReadsAreSafe(live, hosts, work.c, work.taken);
    }
  }

  lemma {:induction false} WarmHostReadsAreSafe(live: Live, hosts: Hosts, c: string, readings: seq<Reading>)
    requires Warm(hosts, live, 2) && c in hosts && |readings| <= |hosts[c].counters|
    ensures SafeReads(ReadsOf(live, hosts[c], readings))
    decreases readings
  {
    if readings != [] {
      WarmHostReadsAreSafe(live, hosts, c, Front(readings));
      assert BelongsTo(hosts[c].counters[|readings| - 1], live[hosts[c].handle]);
    }
  }

  ghost predicate CleanRecords(records: multiset<Record>) {
    forall r :: r in records ==> CleanRecord(r)
  }

  /** Warm hosts publish clean names only. */
  lemma {:induction false} WarmWorkIsClean(cfg: Config, hosts: Hosts, live: Live, work: Work)
    requires WorkedOn(cfg, hosts, work) && Warm(hosts, live, 2)
    ensures CleanRecords(RecordsBy(work))
  {
    if work.Then? {
      WarmWorkIsClean(cfg, hosts, live, work.rest);
      forall r | r in RecordsBy(work) ensures CleanRecord(r) {
        if r !in RecordsBy(work.rest) {
          WarmHostIsWellNamed(hosts, live, work.c);
          PublishedRecordsAreClean(work.job, r);
        }
      }
    }
  }

  lemma WarmHostIsWellNamed(hosts: Hosts, live: Live, c: string)
    requires Warm(hosts, live, 2) && c in hosts
    ensures forall k :: 0 <= k < |hosts[c].counters| ==> WellNamed(hosts[c].counters[k])
  {
    forall k | 0 <= k < |hosts[c].counters| ensures WellNamed(hosts[c].counters[k]) {
      assert BelongsTo(hosts[c].counters[k], live[hosts[c].handle]);
    }
  }

  lemma CleanConcat(before: seq<Record>, more: multiset<Record>, now: seq<Record>)
    requires multiset(now) == multiset(before) + more && CleanRecords(multiset(before)) && CleanRecords(more)
    ensures CleanRecords(multiset(now))
  {
  }

  /** What a round adds to the trace and to the published records keeps both as they should be. */
  ghost predicate RoundAdds(w: World, trace: seq<Read>, trace': seq<Read>, before: seq<Record>, now: seq<Record>,
                            work: Work) {
    || (trace' == trace && now == before)
    || (&& trace' == trace + ReadsBy(w.live, w.hosts, work) && SafeReads(ReadsBy(w.live, w.hosts, work))
        && multiset(now) == multiset(before) + RecordsBy(work) && CleanRecords(RecordsBy(work)))
  }

  lemma RoundIsSafe(w: World, trace: seq<Read>, trace': seq<Read>, before: seq<Record>, now: seq<Record>, work: Work)
    requires RoundAdds(w, trace, trace', before, now, work) && SafeReads(trace) && CleanRecords(multiset(before))
    ensures SafeReads(trace') && CleanRecords(multiset(now))
  {
    if !(trace' == trace && now == before) {
      SafeConcat(trace, ReadsBy(w.live, w.hosts, work));
      CleanConcat(before, RecordsBy(work), now);
    }
  }
}
