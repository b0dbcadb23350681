/**
 One host's gathering: the readings of its metrics are folded into a map of maps, and every group
 becomes one published record.
 */
module Gathering {
  import opened Errors
  import opened Sanitizer
  import CounterPath

  /** A registered counter; `name` and `measurement` are already sanitized once. */
  datatype Counter = Counter(
    path: string,
    computer: string,
    objectName: string,
    name: string,
    instance: string,
    measurement: string,
    includeTotal: bool,
    useRaw: bool,
    handle: nat)

  function NewCounter(handle: nat, path: string, computer: string, objectName: string, instance: string,
                      counterName: string, measurement: string, includeTotal: bool, useRaw: bool): (metric: Counter)
    ensures WellNamed(metric)
  {
    PublishedNames(counterName, useRaw);
    Counter(path, computer, objectName, CounterName(counterName, useRaw), instance,
            MeasurementName(measurement), includeTotal, useRaw, handle)
  }

  /** The field name under which the counter's values are published is a fixed point of the sanitizer. */
  predicate WellNamed(metric: Counter) {
    Sanitize(FieldName(metric.name)) == FieldName(metric.name)
  }

  /** Counter values are only passed on. */
  datatype Value = RawValue(n: int) | FormattedValue(x: real)

  datatype CounterValue = CounterValue(name: string, value: Value)

  /** What the query returned for one metric: one value with wildcard expansion, an array without. */
  datatype Reading = Scalar(value: Result<Value>) | Array(values: Result<seq<CounterValue>>) {
    function Error(): Option<Error> {
      match this
      case Scalar(Err(e)) => Some(e)
      case Array(Err(e)) => Some(e)
      case _ => None
    }
  }

  datatype Group = Group(measurement: string, instance: string, objectName: string)

  type Grouping = map<Group, map<string, Value>>

  datatype Sample = Sample(group: Group, field: string, value: Value)

  // ----- One metric

  predicate Contains(s: string, sub: string) {
    exists i :: 0 <= i <= |s| && sub <= s[i..]
  }

  /** PDH cuts an instance such as "w3wp#1" short; the configured instance is put back. */
  function InstanceName(metric: Counter, name: string): string {
    if '#' in metric.instance && name <= metric.instance then metric.instance else name
  }

  predicate ShouldInclude(metric: Counter, name: string) {
    || metric.includeTotal
    || (metric.instance == "*" && !Contains(name, "_Total"))
    || metric.instance == name
    || metric.instance == CounterPath.EMPTY_INSTANCE
  }

  function SampleOf(metric: Counter, instance: string, value: Value): Sample {
    Sample(Group(metric.measurement, instance, metric.objectName), FieldName(metric.name), value)
  }

  /** The values of an array that pass the inclusion filter, in order. */
  function Included(metric: Counter, values: seq<CounterValue>): seq<Sample> {
    if values == [] then []
    else
      var n := |values| - 1;
      var name := InstanceName(metric, values[n].name);
      Included(metric, values[..n]) +
      if ShouldInclude(metric, name) then [SampleOf(metric, name, values[n].value)] else []
  }

  /** The samples that a reading offers. */
  function Contribution(metric: Counter, reading: Reading): seq<Sample> {
    match reading
    case Scalar(Ok(v)) => [SampleOf(metric, metric.instance, v)]
    case Array(Ok(vs)) => Included(metric, vs)
    case _ => []
  }

  function AddSample(fields: Grouping, s: Sample): Grouping {
    fields[s.group := (if s.group in fields then fields[s.group] else map[])[s.field := s.value]]
  }

  function Fold(fields: Grouping, samples: seq<Sample>): Grouping {
    if samples == [] then fields
    else AddSample(Fold(fields, samples[..|samples| - 1]), samples[|samples| - 1])
  }

  /** The variables that survive from one metric to the next. */
  datatype Local = Local(err: Option<Error>, fields: Grouping)

  datatype Progress = Running(local: Local) | Aborted(error: Error)

  /**
   One iteration over the metrics. In array mode the read of a formatted counter declares an error
   variable of its own, so what is tested afterwards is the error left by an earlier raw counter.
   */
  function MetricStep(expand: bool, metric: Counter, reading: Reading, local: Local): Progress {
    var err := if expand || metric.useRaw then reading.Error() else local.err;
    if err.Some? then
      if IsKnownCounterDataError(err.value) then Running(local.(err := err)) else Aborted(err.value)
    else Running(Local(None, Fold(local.fields, Contribution(metric, reading))))
  }

  /** `addCounterMeasurement` */
  method AddCounterMeasurement(metric: Counter, instance: string, value: Value, fields: Grouping) returns (r: Grouping)
    ensures r == AddSample(fields, SampleOf(metric, instance, value))
  {
    var group := Group(metric.measurement, instance, metric.objectName);
    r := fields;
    if group !in r {
      r := r[group := map[]];
    }
    r := r[group := r[group][FieldName(metric.name) := value]];
  }

  lemma IncludedOn(metric: Counter, values: seq<CounterValue>, i: nat)
    requires i < |values|
    ensures var name := InstanceName(metric, values[i].name);
            Included(metric, values[..i + 1]) ==
            Included(metric, values[..i]) +
            if ShouldInclude(metric, name) then [SampleOf(metric, name, values[i].value)] else []
  {
    assert values[..i + 1][..i] == values[..i];
  }

  lemma FoldOn(fields: Grouping, samples: seq<Sample>, s: Sample)
    ensures Fold(fields, samples + [s]) == AddSample(Fold(fields, samples), s)
            && Fold(fields, samples + []) == Fold(fields, samples)
  {
    assert (samples + [s])[..|samples|] == samples && samples + [] == samples;
  }

  /** The inner loop over an array of values. */
  method AddCounterValues(metric: Counter, values: seq<CounterValue>, fields: Grouping) returns (r: Grouping)
    ensures r == Fold(fields, Included(metric, values))
  {
    r := fields;
    for i := 0 to |values|
      invariant r == Fold(fields, Included(metric, values[..i]))
    {
      var name := values[i].name;
      if '#' in metric.instance && name <= metric.instance {
        name := metric.instance;
      }
      IncludedOn(metric, values, i);
      FoldOn(fields, Included(metric, values[..i]), SampleOf(metric, name, values[i].value));
      if ShouldInclude(metric, name) {
        r := AddCounterMeasurement(metric, name, values[i].value, r);
      }
    }
    assert values[..|values|] == values;
  }

  /** The body of the loop over the metrics, once the reading is there. */
  method ProcessMetric(expand: bool, metric: Counter, reading: Reading, local: Local) returns (p: Progress)
    requires expand == reading.Scalar?
    ensures p == MetricStep(expand, metric, reading, local)
  {
    var err, fields := local.err, local.fields;
    if expand {
      err := reading.Error();
      if err.Some? {
        if !IsKnownCounterDataError(err.value) {
          return Aborted(err.value);
        }
        return Running(Local(err, fields));
      }
      var added := AddCounterMeasurement(metric, metric.instance, reading.value.value, fields);
      FoldSplit(fields, [], Contribution(metric, reading));
      return Running(Local(err, added));
    }
    var counterValues := if reading.values.Ok? then reading.values.value else [];
    if metric.useRaw {
      err := reading.Error();
    }
    if err.Some? {
      if !IsKnownCounterDataError(err.value) {
        return Aborted(err.value);
      }
      return Running(Local(err, fields));
    }
    var added := AddCounterValues(metric, counterValues, fields);
    return Running(Local(err, added));
  }

  lemma {:induction false} FoldSplit(fields: Grouping, a: seq<Sample>, b: seq<Sample>)
    ensures Fold(Fold(fields, a), b) == Fold(fields, a + b)
    decreases b
  {
    if b == [] {
      assert a + b == a;
    } else {
      var n := |b| - 1;
      FoldSplit(fields, a, b[..n]);
      assert (a + b)[..|a + b| - 1] == a + b[..n];
    }
  }

  // ----- The meaning of the fold

  /** The value of the last sample for a group and field, if there is one. */
  function LastValue(samples: seq<Sample>, g: Group, f: string): Option<Value> {
    if samples == [] then None
    else
      var s := samples[|samples| - 1];
      if s.group == g && s.field == f then Some(s.value) else LastValue(samples[..|samples| - 1], g, f)
  }

  lemma {:induction false} LastValueMeans(samples: seq<Sample>, g: Group, f: string)
    ensures LastValue(samples, g, f).None? ==>
              forall i :: 0 <= i < |samples| ==> samples[i].group != g || samples[i].field != f
    ensures LastValue(samples, g, f).Some? ==>
              exists i :: 0 <= i < |samples| && samples[i] == Sample(g, f, LastValue(samples, g, f).value) &&
                          forall j :: i < j < |samples| ==> samples[j].group != g || samples[j].field != f
  {
    if samples != [] {
      var n := |samples| - 1;
      var s := samples[n];
      LastValueMeans(samples[..n], g, f);
      if s.group == g && s.field == f {
        assert samples[n] == Sample(g, f, s.value);
      } else if LastValue(samples, g, f).Some? {
        var i :| 0 <= i < n && samples[..n][i] == Sample(g, f, LastValue(samples, g, f).value) &&
                 forall j :: i < j < n ==> samples[..n][j].group != g || samples[..n][j].field != f;
        assert samples[i] == samples[..n][i];
        assert forall j :: i < j < n ==> samples[j] == samples[..n][j];
      }
    }
  }

  function GroupsOf(samples: seq<Sample>): set<Group> {
    set s | s in samples :: s.group
  }

  function FieldAt(fields: Grouping, g: Group, f: string): Option<Value> {
    if g in fields && f in fields[g] then Some(fields[g][f]) else None
  }

  /** The groups are those of the samples, and every field holds its last sample and nothing else. */
  ghost predicate Represents(fields: Grouping, samples: seq<Sample>) {
    && fields.Keys == GroupsOf(samples)
    && forall g, f :: FieldAt(fields, g, f) == LastValue(samples, g, f)
  }

  lemma {:induction false} FoldRepresents(samples: seq<Sample>)
    ensures Represents(Fold(map[], samples), samples)
  {
    if samples != [] {
      var n := |samples| - 1;
      var before, s := samples[..n], samples[n];
      FoldRepresents(before);
      assert samples == before + [s];
      assert GroupsOf(samples) == GroupsOf(before) + {s.group};
      var old', fields := Fold(map[], before), Fold(map[], samples);
      forall g, f ensures FieldAt(fields, g, f) == LastValue(samples, g, f) {
        assert FieldAt(old', g, f) == LastValue(before, g, f);
      }
    }
  }

  /** There is only one such grouping. */
  lemma RepresentationIsUnique(a: Grouping, b: Grouping, samples: seq<Sample>)
    requires Represents(a, samples) && Represents(b, samples)
    ensures a == b
  {
    forall g | g in a ensures a[g] == b[g] {
      forall f ensures (f in a[g] <==> f in b[g]) && (f in a[g] ==> a[g][f] == b[g][f]) {
        assert FieldAt(a, g, f) == FieldAt(b, g, f);
      }
    }
  }

  // ----- All metrics of a host

  /** What a host works on: its registered counters and, once the query has been collected, their readings. */
  datatype Job = Job(expand: bool, metrics: seq<Counter>, readings: seq<Reading>, tag: string, timestamp: int) {
    /** The readings taken so far are of the kind the mode asks for. */
    ghost predicate Started() {
      |readings| <= |metrics| && forall i :: 0 <= i < |readings| ==> readings[i].Scalar? == expand
    }

    ghost predicate Valid() {
      Started() && |readings| == |metrics|
    }
  }

  /** The loop variables after the first n metrics. */
  function After(job: Job, n: nat): Progress
    requires job.Started() && n <= |job.readings|
  {
    if n == 0 then Running(Local(None, map[]))
    else match After(job, n - 1)
      case Aborted(e) => Aborted(e)
      case Running(local) => MetricStep(job.expand, job.metrics[n - 1], job.readings[n - 1], local)
  }

  /** An aborted prefix stays aborted. */
  lemma {:induction false} AbortIsFinal(job: Job, n: nat, m: nat)
    requires job.Valid() && n <= m <= |job.metrics| && After(job, n).Aborted?
    ensures After(job, m).Aborted?
  {
    if n < m {
      AbortIsFinal(job, n, m - 1);
    }
  }

  /** Readings beyond the first n do not matter. */
  lemma {:induction false} AfterUsesPrefix(job: Job, job': Job, n: nat)
    requires job.Started() && job'.Started() && n <= |job.readings| && n <= |job'.readings|
    requires job'.expand == job.expand && job'.metrics == job.metrics
    requires forall i :: 0 <= i < n ==> job'.readings[i] == job.readings[i]
    ensures After(job, n) == After(job', n)
  {
    if n > 0 {
      AfterUsesPrefix(job, job', n - 1);
    }
  }

  /** One more reading is one more step. */
  lemma AfterOn(job: Job, r: Reading)
    requires job.Started() && |job.readings| < |job.metrics| && r.Scalar? == job.expand
    requires After(job, |job.readings|).Running?
    ensures job.(readings := job.readings + [r]).Started()
    ensures After(job.(readings := job.readings + [r]), |job.readings| + 1) ==
            MetricStep(job.expand, job.metrics[|job.readings|], r, After(job, |job.readings|).local)
  {
    AfterUsesPrefix(job, job.(readings := job.readings + [r]), |job.readings|);
  }

  /** An abandoned host's job, with the readings it did not take any more filled in. */
  function Completed(job: Job): (full: Job)
    requires job.Started()
    ensures full.Valid() && full == job.(readings := full.readings)
  {
    var blank := if job.expand then Scalar(Err(UninitializedQuery)) else Array(Err(UninitializedQuery));
    job.(readings := job.readings + seq(|job.metrics| - |job.readings|, _ => blank))
  }

  lemma AbortedPublishesNothing(job: Job)
    requires job.Started() && After(job, |job.readings|).Aborted?
    ensures Published(Completed(job)) == {}
  {
    AfterUsesPrefix(job, Completed(job), |job.readings|);
    AbortIsFinal(Completed(job), |job.readings|, |job.metrics|);
  }

  /** An error that abandons the host: unknown, and not hidden by the formatted read's own variable. */
  ghost predicate Fatal(job: Job, i: nat)
    requires job.Valid() && i < |job.metrics|
  {
    var e := job.readings[i].Error();
    e.Some? && !IsKnownCounterDataError(e.value) && (job.expand || job.metrics[i].useRaw)
  }

  /** j is the nearest raw metric before i. */
  ghost predicate NearestRawBefore(job: Job, j: int, i: int)
    requires i <= |job.metrics|
  {
    0 <= j < i && job.metrics[j].useRaw && forall k :: j < k < i ==> !job.metrics[k].useRaw
  }

  /** The samples of metric i reach the inclusion filter. */
  ghost predicate Reaches(job: Job, i: nat)
    requires job.Valid() && i < |job.metrics|
  {
    && job.readings[i].Error().None?
    && (job.expand || job.metrics[i].useRaw ||
        forall j :: NearestRawBefore(job, j, i) ==> job.readings[j].Error().None?)
  }

  /** The flat specification: the included samples in metric order. */
  ghost function Samples(job: Job, n: nat): seq<Sample>
    requires job.Valid() && n <= |job.metrics|
  {
    if n == 0 then []
    else Samples(job, n - 1) +
         if Reaches(job, n - 1) then Contribution(job.metrics[n - 1], job.readings[n - 1]) else []
  }

  /** In array mode the carried error is that of the nearest raw read. */
  ghost predicate CarriesNearestRaw(job: Job, n: nat, err: Option<Error>)
    requires job.Valid() && n <= |job.metrics|
  {
    && (forall j :: NearestRawBefore(job, j, n) ==> err == job.readings[j].Error())
    && ((forall j :: 0 <= j < n ==> !job.metrics[j].useRaw) ==> err == None)
  }

  /** What the loop variables hold after n metrics that did not abort. */
  ghost predicate Holds(job: Job, n: nat, local: Local)
    requires job.Valid() && n <= |job.metrics|
  {
    local.fields == Fold(map[], Samples(job, n)) && (!job.expand ==> CarriesNearestRaw(job, n, local.err))
  }

  /** The loop variables for which this holds, as a set to keep the definition out of the inductive proof. */
  ghost function Holding(job: Job, n: nat): iset<Local>
    requires job.Valid() && n <= |job.metrics|
  {
    iset local | Holds(job, n, local)
  }

  lemma MetricStepMeans(job: Job, n: nat, local: Local)
    requires job.Valid() && n < |job.metrics| && local in Holding(job, n) && forall i :: 0 <= i < n ==> !Fatal(job, i)
    ensures var p := MetricStep(job.expand, job.metrics[n], job.readings[n], local);
            (p.Aborted? <==> Fatal(job, n)) && (p.Running? ==> p.local in Holding(job, n + 1))
  {
    var p := MetricStep(job.expand, job.metrics[n], job.readings[n], local);
    FoldSplit(map[], Samples(job, n), Contribution(job.metrics[n], job.readings[n]));
    assert Samples(job, n) + [] == Samples(job, n);
    if job.expand || job.metrics[n].useRaw {
      assert Reaches(job, n) <==> job.readings[n].Error().None?;
      assert job.metrics[n].useRaw ==> NearestRawBefore(job, n, n + 1);
    } else {
      CarriedErrorDecides(job, n, local.err);
      assert Reaches(job, n) <==> job.readings[n].Error().None? && local.err.None?;
      forall j | NearestRawBefore(job, j, n + 1) ensures NearestRawBefore(job, j, n) {
      }
    }
  }

  lemma NothingRead(job: Job)
    requires job.Valid()
    ensures Local(None, map[]) in Holding(job, 0)
  {
  }

  lemma {:induction false} AfterMeans(job: Job, n: nat)
    requires job.Valid() && n <= |job.metrics|
    ensures After(job, n).Aborted? <==> exists i :: 0 <= i < n && Fatal(job, i)
    ensures After(job, n).Running? ==> After(job, n).local in Holding(job, n)
  {
    if n == 0 {
      NothingRead(job);
    } else {
      AfterMeans(job, n - 1);
      if After(job, n - 1).Running? {
        MetricStepMeans(job, n - 1, After(job, n - 1).local);
        if After(job, n).Aborted? {
          assert Fatal(job, n - 1);
        }
      } else {
        var i :| 0 <= i < n - 1 && Fatal(job, i);
        assert 0 <= i < n && Fatal(job, i);
      }
    }
  }

  /** A carried error is never fatal, and it is absent exactly when the nearest raw read succeeded or there is none. */
  lemma CarriedErrorDecides(job: Job, n: nat, err: Option<Error>)
    requires job.Valid() && n < |job.metrics| && CarriesNearestRaw(job, n, err)
    requires !job.expand && !exists i :: 0 <= i < n && Fatal(job, i)
    ensures err.None? <==> forall j :: NearestRawBefore(job, j, n) ==> job.readings[j].Error().None?
    ensures err.Some? ==> IsKnownCounterDataError(err.value)
  {
    if exists j :: 0 <= j < n && job.metrics[j].useRaw {
      var j := LastRaw(job, n);
      assert NearestRawBefore(job, j, n);
      assert !Fatal(job, j);
    }
  }

  lemma LastRaw(job: Job, n: nat) returns (j: nat)
    requires n <= |job.metrics| && exists j :: 0 <= j < n && job.metrics[j].useRaw
    ensures NearestRawBefore(job, j, n)
  {
    j := n - 1;
    while !job.metrics[j].useRaw
      invariant j < n
      invariant exists i :: 0 <= i <= j && job.metrics[i].useRaw
      invariant forall k :: j < k < n ==> !job.metrics[k].useRaw
      decreases j
    {
      j := j - 1;
    }
  }

  // ----- Records

  datatype Record = Record(measurement: string, fields: map<string, Value>, tags: map<string, string>, timestamp: int)

  function RecordOf(group: Group, fields: map<string, Value>, tag: string, timestamp: int): Record {
    var tags := map["objectname" := group.objectName];
    var tags := if |group.instance| > 0 then tags["instance" := group.instance] else tags;
    var tags := if |tag| > 0 then tags["source" := tag] else tags;
    Record(group.measurement, fields, tags, timestamp)
  }

  /** A record shows its group, so distinct groups give distinct records. */
  lemma RecordShowsGroup(g: Group, fs: map<string, Value>, h: Group, hs: map<string, Value>, tag: string,
                         timestamp: int)
    requires RecordOf(g, fs, tag, timestamp) == RecordOf(h, hs, tag, timestamp)
    ensures g == h && fs == hs
  {
    var r := RecordOf(g, fs, tag, timestamp);
    assert r.tags["objectname"] == g.objectName == h.objectName;
    assert "instance" in r.tags <==> |g.instance| > 0;
    assert "instance" in r.tags <==> |h.instance| > 0;
    assert "instance" in r.tags ==> r.tags["instance"] == g.instance == h.instance;
  }

  /** The records of some of the groups. */
  function RecordsFor(groups: set<Group>, fields: Grouping, tag: string, timestamp: int): set<Record>
    requires groups <= fields.Keys
  {
    set g | g in groups :: RecordOf(g, fields[g], tag, timestamp)
  }

  function Records(fields: Grouping, tag: string, timestamp: int): set<Record> {
    RecordsFor(fields.Keys, fields, tag, timestamp)
  }

  lemma OneMoreRecord(groups: set<Group>, g: Group, fields: Grouping, tag: string, timestamp: int)
    requires groups <= fields.Keys && g in fields && g !in groups
    ensures var r := RecordOf(g, fields[g], tag, timestamp);
            r !in RecordsFor(groups, fields, tag, timestamp) &&
            RecordsFor(groups + {g}, fields, tag, timestamp) == RecordsFor(groups, fields, tag, timestamp) + {r}
  {
    var r := RecordOf(g, fields[g], tag, timestamp);
    if r in RecordsFor(groups, fields, tag, timestamp) {
      var h :| h in groups && RecordOf(h, fields[h], tag, timestamp) == r;
      RecordShowsGroup(g, fields[g], h, fields[h], tag, timestamp);
    }
  }

  /** The loop that hands the groups to the collect function, in whatever order the map yields them. */
  method EmitRecords(fields: Grouping, tag: string, timestamp: int) returns (out: seq<Record>)
    ensures multiset(out) == multiset(Records(fields, tag, timestamp))
  {
    out := [];
    var remaining := fields.Keys;
    while remaining != {}
      invariant remaining <= fields.Keys
      invariant multiset(out) == multiset(RecordsFor(fields.Keys - remaining, fields, tag, timestamp))
    {
      var g :| g in remaining;
      OneMoreRecord(fields.Keys - remaining, g, fields, tag, timestamp);
      assert fields.Keys - (remaining - {g}) == fields.Keys - remaining + {g};
      out := out + [RecordOf(g, fields[g], tag, timestamp)];
      remaining := remaining - {g};
    }
    assert fields.Keys - remaining == fields.Keys;
  }

  /** What a host publishes: nothing after a fatal error, otherwise one record per group. */
  function Published(job: Job): set<Record>
    requires job.Valid()
  {
    match After(job, |job.metrics|)
    case Aborted(_) => {}
    case Running(local) => Records(local.fields, job.tag, job.timestamp)
  }

  /**
   The gathering fold refines its flat specification, for every mixture of raw and formatted metrics:
   a host publishes nothing exactly when some read failed fatally or no sample reached the filter;
   otherwise it publishes one record per group, holding for each field the last sample in metric order.
   */
  lemma GatheringIsFlat(job: Job)
    requires job.Valid()
    ensures (exists i :: 0 <= i < |job.metrics| && Fatal(job, i)) ==> Published(job) == {}
    ensures !(exists i :: 0 <= i < |job.metrics| && Fatal(job, i)) ==>
              exists fields: Grouping ::
                Represents(fields, Samples(job, |job.metrics|)) &&
                Published(job) == Records(fields, job.tag, job.timestamp) &&
                |Published(job)| == |fields|
  {
    AfterMeans(job, |job.metrics|);
    var p := After(job, |job.metrics|);
    if p.Running? {
      FoldRepresents(Samples(job, |job.metrics|));
      var fields := p.local.fields;
      RecordCount(fields.Keys, fields, job.tag, job.timestamp);
      assert Represents(p.local.fields, Samples(job, |job.metrics|));
    }
  }

  lemma {:induction false} RecordCount(groups: set<Group>, fields: Grouping, tag: string, timestamp: int)
    requires groups <= fields.Keys
    ensures |RecordsFor(groups, fields, tag, timestamp)| == |groups|
  {
    if groups != {} {
      var g :| g in groups;
      RecordCount(groups - {g}, fields, tag, timestamp);
      OneMoreRecord(groups - {g}, g, fields, tag, timestamp);
      assert groups - {g} + {g} == groups;
    }
  }

  /** With expansion, or with only raw or only formatted metrics, every successful read reaches the filter. */
  lemma UniformMetricsReach(job: Job, i: nat)
    requires job.Valid() && i < |job.metrics|
    requires job.expand || (forall j :: 0 <= j < |job.metrics| ==> job.metrics[j].useRaw == job.metrics[0].useRaw)
    ensures Reaches(job, i) <==> job.readings[i].Error().None?
  {
  }

  /** Mixed metrics in array mode: one failed raw read silences the formatted metrics up to the next raw one. */
  lemma StaleErrorSilences(raw: Counter, formatted: Counter, values: seq<CounterValue>)
    requires raw.useRaw && !formatted.useRaw
    ensures var job := Job(false, [raw, formatted], [Array(Err(PdhError(PDH_NO_DATA))), Array(Ok(values))], "", 0);
            job.Valid() && !Reaches(job, 1) && Published(job) == {}
  {
    var job := Job(false, [raw, formatted], [Array(Err(PdhError(PDH_NO_DATA))), Array(Ok(values))], "", 0);
    assert NearestRawBefore(job, 0, 1);
    assert After(job, 1) == Running(Local(Some(PdhError(PDH_NO_DATA)), map[]));
    assert After(job, 2) == Running(Local(Some(PdhError(PDH_NO_DATA)), map[]));
  }

  // ----- Published names

  lemma {:induction false} IncludedNames(metric: Counter, values: seq<CounterValue>)
    ensures forall s :: s in Included(metric, values) ==> s.field == FieldName(metric.name)
  {
    if values != [] {
      IncludedNames(metric, values[..|values| - 1]);
    }
  }

  lemma {:induction false} SampleNames(job: Job, n: nat)
    requires job.Valid() && n <= |job.metrics| && forall i :: 0 <= i < n ==> WellNamed(job.metrics[i])
    ensures forall s :: s in Samples(job, n) ==> Clean(s.field)
  {
    if n > 0 {
      SampleNames(job, n - 1);
      var metric := job.metrics[n - 1];
      CleanIffFixed(FieldName(metric.name));
      if job.readings[n - 1].Array? && job.readings[n - 1].values.Ok? {
        IncludedNames(metric, job.readings[n - 1].values.value);
      }
    }
  }

  /** All field names of the record are free of everything that the sanitizer replaces. */
  ghost predicate CleanRecord(r: Record) {
    forall f :: f in r.fields ==> Clean(f)
  }

  /** A host whose counters are well named publishes clean records only. */
  lemma PublishedRecordsAreClean(job: Job, r: Record)
    requires job.Valid() && (forall i :: 0 <= i < |job.metrics| ==> WellNamed(job.metrics[i])) && r in Published(job)
    ensures CleanRecord(r)
  {
    var samples := Samples(job, |job.metrics|);
    AfterMeans(job, |job.metrics|);
    var fields := After(job, |job.metrics|).local.fields;
    FoldRepresents(samples);
    SampleNames(job, |job.metrics|);
    var g :| g in fields && r == RecordOf(g, fields[g], job.tag, job.timestamp);
    forall f | f in r.fields ensures Clean(f) {
      assert FieldAt(fields, g, f) == LastValue(samples, g, f);
      LastValueMeans(samples, g, f);
    }
  }
}
