# A verified model of the Windows performance-counter collector

The collector keeps one PDH query per host, registers the configured counters with these queries,
refreshes them when the refresh interval has passed, and on every `Gather` samples all hosts and
publishes one record per group of readings. This project models its stateful core and the algorithms
it relies on, and proves what holds of them on every input and over every run.

`dafny verify dfyconfig.toml` checks everything.

## How the model is built

* **The environment.** `Pdh.Os` stands for PDH, the clock and the host name. Every call may fail with
  any status; `*` and `:|` are the environment's choices. Assumed are: an opened query gets a nonzero
  handle that no open query has, an added counter gets a handle that no open query has issued, and the
  clock never runs backwards. Closing a query drops it with its counters or fails and changes nothing;
  a successful collect is one more sample for every counter of the query, a failed one is none, except that a
  collect with time may fail after its sample has been taken.
  A ghost trace records every read of a counter handle, with what the query on whose behalf it was read
  knew of that handle at that moment.
* **The collector.** `Collector.WinPerfCounters`, `Collector.Host` and `Pdh.PerformanceQuery` are classes
  with the fields that the program updates. `GatherRuns` describes a call of `Gather` as a transition
  between states, one case per place where it can stop, tied to the configured items wherever it registered
  anything, and states the properties of whole runs;
  `HostStates` and `RegistrySteps` hold the steps and what each of them keeps. `Gather` is proved to make
  such a transition, whatever fails in it, and `GatherRepeatedly` to make such a run.
* **Registration.** `Configuration` lists the items in the order of the nested loops of `parseConfig`,
  `Registration` says what `addItem` may leave behind for one item, and the collector goes through the
  items in that order.
* **Gathering.** `Gathering` is one host's loop over its metrics and the fold into the map of maps, with
  the error variable that array mode carries from one metric to the next; `HostWork` is what all hosts together
  read and publish; `Goroutines` is the phase as interleaved goroutines with a wait group, each reading
  taken when the schedule comes to it.
* **Algorithms.** `CounterPath` and `CounterPathRoundTrip` (parser and printer of counter paths),
  `GrowthLoop` (the loop that six readers share), `MultiString` (the decoder of NUL-separated blocks),
  `WildcardExpansion` (both together), `Sanitizer`, `FileTime`.

Conventions: a `char` of a path or a name stands for one byte; a string decoded from UTF-16 is kept as its
units; integers of fixed width are written out where they can wrap; an index panic, or a read past the end of a
buffer, is an outcome of its own (`Crashed`, `Fault`, `None`).

## Properties that turned out to be conditional

* Doubling the buffer can wrap to an empty buffer, although `Init` accepts the maximum: exactly for maxima of 2^31
  and above (`GrowthLoop.CrashFreeIff`), and for any maximum if PDH leaves a size of 2^31 behind (`GrowthLoop.LargeHintCrashes`);
  with a size of 2^31 + 512 the loop need not end either (`LargeHintLoops`).
* Printing and parsing undo each other under exact conditions: `CounterPathRoundTrip.PrintThenParse` and
  `ParsePrintParse` are equivalences, and `ReprintMayMisread` is a path for which the second fails.
* The cursor of the multi-string decoder advances by runes over a buffer of units, and stays on the strings' starts
  exactly if each string has twice as many surrogate pairs as lone surrogates
  (`MultiString.BlockRoundTrip`); one pair is enough to lose the next string (`PairLosesNextString`), but a single
  string survives one pair too many (`OneStringComesBackIff`).
* One pass of the sanitizer is enough exactly for names in which no "/sec" is split by backslashes
  (`Sanitizer.OnePassSufficesIff`); two are always. Field names get two, but a measurement gets only one and may
  be published unclean (`MeasurementIsCleanIff`, `MeasurementMayBeUnclean`).
* In array mode the formatted read declares an error variable of its own, so that a known data error of
  the nearest raw metric before it silences a formatted metric, and an error of the formatted read itself is never seen
  (`Gathering.AfterMeans`, `Gathering.StaleErrorSilences`); with uniform metrics neither happens (`UniformMetricsReach`).
* A cleaning that stops part-way or a failed Open, and nothing else, leads into states that no later `Gather` leaves
  (`GatherRuns.EntersStuckIff`, `StuckIsForever`). Such states can be reached exactly if the configuration has
  an item (`CanGetStuckIff`).
* The conversion of file times is right on exactly one interval of tick counts (`FileTime.ConversionIsExactlyThis`).

The message of `Init` speaks of a minimum of 2048 where its comparison allows 1024; the model follows the comparison.

## Model

| member | source | states |
|---|---|---|
| `GatherRuns.EveryRunIsSafe` | win_perf_counters.go:198-257 | in every state of every run, whatever calls failed: the live query handles are exactly the hosts' nonzero handles, no two hosts share one, every counter was issued by its host's query under its own path and has a clean field name, and a refresh is due or all hosts are open and sampled; after every publishing round each counter has at least two samples on its still-open query |
| `GatherRuns.StuckIsForever` | win_perf_counters.go:203-206 | once some registered host has no open query, every later Gather of the run returns an error, publishes nothing and ends in such a state |
| `GatherRuns.TransitionKeepsInv` | win_perf_counters.go:198-257 | one call of Gather, after any time has passed, keeps the invariant; from a stuck state it fails in the cleaning |
| `GatherRuns.RoundKeepsInv` | win_perf_counters.go:203-237 | wherever one call of Gather stops, the invariant holds after it; if it reaches publication every host is open and every counter has two samples |
| `GatherRuns.StuckRoundFails` | win_perf_counters.go:203-206 | with a host without open query a refresh is due, it fails in the cleaning, and such a host remains |
| `GatherRuns.AttemptKeepsConsistent` | win_perf_counters.go:203-220 | wherever the refresh stops nothing leaks and nothing is shared; it counts as done only if every counter has a sample |
| `GatherRuns.StuckIsReachable` | win_perf_counters.go:285-292 | for every configuration that has an item, a run of a single call ends in such a state: no query can be opened, and the registration goes through the configured items as far as FailOnMissing lets it |
| `GatherRuns.CanGetStuckIff` | win_perf_counters.go:413-459 | some run reaches such a state if and only if the configuration has an item |
| `GatherRuns.NoItemsNeverHosts` | win_perf_counters.go:420-456 | under a configuration without items no run ever registers a host |
| `GatherRuns.EveryPublicationIsConfigured` | win_perf_counters.go:198-257 | in every run, however long ago the last refresh was: a round that publishes does so on exactly the configured hosts with exactly the counters of the configured items |
| `GatherRuns.AttemptRegisters` | win_perf_counters.go:203-220 | wherever a refresh stops after the cleaning, the hosts and counters are those of the configured items as far as the registration got, with its error |
| `GatherRuns.EntersStuckIff` | win_perf_counters.go:203-220 | from a state with all hosts open, a refresh leaves a host without open query if and only if a Close failed after another had succeeded, or an Open failed |
| `GatherRuns.RoundEntersStuckIff` | win_perf_counters.go:198-257 | the same of a whole call of Gather |
| `GatherRuns.FailedOpenSticks` | win_perf_counters.go:285-292 | a refresh in which some host's query could not be opened cannot complete, and leaves that host registered without open query |
| `GatherRuns.AllOpenedIsNotStuck` | win_perf_counters.go:285-294 | a registration that could open every query leaves every host open, wherever the refresh stops |
| `GatherRuns.PartialCleaningSticks` | win_perf_counters.go:543-551 | a cleaning that fails after closing something leaves a host without open query |
| `HostStates.CleaningKeepsConsistent` | win_perf_counters.go:543-551 | cleaning keeps ownership; it succeeds only if all hosts were open, and then nothing is live; if it fails, all hosts are still there, and the one closed first is without query |
| `HostStates.ClosingMeans` | win_perf_counters.go:544-548 | closing one by one in any order is closing them all at once |
| `HostStates.CollectingMeans` | win_perf_counters.go:211-216 | collecting host by host in any order adds exactly one sample to the counters of exactly these hosts, because no two share a query |
| `HostStates.CollectRound` | win_perf_counters.go:223-237 | a pass of collects keeps ownership and loses no sample wherever it stops; a complete pass adds one sample everywhere |
| `HostStates.CollectingWarms` | win_perf_counters.go:211-216 | collecting on all hosts raises the least sample count by one |
| `HostStates.RegisteringKeepsConsistent` | win_perf_counters.go:285-289 | a host that is filed before its query is opened owns nothing and endangers nothing |
| `HostStates.OpeningKeepsConsistent` | win_perf_counters.go:290-293 | a fresh handle keeps ownership exclusive and complete |
| `HostStates.IssuingKeepsConsistent` | performance_query.go:149-178 | adding a counter to a query leaves every registered counter where it was |
| `HostStates.AppendingKeepsConsistent` | win_perf_counters.go:386 | a counter of the host's own query may join the host |
| `RegistrySteps.StepKeepsConsistent` | win_perf_counters.go:273-411 | each step of addItem keeps ownership and issuance |
| `RegistrySteps.StepsKeepConsistent` | win_perf_counters.go:413-459 | however far parseConfig gets, nothing leaks, nothing is shared and every counter belongs to its host's query |
| `RegistrySteps.UnopenedAreConfigured` | win_perf_counters.go:413-459 | if no query can be opened, what the configuration leaves are the hosts of the attempted items, none with a counter, and the error of the first item that must not be missed |
| `RegistrySteps.FilingLeads` | win_perf_counters.go:285-292 | these hosts are filed by the steps of addItem, one per computer |
| `RegistrySteps.FailedOpenStays` | win_perf_counters.go:285-292 | a host whose query could not be opened stays registered without one to the end of the pass, since later items find it filed |
| `RegistrySteps.OpenedStay` | win_perf_counters.go:285-294 | if every query could be opened, every host is open at the end of the pass |
| `RegistrySteps.StepsRegister` | win_perf_counters.go:273-411 | a host's counters are its old ones followed by what was appended for its computer, its other fields are untouched, and a remote host is tagged by its name |
| `RegistrySteps.PassRegisters` | win_perf_counters.go:425-456 | the counters appended for a computer are those of its items' outcomes, in order |
| `RegistrySteps.PassMeans` | win_perf_counters.go:392-459 | configuration expansion is exact: each host's counters are, in nested-loop order, what the attempted items registered for it; without wildcard expansion they are exactly the successful items, each under its own path and names |
| `RegistrySteps.FullExpansionTotals` | win_perf_counters.go:425-456 | if every item succeeds, without wildcard expansion, the registered hosts together hold computers times counters times instances counters, summed over the objects |
| `Registration.ExpandedMeans` | win_perf_counters.go:324-386 | each kept expanded path, in order, gives one counter with its own computer and instance, its last handle, and its own names or the item's; a `_Total` that only a `*` produced is not kept unless asked for |
| `Registration.SuccessIsComplete` | win_perf_counters.go:324-391 | a successful item has registered a counter for every path its wildcard stood for, up to those totals |
| `Registration.DelocalizedPathParses` | win_perf_counters.go:336-349 | the path with the original names put back parses to the names and instance registered, if and only if these are reprintable |
| `Registration.RegisteredIsSuccessful` | win_perf_counters.go:392-408 | without expansion the registered counters match the successful items one to one, in order |
| `Registration.AllSuccessful` | win_perf_counters.go:425-456 | every successful item is registered for exactly one computer |
| `Configuration.EnumerateInstances` | win_perf_counters.go:439-442 | the innermost loop yields one item per instance, in order |
| `Configuration.EnumerateCounters` | win_perf_counters.go:435-454 | the counter loop yields the instance items counter by counter |
| `Configuration.EnumerateComputers` | win_perf_counters.go:430-455 | the computer loop, with the empty name read as localhost |
| `Configuration.EnumerateItems` | win_perf_counters.go:425-456 | the object loop, with the global sources where an object has none |
| `Configuration.ItemsAreCounted` | win_perf_counters.go:425-456 | the number of items is the sum over objects of computers times counters times instances |
| `Configuration.ItemAt` | win_perf_counters.go:425-456 | nested-loop order: which items stand in front of the one for object i, computer j, counter k and instance l |
| `Collector.WinPerfCounters.constructor` | win_perf_counters.go:32-44 | a new collector owns nothing and satisfies the invariant |
| `Collector.WinPerfCounters.Gather` | win_perf_counters.go:198-257 | whatever call fails: the new state is a round's end state, the invariant holds, nothing is read or published unless the round publishes, and then every host has worked on its own counters, all reads were of counters sampled twice on their own open query, the records added are exactly those of the hosts' jobs, and all their field names are clean; wherever a registration stopped, hosts and counters are exactly those of the configured items as far as it got, and its error is the one returned |
| `Collector.WinPerfCounters.RefreshIfDue` | win_perf_counters.go:203-220 | a refresh happens if and only if it is due, and Gather goes on only if it was not due or completed |
| `Collector.WinPerfCounters.Reparse` | win_perf_counters.go:204-210 | the cleaning failed, or the registration failed with its error, or all items were gone through |
| `Collector.WinPerfCounters.Refresh` | win_perf_counters.go:204-219 | the refresh ends in one of its four ways, each on the hosts that the configured items leave; it is done only if they are sampled once, and a failed cleaning or registration returns its own error |
| `Collector.WinPerfCounters.CleanQueries` | win_perf_counters.go:543-551 | the queries are closed in some order, and then all hosts are forgotten or a failing Close has stopped it with the rest untouched |
| `Collector.WinPerfCounters.CloseHost` | win_perf_counters.go:545 | closes one host's query and no other |
| `Collector.WinPerfCounters.Hostname` | win_perf_counters.go:259-270 | a host name, once cached, never changes |
| `Collector.WinPerfCounters.RegisterHost` | win_perf_counters.go:278-294 | the host is found or filed; it is filed even if opening its query fails, and a found host is not touched |
| `Collector.WinPerfCounters.CreateAndOpen` | win_perf_counters.go:286-292 | the new host is in the map with the fresh handle of its query, or without one if Open failed; no other host and no other query changes |
| `Collector.WinPerfCounters.FileHost` | win_perf_counters.go:286-294 | a new host is filed first and then opened, and it has a query if and only if no error is returned |
| `Collector.WinPerfCounters.IssueCounter` | win_perf_counters.go:296-306 | a new counter of the host's own query under this path, or nothing |
| `Collector.WinPerfCounters.AppendCounter` | win_perf_counters.go:386-404 | the counter becomes the host's last one |
| `Collector.WinPerfCounters.NewItem` | win_perf_counters.go:335-380 | the counter of an expanded path, localized or with the original names |
| `Collector.WinPerfCounters.ExpandOne` | win_perf_counters.go:324-386 | one expanded path adds its counter, or nothing if it is a suppressed `_Total` or fails |
| `Collector.WinPerfCounters.ExpandAll` | win_perf_counters.go:324-391 | the expanded paths are registered in order, all of them or those before the first failure |
| `Collector.WinPerfCounters.AddPlain` | win_perf_counters.go:392-408 | without expansion the item is registered under its own path |
| `Collector.WinPerfCounters.AddItem` | win_perf_counters.go:273-411 | what addItem leaves behind, in each mode and on each error path |
| `Collector.WinPerfCounters.AddItems` | win_perf_counters.go:443-452 | the items are attempted in order, up to the first failure of an object with FailOnMissing |
| `Collector.WinPerfCounters.AddEach` | win_perf_counters.go:425-456 | the same, as the loop |
| `Collector.WinPerfCounters.ParseConfig` | win_perf_counters.go:413-459 | the hosts are the configured ones with exactly the registered counters; without objects it fails and changes nothing but the default source |
| `RegistrySteps.PassConfigures` | win_perf_counters.go:413-459 | a pass over the items leaves exactly the configured hosts |
| `Collector.WinPerfCounters.WarmUp` | win_perf_counters.go:211-216 | one sample of every host, or of those before the first failure, which an ignored error hides from the caller but not from the refresh |
| `Collector.WinPerfCounters.CollectAll` | win_perf_counters.go:223-237 | one sample and one timestamp for every host, or for those before the first failure |
| `Collector.WinPerfCounters.CollectStamped` | win_perf_counters.go:224-236 | the host is stamped with the query's time or the present, even if the sample fails or its time is lost |
| `Collector.WinPerfCounters.GatherComputerCounters` | win_perf_counters.go:461-533 | the host's counters are read in metric order on its own query, up to a fatal error, and the records are those of the resulting job |
| `Collector.WinPerfCounters.GatherHosts` | win_perf_counters.go:239-256 | every host works exactly once, and reads and records are exactly those of the hosts' jobs |
| `Collector.GatherRepeatedly` | win_perf_counters.go:198-257 | the history of a collector on which Gather is called over and over is a run, no read in it was of a dead, foreign or unsampled counter, and no record was published with a field name the sanitizer would change |
| `Pdh.PerformanceQuery.Open` | performance_query.go:120-134 | on success a fresh handle is owned and the old one is gone; on failure nothing is leaked |
| `Pdh.PerformanceQuery.Close` | performance_query.go:137-147 | the handle is given up if and only if the query is gone |
| `Pdh.PerformanceQuery.AddCounter` | performance_query.go:149-178 | a new counter of this query, and an error on an unopened one |
| `Pdh.PerformanceQuery.CollectData` | performance_query.go:413-423 | one more sample for this query's counters and for no others, and an error on an unopened query |
| `Pdh.PerformanceQuery.CollectDataWithTime` | performance_query.go:425-434 | the same; a sample may have been taken and its time lost, and on failure the time is the present |
| `HostWork.WorkStep` | win_perf_counters.go:241-253 | one more host extends the reads and the records by exactly its own |
| `HostWork.ReadStep` | win_perf_counters.go:466-517 | one more metric is one more read on the host's own query and one more step of the fold |
| `HostWork.AbandonedJob` | win_perf_counters.go:476-478 | a host abandoned at a fatal error publishes nothing, and has read no further |
| `HostWork.WarmWorkIsSafe` | win_perf_counters.go:461-473 | if all hosts are warm, every read is of a counter issued by the host's open query and sampled twice |
| `HostWork.WarmWorkIsClean` | win_perf_counters.go:591-597 | if all hosts are warm, every record published has only clean field names |
| `HostWork.WarmHostReadsAreSafe` | win_perf_counters.go:461-489 | the same for one host |
| `Goroutines.EveryInterleavingIsSequential` | win_perf_counters.go:239-256 | whatever the schedule, with readings taken as it goes: once Gather has returned all hosts are done, and the reads made and the records published are, as multisets, exactly those of the hosts run one after the other with the same readings |
| `Goroutines.EveryInterleavingIsSafe` | win_perf_counters.go:239-256 | on warm hosts, at every moment of every schedule, all reads made so far were of counters sampled twice on their own open query, and all records published so far have clean field names |
| `Goroutines.SameReadingsSameRecords` | win_perf_counters.go:239-256 | phases in which the hosts take the same readings end with the same reads and records |
| `Goroutines.ReturnedIsDone` | win_perf_counters.go:255-256 | Gather returns only after all hosts have finished |
| `Goroutines.StepKeepsValid` | win_perf_counters.go:239-256 | every scheduling decision keeps the wait group exact and accounts for every read and every record |
| `Goroutines.ReadingSteps` | win_perf_counters.go:466-517 | a goroutine's next reading is one read on its host's own query and one step of its fold, or ends it with nothing to publish |
| `Goroutines.PhaseSteps` | win_perf_counters.go:518 | after the last metric, what is left to publish is exactly what its readings determine |
| `Goroutines.ScheduleKeepsValid` | win_perf_counters.go:239-256 | so does every schedule |
| `Goroutines.EveryStepMakesProgress` | win_perf_counters.go:239-256 | every step takes one of the readings that are left or brings the phase nearer to its end |
| `Goroutines.SchedulesEnd` | win_perf_counters.go:239-256 | every schedule is finite: in an endless sequence of decisions some decision is not possible |
| `Goroutines.MaximalScheduleReturns` | win_perf_counters.go:255-256 | a schedule that cannot be extended has returned |
| `Goroutines.NeverStuck` | win_perf_counters.go:239-256 | no deadlock: until Gather has returned something can happen |
| `Gathering.GatheringIsFlat` | win_perf_counters.go:461-533 | for every mixture of metrics: nothing is published after a fatal error, otherwise one record per distinct group, whose fields are exactly the last samples that reached the filter |
| `Gathering.AfterMeans` | win_perf_counters.go:462-517 | the loop aborts exactly at a fatal error; otherwise its map is the fold of the samples that reach the filter and its error variable is that of the nearest raw read |
| `Gathering.MetricStepMeans` | win_perf_counters.go:466-517 | one iteration keeps that |
| `Gathering.CarriedErrorDecides` | win_perf_counters.go:484-504 | a formatted metric in array mode passes if and only if no raw metric precedes it or the nearest preceding raw read succeeded; a carried error never aborts |
| `Gathering.StaleErrorSilences` | win_perf_counters.go:484-504 | a failed raw read silences the successful formatted read after it |
| `Gathering.FoldRepresents` | win_perf_counters.go:591-597 | the map of maps has exactly the groups of the samples and in each field the last sample |
| `Gathering.RepresentationIsUnique` | win_perf_counters.go:591-597 | only one map does |
| `Gathering.LastValueMeans` | win_perf_counters.go:596 | the last sample is one with none for the same group and field after it |
| `Gathering.RecordShowsGroup` | win_perf_counters.go:518-531 | distinct groups give distinct records |
| `Gathering.RecordCount` | win_perf_counters.go:518-531 | there are as many records as groups |
| `Gathering.PublishedRecordsAreClean` | win_perf_counters.go:591-597 | a host whose counters went through newCounter publishes records with clean field names only |
| `Gathering.NewCounter` | utils.go:77-98 | every counter is built so that its field name is a fixed point of the sanitizer |
| `Gathering.AddCounterMeasurement` | win_perf_counters.go:591-597 | adds one sample to its group |
| `Gathering.AddCounterValues` | win_perf_counters.go:505-515 | folds exactly the values that pass the inclusion filter, after the instance name has been restored |
| `Gathering.ProcessMetric` | win_perf_counters.go:466-517 | the loop body is the step that the theorems speak of |
| `Gathering.EmitRecords` | win_perf_counters.go:518-531 | each group becomes one record, whatever order the map yields |
| `Gathering.AbortIsFinal` | win_perf_counters.go:476-478 | after a fatal error nothing goes on |
| `Gathering.AbortedPublishesNothing` | win_perf_counters.go:476-478 | an abandoned host publishes nothing, whatever it had already folded |
| `CounterPath.ScanIsMeaningful` | utils.go:25-49 | on every text and at every step: the separators are the last backslashes outside brackets, and the instance borders enclose a matching pair with everything between inside it |
| `CounterPath.BordersAreOrdered` | utils.go:50-71 | all slices are in bounds, and a left instance border never occurs without a right one further right |
| `CounterPath.ScanPath` | utils.go:17-49 | the loop computes these borders |
| `CounterPath.ExtractCounterInfo` | utils.go:16-73 | the parser is total and is the function that the theorems speak of |
| `CounterPathRoundTrip.AcceptedPartsAreWellFormed` | utils.go:50-72 | every accepted path splits into neutral computer, object and counter and a bracket-balanced instance |
| `CounterPathRoundTrip.PrintThenParse` | utils.go:100-111 | parsing a printed path gives its parts back, with localhost and the no-instance marker read as empty, if and only if the parts are neutral and the instance is nested, or absent with no bracket elsewhere that could be taken for it |
| `CounterPathRoundTrip.ParsePrintParse` | win_perf_counters.go:343-349 | printing and parsing an accepted path again gives the same parts if and only if they are reprintable, whatever the first parse dropped |
| `CounterPathRoundTrip.ReprintRestoresIff` | win_perf_counters.go:343-349 | the same for any well-formed parts |
| `CounterPathRoundTrip.ReprintMayMisread` | utils.go:100-111 | it fails for `\O(a)()\c`: the object's own brackets are read as the instance the second time |
| `CounterPathRoundTrip.AbbreviationsAreLost` | utils.go:102-109 | a spelled-out localhost or no-instance marker never comes back |
| `CounterPathRoundTrip.UnbracketedReprints` | utils.go:100-111 | a path that showed no bracketed instance always reprints faithfully |
| `GrowthLoop.ReadGrowing` | performance_query.go:182-205 | the loop's outcome and buffers are those that the theorems speak of, for any conversation |
| `GrowthLoop.SafetyAndTermination` | performance_query.go:344-375 | with maximum and hints below 2^31 the doubling never wraps, every buffer fits, and at most floor(log2(max/1024))+1 calls are made |
| `GrowthLoop.CrashFreeIff` | win_perf_counters.go:157-164 | of the maxima that Init accepts, exactly those below 2^31 exclude an empty buffer |
| `GrowthLoop.LargeHintCrashes` | performance_query.go:194-196 | a hint of 2^31 empties the buffer under any maximum |
| `GrowthLoop.LargeHintLoops` | performance_query.go:194-196 | a hint of 2^31 + 512 brings the buffer back to its initial size, so that an API that repeats it keeps the loop calling for any number of calls |
| `GrowthLoop.Completeness` | performance_query.go:182-205 | a stable need of at most 1024 or half the maximum is met within the call bound, however much the hints understate it |
| `GrowthLoop.ExactHintsDecide` | performance_query.go:209-231 | with exact hints the loop succeeds if and only if that holds, in at most two calls |
| `WildcardExpansion.ExpandWildCardPath` | performance_query.go:208-231 | the loop and the decoder together |
| `WildcardExpansion.EveryFittingListComesThrough` | performance_query.go:208-231 | a readable list of paths whose block fits 1024 units or half the maximum comes through whole, with any trailing buffer contents and any understated hints |
| `WildcardExpansion.OnlyFittingListsComeThrough` | performance_query.go:208-231 | with exact hints it comes through if and only if its block fits |
| `MultiString.DecodeMultiString` | performance_query.go:468-479 | the decoder's loop is the function that the theorems speak of |
| `MultiString.CursorMovesForward` | performance_query.go:468-479 | on every buffer that decodes, the cursor strictly increases and stays in bounds |
| `MultiString.RunesVersusUnits` | performance_query.go:474 | runes and units differ by one per surrogate pair and by two per lone surrogate |
| `MultiString.BlockRoundTrip` | performance_query.go:468-479 | decoding a block visits exactly the starts of its strings if and only if every string is aligned, and then returns the list, whatever follows the block |
| `MultiString.ReadableListComesBack` | performance_query.go:468-479 | the list comes back, whatever follows, if all its strings but the last are aligned and the last has at most one rune less than units |
| `MultiString.OneStringComesBackIff` | performance_query.go:468-479 | a list of one string comes back, whatever follows, if and only if the string has as many runes as units or one less |
| `MultiString.CoincidenceComesBack` | performance_query.go:468-479 | a longer list may come back without being readable |
| `MultiString.PlainBlockRoundTrip` | performance_query.go:468-479 | every list of non-empty strings without NUL and surrogates comes back |
| `MultiString.PairLosesNextString` | performance_query.go:474-476 | a string with a surrogate pair makes the decoder stop before the next one |
| `Sanitizer.PublishedNames` | utils.go:88-97 | two passes stabilise every name, the raw suffix included, and amount to deleting backslashes and sanitizing once |
| `Sanitizer.TwoPasses` | win_perf_counters.go:27 | two passes are: delete every backslash, then sanitize once |
| `Sanitizer.CleanIffFixed` | win_perf_counters.go:27 | a name is free of space, %, backslash, "/sec" and "/Sec" if and only if the sanitizer leaves it alone |
| `Sanitizer.OutputHasNoSpecials` | win_perf_counters.go:27 | no output contains a space, % or backslash |
| `Sanitizer.OnePassSufficesIff` | win_perf_counters.go:27 | one pass is enough if and only if no "/sec" or "/Sec" in the name is split by backslashes |
| `Sanitizer.MeasurementIsCleanIff` | utils.go:88-91 | a measurement, which goes through one pass only, is published clean if and only if that holds of it |
| `Sanitizer.MeasurementMayBeUnclean` | utils.go:88-91 | it is not for `/\sec` |
| `Sanitizer.OnePassWithoutBackslash` | win_perf_counters.go:27 | one pass is enough for a name without backslash |
| `Sanitizer.OnePassIsNotEnough` | win_perf_counters.go:27 | it is not for `/\sec` |
| `Sanitizer.RawSuffix` | utils.go:92-95 | the raw suffix passes through the sanitizer |
| `FileTime.ConversionIsExactlyThis` | pdh.go:390-398 | over all 2^64 tick counts the conversion yields the true instant less the tick digit below a microsecond if and only if the count lies in [24211015631452250, 208678456368547759] |
| `FileTime.ConversionIsMonotone` | pdh.go:390-398 | there it is monotone and loses at most 900 ns |
| `FileTime.Wrap64` | pdh.go:392-396 | the int64 reading of an integer: in range and congruent modulo 2^64 |

## Left out

- Collector.WinPerfCounters.GatherHosts: gathers the hosts one after the other, in any order, where the program runs them concurrently; `Goroutines.EveryInterleavingIsSequential` shows that every schedule, with the readings it takes, comes down to such a sequence, up to the order of reads and records.
- GetCounterPath, ExpandWildCardPath: in the collector their results are the environment's choice; that they are the growth loop and the decoder is stated in `GrowthLoop` and `WildcardExpansion` only.
- The six growth loops: they are the same up to the API call, and modelled once with the API's replies as a parameter.
- MultiString.ReadableListComesBack: for lists of two or more strings the condition is sufficient only; a list may also come back because the cursor happens to read a later string inside an earlier one (`CoincidenceComesBack`). The equivalences are for the positions of the cursor and for lists of one string.
- AddCounterToQuery and AddEnglishCounterToQuery: one method, since they differ only in the API they call.
- The nested loops of parseConfig: the items are listed first and registered in a second loop; the state is the same after every item.
- Registration.SuccessIsComplete: which paths a wildcard stands for is the environment's choice, so with expansion the model says which counters the expanded paths give, not which paths there are.
- The handle test of the scalar readers: a read on an unopened query is an arbitrary reading here; by the invariant it never happens.
- A collector without collect function: it gathers in the same way and publishes nothing.
- The value readers' status filters and scalar conversions, the `Must` wrappers: one branch each.
- Init's search for wildcards: a containment test over the configuration.
- Counter values are opaque, and the sleep between two samples is time passing.
- PDH and kernel32 themselves, DLL loading, structure layouts, the table of error names (a parameter), logging, TOML decoding, the command line and the stub for other systems.
