/** Calls of Gather as transitions between states, and what holds over every run of them. */
module GatherRuns {
  import opened Errors
  import opened Configuration
  import opened Registration
  import opened HostStates
  import opened RegistrySteps

  /** How far one pass of sampling over the hosts got. */
  datatype Sampling = Sampling(remaining: set<string>, order: seq<string>)

  /** A registration: the queries closed before it, the state it began in, its steps and how its items ended. */
  datatype Pass = Pass(closed: seq<string>, cleared: World, steps: seq<Step>, outcomes: seq<ItemOutcome>)

  /** What happened to the refresh at the head of Gather. */
  datatype Attempt =
    | NotDue
    | CleanFailed(closed: seq<string>, error: Error)
    | ParseFailed(pass: Pass, error: Error)
    | WarmUpFailed(pass: Pass, parsed: World, first: Sampling)
    | Refreshed(pass: Pass, parsed: World, first: Sampling)

  /** One call of Gather: the refresh, the state it left, and the sampling if it got that far. */
  datatype Round = Round(attempt: Attempt, middle: State, second: Option<Sampling>) {
    /** The round reached the point where the hosts read their counters and publish. */
    predicate Publishes() {
      second.Some? && second.value.remaining == {}
    }
  }

  function WorldOf(s: State): World {
    World(s.hosts, s.live)
  }

  ghost predicate Attempted(cfg: Config, before: State, a: Attempt, after: State) {
    && before.now <= after.now
    && (a.NotDue? <==> !RefreshDue(before.lastRefreshed, cfg.refreshInterval, after.now))
    && (if a.Refreshed? then after.lastRefreshed.Some? && before.now <= after.lastRefreshed.value <= after.now
        else after.lastRefreshed == before.lastRefreshed)
    && match a
       case NotDue => WorldOf(after) == WorldOf(before)
       case CleanFailed(closed, e) => WorldOf(after) in AfterClean(WorldOf(before), closed, Some(e))
       case ParseFailed(pass, e) => WorldOf(after) in AfterParse(cfg, before, pass, Some(e))
       case WarmUpFailed(pass, parsed, first) =>
         && parsed in AfterParse(cfg, before, pass, None)
         && WorldOf(after) in AfterCollect(parsed, first.remaining, first.order) && first.remaining != {}
       case Refreshed(pass, parsed, first) =>
         && parsed in AfterParse(cfg, before, pass, None)
         && WorldOf(after) in AfterCollect(parsed, first.remaining, first.order) && first.remaining == {}
  }

  /** The transition that one call of Gather makes. */
  ghost predicate Gathers(cfg: Config, before: State, r: Round, after: State) {
    && Attempted(cfg, before, r.attempt, r.middle)
    && r.middle.now <= after.now && after.lastRefreshed == r.middle.lastRefreshed
    && if r.attempt.NotDue? || r.attempt.Refreshed? then
         && r.second.Some?
         && WorldOf(after) in AfterCollect(WorldOf(r.middle), r.second.value.remaining, r.second.value.order)
       else
         r.second.None? && WorldOf(after) == WorldOf(r.middle)
  }

  /** The states a refresh can lead to, as a set for the reason given at SafeStates. */
  ghost function AfterAttempt(cfg: Config, before: State, a: Attempt): iset<State> {
    iset s | Attempted(cfg, before, a, s)
  }

  /** The states a call of Gather can lead to. */
  ghost function AfterRound(cfg: Config, before: State, r: Round): iset<State> {
    iset s | Gathers(cfg, before, r, s)
  }

  /**
   The error Gather returns: that of the cleaning or registration that failed. Only a failed first sample can
   be ignored, and then nothing is published either.
   */
  ghost predicate Returns(r: Round, err: Option<Error>) {
    && (r.Publishes() ==> err.None?)
    && (err.None? ==> r.Publishes() || r.attempt.WarmUpFailed?)
    && (r.attempt.CleanFailed? || r.attempt.ParseFailed? ==> Failed(r.attempt, err))
  }

  /** The cleaning or the registration failed with this error. */
  ghost predicate Failed(a: Attempt, err: Option<Error>) {
    (a.CleanFailed? || a.ParseFailed?) && err == Some(a.error)
  }

  /**
   A completed cleaning and the registration after it, with its result: it has gone through the steps, and the
   hosts and their counters are those that the configured items, with these outcomes, ask for.
   */
  ghost predicate Reparsed(cfg: Config, before: State, pass: Pass, err: Option<Error>, parsed: World) {
    && pass.cleared in AfterClean(WorldOf(before), pass.closed, None) && Leads(pass.cleared, pass.steps, parsed)
    && parsed.hosts in Configured(cfg, map[], pass.outcomes, err)
  }

  /** The worlds that a cleaning and registration can leave. */
  ghost function AfterParse(cfg: Config, before: State, pass: Pass, err: Option<Error>): iset<World> {
    iset w | Reparsed(cfg, before, pass, err, w)
  }

  lemma Parses(cfg: Config, before: State, pass: Pass, err: Option<Error>, parsed: World)
    requires pass.cleared in AfterClean(WorldOf(before), pass.closed, None) && Leads(pass.cleared, pass.steps, parsed)
    requires parsed.hosts in Configured(cfg, map[], pass.outcomes, err)
    ensures parsed in AfterParse(cfg, before, pass, err)
  {
  }

  lemma CleanFails(cfg: Config, before: State, closed: seq<string>, after: State, e: Error)
    requires RefreshDue(before.lastRefreshed, cfg.refreshInterval, before.now)
    requires after.lastRefreshed == before.lastRefreshed && after.now == before.now
    requires WorldOf(after) in AfterClean(WorldOf(before), closed, Some(e))
    ensures after in AfterAttempt(cfg, before, CleanFailed(closed, e))
  {
  }

  lemma ParseFails(cfg: Config, before: State, pass: Pass, e: Error, after: State)
    requires RefreshDue(before.lastRefreshed, cfg.refreshInterval, before.now)
    requires after.lastRefreshed == before.lastRefreshed && after.now == before.now
    requires WorldOf(after) in AfterParse(cfg, before, pass, Some(e))
    ensures after in AfterAttempt(cfg, before, ParseFailed(pass, e))
  {
  }

  lemma WarmUpFails(cfg: Config, before: State, pass: Pass, parsed: World, first: Sampling, after: State)
    requires RefreshDue(before.lastRefreshed, cfg.refreshInterval, before.now)
    requires after.lastRefreshed == before.lastRefreshed && after.now == before.now
    requires parsed in AfterParse(cfg, before, pass, None)
    requires WorldOf(after) in AfterCollect(parsed, first.remaining, first.order) && first.remaining != {}
    ensures after in AfterAttempt(cfg, before, WarmUpFailed(pass, parsed, first))
  {
  }

  lemma RefreshCompletes(cfg: Config, before: State, pass: Pass, parsed: World, first: Sampling, after: State)
    requires RefreshDue(before.lastRefreshed, cfg.refreshInterval, before.now)
    requires before.now <= after.now && after.lastRefreshed == Some(after.now)
    requires parsed in AfterParse(cfg, before, pass, None)
    requires WorldOf(after) in AfterCollect(parsed, first.remaining, first.order) && first.remaining == {}
    ensures after in AfterAttempt(cfg, before, Refreshed(pass, parsed, first))
  {
    DueStaysDue(before.lastRefreshed, cfg.refreshInterval, before.now, after.now);
  }

  /** The refresh may start a little later than the call. */
  lemma AttemptLater(cfg: Config, before: State, checked: State, a: Attempt, after: State)
    requires checked == before.(now := checked.now) && before.now <= checked.now
             && after in AfterAttempt(cfg, checked, a)
    ensures after in AfterAttempt(cfg, before, a)
  {
    assert WorldOf(before) == WorldOf(checked);
  }

  /** A refresh that was not completed ends the round. */
  lemma RoundEnds(cfg: Config, before: State, a: Attempt, after: State)
    requires after in AfterAttempt(cfg, before, a) && !a.NotDue? && !a.Refreshed?
    ensures after in AfterRound(cfg, before, Round(a, after, None))
  {
  }

  /** Otherwise the round goes on with one sample of every host. */
  lemma RoundGoesOn(cfg: Config, before: State, a: Attempt, middle: State, second: Sampling, after: State)
    requires middle in AfterAttempt(cfg, before, a) && (a.NotDue? || a.Refreshed?)
    requires middle.now <= after.now && after.lastRefreshed == middle.lastRefreshed
    requires WorldOf(after) in AfterCollect(WorldOf(middle), second.remaining, second.order)
    ensures after in AfterRound(cfg, before, Round(a, middle, Some(second)))
  {
  }

  lemma RefreshNotDue(cfg: Config, before: State, after: State)
    requires !RefreshDue(before.lastRefreshed, cfg.refreshInterval, after.now)
    requires after == before.(now := after.now) && before.now <= after.now
    ensures after in AfterAttempt(cfg, before, NotDue)
  {
  }

  lemma ParsedIsConsistent(cfg: Config, before: State, pass: Pass, err: Option<Error>, parsed: World)
    requires Consistent(before.hosts, before.live) && parsed in AfterParse(cfg, before, pass, err)
    ensures Consistent(parsed.hosts, parsed.live)
    ensures forall c :: c in before.hosts ==> before.hosts[c].handle != 0
  {
    CleaningKeepsConsistent(WorldOf(before), pass.closed, pass.cleared, None);
    StepsKeepConsistent(pass.cleared, pass.steps, parsed);
  }

  /** The refresh, wherever it stops: nothing leaks, it only counts as done with warm hosts, and stuck hosts stop it. */
  lemma AttemptKeepsConsistent(cfg: Config, before: State, a: Attempt, after: State)
    requires Consistent(before.hosts, before.live) && Attempted(cfg, before, a, after)
    ensures Consistent(after.hosts, after.live)
    ensures a.Refreshed? ==> Warm(after.hosts, after.live, 1)
    ensures Stuck(before) && !a.NotDue? ==> a.CleanFailed? && Stuck(after)
  {
    match a {
      case NotDue =>
      case CleanFailed(closed, e) =>
        CleaningKeepsConsistent(WorldOf(before), closed, WorldOf(after), Some(e));
        if Stuck(before) {
          var c :| c in before.hosts && before.hosts[c].handle == 0;
          assert after.hosts[c].handle == 0;
        }
      case ParseFailed(pass, e) =>
        ParsedIsConsistent(cfg, before, pass, Some(e), WorldOf(after));
      case WarmUpFailed(pass, parsed, first) =>
        ParsedIsConsistent(cfg, before, pass, None, parsed);
        CollectRound(parsed, first.remaining, first.order, WorldOf(after), 0);
      case Refreshed(pass, parsed, first) =>
        ParsedIsConsistent(cfg, before, pass, None, parsed);
        CollectRound(parsed, first.remaining, first.order, WorldOf(after), 0);
    }
  }

  /** A registered host without an open query means that a refresh is due and fails. */
  lemma StuckRoundFails(cfg: Config, before: State, r: Round, after: State)
    requires Inv(cfg, before) && Gathers(cfg, before, r, after) && Stuck(before)
    ensures r.attempt.CleanFailed? && Stuck(after) && !r.Publishes()
  {
    assert !Warm(before.hosts, before.live, 1);
    DueStaysDue(before.lastRefreshed, cfg.refreshInterval, before.now, r.middle.now);
    AttemptKeepsConsistent(cfg, before, r.attempt, r.middle);
  }

  /**
   One call of Gather, whatever fails in it, keeps the invariant; when it publishes, every counter has two samples.
   */
  lemma RoundKeepsInv(cfg: Config, before: State, r: Round, after: State)
    requires before in SafeStates(cfg) && after in AfterRound(cfg, before, r)
    ensures after in SafeStates(cfg)
    ensures r.Publishes() ==> Warm(after.hosts, after.live, 2)
  {
    AttemptKeepsConsistent(cfg, before, r.attempt, r.middle);
    if r.attempt.NotDue? {
      if RefreshDue(before.lastRefreshed, cfg.refreshInterval, before.now) {
        DueStaysDue(before.lastRefreshed, cfg.refreshInterval, before.now, r.middle.now);
      }
    }
    if r.attempt.NotDue? || r.attempt.Refreshed? {
      assert Warm(r.middle.hosts, r.middle.live, 1);
      CollectRound(WorldOf(r.middle), r.second.value.remaining, r.second.value.order, WorldOf(after), 1);
    } else {
      DueStaysDue(before.lastRefreshed, cfg.refreshInterval, r.middle.now, after.now);
    }
  }

  // ----- Runs

  /** A run: the states before each call of Gather and after the last, the rounds between them and their results. */
  ghost predicate Run(cfg: Config, states: seq<State>, rounds: seq<Round>, results: seq<Option<Error>>) {
    && |states| == |rounds| + 1 && |results| == |rounds|
    && states[0].hosts == map[] && states[0].live == map[] && states[0].lastRefreshed == None
    && forall i :: 0 <= i < |rounds| ==> states[i + 1] in AfterCall(cfg, states[i], rounds[i], results[i])
  }

  /** A call of Gather, after any time has passed. */
  ghost predicate Transition(cfg: Config, before: State, r: Round, result: Option<Error>, after: State) {
    exists now :: before.now <= now && Gathers(cfg, before.(now := now), r, after) && Returns(r, result)
  }

  ghost function AfterCall(cfg: Config, before: State, r: Round, result: Option<Error>): iset<State> {
    iset s | Transition(cfg, before, r, result, s)
  }

  lemma AtOnce(cfg: Config, before: State, r: Round, result: Option<Error>, after: State)
    requires after in AfterRound(cfg, before, r) && Returns(r, result)
    ensures after in AfterCall(cfg, before, r, result)
  {
    assert before.(now := before.now) == before;
  }

  /** The states that these rounds with these results can go through. */
  ghost function Runs(cfg: Config, rounds: seq<Round>, results: seq<Option<Error>>): iset<seq<State>> {
    iset states | Run(cfg, states, rounds, results)
  }

  lemma RunStart(cfg: Config, first: State)
    requires first.hosts == map[] && first.live == map[] && first.lastRefreshed == None
    ensures [first] in Runs(cfg, [], [])
  {
  }

  lemma RunOn(cfg: Config, states: seq<State>, rounds: seq<Round>, results: seq<Option<Error>>, r: Round,
              result: Option<Error>, after: State)
    requires states in Runs(cfg, rounds, results) && states != [] && after in AfterRound(cfg, Last(states), r)
             && Returns(r, result)
    ensures states + [after] in Runs(cfg, rounds + [r], results + [result])
  {
    AtOnce(cfg, Last(states), r, result, after);
  }

  lemma TransitionKeepsInv(cfg: Config, before: State, r: Round, result: Option<Error>, after: State)
    requires Inv(cfg, before) && Transition(cfg, before, r, result, after)
    ensures Inv(cfg, after)
    ensures r.Publishes() ==> Warm(after.hosts, after.live, 2)
    ensures Stuck(before) ==> r.attempt.CleanFailed? && result.Some? && !r.Publishes() && Stuck(after)
  {
    var now :| before.now <= now && Gathers(cfg, before.(now := now), r, after) && Returns(r, result);
    var later := before.(now := now);
    if RefreshDue(before.lastRefreshed, cfg.refreshInterval, before.now) {
      DueStaysDue(before.lastRefreshed, cfg.refreshInterval, before.now, now);
    }
    assert Inv(cfg, later);
    RoundKeepsInv(cfg, later, r, after);
    if Stuck(before) {
      assert Stuck(later);
      StuckRoundFails(cfg, later, r, after);
    }
  }

  /**
   In every reachable state, whatever calls failed: the open queries are exactly those the hosts own,
   no query is owned twice, every counter belongs to its host's query, and a refresh is due or all
   hosts are open and warm. Whenever a round publishes, every counter has been sampled at least twice.
   */
  lemma {:induction false} EveryRunIsSafe(cfg: Config, states: seq<State>, rounds: seq<Round>,
                                          results: seq<Option<Error>>, i: nat)
    requires Run(cfg, states, rounds, results) && i <= |rounds|
    ensures Inv(cfg, states[i])
    ensures i > 0 && rounds[i - 1].Publishes() ==> Warm(states[i].hosts, states[i].live, 2)
  {
    if i == 0 {
      assert Owned(map[], map[]);
    } else {
      EveryRunIsSafe(cfg, states, rounds, results, i - 1);
      TransitionKeepsInv(cfg, states[i - 1], rounds[i - 1], results[i - 1], states[i]);
    }
  }

  lemma StuckAt(cfg: Config, states: seq<State>, rounds: seq<Round>, results: seq<Option<Error>>, j: nat)
    requires Run(cfg, states, rounds, results) && j < |rounds| && Stuck(states[j])
    ensures Stuck(states[j + 1]) && results[j].Some? && !rounds[j].Publishes()
  {
    EveryRunIsSafe(cfg, states, rounds, results, j);
    TransitionKeepsInv(cfg, states[j], rounds[j], results[j], states[j + 1]);
  }

  /**
   Once some registered host has no open query, every later Gather fails, publishes nothing and changes nothing
   about that.
   */
  lemma {:induction false} StuckIsForever(cfg: Config, states: seq<State>, rounds: seq<Round>,
                                          results: seq<Option<Error>>, i: nat, j: nat)
    requires Run(cfg, states, rounds, results) && i <= j < |rounds| && Stuck(states[i])
    ensures Stuck(states[j]) && Stuck(states[j + 1]) && results[j].Some? && !rounds[j].Publishes()
    decreases j
  {
    if i < j {
      StuckIsForever(cfg, states, rounds, results, i, j - 1);
    }
    StuckAt(cfg, states, rounds, results, j);
  }

  /** A cleaning that stopped after closing something leads into those states. */
  lemma PartialCleaningSticks(cfg: Config, before: State, a: Attempt, after: State)
    requires Consistent(before.hosts, before.live) && Attempted(cfg, before, a, after)
    requires a.CleanFailed? && a.closed != []
    ensures Stuck(after)
  {
    CleaningKeepsConsistent(WorldOf(before), a.closed, WorldOf(after), Some(a.error));
  }

  /** Some query could not be opened during the registration. */
  ghost predicate OpenFailed(a: Attempt) {
    && (a.ParseFailed? || a.WarmUpFailed? || a.Refreshed?)
    && exists i :: 0 <= i < |a.pass.steps| && a.pass.steps[i].Register? && a.pass.steps[i].handle == 0
  }

  /** The hosts that the registration of an attempt left. */
  ghost function ParsedBy(a: Attempt, after: State): World
    requires a.ParseFailed? || a.WarmUpFailed? || a.Refreshed?
  {
    if a.ParseFailed? then WorldOf(after) else a.parsed
  }

  /** So does a registration in which some query could not be opened: it cannot complete the refresh. */
  lemma FailedOpenSticks(cfg: Config, before: State, a: Attempt, after: State)
    requires Attempted(cfg, before, a, after) && OpenFailed(a)
    ensures Stuck(after) && !a.Refreshed?
  {
    var i :| 0 <= i < |a.pass.steps| && a.pass.steps[i].Register? && a.pass.steps[i].handle == 0;
    var c := a.pass.steps[i].c;
    FailedOpenStays(a.pass.cleared, a.pass.steps, ParsedBy(a, after), i);
    assert c in after.hosts && after.hosts[c].handle == 0;
  }

  /** A registration that could open every query leaves every host open. */
  lemma AllOpenedIsNotStuck(cfg: Config, before: State, a: Attempt, after: State)
    requires Attempted(cfg, before, a, after) && (a.ParseFailed? || a.WarmUpFailed? || a.Refreshed?) && !OpenFailed(a)
    ensures !Stuck(after)
  {
    forall c | c in after.hosts ensures after.hosts[c].handle != 0 {
      OpenedStay(a.pass.cleared, a.pass.steps, ParsedBy(a, after), c);
    }
  }

  /** A cleaning that closed nothing changed nothing. */
  lemma NothingClosed(cfg: Config, before: State, a: Attempt, after: State)
    requires Attempted(cfg, before, a, after) && (a.NotDue? || (a.CleanFailed? && a.closed == []))
    ensures after.hosts == before.hosts
  {
  }

  /**
   These are the only ways in: a refresh gets stuck exactly when a Close fails after another succeeded or an Open
   fails.
   */
  lemma EntersStuckIff(cfg: Config, before: State, a: Attempt, after: State)
    requires Consistent(before.hosts, before.live) && Attempted(cfg, before, a, after) && !Stuck(before)
    ensures Stuck(after) <==> (a.CleanFailed? && a.closed != []) || OpenFailed(a)
  {
    if a.CleanFailed? && a.closed != [] {
      PartialCleaningSticks(cfg, before, a, after);
    } else if a.NotDue? || a.CleanFailed? {
      NothingClosed(cfg, before, a, after);
    } else if OpenFailed(a) {
      FailedOpenSticks(cfg, before, a, after);
    } else {
      AllOpenedIsNotStuck(cfg, before, a, after);
    }
  }

  /** The sampling after the refresh changes nothing about it, so that this holds of whole calls as well. */
  lemma RoundEntersStuckIff(cfg: Config, before: State, r: Round, after: State)
    requires Consistent(before.hosts, before.live) && Gathers(cfg, before, r, after) && !Stuck(before)
    ensures Stuck(after) <==> (r.attempt.CleanFailed? && r.attempt.closed != []) || OpenFailed(r.attempt)
  {
    EntersStuckIff(cfg, before, r.attempt, r.middle);
    assert forall c :: c in after.hosts <==> c in r.middle.hosts;
    assert forall c :: c in after.hosts ==> after.hosts[c].handle == r.middle.hosts[c].handle;
  }

  /** Before anything has happened. */
  const FRESH := State(map[], map[], None, 0)

  /** The first call of Gather, in which no query can be opened. */
  function NothingOpens(cfg: Config): Attempt {
    var items := AllItems(cfg);
    var m := Attempts(items, 0);
    var pass, hosts := Pass([], World(map[], map[]), Filing(items, m), AllMissed(m)), Unopened(items, m);
    match MissedError(items)
    case Some(e) => ParseFailed(pass, e)
    case None => WarmUpFailed(pass, World(hosts, map[]), Sampling(hosts.Keys, []))
  }

  function AfterNothingOpens(cfg: Config): State {
    State(Unopened(AllItems(cfg), Attempts(AllItems(cfg), 0)), map[], None, 0)
  }

  lemma NothingOpensHappens(cfg: Config)
    requires AllItems(cfg) != []
    ensures AfterNothingOpens(cfg) in AfterAttempt(cfg, FRESH, NothingOpens(cfg))
    ensures AfterNothingOpens(cfg).hosts != map[]
  {
    var items := AllItems(cfg);
    var m := Attempts(items, 0);
    var none, filed := World(map[], map[]), World(Unopened(items, m), map[]);
    var pass := Pass([], none, Filing(items, m), AllMissed(m));
    assert none in AfterClean(none, [], None);
    FilingLeads(items, m);
    UnopenedAreConfigured(cfg);
    Parses(cfg, FRESH, pass, MissedError(items), filed);
    SeenAt(items, m, 0);
    assert items[0].computer in filed.hosts;
    match MissedError(items)
    case Some(e) => ParseFails(cfg, FRESH, pass, e, AfterNothingOpens(cfg));
    case None =>
      CollectStart(filed);
      WarmUpFails(cfg, FRESH, pass, filed, Sampling(filed.hosts.Keys, []), AfterNothingOpens(cfg));
  }

  lemma RunOfOne(cfg: Config, round: Round, result: Option<Error>, last: State)
    returns (states: seq<State>, rounds: seq<Round>, results: seq<Option<Error>>)
    requires last in AfterRound(cfg, FRESH, round) && Returns(round, result)
    ensures Run(cfg, states, rounds, results) && |rounds| == 1 && Last(states) == last
  {
    states, rounds, results := [FRESH], [], [];
    RunStart(cfg, FRESH);
    RunOn(cfg, states, rounds, results, round, result, last);
    states, rounds, results := states + [last], rounds + [round], results + [result];
  }

  /** Such states are reached by a single call, for every configuration that asks for anything at all. */
  lemma StuckIsReachable(cfg: Config) returns (states: seq<State>, rounds: seq<Round>, results: seq<Option<Error>>)
    requires AllItems(cfg) != []
    ensures Run(cfg, states, rounds, results) && |rounds| == 1 && Stuck(Last(states))
  {
    var a, last := NothingOpens(cfg), AfterNothingOpens(cfg);
    NothingOpensHappens(cfg);
    RoundEnds(cfg, FRESH, a, last);
    states, rounds, results := RunOfOne(cfg, Round(a, last, None), Some(UninitializedQuery), last);
    var c :| c in last.hosts;
    assert last.hosts[c].handle == 0;
  }

  // ----- What is registered, over whole runs

  /** What every call of Gather registers, wherever it stops: what the configuration asks for, as far as it got. */
  lemma AttemptRegisters(cfg: Config, before: State, a: Attempt, after: State)
    requires Attempted(cfg, before, a, after)
    ensures a.ParseFailed? ==> after.hosts in Configured(cfg, map[], a.pass.outcomes, Some(a.error))
    ensures a.WarmUpFailed? || a.Refreshed? ==> after.hosts in Configured(cfg, map[], a.pass.outcomes, None)
  {
    if a.WarmUpFailed? || a.Refreshed? {
      ConfiguredStays(cfg, a.parsed.hosts, a.pass.outcomes, None, after.hosts);
    }
  }

  /** The rounds that lead there with this result and keep the invariant. */
  ghost function Rounds(cfg: Config, before: State, after: State, err: Option<Error>): iset<Round> {
    iset r | Gathers(cfg, before, r, after) && Returns(r, err) && Inv(cfg, after)
  }

  lemma RoundDone(cfg: Config, before: State, r: Round, after: State, err: Option<Error>)
    requires after in AfterRound(cfg, before, r) && Returns(r, err) && after in SafeStates(cfg)
    ensures r in Rounds(cfg, before, after, err)
  {
  }

  /** After a call of Gather in which a registration took place, these are the hosts of its configured items. */
  lemma RoundRegisters(cfg: Config, before: State, r: Round, after: State, err: Option<Error>)
    requires r in Rounds(cfg, before, after, err)
    ensures after in AfterRound(cfg, before, r) && Returns(r, err) && after in SafeStates(cfg)
    ensures r.attempt.ParseFailed? ==>
              err.Some? && r.middle.hosts in Configured(cfg, map[], r.attempt.pass.outcomes, err)
    ensures r.attempt.WarmUpFailed? || r.attempt.Refreshed? ==>
              r.middle.hosts in Configured(cfg, map[], r.attempt.pass.outcomes, None)
  {
    AttemptRegisters(cfg, before, r.attempt, r.middle);
  }

  /** A refresh is due, or the hosts and counters are exactly the configured ones, with these outcomes. */
  ghost predicate UpToDate(cfg: Config, s: State, outcomes: seq<ItemOutcome>) {
    RefreshDue(s.lastRefreshed, cfg.refreshInterval, s.now) || s.hosts in Configured(cfg, map[], outcomes, None)
  }

  lemma RoundKeepsUpToDate(cfg: Config, before: State, outcomes: seq<ItemOutcome>, r: Round, after: State)
    returns (outcomes': seq<ItemOutcome>)
    requires UpToDate(cfg, before, outcomes) && Gathers(cfg, before, r, after)
    ensures UpToDate(cfg, after, outcomes')
    ensures r.Publishes() ==> after.hosts in Configured(cfg, map[], outcomes', None)
  {
    AttemptRegisters(cfg, before, r.attempt, r.middle);
    outcomes' := if r.attempt.Refreshed? then r.attempt.pass.outcomes else outcomes;
    if r.attempt.NotDue? && RefreshDue(before.lastRefreshed, cfg.refreshInterval, before.now) {
      DueStaysDue(before.lastRefreshed, cfg.refreshInterval, before.now, r.middle.now);
    }
    if r.attempt.NotDue? || r.attempt.Refreshed? {
      ConfiguredStays(cfg, r.middle.hosts, outcomes', None, after.hosts);
    } else {
      DueStaysDue(before.lastRefreshed, cfg.refreshInterval, r.middle.now, after.now);
    }
  }

  /**
   In every run, whatever calls failed and however long ago the last refresh was: a round that publishes does so on
   exactly the configured hosts with exactly the counters of the configured items.
   */
  lemma {:induction false} EveryPublicationIsConfigured(cfg: Config, states: seq<State>, rounds: seq<Round>,
                                                        results: seq<Option<Error>>, i: nat)
    returns (outcomes: seq<ItemOutcome>)
    requires Run(cfg, states, rounds, results) && i <= |rounds|
    ensures UpToDate(cfg, states[i], outcomes)
    ensures i > 0 && rounds[i - 1].Publishes() ==> states[i].hosts in Configured(cfg, map[], outcomes, None)
  {
    outcomes := [];
    if i > 0 {
      outcomes := EveryPublicationIsConfigured(cfg, states, rounds, results, i - 1);
      var before, r, after := states[i - 1], rounds[i - 1], states[i];
      assert after in AfterCall(cfg, before, r, results[i - 1]);
      var now :| before.now <= now && Gathers(cfg, before.(now := now), r, after) && Returns(r, results[i - 1]);
      if RefreshDue(before.lastRefreshed, cfg.refreshInterval, before.now) {
        DueStaysDue(before.lastRefreshed, cfg.refreshInterval, before.now, now);
      }
      outcomes := RoundKeepsUpToDate(cfg, before.(now := now), outcomes, r, after);
    }
  }

  /** A call of Gather under a configuration without items leaves no host. */
  lemma NoItemsNoHostsAfter(cfg: Config, before: State, r: Round, after: State)
    requires AllItems(cfg) == [] && before.hosts == map[] && Gathers(cfg, before, r, after)
    ensures after.hosts == map[]
  {
    var a := r.attempt;
    AttemptRegisters(cfg, before, a, r.middle);
    if a.ParseFailed? {
      NoItemsNoHosts(cfg, a.pass.outcomes, Some(a.error), r.middle.hosts);
    } else if a.WarmUpFailed? || a.Refreshed? {
      NoItemsNoHosts(cfg, a.pass.outcomes, None, r.middle.hosts);
    } else {
      assert r.middle.hosts.Keys == {};
    }
    assert after.hosts.Keys == {};
  }

  lemma {:induction false} NoItemsNeverHosts(cfg: Config, states: seq<State>, rounds: seq<Round>,
                                             results: seq<Option<Error>>, i: nat)
    requires AllItems(cfg) == [] && Run(cfg, states, rounds, results) && i <= |rounds|
    ensures states[i].hosts == map[]
  {
    if i > 0 {
      NoItemsNeverHosts(cfg, states, rounds, results, i - 1);
      var before, r, after := states[i - 1], rounds[i - 1], states[i];
      assert after in AfterCall(cfg, before, r, results[i - 1]);
      var now :| before.now <= now && Gathers(cfg, before.(now := now), r, after) && Returns(r, results[i - 1]);
      NoItemsNoHostsAfter(cfg, before.(now := now), r, after);
    }
  }

  /** The collector can get stuck exactly if its configuration has an item. */
  lemma CanGetStuckIff(cfg: Config)
    ensures AllItems(cfg) != [] <==>
            exists states, rounds, results, i: nat ::
              Run(cfg, states, rounds, results) && i <= |rounds| && Stuck(states[i])
  {
    if AllItems(cfg) != [] {
      var states, rounds, results := StuckIsReachable(cfg);
      assert Run(cfg, states, rounds, results) && 1 <= |rounds| && Stuck(states[1]);
    } else {
      forall states, rounds, results, i: nat | Run(cfg, states, rounds, results) && i <= |rounds|
        ensures !Stuck(states[i])
      {
        NoItemsNeverHosts(cfg, states, rounds, results, i);
      }
    }
  }
}
