/**
 The operating system as the collector sees it, and the query object that wraps it. Every call may
 fail; nothing is assumed about the values it returns beyond what PDH documents about handles.
 */
module Pdh {
  import opened Errors
  import opened Gathering

  /** A counter that a query has issued: the path it was added under and how often it was sampled since. */
  datatype CounterInfo = CounterInfo(path: string, samples: nat)

  /** The open queries and their counters. */
  type Live = map<nat, map<nat, CounterInfo>>

  /** A counter handle was read on behalf of a query; `known` is what that query, if open, knew of the handle. */
  datatype Read = Read(query: nat, counter: nat, known: Option<CounterInfo>, reading: Reading)

  function InfoOf(live: Live, query: nat, counter: nat): Option<CounterInfo> {
    if query in live && counter in live[query] then Some(live[query][counter]) else None
  }

  /** No open query has issued this counter handle. */
  predicate Unissued(live: Live, counter: nat) {
    forall q :: q in live ==> counter !in live[q]
  }

  /** A new query without counters, unless opening it failed. */
  function WithQuery(live: Live, query: nat): Live {
    if query == 0 then live else live[query := map[]]
  }

  /** A new counter of an open query, not sampled yet. */
  function WithCounter(live: Live, query: nat, counter: nat, path: string): Live
    requires query in live
  {
    var counters: map<nat, CounterInfo> := live[query][counter := CounterInfo(path, 0)];
    live[query := counters]
  }

  /** One more sample for every counter of the queries in qs. */
  function Sampled(live: Live, qs: set<nat>): Live {
    map q | q in live ::
      if q in qs then (map c | c in live[q] :: live[q][c].(samples := live[q][c].samples + 1)) else live[q]
  }

  /** PDH, the clock and the host name; `*` and `:|` are choices of the environment. */
  class Os {
    var live: Live
    var now: nat
    ghost var trace: seq<Read>
    /** Whether English counter names are supported (Vista or newer). */
    const vista: bool

    constructor (vista: bool)
      ensures live == map[] && trace == [] && this.vista == vista
    {
      live, trace := map[], [];
      var start: nat :| start >= 0;
      now := start;
      this.vista := vista;
    }

    method Now() returns (t: nat)
      modifies `now
      ensures t == now && old(now) <= now
    {
      var elapsed: nat :| elapsed >= 0;
      now := now + elapsed;
      t := now;
    }

    /** A fresh nonzero handle, or a failure. */
    method OpenQuery() returns (ret: nat, query: nat)
      modifies `live
      ensures ret == ERROR_SUCCESS ==> query != 0 && query !in old(live) && live == old(live)[query := map[]]
      ensures ret != ERROR_SUCCESS ==> live == old(live)
    {
      ret, query :| ret >= 0 && query >= 0;
      if query == 0 || query in live {
        ret := 1;
      }
      if ret == ERROR_SUCCESS {
        live := live[query := map[]];
      }
    }

    /** The query and its counters are gone, or the call failed and they are still there. */
    method CloseQuery(query: nat) returns (ret: nat)
      modifies `live
      ensures ret == ERROR_SUCCESS ==> query in old(live) && live == old(live) - {query}
      ensures ret != ERROR_SUCCESS ==> live == old(live)
    {
      ret :| ret >= 0;
      if query !in live {
        ret := 1;
      }
      if ret == ERROR_SUCCESS {
        live := live - {query};
      }
    }

    method AddCounter(query: nat, path: string) returns (ret: nat, counter: nat)
      modifies `live
      ensures ret == ERROR_SUCCESS ==>
                query in old(live) && Unissued(old(live), counter) &&
                live == WithCounter(old(live), query, counter, path)
      ensures ret != ERROR_SUCCESS ==> live == old(live)
    {
      ret, counter :| ret >= 0 && counter >= 0;
      if query !in live || !Unissued(live, counter) {
        ret := 1;
      }
      if ret == ERROR_SUCCESS {
        live := WithCounter(live, query, counter, path);
      }
    }

    method CollectQueryData(query: nat) returns (ret: nat)
      modifies `live
      ensures ret == ERROR_SUCCESS ==> query in old(live) && live == Sampled(old(live), {query})
      ensures ret != ERROR_SUCCESS ==> live == old(live)
    {
      ret :| ret >= 0;
      if query !in live {
        ret := 1;
      }
      if ret == ERROR_SUCCESS {
        live := Sampled(live, {query});
      }
    }

    /** Any of the four value readers: whatever comes back, the read is recorded. */
    method ReadCounter(query: nat, counter: nat, expand: bool) returns (reading: Reading)
      modifies `trace
      ensures reading.Scalar? == expand
      ensures trace == old(trace) + [Read(query, counter, InfoOf(live, query, counter), reading)]
    {
      if expand {
        var value: Result<Value> := *;
        reading := Scalar(value);
      } else {
        var values: Result<seq<CounterValue>> := *;
        reading := Array(values);
      }
      trace := trace + [Read(query, counter, InfoOf(live, query, counter), reading)];
    }

    method Hostname() returns (name: Option<string>)
    {
      name := *;
    }
  }

  /** `performanceQueryImpl`: a query handle, zero while the query is not open. */
  class PerformanceQuery {
    var handle: nat
    const maxBufferSize: nat
    /** The computer the query was created for. */
    ghost const computer: string

    constructor (computer: string, maxBufferSize: nat)
      ensures handle == 0 && this.maxBufferSize == maxBufferSize && this.computer == computer
    {
      handle := 0;
      this.maxBufferSize := maxBufferSize;
      this.computer := computer;
    }

    /** On success the query owns a fresh handle and its old one is gone; on failure it owns at most its old one. */
    method Open(os: Os) returns (err: Option<Error>)
      modifies `handle, os`live
      ensures var others := if old(handle) == 0 then old(os.live) else old(os.live) - {old(handle)};
              if err.None? then handle != 0 && handle !in others && os.live == others[handle := map[]]
              else (handle == old(handle) && os.live == old(os.live)) || (handle == 0 && os.live == others)
    {
      if handle != 0 {
        err := Close(os);
        if err.Some? {
          return;
        }
      }
      var ret, query := os.OpenQuery();
      if ret != ERROR_SUCCESS {
        return Some(PdhError(ret));
      }
      handle := query;
      return None;
    }

    method Close(os: Os) returns (err: Option<Error>)
      modifies `handle, os`live
      ensures old(handle) == 0 ==> err == Some(UninitializedQuery)
      ensures err.None? ==> old(handle) in old(os.live) && handle == 0 && os.live == old(os.live) - {old(handle)}
      ensures err.Some? ==> handle == old(handle) && os.live == old(os.live)
    {
      if handle == 0 {
        return Some(UninitializedQuery);
      }
      var ret := os.CloseQuery(handle);
      if ret != ERROR_SUCCESS {
        return Some(PdhError(ret));
      }
      handle := 0;
      return None;
    }

    /** `AddCounterToQuery` and `AddEnglishCounterToQuery` differ only in the API they call. */
    method AddCounter(os: Os, path: string) returns (r: Result<nat>)
      modifies os`live
      ensures handle == 0 ==> r == Err(UninitializedQuery)
      ensures r.Ok? ==>
                handle in old(os.live) && Unissued(old(os.live), r.value) &&
                os.live == WithCounter(old(os.live), handle, r.value, path)
      ensures r.Err? ==> os.live == old(os.live)
    {
      if handle == 0 {
        return Err(UninitializedQuery);
      }
      var ret, counter := os.AddCounter(handle, path);
      if ret != ERROR_SUCCESS {
        return Err(PdhError(ret));
      }
      return Ok(counter);
    }

    method CollectData(os: Os) returns (err: Option<Error>)
      modifies os`live
      ensures handle == 0 ==> err == Some(UninitializedQuery)
      ensures err.None? ==> handle in old(os.live) && os.live == Sampled(old(os.live), {handle})
      ensures err.Some? ==> os.live == old(os.live)
    {
      if handle == 0 {
        return Some(UninitializedQuery);
      }
      var ret := os.CollectQueryData(handle);
      if ret != ERROR_SUCCESS {
        return Some(PdhError(ret));
      }
      return None;
    }

    /**
     The same, with the time of the sample. The time may be impossible to convert after the sample has been taken;
     on every failure the time is the present.
     */
    method CollectDataWithTime(os: Os) returns (time: int, err: Option<Error>)
      modifies os`live, os`now
      ensures old(os.now) <= os.now
      ensures handle == 0 ==> err == Some(UninitializedQuery)
      ensures err.None? ==> handle in old(os.live) && os.live == Sampled(old(os.live), {handle})
      ensures err.Some? ==>
              time == os.now && (os.live == old(os.live) || (handle != 0 && os.live == Sampled(old(os.live), {handle})))
    {
      err := CollectData(os);
      if err.None? {
        var converted: bool := *;
        if converted {
          time := *;
          return;
        }
        err := Some(PdhError(ERROR_FAILURE));
      }
      time := os.Now();
    }

    method GetCounterPath(counter: nat) returns (r: Result<string>)
    {
      r := *;
    }

    method ExpandWildCardPath(path: string) returns (r: Result<seq<string>>)
    {
      r := *;
    }
  }
}
