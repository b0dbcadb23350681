/**
 The buffer-growth loop shared by the six PDH readers: call the API with a buffer, and as long as
 it asks for more data, double the larger of the buffer and the size the API left behind, in
 32-bit arithmetic, up to the configured maximum.
 */
module GrowthLoop {
  import opened Errors

  const INITIAL_BUFFER_SIZE: nat := 1024
  const TWO31: nat := 0x8000_0000
  const TWO32: nat := 0x1_0000_0000

  /** What one API call leaves behind: its status, the size variable, and the data if it succeeded. */
  datatype Reply<T> = Reply(status: nat, size: nat, data: T)

  /**
   `Crashed` is the index panic on an empty buffer; `Pending` is a loop that wants another call
   after the given conversation.
   */
  datatype Outcome<T> = Read(data: T) | Failed(error: Error) | Crashed | Pending

  function Larger(a: nat, b: nat): nat { if a > b then a else b }

  /** The next buffer length: the hint is taken if larger, and the doubling wraps at 2^32. */
  function Next(buflen: nat, size: nat): nat {
    2 * Larger(buflen, size) % TWO32
  }

  /** The loop's outcome from a given buffer length on. */
  function Run<T>(max: nat, buflen: nat, replies: seq<Reply<T>>): Outcome<T>
    decreases |replies|
  {
    if buflen > max then Failed(BufferLimitReached)
    else if buflen == 0 then Crashed
    else if replies == [] then Pending
    else if replies[0].status == ERROR_SUCCESS then Read(replies[0].data)
    else if replies[0].status != PDH_MORE_DATA then Failed(PdhError(replies[0].status))
    else Run(max, Next(buflen, replies[0].size), replies[1..])
  }

  /** The buffer lengths of the API calls it makes. */
  function Buffers<T>(max: nat, buflen: nat, replies: seq<Reply<T>>): seq<nat>
    decreases |replies|
  {
    if buflen > max || buflen == 0 || replies == [] then []
    else [buflen] + if replies[0].status == PDH_MORE_DATA
                    then Buffers(max, Next(buflen, replies[0].size), replies[1..]) else []
  }

  /** What the next reply does to the loop, and which call it answers. */
  lemma NextReply<T>(max: nat, buflen: nat, replies: seq<Reply<T>>, k: nat)
    requires 0 < buflen <= max && k < |replies|
    ensures var reply, rest := replies[k], replies[k + 1..];
            var more := reply.status == PDH_MORE_DATA;
            && Run(max, buflen, replies[k..]) ==
               (if reply.status == ERROR_SUCCESS then Read(reply.data)
                else if !more then Failed(PdhError(reply.status))
                else Run(max, Next(buflen, reply.size), rest))
            && Buffers(max, buflen, replies[k..]) ==
               [buflen] + if more then Buffers(max, Next(buflen, reply.size), rest) else []
  {
    assert replies[k..][1..] == replies[k + 1..];
  }

  lemma Regroup(buffers: seq<nat>, buflen: nat, rest: seq<nat>)
    ensures buffers + ([buflen] + rest) == buffers + [buflen] + rest && buffers + ([buflen] + []) == buffers + [buflen]
  {
  }

  method ReadGrowing<T>(max: nat, replies: seq<Reply<T>>) returns (outcome: Outcome<T>, buffers: seq<nat>)
    ensures outcome == Run(max, INITIAL_BUFFER_SIZE, replies)
    ensures buffers == Buffers(max, INITIAL_BUFFER_SIZE, replies)
  {
    ghost var whole, calls := Run(max, INITIAL_BUFFER_SIZE, replies), Buffers(max, INITIAL_BUFFER_SIZE, replies);
    buffers := [];
    var buflen: nat, k := INITIAL_BUFFER_SIZE, 0;
    assert replies[0..] == replies;
    while buflen <= max
      invariant 0 <= k <= |replies|
      invariant whole == Run(max, buflen, replies[k..])
      invariant calls == buffers + Buffers(max, buflen, replies[k..])
      decreases |replies| - k
    {
      if buflen == 0 {
        return Crashed, buffers;
      }
      if k == |replies| {
        return Pending, buffers;
      }
      var reply := replies[k];
      var size := reply.size;
      ghost var next := Next(buflen, size);
      NextReply(max, buflen, replies, k);
      Regroup(buffers, buflen, Buffers(max, next, replies[k + 1..]));
      buffers, k := buffers + [buflen], k + 1;
      if reply.status == ERROR_SUCCESS {
        return Read(reply.data), buffers;
      }
      if size > buflen {
        buflen := size;
      }
      if reply.status != PDH_MORE_DATA {
        return Failed(PdhError(reply.status)), buffers;
      }
      buflen := buflen * 2 % TWO32;
      assert buflen == next;
    }
    outcome := Failed(BufferLimitReached);
  }

  // ----- Safety and termination

  /** floor(log2(n)) */
  function Log2(n: nat): nat
    requires n > 0
  {
    if n == 1 then 0 else 1 + Log2(n / 2)
  }

  /** The most calls a conversation can take under this maximum. */
  function CallBound(max: nat): nat {
    if max < INITIAL_BUFFER_SIZE then 0 else Log2(max / INITIAL_BUFFER_SIZE) + 1
  }

  /** How often a buffer can be used when each use at least doubles it. */
  function Doublings(max: nat, buflen: nat): nat
    requires buflen > 0
    decreases max - buflen
  {
    if buflen > max then 0 else 1 + Doublings(max, 2 * buflen)
  }

  lemma {:induction false} DoublingsAreAntitone(max: nat, a: nat, b: nat)
    requires 0 < a <= b
    ensures Doublings(max, b) <= Doublings(max, a)
    decreases max - a
  {
    if b <= max {
      DoublingsAreAntitone(max, 2 * a, 2 * b);
    }
  }

  lemma {:induction false} DoublingsScale(max: nat, buflen: nat)
    requires buflen > 0
    ensures Doublings(max, 2 * buflen) == Doublings(max / 2, buflen)
    decreases max - buflen
  {
    if 2 * buflen <= max {
      DoublingsScale(max, 2 * buflen);
    }
  }

  lemma {:induction false} DoublingsAreLog2(n: nat)
    requires n > 0
    ensures Doublings(n, 1) == Log2(n) + 1
  {
    if n > 1 {
      DoublingsScale(n, 1);
      DoublingsAreLog2(n / 2);
    } else {
      assert Doublings(1, 2) == 0;
    }
  }

  lemma DoublingsScale4(max: nat, buflen: nat)
    requires buflen > 0
    ensures Doublings(max, 4 * buflen) == Doublings(max / 4, buflen)
  {
    DoublingsScale(max, 2 * buflen);
    DoublingsScale(max / 2, buflen);
  }

  lemma DoublingsScale32(max: nat, buflen: nat)
    requires buflen > 0
    ensures Doublings(max, 32 * buflen) == Doublings(max / 32, buflen)
  {
    DoublingsScale4(max, 8 * buflen);
    DoublingsScale4(max / 4, 2 * buflen);
    DoublingsScale(max / 16, buflen);
  }

  lemma CallBoundIsDoublings(max: nat)
    ensures CallBound(max) == Doublings(max, INITIAL_BUFFER_SIZE)
  {
    DoublingsScale32(max, 32);
    DoublingsScale32(max / 32, 1);
    if max >= INITIAL_BUFFER_SIZE {
      DoublingsAreLog2(max / INITIAL_BUFFER_SIZE);
    }
  }

  ghost predicate SmallHints<T>(replies: seq<Reply<T>>) {
    forall i :: 0 <= i < |replies| ==> replies[i].size < TWO31
  }

  /** Each buffer is the exact double of what the step before it settled on, and none exceeds the maximum. */
  ghost predicate GrowsWithoutWrapping<T>(max: nat, buffers: seq<nat>, replies: seq<Reply<T>>) {
    && |buffers| <= |replies|
    && (forall k :: 0 <= k < |buffers| ==> 0 < buffers[k] <= max)
    && (forall k :: 0 <= k < |buffers| - 1 ==> buffers[k + 1] == 2 * Larger(buffers[k], replies[k].size))
  }

  lemma {:induction false} GrowsFrom<T>(max: nat, buflen: nat, replies: seq<Reply<T>>)
    requires max < TWO31 && SmallHints(replies) && buflen > 0
    ensures GrowsWithoutWrapping(max, Buffers(max, buflen, replies), replies)
    ensures Buffers(max, buflen, replies) != [] ==> Buffers(max, buflen, replies)[0] == buflen
    decreases |replies|
  {
    if buflen <= max && replies != [] && replies[0].status == PDH_MORE_DATA {
      var next := Next(buflen, replies[0].size);
      GrowsFrom(max, next, replies[1..]);
      var rest := Buffers(max, next, replies[1..]);
      var buffers := [buflen] + rest;
      forall k | 0 <= k < |buffers| - 1 ensures buffers[k + 1] == 2 * Larger(buffers[k], replies[k].size) {
        if k > 0 {
          assert rest[k] == 2 * Larger(rest[k - 1], replies[1..][k - 1].size);
        }
      }
    }
  }

  lemma {:induction false} StopsFrom<T>(max: nat, buflen: nat, replies: seq<Reply<T>>)
    requires max < TWO31 && SmallHints(replies) && buflen > 0
    ensures !Run(max, buflen, replies).Crashed?
    ensures |Buffers(max, buflen, replies)| <= Doublings(max, buflen)
    ensures Run(max, buflen, replies).Pending? ==> |replies| < Doublings(max, buflen)
    decreases |replies|
  {
    if buflen <= max && replies != [] && replies[0].status == PDH_MORE_DATA {
      var next := Next(buflen, replies[0].size);
      StopsFrom(max, next, replies[1..]);
      DoublingsAreAntitone(max, 2 * buflen, next);
    }
  }

  /**
   With the maximum and all size hints below 2^31, any conversation at all keeps the loop safe: the
   doubling never wraps, every buffer fits the maximum, and the loop stops after at most
   floor(log2(max / 1024)) + 1 calls.
   */
  lemma SafetyAndTermination<T>(max: nat, replies: seq<Reply<T>>)
    requires max < TWO31 && SmallHints(replies)
    ensures GrowsWithoutWrapping(max, Buffers(max, INITIAL_BUFFER_SIZE, replies), replies)
    ensures |Buffers(max, INITIAL_BUFFER_SIZE, replies)| <= CallBound(max)
    ensures !Run(max, INITIAL_BUFFER_SIZE, replies).Crashed?
    ensures |replies| >= CallBound(max) ==> !Run(max, INITIAL_BUFFER_SIZE, replies).Pending?
  {
    GrowsFrom(max, INITIAL_BUFFER_SIZE, replies);
    StopsFrom(max, INITIAL_BUFFER_SIZE, replies);
    CallBoundIsDoublings(max);
  }

  /** The sizes `Init` lets through. */
  predicate AcceptedByInit(max: int) {
    INITIAL_BUFFER_SIZE <= max < TWO32
  }

  /** Of the maxima `Init` accepts, exactly those below 2^31 keep the loop from running into an empty buffer. */
  lemma CrashFreeIff<T>(max: nat, data: T)
    requires AcceptedByInit(max)
    ensures (forall replies: seq<Reply<T>> :: SmallHints(replies) ==> !Run(max, INITIAL_BUFFER_SIZE, replies).Crashed?)
       <==> max < TWO31
  {
    if max < TWO31 {
      forall replies: seq<Reply<T>> | SmallHints(replies) ensures !Run(max, INITIAL_BUFFER_SIZE, replies).Crashed? {
        SafetyAndTermination(max, replies);
      }
    } else {
      var first, second := Reply(PDH_MORE_DATA, 0x4000_0000, data), Reply(PDH_MORE_DATA, 0, data);
      assert [first, second][1..] == [second] && [second][1..] == [];
      assert Next(INITIAL_BUFFER_SIZE, 0x4000_0000) == TWO31 && Next(TWO31, 0) == 0;
      assert Run(max, TWO31, [second]) == Run(max, 0, []);
      assert Run(max, INITIAL_BUFFER_SIZE, [first, second]).Crashed?;
      assert SmallHints([first, second]);
    }
  }

  /** Under any maximum, a hint of 2^31 empties the buffer: the bound on hints is needed as well. */
  lemma LargeHintCrashes<T>(max: nat, data: T)
    requires AcceptedByInit(max)
    ensures Run(max, INITIAL_BUFFER_SIZE, [Reply(PDH_MORE_DATA, TWO31, data)]).Crashed?
  {
    assert [Reply(PDH_MORE_DATA, TWO31, data)][1..] == [];
  }

  function Repeated<T>(reply: Reply<T>, n: nat): seq<Reply<T>> {
    if n == 0 then [] else [reply] + Repeated(reply, n - 1)
  }

  /**
   And so is termination: a hint of 2^31 + 512 wraps to the initial size, so that an API that keeps answering with it
   keeps the loop calling, under any maximum and for any number of calls.
   */
  lemma {:induction false} LargeHintLoops<T>(max: nat, data: T, n: nat)
    requires AcceptedByInit(max)
    ensures Run(max, INITIAL_BUFFER_SIZE, Repeated(Reply(PDH_MORE_DATA, 0x8000_0200, data), n)).Pending?
    ensures |Buffers(max, INITIAL_BUFFER_SIZE, Repeated(Reply(PDH_MORE_DATA, 0x8000_0200, data), n))| == n
  {
    if n > 0 {
      var reply := Reply(PDH_MORE_DATA, 0x8000_0200, data);
      LargeHintLoops(max, data, n - 1);
      assert Next(INITIAL_BUFFER_SIZE, 0x8000_0200) == INITIAL_BUFFER_SIZE;
      assert Repeated(reply, n)[1..] == Repeated(reply, n - 1);
    }
  }

  // ----- Completeness for an API with a stable need

  /**
   The API succeeds exactly when the buffer covers `need`, and otherwise asks for more with a hint it may
   understate.
   */
  ghost predicate Honest<T>(max: nat, need: nat, buflen: nat, replies: seq<Reply<T>>)
    decreases |replies|
  {
    buflen > max || buflen == 0 || replies == [] ||
    var reply := replies[0];
    if buflen >= need then reply.status == ERROR_SUCCESS
    else reply.status == PDH_MORE_DATA && reply.size <= Larger(buflen, need) &&
         Honest(max, need, Next(buflen, reply.size), replies[1..])
  }

  /** Failing calls report the need itself. */
  ghost predicate ExactHints<T>(max: nat, need: nat, buflen: nat, replies: seq<Reply<T>>)
    decreases |replies|
  {
    Honest(max, need, buflen, replies) &&
    (buflen > max || buflen == 0 || replies == [] || buflen >= need ||
     (replies[0].size == need && ExactHints(max, need, Next(buflen, replies[0].size), replies[1..])))
  }

  lemma {:induction false} CompleteFrom<T>(max: nat, need: nat, buflen: nat, replies: seq<Reply<T>>)
    requires max < TWO31 && 0 < buflen <= max && Honest(max, need, buflen, replies)
    requires need <= buflen || 2 * need <= max
    ensures Run(max, buflen, replies).Read? || Run(max, buflen, replies).Pending?
    ensures |replies| >= Doublings(max, buflen) ==> Run(max, buflen, replies).Read?
    decreases |replies|
  {
    if replies != [] && buflen < need {
      var next := Next(buflen, replies[0].size);
      CompleteFrom(max, need, next, replies[1..]);
      DoublingsAreAntitone(max, 2 * buflen, next);
    }
  }

  /**
   A need of at most 1024, or of at most half the maximum, is always met within the call bound: the
   loop never reports the buffer limit, however much the hints understate the need.
   */
  lemma Completeness<T>(max: nat, need: nat, replies: seq<Reply<T>>)
    requires INITIAL_BUFFER_SIZE <= max < TWO31 && Honest(max, need, INITIAL_BUFFER_SIZE, replies)
    requires need <= INITIAL_BUFFER_SIZE || 2 * need <= max
    ensures Run(max, INITIAL_BUFFER_SIZE, replies).Read? || Run(max, INITIAL_BUFFER_SIZE, replies).Pending?
    ensures |replies| >= CallBound(max) ==> Run(max, INITIAL_BUFFER_SIZE, replies).Read?
  {
    CompleteFrom(max, need, INITIAL_BUFFER_SIZE, replies);
    CallBoundIsDoublings(max);
  }

  lemma {:induction false} TooLargeNeverReads<T>(max: nat, need: nat, buflen: nat, replies: seq<Reply<T>>)
    requires max < need && Honest(max, need, buflen, replies)
    ensures !Run(max, buflen, replies).Read?
    decreases |replies|
  {
    if 0 < buflen <= max && replies != [] {
      TooLargeNeverReads(max, need, Next(buflen, replies[0].size), replies[1..]);
    }
  }

  /** With exact hints that condition is also necessary, and two calls decide. */
  lemma ExactHintsDecide<T>(max: nat, need: nat, replies: seq<Reply<T>>)
    requires INITIAL_BUFFER_SIZE <= max < TWO31 && ExactHints(max, need, INITIAL_BUFFER_SIZE, replies)
    requires |replies| >= 2
    ensures Run(max, INITIAL_BUFFER_SIZE, replies).Read? <==> need <= INITIAL_BUFFER_SIZE || 2 * need <= max
    ensures need < TWO31 ==>
              |Buffers(max, INITIAL_BUFFER_SIZE, replies)| <= 2 &&
              (Run(max, INITIAL_BUFFER_SIZE, replies).Read?
                || Run(max, INITIAL_BUFFER_SIZE, replies) == Failed(BufferLimitReached))
  {
    if need >= TWO31 {
      TooLargeNeverReads(max, need, INITIAL_BUFFER_SIZE, replies);
    } else if need > INITIAL_BUFFER_SIZE {
      assert Next(INITIAL_BUFFER_SIZE, need) == 2 * need;
    }
  }
}
