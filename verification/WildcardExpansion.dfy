/**
 Wildcard expansion as a whole: the growth loop asks PDH for the multi-string block of matching
 paths, and the block it finally gets is decoded.
 */
module WildcardExpansion {
  import opened Errors
  import opened GrowthLoop
  import opened MultiString

  /** `Fault` stands for the index panics of the loop and of the decoder, and for a read past the buffer. */
  datatype Expansion = Paths(list: seq<seq<Unit>>) | Refused(error: Error) | Fault | Unanswered

  function Conclude(outcome: Outcome<seq<Unit>>): Expansion {
    match outcome
    case Read(buf) => (match Decode(buf, 0) case None => Fault case Some(d) => Paths(d.lines))
    case Failed(e) => Refused(e)
    case Crashed => Fault
    case Pending => Unanswered
  }

  /** `ExpandWildCardPath`; each reply carries the buffer as the call left it. */
  method ExpandWildCardPath(max: nat, replies: seq<Reply<seq<Unit>>>) returns (r: Expansion)
    ensures r == Conclude(Run(max, INITIAL_BUFFER_SIZE, replies))
  {
    var outcome, buffers := ReadGrowing(max, replies);
    match outcome {
      case Read(buf) =>
        var d := DecodeMultiString(buf);
        r := if d.None? then Fault else Paths(d.value.lines);
      case Failed(e) => r := Refused(e);
      case Crashed => r := Fault;
      case Pending => r := Unanswered;
    }
  }

  /** Every successful call has put the block of the list at the front of its buffer, over whatever the rest holds. */
  ghost predicate Delivers(list: seq<seq<Unit>>, replies: seq<Reply<seq<Unit>>>) {
    forall i :: 0 <= i < |replies| && replies[i].status == ERROR_SUCCESS ==> Block(list) <= replies[i].data
  }

  lemma {:induction false} ReadsADelivery(max: nat, buflen: nat, replies: seq<Reply<seq<Unit>>>, list: seq<seq<Unit>>)
    requires Delivers(list, replies) && Run(max, buflen, replies).Read?
    ensures Block(list) <= Run(max, buflen, replies).data
    decreases |replies|
  {
    if replies[0].status != ERROR_SUCCESS {
      ReadsADelivery(max, Next(buflen, replies[0].size), replies[1..], list);
    }
  }

  /** Whatever buffer the loop ends up with, a readable list comes out of it as it went in. */
  lemma WhatIsReadIsTheList(max: nat, replies: seq<Reply<seq<Unit>>>, list: seq<seq<Unit>>)
    requires Delivers(list, replies) && Readable(list) && forall s :: s in list ==> Proper(s)
    ensures Run(max, INITIAL_BUFFER_SIZE, replies).Read? <==>
            Conclude(Run(max, INITIAL_BUFFER_SIZE, replies)) == Paths(list)
  {
    var outcome := Run(max, INITIAL_BUFFER_SIZE, replies);
    if outcome.Read? {
      ReadsADelivery(max, INITIAL_BUFFER_SIZE, replies, list);
      var n := |Block(list)|;
      assert outcome.data == Block(list) + outcome.data[n..];
      ReadableListComesBack(list, outcome.data[n..]);
    }
  }

  /**
   The list of matching paths comes through whole, however much the size hints understate the need, if its
   block fits into 1024 units or into half the maximum.
   */
  lemma EveryFittingListComesThrough(max: nat, replies: seq<Reply<seq<Unit>>>, list: seq<seq<Unit>>)
    requires INITIAL_BUFFER_SIZE <= max < TWO31 && Readable(list) && forall s :: s in list ==> Proper(s)
    requires Delivers(list, replies) && Honest(max, |Block(list)|, INITIAL_BUFFER_SIZE, replies)
    requires |Block(list)| <= INITIAL_BUFFER_SIZE || 2 * |Block(list)| <= max
    requires |replies| >= CallBound(max)
    ensures Conclude(Run(max, INITIAL_BUFFER_SIZE, replies)) == Paths(list)
  {
    Completeness(max, |Block(list)|, replies);
    WhatIsReadIsTheList(max, replies, list);
  }

  /** With exact hints that is the only way it can come through, and two calls decide. */
  lemma OnlyFittingListsComeThrough(max: nat, replies: seq<Reply<seq<Unit>>>, list: seq<seq<Unit>>)
    requires INITIAL_BUFFER_SIZE <= max < TWO31 && Readable(list) && forall s :: s in list ==> Proper(s)
    requires Delivers(list, replies) && ExactHints(max, |Block(list)|, INITIAL_BUFFER_SIZE, replies)
    requires |replies| >= 2
    ensures Conclude(Run(max, INITIAL_BUFFER_SIZE, replies)) == Paths(list)
       <==> |Block(list)| <= INITIAL_BUFFER_SIZE || 2 * |Block(list)| <= max
  {
    ExactHintsDecide(max, |Block(list)|, replies);
    WhatIsReadIsTheList(max, replies, list);
  }
}
