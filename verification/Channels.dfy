// The sending half of a bounded tokio channel, as the producing task sees it.
// Back-pressure only delays a send; what the producer can observe is whether
// the receiver is still there.  `limit` says after how many messages the
// receiver goes away (`None`: it stays until the producer is done).
module Channels {
  import opened Wrappers

  predicate Fits(limit: Option<nat>, n: nat) {
    limit.None? || n <= limit.value
  }

  // The part of a producer's full output that a receiver with this limit gets.
  function Deliver<T>(limit: Option<nat>, log: seq<T>): seq<T> {
    if Fits(limit, |log|) then log else log[..limit.value]
  }

  // Once a message has been cut off, nothing sent later can arrive.
  lemma DeliverIgnoresRest<T>(limit: Option<nat>, log: seq<T>, rest: seq<T>)
    requires !Fits(limit, |log|)
    ensures Deliver(limit, log + rest) == Deliver(limit, log)
  {
    assert (log + rest)[..limit.value] == log[..limit.value];
  }

  // Sending in two goes delivers what sending everything at once would.
  lemma DeliverInTwo<T>(limit: Option<nat>, a: seq<T>, b: seq<T>)
    ensures Deliver(limit, Deliver(limit, a) + b) == Deliver(limit, a + b)
  {
    if !Fits(limit, |a|) {
      DeliverIgnoresRest(limit, a, b);
      assert (a[..limit.value] + b)[..limit.value] == a[..limit.value];
      if b == [] {
        assert a[..limit.value] + b == a[..limit.value];
      }
    }
  }

  class Sender<T> {
    const limit: Option<nat>
    var delivered: seq<T>

    ghost predicate Valid()
      reads this
    {
      Fits(limit, |delivered|)
    }

    constructor (limit: Option<nat>)
      ensures Valid() && this.limit == limit && delivered == []
    {
      this.limit := limit;
      delivered := [];
    }

    method Send(x: T) returns (ok: bool)
      requires Valid()
      modifies this
      ensures Valid()
      ensures ok == Fits(limit, |old(delivered)| + 1)
      ensures delivered == Deliver(limit, old(delivered) + [x])
    {
      ok := limit.None? || |delivered| < limit.value;
      if ok {
        delivered := delivered + [x];
      } else {
        assert (delivered + [x])[..limit.value] == delivered;
      }
    }
  }
}
