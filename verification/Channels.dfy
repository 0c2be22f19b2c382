/** The bounded channel between the forwarder and one subscriber, by contract. */
module Channels {
  import opened Rebatching

  const SUBSCRIBER_QUEUE_CAPACITY: nat := 50_000

  datatype Message = Batch(packets: Chunk) | Heartbeat(count: nat)
  datatype Outcome = Delivered | Full | Closed

  /** Everything the channel ever accepted, how much of it the subscriber has taken, and whether the
      subscriber's end still exists. */
  datatype Channel = Channel(accepted: seq<Message>, taken: nat, open: bool)
  {
    predicate Valid() {
      taken <= |accepted| <= taken + SUBSCRIBER_QUEUE_CAPACITY
    }

    function TrySend(m: Message): (r: (Channel, Outcome))
      requires Valid()
      ensures r.0.Valid() && r.0.taken == taken && r.0.open == open
      ensures r.0.accepted == if r.1 == Delivered then accepted + [m] else accepted
      ensures r.1 == Closed <==> !open
      ensures r.1 == Full <==> open && |accepted| - taken == 50_000
    {
      if !open then (this, Closed)
      else if |accepted| - taken == SUBSCRIBER_QUEUE_CAPACITY then (this, Full)
      else (this.(accepted := accepted + [m]), Delivered)
    }
  }

  const NewChannel := Channel([], 0, true)

  /** What the subscriber may do to its end: take messages in order, and go away for good. */
  predicate Consumed(before: Channel, after: Channel) {
    && after.accepted == before.accepted
    && before.taken <= after.taken <= |after.accepted|
    && (after.open ==> before.open)
  }
}
