/** The forwarder service: who is subscribed, fanning batches out to them, heartbeats, and the
    removal of subscribers that went away. What it does is recorded as events of the machine in the
    module SubscriptionRuns, so that what is proved of all runs there holds of the service. */
module Forwarding {
  import opened Prelude
  import opened Packets
  import opened Rebatching
  import opened Channels
  import opened FanOut
  import opened SubscriptionRuns

  /** The subscribers are among the subscriptions, and their channels exist. */
  ghost predicate Holders(subscribers: seq<Subscriber>, subscriptions: map<Pubkey, SenderId>, channels: map<SenderId, Channel>) {
    forall j :: 0 <= j < |subscribers| ==>
      && subscribers[j].key in subscriptions && subscriptions[subscribers[j].key] == subscribers[j].sender
      && subscribers[j].sender in channels
  }

  /** Every subscription has a channel. */
  ghost predicate Connected(subscriptions: map<Pubkey, SenderId>, channels: map<SenderId, Channel>) {
    forall k :: k in subscriptions ==> subscriptions[k] in channels
  }

  lemma FewerConnected(subscriptions: map<Pubkey, SenderId>, channels: map<SenderId, Channel>, keys: set<Pubkey>)
    requires |subscriptions| <= 1 && Connected(subscriptions, channels)
    ensures |subscriptions - keys| <= 1 && Connected(subscriptions - keys, channels)
  {
    FewerKeys(subscriptions, keys);
  }

  lemma RemovalStep(s: State, failed: seq<Pubkey>)
    requires s.loop.Sending? && s.loop.failed == failed
    ensures Next(s, Remove) == s.(subs := s.subs - Members(failed), loop := Waiting)
  {
  }

  lemma BeatStep(s: State, key: Pubkey)
    requires s.loop.Waiting? && s.subs.Keys == {key} && s.subs[key] in s.channels && s.channels[s.subs[key]].Valid()
    ensures var sender := s.subs[key];
            var sent := s.channels[sender].TrySend(Heartbeat(s.beats));
            Next(s, Beat(Some(key))) ==
            s.(channels := s.channels[sender := sent.0], beats := s.beats + 1,
               loop := Sending(s.subs, if sent.1 == Closed then [key] else [], true))
  {
  }

  lemma CountOne(x: Outcome, o: Outcome)
    ensures Count(x, [o]) == if o == x then 1 else 0
  {
    assert [o][..0] == [];
    assert Count(x, [o][..0]) == 0;
  }

  lemma OnlyOneSender(m: map<Pubkey, SenderId>, key: Pubkey)
    requires m.Keys == {key}
    ensures forall k :: k in m ==> k == key
    ensures m[key] in m.Values
  {
    assert forall k :: k in m ==> k in m.Keys;
  }

  class ForwarderService {
    var subscriptions: map<Pubkey, SenderId>
    var channels: map<SenderId, Channel>
    var heartbeatCount: nat
    var droppedSends: nat
    /** Attempts ever refused because a channel was full, and how many of them have been reported. */
    ghost var refused: nat
    ghost var reported: nat

    /** What has happened, as events of the machine in the module SubscriptionRuns. */
    ghost var events: seq<Event>

    /** The machine's state. */
    ghost function World(): State
      reads this
    {
      After(events, |events|)
    }

    /** The machine has the same subscriptions and channels. */
    ghost predicate Mirrored()
      reads this
    {
      World().subs == subscriptions && World().channels == channels
    }

    /** Within an arm of the event loop. */
    ghost predicate Sound()
      reads this
    {
      && |subscriptions| <= 1
      && Healthy(channels)
      && Connected(subscriptions, channels)
      && refused == reported + droppedSends
      && Mirrored() && World().beats == heartbeatCount
    }

    /** Between two arms. */
    ghost predicate Valid()
      reads this
    {
      Sound() && World().loop.Waiting?
    }

    constructor ()
      ensures Valid() && subscriptions == map[] && heartbeatCount == 0 && events == []
    {
      subscriptions, channels := map[], map[];
      heartbeatCount, droppedSends, refused, reported := 0, 0, 0, 0;
      events := [];
    }

    ghost method Record(e: Event)
      modifies this`events
      ensures events == old(events) + [e] && World() == Next(old(World()), e)
    {
      hide Next;
      Continue(events, e);
      events := events + [e];
    }

    /** `ConnectedValidator::get`. */
    method ConnectedValidator() returns (r: Option<Pubkey>)
      requires Valid()
      ensures r.Some? <==> subscriptions != map[]
      ensures r.Some? ==> subscriptions.Keys == {r.value}
    {
      if |subscriptions| == 1 {
        var k :| k in subscriptions;
        OneKey(subscriptions, k);
        return Some(k);
      }
      return None;
    }

    /** A validator subscribes on a new channel. Only one validator at a time; the same validator may
        replace its own subscription. */
    method AddSubscription(identity: Pubkey, sender: SenderId) returns (ok: bool)
      requires Valid() && sender !in channels
      modifies this`subscriptions, this`channels, this`events
      ensures Valid() && events == old(events) + [Subscribe(identity, sender)]
      ensures ok <==> old(subscriptions) == map[] || identity in old(subscriptions)
      ensures ok ==> subscriptions == map[identity := sender] && channels == old(channels)[sender := NewChannel]
      ensures !ok ==> subscriptions == old(subscriptions) && channels == old(channels)
    {
      Record(Subscribe(identity, sender));
      var len := |subscriptions|;
      if identity !in subscriptions {
        if len >= 1 {
          return false;
        }
        assert subscriptions == map[];
      } else {
        OneKey(subscriptions, identity);
      }
      subscriptions := subscriptions[identity := sender];
      channels := channels[sender := NewChannel];
      assert subscriptions == map[identity := sender];
      return true;
    }

    /** Subscribers take messages or leave. */
    method Environment()
      requires Healthy(channels) && Mirrored()
      modifies this`channels, this`events
      ensures Healthy(channels) && AllConsumed(old(channels), channels)
      ensures old(events) <= events && World() == old(World()).(channels := channels)
    {
      assert AllConsumed(channels, channels);
      var after: map<SenderId, Channel> :| AllConsumed(channels, after);
      ConsumedStaysHealthy(channels, after);
      Record(Consume(after));
      channels := after;
    }

    /** The subscribers at this moment, in the map's order, which is arbitrary. */
    method Snapshot() returns (subscribers: seq<Subscriber>)
      requires Sound()
      ensures Distinct(subscribers, channels)
      ensures |subscribers| == |subscriptions|
      ensures forall x :: x in subscribers <==> x.key in subscriptions && subscriptions[x.key] == x.sender
    {
      subscribers := [];
      if |subscriptions| == 1 {
        var k :| k in subscriptions;
        OneKey(subscriptions, k);
        subscribers := [Subscriber(k, subscriptions[k])];
      }
    }

    /** The event loop holds a snapshot of the subscriptions as they are, and has found `failed` closed. */
    ghost predicate Sending(failed: seq<Pubkey>, heartbeat: bool)
      reads this
    {
      Mirrored() && World().loop == Loop.Sending(subscriptions, failed, heartbeat)
    }

    /** One attempt, and the bookkeeping of its outcome. */
    method TryForward(to: Subscriber, chunk: Chunk, failed: seq<Pubkey>, dropped: nat)
      returns (failed': seq<Pubkey>, dropped': nat, ghost outcome: Outcome)
      requires Healthy(channels) && to.sender in channels && Sending(failed, false)
      requires to.key in subscriptions && subscriptions[to.key] == to.sender
      modifies this`channels, this`events
      ensures Healthy(channels) && GainedOne(old(channels), channels, to.sender, outcome, Batch(chunk))
      ensures failed' == failed + if outcome == Closed then [to.key] else []
      ensures dropped' == dropped + if outcome == Full then 1 else 0
      ensures Onward(old(channels), channels)
      ensures Honest(old(channels)[to.sender], channels[to.sender], outcome)
      ensures old(events) <= events && Sending(failed', false) && World().beats == old(World()).beats
    {
      Environment();
      Record(Attempt(to.key, chunk));
      var (c, o) := channels[to.sender].TrySend(Batch(chunk));
      channels := channels[to.sender := c];
      outcome, failed', dropped' := o, failed, dropped;
      match o {
        case Delivered =>
        case Full => dropped' := dropped' + 1;
        case Closed => failed' := failed' + [to.key];
      }
    }

    /** One chunk to every subscriber of the snapshot, in turn. */
    method SendToAll(chunk: Chunk, subscribers: seq<Subscriber>, failed: seq<Pubkey>, dropped: nat)
      returns (failed': seq<Pubkey>, dropped': nat, ghost row: seq<Outcome>)
      requires Healthy(channels) && Sending(failed, false) && Holders(subscribers, subscriptions, channels)
      modifies this`channels, this`events
      ensures Healthy(channels) && old(events) <= events && Sending(failed', false) && World().beats == old(World()).beats
      ensures |row| == |subscribers| && Gained(old(channels), channels, subscribers, row, Batch(chunk))
      ensures Onward(old(channels), channels) && HonestRow(old(channels), channels, subscribers, row)
      ensures failed' == failed + ClosedKeys(row, subscribers) && dropped' == dropped + Count(Full, row)
    {
      hide Gain, Count, ClosedKeys, Healthy, Gained, HonestRow, Honest, ForwarderService.Sending;
      failed', dropped', row := failed, dropped, [];
      EmptyRow(subscribers, Batch(chunk), channels);
      for j := 0 to |subscribers|
        invariant Healthy(channels) && old(events) <= events && Sending(failed', false) && World().beats == old(World()).beats
        invariant |row| == j && Gained(old(channels), channels, subscribers, row, Batch(chunk))
        invariant Onward(old(channels), channels) && HonestRow(old(channels), channels, subscribers, row)
        invariant failed' == failed + ClosedKeys(row, subscribers) && dropped' == dropped + Count(Full, row)
      {
        ghost var o, between := Full, channels;
        failed', dropped', o := TryForward(subscribers[j], chunk, failed', dropped');
        RowSnoc(subscribers, row, o);
        GainedSnoc(old(channels), between, channels, subscribers, row, o, Batch(chunk));
        HonestRowSnoc(old(channels), between, channels, subscribers, row, o);
        OnwardTwice(old(channels), between, channels);
        row := row + [o];
      }
    }

    /** Fans the batches out to a snapshot of the subscribers. `rows[c][j]` is the outcome of sending
        chunk c to subscriber j. */
    method ForwardPackets(batches: PacketBatches)
      returns (failed: seq<Pubkey>, dropped: nat,
               ghost subscribers: seq<Subscriber>, ghost chunks: seq<Chunk>, ghost at: seq<Place>,
               ghost rows: seq<seq<Outcome>>)
      requires Valid()
      modifies this`channels, this`events
      ensures Sound() && Sending(failed, false) && old(events) <= events
      ensures Chunked(chunks, at, batches)
      ensures forall x :: x in subscribers <==> x.key in subscriptions && subscriptions[x.key] == x.sender
      ensures Distinct(subscribers, channels) && Canonical(chunks, Sendable(Flatten(batches)))
      ensures |rows| == |chunks| && Rectangular(rows, |subscribers|)
      ensures failed == AllClosedKeys(rows, subscribers) && dropped == CountAll(Full, rows)
      ensures Onward(old(channels), channels) && HonestRows(old(channels), channels, subscribers, rows)
      ensures GainedAll(old(channels), channels, subscribers, rows, chunks)
      ensures FannedOut(old(channels), channels, subscribers, chunks, dropped, failed)
    {
      hide FannedOut, Onward, HonestRows, Gained, GainedAll, Count, CountAll, ClosedKeys, AllClosedKeys, Channel.Valid, Canonical;
      hide Chunked;
      var batched;
      batched, at := Rebatch(batches);
      var snapshot := Snapshot();
      Record(TakeSnapshot);
      hide Next, After;
      chunks, subscribers, rows := batched, snapshot, [];
      failed, dropped := [], 0;
      NothingTried(channels, snapshot);
      if snapshot == [] {
        rows := seq(|chunks|, _ => []);
        NothingSent(rows, chunks, channels);
        NothingToTry(channels, rows);
        AttemptsFanOut(channels, channels, [], rows, chunks);
        return;
      }
      NoRows(snapshot, channels);
      for c := 0 to |batched|
        invariant Healthy(channels) && channels.Keys == old(channels).Keys
        invariant old(events) <= events && Sending(failed, false) && World().beats == heartbeatCount
        invariant |rows| == c && Rectangular(rows, |snapshot|)
        invariant Onward(old(channels), channels) && HonestRows(old(channels), channels, snapshot, rows)
        invariant failed == AllClosedKeys(rows, snapshot) && dropped == CountAll(Full, rows)
        invariant GainedAll(old(channels), channels, snapshot, rows, batched[..c])
      {
        // no chunk is empty, so none is skipped
        ghost var row, between := [], channels;
        failed, dropped, row := SendToAll(batched[c], snapshot, failed, dropped);
        RowsSnoc(snapshot, rows, row, batched);
        GainedAllSnoc(old(channels), between, channels, snapshot, rows, row, batched);
        HonestRowsSnoc(old(channels), between, channels, snapshot, rows, row);
        OnwardTwice(old(channels), between, channels);
        rows := rows + [row];
      }
      assert batched[..|batched|] == batched;
      AttemptsFanOut(old(channels), channels, snapshot, rows, chunks);
    }

    /** Removes the subscriptions of the given keys, however often each occurs. */
    method DropConnections(failed: seq<Pubkey>, ghost heartbeat: bool)
      requires Sound() && Sending(failed, heartbeat)
      modifies this`subscriptions, this`events
      ensures Valid() && events == old(events) + [Remove]
      ensures subscriptions == old(subscriptions) - Members(failed)
    {
      hide Healthy, Members, Connected, Next, After;
      RemovalStep(World(), failed);
      FewerConnected(subscriptions, channels, Members(failed));
      Record(Remove);
      RemoveEach(failed);
    }

    method RemoveEach(keys: seq<Pubkey>)
      modifies this`subscriptions
      ensures subscriptions == old(subscriptions) - Members(keys)
    {
      hide Members;
      NoMembers(subscriptions);
      for i := 0 to |keys|
        invariant subscriptions == old(subscriptions) - Members(keys[..i])
      {
        RemoveSnoc(old(subscriptions), keys, i);
        subscriptions := subscriptions - {keys[i]};
      }
      assert keys[..|keys|] == keys;
    }

    /** The tick that keeps idle streams alive: the subscriber gets the current count. The map has at most
        one entry, so that going through it is at most one step. */
    method HandleHeartbeat() returns (failed: seq<Pubkey>, dropped: nat, ghost row: seq<Outcome>)
      requires Valid()
      modifies this`channels, this`heartbeatCount, this`events
      ensures Sound() && Sending(failed, true) && old(events) <= events
      ensures Onward(old(channels), channels) && heartbeatCount == old(heartbeatCount) + 1
      ensures |row| == |subscriptions| && dropped == Count(Full, row)
      ensures Members(failed) == if row == [Closed] then subscriptions.Keys else {}
      ensures forall k :: k in subscriptions ==>
                var s := subscriptions[k];
                && channels[s].accepted == old(channels)[s].accepted
                     + (if row == [Delivered] then [Heartbeat(old(heartbeatCount))] else [])
                && Honest(old(channels)[s], channels[s], row[0])
      ensures forall s :: s in channels && s !in subscriptions.Values ==> channels[s].accepted == old(channels)[s].accepted
    {
      failed, dropped, row := [], 0, [];
      if subscriptions == map[] {
        Record(Beat(None));
        heartbeatCount := heartbeatCount + 1;
        return;
      }
      var key :| key in subscriptions;
      OneKey(subscriptions, key);
      var o;
      ghost var before := channels;
      failed, dropped, o := SendBeat(key);
      row := [o];
      CountOne(Full, o);
      OnlyOneSender(subscriptions, key);
      heartbeatCount := heartbeatCount + 1;
    }

    /** The attempt with the count. */
    method SendBeat(key: Pubkey) returns (failed: seq<Pubkey>, dropped: nat, o: Outcome)
      requires Valid() && subscriptions.Keys == {key}
      modifies this`channels, this`events
      ensures Healthy(channels) && Onward(old(channels), channels) && Sending(failed, true) && old(events) <= events
      ensures World().beats == heartbeatCount + 1
      ensures GainedOne(old(channels), channels, subscriptions[key], o, Heartbeat(heartbeatCount))
      ensures Honest(old(channels)[subscriptions[key]], channels[subscriptions[key]], o)
      ensures failed == if o == Closed then [key] else []
      ensures dropped == if o == Full then 1 else 0
    {
      hide Next, After;
      var sender := subscriptions[key];
      Environment();
      BeatStep(World(), key);
      Record(Beat(Some(key)));
      var (c, outcome) := channels[sender].TrySend(Heartbeat(heartbeatCount));
      channels := channels[sender := c];
      failed, dropped, o := [], 0, outcome;
      match o {
        case Delivered =>
        case Closed => failed := failed + [key];
        case Full => dropped := dropped + 1;
      }
    }

    /** The packet arm of the event loop. It ends the loop when the sender of packets is gone. */
    method OnPackets(received: Option<PacketBatches>)
      returns (ok: bool, ghost subscribers: seq<Subscriber>, ghost chunks: seq<Chunk>, ghost at: seq<Place>,
               ghost rows: seq<seq<Outcome>>)
      requires Valid()
      modifies this
      ensures Valid() && heartbeatCount == old(heartbeatCount) && reported == old(reported)
      ensures ok <==> received.Some?
      ensures old(events) <= events
      ensures !ok ==> unchanged(this)
      ensures ok ==>
                && (forall x :: x in subscribers <==> x.key in old(subscriptions) && old(subscriptions)[x.key] == x.sender)
                && Distinct(subscribers, channels)
                && Canonical(chunks, Sendable(Flatten(received.value))) && Chunked(chunks, at, received.value)
                && |rows| == |chunks| && Rectangular(rows, |subscribers|)
                && refused == old(refused) + CountAll(Full, rows)
                && HonestRows(old(channels), channels, subscribers, rows)
                && GainedAll(old(channels), channels, subscribers, rows, chunks)
                && var failed := AllClosedKeys(rows, subscribers);
                   && FannedOut(old(channels), channels, subscribers, chunks, refused - old(refused), failed)
                   && subscriptions == old(subscriptions) - Members(failed)
                   && forall k :: k in failed ==> k in old(subscriptions) && !channels[old(subscriptions)[k]].open
    {
      hide FannedOut, Onward, GainedAll, CountAll, AllClosedKeys, Canonical, Chunked, Healthy, HonestRows, Members, Next, After;
      match received {
        case None =>
          return false, [], [], [], [];
        case Some(batches) =>
          var failed, dropped;
          failed, dropped, subscribers, chunks, at, rows := ForwardPackets(batches);
          ClosedKeysAreClosed(old(channels), channels, subscribers, rows);
          droppedSends := droppedSends + dropped;
          refused := refused + dropped;
          DropConnections(failed, false);
          ok := true;
      }
    }

    /** The heartbeat arm. */
    method OnHeartbeat() returns (ghost row: seq<Outcome>)
      requires Valid()
      modifies this
      ensures Valid() && heartbeatCount == old(heartbeatCount) + 1 && reported == old(reported) && old(events) <= events
      ensures |row| == |old(subscriptions)| && refused == old(refused) + Count(Full, row)
      ensures subscriptions == if row == [Closed] then map[] else old(subscriptions)
      ensures forall k :: k in old(subscriptions) ==>
                var s := old(subscriptions)[k];
                && s in channels
                && channels[s].accepted == old(channels)[s].accepted
                     + (if row == [Delivered] then [Heartbeat(old(heartbeatCount))] else [])
                && Honest(old(channels)[s], channels[s], row[0])
    {
      hide Count, Healthy, Members, Honest, Next, After;
      DropAllOrNone(subscriptions);
      var failed, dropped;
      failed, dropped, row := HandleHeartbeat();
      droppedSends := droppedSends + dropped;
      refused := refused + Count(Full, row);
      DropConnections(failed, true);
    }

    /** The reporting arm: what it logs, it clears. */
    method OnDropLog() returns (logged: nat)
      requires Valid()
      modifies this`droppedSends, this`reported
      ensures Valid() && droppedSends == 0 && logged == old(droppedSends) && reported == old(reported) + logged
    {
      logged := droppedSends;
      if droppedSends > 0 {
        reported := reported + droppedSends;
        droppedSends := 0;
      }
    }
  }
}
