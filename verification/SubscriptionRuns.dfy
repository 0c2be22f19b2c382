/** The forwarder's shared subscription map under every interleaving: validators subscribing, their
    streams draining and closing, and the event loop, which reads a snapshot, sends, and removes the
    failed keys later, under a separate lock. */
module SubscriptionRuns {
  import opened Prelude
  import opened Rebatching
  import opened Channels
  import opened FanOut

  /** Where the event loop stands: between arms, or with a snapshot in hand. The heartbeat arm sends
      while it still holds the read lock, so its attempts are over when it gets here. */
  datatype Loop =
    | Waiting
    | Sending(snapshot: map<Pubkey, SenderId>, failed: seq<Pubkey>, heartbeat: bool)

  datatype State = State(
    subs: map<Pubkey, SenderId>, channels: map<SenderId, Channel>, loop: Loop, beats: nat)

  datatype Event =
    | Subscribe(key: Pubkey, sender: SenderId)
    | Consume(after: map<SenderId, Channel>)
    | TakeSnapshot
    | Attempt(key: Pubkey, chunk: Chunk)
    | Beat(to: Option<Pubkey>)
    | Remove

  predicate Accepts(s: State, key: Pubkey, sender: SenderId) {
    sender !in s.channels && (s.subs == map[] || key in s.subs)
  }

  /** A heartbeat goes to the subscriber, if there is one. */
  predicate Beats(s: State, to: Option<Pubkey>) {
    && s.loop.Waiting?
    && (if to.None? then s.subs == map[]
        else s.subs.Keys == {to.value} && s.subs[to.value] in s.channels && s.channels[s.subs[to.value]].Valid())
  }

  /** The step an event makes; an event that is not enabled makes none. */
  function Next(s: State, e: Event): State {
    match e
    case Subscribe(key, sender) =>
      if Accepts(s, key, sender)
      then s.(subs := s.subs[key := sender], channels := s.channels[sender := NewChannel]) else s
    case Consume(after) => if AllConsumed(s.channels, after) then s.(channels := after) else s
    case TakeSnapshot =>
      if s.loop.Waiting? then s.(loop := Sending(s.subs, [], false)) else s
    case Attempt(key, chunk) =>
      if s.loop.Sending? && !s.loop.heartbeat && key in s.loop.snapshot
         && s.loop.snapshot[key] in s.channels && s.channels[s.loop.snapshot[key]].Valid() then
        var sender := s.loop.snapshot[key];
        var (c, outcome) := s.channels[sender].TrySend(Batch(chunk));
        s.(channels := s.channels[sender := c],
           loop := if outcome == Closed then s.loop.(failed := s.loop.failed + [key]) else s.loop)
      else s
    case Beat(to) =>
      if !Beats(s, to) then s
      else if to.None? then s.(loop := Sending(s.subs, [], true), beats := s.beats + 1)
      else
        var sender := s.subs[to.value];
        var (c, outcome) := s.channels[sender].TrySend(Heartbeat(s.beats));
        s.(channels := s.channels[sender := c], beats := s.beats + 1,
           loop := Sending(s.subs, if outcome == Closed then [to.value] else [], true))
    case Remove =>
      if s.loop.Sending? then s.(subs := s.subs - Members(s.loop.failed), loop := Waiting) else s
  }

  const Initial := State(map[], map[], Waiting, 0)

  function After(es: seq<Event>, i: nat): State
    requires i <= |es|
  {
    if i == 0 then Initial else Next(After(es, i - 1), es[i - 1])
  }

  lemma {:induction false} AfterPrefix(es: seq<Event>, more: seq<Event>, i: nat)
    requires i <= |es|
    ensures After(es + more, i) == After(es, i)
  {
    if i > 0 {
      AfterPrefix(es, more, i - 1);
    }
  }

  /** Adding an event to a run continues from its last state. */
  lemma Continue(es: seq<Event>, e: Event)
    ensures After(es + [e], |es| + 1) == Next(After(es, |es|), e)
  {
    AfterPrefix(es, [e], |es|);
  }

  // ---------------------------------------------------------------- the invariant

  /** The heartbeat counts among the messages, in order. */
  function Counts(ms: seq<Message>): seq<nat> {
    if ms == [] then []
    else
      var front, last := Counts(ms[..|ms| - 1]), ms[|ms| - 1];
      if last.Heartbeat? then front + [last.count] else front
  }

  ghost predicate Increasing(ns: seq<nat>, bound: nat) {
    && (forall i, j :: 0 <= i < j < |ns| ==> ns[i] < ns[j])
    && (forall i :: 0 <= i < |ns| ==> ns[i] < bound)
  }

  ghost predicate Inv(s: State) {
    && |s.subs| <= 1
    && (forall k :: k in s.subs ==> s.subs[k] in s.channels)
    && Healthy(s.channels)
    && (forall c :: c in s.channels ==> Increasing(Counts(s.channels[c].accepted), s.beats))
    && (s.loop.Sending? ==>
          && (forall k :: k in s.loop.snapshot ==> s.loop.snapshot[k] in s.channels)
          && (forall k :: k in s.loop.failed ==>
                k in s.loop.snapshot && !s.channels[s.loop.snapshot[k]].open))
  }

  lemma CountsSnoc(ms: seq<Message>, m: Message)
    ensures Counts(ms + [m]) == if m.Heartbeat? then Counts(ms) + [m.count] else Counts(ms)
  {
    assert (ms + [m])[..|ms|] == ms;
  }

  lemma SubscribeKeepsInv(s: State, key: Pubkey, sender: SenderId)
    requires Inv(s)
    ensures Inv(Next(s, Subscribe(key, sender)))
    ensures Accepts(s, key, sender) ==> Next(s, Subscribe(key, sender)).subs == map[key := sender]
  {
    if key in s.subs {
      OneKey(s.subs, key);
    }
  }

  lemma RemoveKeepsInv(s: State)
    requires Inv(s)
    ensures Inv(Next(s, Remove))
  {
    hide Healthy, Increasing, Members;
    if s.loop.Sending? {
      FewerKeys(s.subs, Members(s.loop.failed));
    }
  }

  lemma BeatKeepsInv(s: State, to: Option<Pubkey>)
    requires Inv(s)
    ensures Inv(Next(s, Beat(to)))
  {
    hide Increasing, Counts;
    forall c | c in s.channels
      ensures Increasing(Counts(s.channels[c].accepted), s.beats + 1)
    {
      BoundGrows(Counts(s.channels[c].accepted), s.beats);
    }
    if Beats(s, to) && to.Some? {
      var accepted := s.channels[s.subs[to.value]].accepted;
      CountsSnoc(accepted, Heartbeat(s.beats));
      IncreasingSnoc(Counts(accepted), s.beats);
    }
  }

  lemma BoundGrows(ns: seq<nat>, bound: nat)
    requires Increasing(ns, bound)
    ensures Increasing(ns, bound + 1)
  {
  }

  lemma IncreasingSnoc(ns: seq<nat>, bound: nat)
    requires Increasing(ns, bound)
    ensures Increasing(ns + [bound], bound + 1)
  {
  }

  lemma AttemptKeepsInv(s: State, key: Pubkey, chunk: Chunk)
    requires Inv(s)
    ensures Inv(Next(s, Attempt(key, chunk)))
  {
    hide Increasing, Counts;
    if s.loop.Sending? && key in s.loop.snapshot {
      CountsSnoc(s.channels[s.loop.snapshot[key]].accepted, Batch(chunk));
    }
  }

  lemma ConsumeKeepsInv(s: State, after: map<SenderId, Channel>)
    requires Inv(s)
    ensures Inv(Next(s, Consume(after)))
  {
    hide Increasing, Counts;
    if AllConsumed(s.channels, after) {
      ConsumedStaysHealthy(s.channels, after);
    }
  }

  lemma StepKeepsInv(s: State, e: Event)
    requires Inv(s)
    ensures Inv(Next(s, e))
  {
    match e
    case Subscribe(key, sender) => SubscribeKeepsInv(s, key, sender);
    case Consume(after) => ConsumeKeepsInv(s, after);
    case TakeSnapshot =>
    case Attempt(key, chunk) => AttemptKeepsInv(s, key, chunk);
    case Beat(to) => BeatKeepsInv(s, to);
    case Remove => RemoveKeepsInv(s);
  }

  lemma {:induction false} Reachable(es: seq<Event>, i: nat)
    requires i <= |es|
    ensures Inv(After(es, i))
  {
    if i > 0 {
      Reachable(es, i - 1);
      StepKeepsInv(After(es, i - 1), es[i - 1]);
    }
  }

  /** In every reachable state there is at most one subscription, no channel is over its capacity,
      and the counts queued to any one sender are strictly increasing. */
  lemma AlwaysSound(es: seq<Event>, i: nat, sender: SenderId)
    requires i <= |es| && sender in After(es, i).channels
    ensures |After(es, i).subs| <= 1
    ensures var c := After(es, i).channels[sender]; c.taken <= |c.accepted| <= c.taken + 50_000
    ensures var ms := After(es, i).channels[sender].accepted;
            forall m, n :: 0 <= m < n < |ms| && ms[m].Heartbeat? && ms[n].Heartbeat? ==> ms[m].count < ms[n].count
  {
    hide Next, Increasing, Counts;
    Reachable(es, i);
    var ms := After(es, i).channels[sender].accepted;
    forall m, n | 0 <= m < n < |ms| && ms[m].Heartbeat? && ms[n].Heartbeat?
      ensures ms[m].count < ms[n].count
    {
      MessagesIncrease(ms, After(es, i).beats, m, n);
    }
  }

  lemma {:induction false} MessagesIncrease(ms: seq<Message>, bound: nat, m: nat, n: nat)
    requires Increasing(Counts(ms), bound) && m < n < |ms| && ms[m].Heartbeat? && ms[n].Heartbeat?
    ensures ms[m].count < ms[n].count
    decreases |ms|
  {
    var front, last := ms[..|ms| - 1], ms[|ms| - 1];
    assert ms == front + [last];
    CountsSnoc(front, last);
    if n < |front| {
      IncreasingFront(Counts(front), Counts(ms), bound);
      MessagesIncrease(front, bound, m, n);
    } else {
      CountIsListed(front, m);
      LastIsGreatest(Counts(front), last.count, bound);
    }
  }

  lemma LastIsGreatest(front: seq<nat>, last: nat, bound: nat)
    requires Increasing(front + [last], bound)
    ensures forall x :: x in front ==> x < last
  {
    forall x | x in front
      ensures x < last
    {
      var i :| 0 <= i < |front| && front[i] == x;
      assert (front + [last])[i] < (front + [last])[|front|];
    }
  }

  lemma IncreasingFront(front: seq<nat>, all: seq<nat>, bound: nat)
    requires Increasing(all, bound) && front <= all
    ensures Increasing(front, bound)
  {
  }

  lemma {:induction false} CountIsListed(ms: seq<Message>, m: nat)
    requires m < |ms| && ms[m].Heartbeat?
    ensures ms[m].count in Counts(ms)
  {
    var front, last := ms[..|ms| - 1], ms[|ms| - 1];
    assert ms == front + [last];
    CountsSnoc(front, last);
    if m < |front| {
      CountIsListed(front, m);
    }
  }

  // ---------------------------------------------------------------- one validator at a time

  /** Between two moments at which different validators are connected, there is one at which none
      is. */
  lemma {:induction false} ValidatorsDoNotOverlap(es: seq<Event>, i: nat, j: nat, a: Pubkey, b: Pubkey)
    requires i <= j <= |es| && a != b
    requires After(es, i).subs.Keys == {a} && After(es, j).subs.Keys == {b}
    ensures exists k :: i < k < j && After(es, k).subs == map[]
  {
    hide Inv, Members;
    assert a in After(es, i).subs.Keys && b in After(es, j).subs.Keys;
    if i == j {
      assert false;
    }
    Reachable(es, j - 1);
    KeysStep(After(es, j - 1), es[j - 1], b);
    if After(es, j - 1).subs.Keys == {b} {
      ValidatorsDoNotOverlap(es, i, j - 1, a, b);
    } else {
      assert After(es, j - 1).subs == map[];
    }
  }

  /** A validator can be connected only if it was before, or nobody was. */
  lemma KeysStep(s: State, e: Event, b: Pubkey)
    requires Inv(s) && Next(s, e).subs.Keys == {b}
    ensures s.subs.Keys == {b} || s.subs == map[]
  {
    assert b in Next(s, e).subs.Keys;
    if e.Subscribe? {
      SubscribeKeepsInv(s, e.key, e.sender);
      if Accepts(s, e.key, e.sender) && e.key in s.subs {
        OneKey(s.subs, e.key);
      }
    } else if e.Remove? && s.loop.Sending? {
      assert b in s.subs;
      OneKey(s.subs, b);
    }
  }

  // ---------------------------------------------------------------- snapshot, then remove

  /** The event loop takes its snapshot with event `b`, and holds it until just after event i - 1. */
  ghost predicate Holding(es: seq<Event>, b: nat, i: nat) {
    && b < i <= |es|
    && After(es, b).loop.Waiting?
    && forall k :: b < k <= i ==> After(es, k).loop.Sending?
  }

  /** Event `k` is a subscription of `key` that was accepted. */
  ghost predicate Subscribed(es: seq<Event>, k: nat, key: Pubkey) {
    k < |es| && es[k].Subscribe? && es[k].key == key && Accepts(After(es, k), key, es[k].sender)
  }

  /** What the loop relies on while it holds a snapshot: every key it knows is still subscribed, on
      the channel it knows unless the key has subscribed again. */
  lemma {:induction false} SnapshotTracks(es: seq<Event>, b: nat, i: nat, key: Pubkey)
    requires Holding(es, b, i) && key in After(es, b).subs
    ensures After(es, i).loop.snapshot == After(es, b).subs
    ensures key in After(es, i).subs
    ensures After(es, i).subs[key] != After(es, b).subs[key] <==> exists k :: b < k < i && Subscribed(es, k, key)
    ensures After(es, b).subs[key] in After(es, i).channels
  {
    hide Next, Inv;
    Reachable(es, i - 1);
    if i == b + 1 {
      OpeningStep(After(es, b), es[b], key);
      assert After(es, i) == Next(After(es, b), es[b]);
    } else {
      SnapshotTracks(es, b, i - 1, key);
      assert After(es, i) == Next(After(es, i - 1), es[i - 1]);
      HoldingStep(After(es, i - 1), es[i - 1], key, After(es, b).subs[key]);
      assert Subscribed(es, i - 1, key) <==>
             es[i - 1].Subscribe? && es[i - 1].key == key && Accepts(After(es, i - 1), key, es[i - 1].sender);
      if k :| b < k < i - 1 && Subscribed(es, k, key) {
        assert exists k :: b < k < i && Subscribed(es, k, key);
      }
    }
  }

  lemma OpeningStep(s: State, e: Event, key: Pubkey)
    requires Inv(s) && s.loop.Waiting? && Next(s, e).loop.Sending? && key in s.subs
    ensures Next(s, e).loop.snapshot == s.subs == Next(s, e).subs && s.subs[key] in Next(s, e).channels
  {
  }

  lemma HoldingStep(s: State, e: Event, key: Pubkey, known: SenderId)
    requires Inv(s) && s.loop.Sending? && Next(s, e).loop.Sending? && key in s.subs && known in s.channels
    ensures Next(s, e).loop.snapshot == s.loop.snapshot && key in Next(s, e).subs && known in Next(s, e).channels
    ensures if e.Subscribe? && e.key == key && Accepts(s, key, e.sender) then Next(s, e).subs[key] != known
            else Next(s, e).subs[key] == s.subs[key]
  {
    if e.Subscribe? && Accepts(s, e.key, e.sender) {
      OneKey(s.subs, key);
    }
  }

  /** The removal step: exactly the failed keys go, and each was seen closed on the snapshot's channel.
      The subscription that goes is a different one if, and only if, the key subscribed again after
      the snapshot was taken. In every other run the subscriptions removed are exactly those seen
      closed. */
  lemma RemovalIsExactUnlessResubscribed(es: seq<Event>, b: nat, d: nat, key: Pubkey)
    requires d < |es| && Holding(es, b, d) && es[d] == Remove && key in After(es, d).loop.failed
    ensures After(es, d + 1).subs == After(es, d).subs - Members(After(es, d).loop.failed)
    ensures key in After(es, b).subs && key in After(es, d).subs && key !in After(es, d + 1).subs
    ensures After(es, b).subs[key] in After(es, d).channels && !After(es, d).channels[After(es, b).subs[key]].open
    ensures After(es, d).subs[key] != After(es, b).subs[key] <==> exists k :: b < k < d && Subscribed(es, k, key)
  {
    Reachable(es, d);
    SnapshotIsKept(es, b, d);
    SnapshotTracks(es, b, d, key);
  }

  /** At event `k` of a hold that began with `b`, an attempt finds the snapshot's channel of `key` closed. */
  ghost predicate FoundClosed(es: seq<Event>, b: nat, k: nat, key: Pubkey) {
    && b <= k < |es| && key in After(es, b).subs
    && (if k == b then es[b] == Beat(Some(key)) else es[b] == TakeSnapshot && es[k].Attempt? && es[k].key == key)
    && var sender := After(es, b).subs[key];
       sender in After(es, k).channels && !After(es, k).channels[sender].open
  }

  /** A key is reported failed if, and only if, an attempt found its channel closed: one of those made with
      packets through the snapshot, or the heartbeat. */
  lemma {:induction false} FailedExactly(es: seq<Event>, b: nat, i: nat, key: Pubkey)
    requires Holding(es, b, i)
    ensures After(es, i).loop.snapshot == After(es, b).subs && (After(es, i).loop.heartbeat <==> es[b] != TakeSnapshot)
    ensures key in After(es, i).loop.failed <==> exists k :: b <= k < i && FoundClosed(es, b, k, key)
  {
    hide Next, Inv;
    Reachable(es, i - 1);
    assert After(es, i) == Next(After(es, i - 1), es[i - 1]);
    if i == b + 1 {
      OpeningFails(After(es, b), es[b], key);
      assert key in After(es, i).loop.failed <==> FoundClosed(es, b, b, key);
    } else {
      FailedExactly(es, b, i - 1, key);
      HoldingFails(After(es, i - 1), es[i - 1], key);
      assert key in After(es, i).loop.failed <==> key in After(es, i - 1).loop.failed || FoundClosed(es, b, i - 1, key);
      if k :| b <= k < i && FoundClosed(es, b, k, key) {
        assert k == i - 1 || (b <= k < i - 1 && FoundClosed(es, b, k, key));
      }
    }
  }

  lemma OpeningFails(s: State, e: Event, key: Pubkey)
    requires Inv(s) && s.loop.Waiting? && Next(s, e).loop.Sending?
    ensures Next(s, e).loop.snapshot == s.subs && (Next(s, e).loop.heartbeat <==> e != TakeSnapshot)
    ensures key in Next(s, e).loop.failed <==>
            e == Beat(Some(key)) && key in s.subs && s.subs[key] in s.channels && !s.channels[s.subs[key]].open
  {
  }

  lemma HoldingFails(s: State, e: Event, key: Pubkey)
    requires Inv(s) && s.loop.Sending? && Next(s, e).loop.Sending?
    ensures Next(s, e).loop.snapshot == s.loop.snapshot && Next(s, e).loop.heartbeat == s.loop.heartbeat
    ensures key in Next(s, e).loop.failed <==>
            key in s.loop.failed
            || (!s.loop.heartbeat && e.Attempt? && e.key == key && key in s.loop.snapshot
                && s.loop.snapshot[key] in s.channels && !s.channels[s.loop.snapshot[key]].open)
  {
  }

  /** So of the subscribers in the snapshot, the removal removes exactly the keys found closed. */
  lemma RemovedExactly(es: seq<Event>, b: nat, d: nat, key: Pubkey)
    requires d < |es| && Holding(es, b, d) && es[d] == Remove && key in After(es, b).subs
    ensures key !in After(es, d + 1).subs <==> exists k :: b <= k < d && FoundClosed(es, b, k, key)
  {
    FailedExactly(es, b, d, key);
    SnapshotTracks(es, b, d, key);
  }

  lemma {:induction false} SnapshotIsKept(es: seq<Event>, b: nat, i: nat)
    requires Holding(es, b, i)
    ensures After(es, i).loop.snapshot == After(es, b).subs
  {
    if i > b + 1 {
      SnapshotIsKept(es, b, i - 1);
    }
  }

  /** Subscribing again before the attempt, not only after it, is enough: this run removes a live
      subscription that nothing was ever sent to, though nobody subscribed after the failed attempt. */
  lemma ResubscribedBeforeAttempt(key: Pubkey, chunk: Chunk)
    ensures var es := [Subscribe(key, 0), TakeSnapshot, Subscribe(key, 1),
                       Consume(map[0 := Channel([], 0, false), 1 := NewChannel]), Attempt(key, chunk), Remove];
            && After(es, 4).loop == Sending(map[key := 0], [], false)
            && After(es, 5) == State(map[key := 1], map[0 := Channel([], 0, false), 1 := NewChannel],
                                     Sending(map[key := 0], [key], false), 0)
            && After(es, 6).subs == map[]
  {
    var es := [Subscribe(key, 0), TakeSnapshot, Subscribe(key, 1),
               Consume(map[0 := Channel([], 0, false), 1 := NewChannel]), Attempt(key, chunk), Remove];
    var s1 := State(map[key := 0], map[0 := NewChannel], Waiting, 0);
    assert After(es, 1) == s1;
    var s2 := s1.(loop := Sending(map[key := 0], [], false));
    assert After(es, 2) == s2;
    var s3 := s2.(subs := map[key := 1], channels := map[0 := NewChannel, 1 := NewChannel]);
    assert After(es, 3) == s3;
    var s4 := s3.(channels := map[0 := Channel([], 0, false), 1 := NewChannel]);
    assert After(es, 4) == s4;
    var s5 := s4.(loop := Sending(map[key := 0], [key], false));
    assert s4.channels[0 := Channel([], 0, false)] == s4.channels;
    assert [] + [key] == [key];
    assert Next(s4, es[4]) == s5;
    assert After(es, 5) == s5;
    assert After(es, 6).subs == map[key := 1] - {key};
  }

  // ---------------------------------------------------------------- heartbeats

  /** Event `k` is the tick that carries count `n`. */
  ghost predicate Ticks(es: seq<Event>, k: nat, n: nat) {
    k < |es| && es[k].Beat? && Beats(After(es, k), es[k].to) && After(es, k).beats == n
  }

  ghost predicate FullFor(s: State, sender: SenderId) {
    sender in s.channels && |s.channels[sender].accepted| - s.channels[sender].taken == 50_000
  }

  /** The sender is subscribed, with its stream open, before each of the events i to j - 1. */
  ghost predicate StaysSubscribed(es: seq<Event>, sender: SenderId, i: nat, j: nat) {
    i <= j <= |es| &&
    forall k :: i <= k < j ==>
      sender in After(es, k).subs.Values && sender in After(es, k).channels && After(es, k).channels[sender].open
  }

  /** While a sender stays subscribed and open, the counts it misses are exactly those of the ticks at
      which its channel was full. */
  lemma {:induction false} MissingCountsAreFullTicks(es: seq<Event>, sender: SenderId, i: nat, j: nat, n: nat)
    requires StaysSubscribed(es, sender, i, j)
    requires After(es, i).beats <= n < After(es, j).beats
    ensures sender in After(es, j).channels
    ensures exists k :: i <= k < j && Ticks(es, k, n) &&
              (Heartbeat(n) !in After(es, j).channels[sender].accepted <==> FullFor(After(es, k), sender))
  {
    hide Next, Inv;
    var s, e := After(es, j - 1), es[j - 1];
    Reachable(es, j - 1);
    assert After(es, j) == Next(s, e);
    MessagesStep(s, e, sender, n);
    if n < s.beats {
      MissingCountsAreFullTicks(es, sender, i, j - 1, n);
      var k :| i <= k < j - 1 && Ticks(es, k, n) &&
               (Heartbeat(n) !in s.channels[sender].accepted <==> FullFor(After(es, k), sender));
    } else {
      assert Ticks(es, j - 1, n);
    }
  }

  lemma MessagesStep(s: State, e: Event, sender: SenderId, n: nat)
    requires Inv(s) && sender in s.subs.Values && sender in s.channels && s.channels[sender].open
    ensures sender in Next(s, e).channels && s.beats <= Next(s, e).beats <= s.beats + 1
    ensures n < s.beats ==>
              (Heartbeat(n) in Next(s, e).channels[sender].accepted <==> Heartbeat(n) in s.channels[sender].accepted)
    ensures s.beats <= n < Next(s, e).beats ==>
              && n == s.beats && e.Beat? && Beats(s, e.to)
              && (Heartbeat(n) !in Next(s, e).channels[sender].accepted <==> FullFor(s, sender))
  {
    if e.Beat? && Beats(s, e.to) {
      var key :| key in s.subs && s.subs[key] == sender;
      OneKey(s.subs, key);
      NotYetSent(s.channels[sender].accepted, s.beats);
    }
  }

  lemma {:induction false} NotYetSent(ms: seq<Message>, bound: nat)
    requires Increasing(Counts(ms), bound)
    ensures Heartbeat(bound) !in ms
  {
    if ms != [] {
      var front, last := ms[..|ms| - 1], ms[|ms| - 1];
      CountsSnoc(front, last);
      assert ms == front + [last];
      if last.Heartbeat? {
        assert Counts(ms)[|Counts(front)|] == last.count;
        assert forall i :: 0 <= i < |Counts(front)| ==> Counts(front)[i] == Counts(ms)[i];
      }
      NotYetSent(front, bound);
    }
  }
}
