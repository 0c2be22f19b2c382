/** Fanning chunks out to subscribers: what the outcomes of the attempts say about the channels, the
    subscribers found closed, and the counts. */
module FanOut {
  import opened Prelude
  import opened Rebatching
  import opened Channels

  type Pubkey = Bytes
  type SenderId = nat

  datatype Subscriber = Subscriber(key: Pubkey, sender: SenderId)

  // ---------------------------------------------------------------- counting outcomes

  function Count(o: Outcome, row: seq<Outcome>): nat {
    if row == [] then 0 else Count(o, row[..|row| - 1]) + if row[|row| - 1] == o then 1 else 0
  }

  function CountAll(o: Outcome, rows: seq<seq<Outcome>>): nat {
    if rows == [] then 0 else CountAll(o, rows[..|rows| - 1]) + Count(o, rows[|rows| - 1])
  }

  lemma {:induction false} CountPartition(row: seq<Outcome>)
    ensures Count(Delivered, row) + Count(Full, row) + Count(Closed, row) == |row|
  {
    if row != [] {
      CountPartition(row[..|row| - 1]);
    }
  }

  ghost predicate Rectangular(rows: seq<seq<Outcome>>, width: nat) {
    forall i :: 0 <= i < |rows| ==> |rows[i]| == width
  }

  /** Nothing is unaccounted for: deliveries, drops and failures add up to chunks times subscribers. */
  lemma {:induction false} FanOutAccounting(rows: seq<seq<Outcome>>, width: nat)
    requires Rectangular(rows, width)
    ensures CountAll(Delivered, rows) + CountAll(Full, rows) + CountAll(Closed, rows) == |rows| * width
  {
    if rows != [] {
      var n := |rows| - 1;
      FanOutAccounting(rows[..n], width);
      CountPartition(rows[n]);
      assert (n + 1) * width == n * width + width;
    }
  }

  lemma CountSnoc(o: Outcome, row: seq<Outcome>, x: Outcome)
    ensures Count(o, row + [x]) == Count(o, row) + if x == o then 1 else 0
  {
    assert (row + [x])[..|row|] == row;
  }

  lemma CountAllSnoc(o: Outcome, rows: seq<seq<Outcome>>, row: seq<Outcome>)
    ensures CountAll(o, rows + [row]) == CountAll(o, rows) + Count(o, row)
  {
    assert (rows + [row])[..|rows|] == rows;
  }

  /** The keys of the subscribers found closed, one per attempt, in the order of the attempts. */
  function ClosedKeys(row: seq<Outcome>, subscribers: seq<Subscriber>): (r: seq<Pubkey>)
    requires |row| <= |subscribers|
    ensures |r| == Count(Closed, row)
  {
    if row == [] then []
    else
      var n := |row| - 1;
      ClosedKeys(row[..n], subscribers) + if row[n] == Closed then [subscribers[n].key] else []
  }

  function AllClosedKeys(rows: seq<seq<Outcome>>, subscribers: seq<Subscriber>): (r: seq<Pubkey>)
    requires Rectangular(rows, |subscribers|)
    ensures |r| == CountAll(Closed, rows)
  {
    if rows == [] then []
    else AllClosedKeys(rows[..|rows| - 1], subscribers) + ClosedKeys(rows[|rows| - 1], subscribers)
  }

  /** What the channel `s` gains from sending `m` to each subscriber with the given outcomes. */
  function Gain(s: SenderId, subscribers: seq<Subscriber>, row: seq<Outcome>, m: Message): seq<Message>
    requires |row| <= |subscribers|
  {
    if row == [] then []
    else
      var n := |row| - 1;
      var front := Gain(s, subscribers, row[..n], m);
      if subscribers[n].sender == s && row[n] == Delivered then front + [m] else front
  }

  /** What it gains from all chunks. */
  function GainAll(s: SenderId, subscribers: seq<Subscriber>, rows: seq<seq<Outcome>>, chunks: seq<Chunk>): seq<Message>
    requires |rows| == |chunks| && Rectangular(rows, |subscribers|)
  {
    if rows == [] then []
    else
      var n := |rows| - 1;
      GainAll(s, subscribers, rows[..n], chunks[..n]) + Gain(s, subscribers, rows[n], Batch(chunks[n]))
  }

  /** What subscriber `j` received: the chunks whose attempt on it was delivered, in order. */
  function DeliveredTo(rows: seq<seq<Outcome>>, chunks: seq<Chunk>, j: nat): seq<Message>
    requires |rows| == |chunks| && forall i :: 0 <= i < |rows| ==> j < |rows[i]|
  {
    if rows == [] then []
    else
      var n := |rows| - 1;
      var front := DeliveredTo(rows[..n], chunks[..n], j);
      if rows[n][j] == Delivered then front + [Batch(chunks[n])] else front
  }

  lemma {:induction false} GainOfOthers(s: SenderId, subscribers: seq<Subscriber>, row: seq<Outcome>, m: Message)
    requires |row| <= |subscribers|
    requires forall i :: 0 <= i < |row| ==> subscribers[i].sender != s
    ensures Gain(s, subscribers, row, m) == []
  {
    if row != [] {
      GainOfOthers(s, subscribers, row[..|row| - 1], m);
    }
  }

  lemma {:induction false} GainOfOne(subscribers: seq<Subscriber>, row: seq<Outcome>, m: Message, j: nat)
    requires j < |row| <= |subscribers|
    requires forall i :: 0 <= i < |row| && i != j ==> subscribers[i].sender != subscribers[j].sender
    ensures Gain(subscribers[j].sender, subscribers, row, m) == if row[j] == Delivered then [m] else []
  {
    var n := |row| - 1;
    if j == n {
      GainOfOthers(subscribers[j].sender, subscribers, row[..n], m);
    } else {
      GainOfOne(subscribers, row[..n], m, j);
    }
  }

  /** Each subscriber gains exactly the chunks delivered to it, in order, and nobody else gains. */
  lemma {:induction false} GainIsDelivery(
    s: SenderId, subscribers: seq<Subscriber>, rows: seq<seq<Outcome>>, chunks: seq<Chunk>)
    requires |rows| == |chunks| && Rectangular(rows, |subscribers|)
    requires forall i, j :: 0 <= i < j < |subscribers| ==> subscribers[i].sender != subscribers[j].sender
    ensures forall j :: 0 <= j < |subscribers| && subscribers[j].sender == s ==>
              GainAll(s, subscribers, rows, chunks) == DeliveredTo(rows, chunks, j)
    ensures (forall j :: 0 <= j < |subscribers| ==> subscribers[j].sender != s) ==>
              GainAll(s, subscribers, rows, chunks) == []
  {
    if rows != [] {
      var n := |rows| - 1;
      GainIsDelivery(s, subscribers, rows[..n], chunks[..n]);
      if j :| 0 <= j < |subscribers| && subscribers[j].sender == s {
        GainOfOne(subscribers, rows[n], Batch(chunks[n]), j);
      } else {
        GainOfOthers(s, subscribers, rows[n], Batch(chunks[n]));
      }
    }
  }

  /** `xs` is what remains of `ys` when some elements are struck out. */
  ghost predicate Subsequence<T(!new)>(xs: seq<T>, ys: seq<T>) {
    xs == [] ||
    (ys != [] &&
     if xs[|xs| - 1] == ys[|ys| - 1] then Subsequence(xs[..|xs| - 1], ys[..|ys| - 1]) || Subsequence(xs, ys[..|ys| - 1])
     else Subsequence(xs, ys[..|ys| - 1]))
  }

  lemma {:induction false} DeliveredInOrder(rows: seq<seq<Outcome>>, chunks: seq<Chunk>, j: nat)
    requires |rows| == |chunks| && forall i :: 0 <= i < |rows| ==> j < |rows[i]|
    ensures Subsequence(DeliveredTo(rows, chunks, j), Batches(chunks))
  {
    if rows != [] {
      var n := |rows| - 1;
      DeliveredInOrder(rows[..n], chunks[..n], j);
      hide Subsequence;
      assert Batches(chunks) == Batches(chunks[..n]) + [Batch(chunks[n])];
      SubsequenceSnoc(DeliveredTo(rows[..n], chunks[..n], j), Batches(chunks[..n]), Batch(chunks[n]));
    }
  }

  lemma SubsequenceSnoc<T(!new)>(xs: seq<T>, ys: seq<T>, y: T)
    requires Subsequence(xs, ys)
    ensures Subsequence(xs, ys + [y]) && Subsequence(xs + [y], ys + [y])
  {
    assert (ys + [y])[..|ys|] == ys && (xs + [y])[..|xs|] == xs;
  }

  // ---------------------------------------------------------------- the service

  function Members(ks: seq<Pubkey>): set<Pubkey> {
    set k | k in ks
  }

  /** Different subscribers have different, existing channels. */
  ghost predicate Distinct(subscribers: seq<Subscriber>, channels: map<SenderId, Channel>) {
    && (forall i :: 0 <= i < |subscribers| ==> subscribers[i].sender in channels)
    && (forall i, j :: 0 <= i < j < |subscribers| ==> subscribers[i].sender != subscribers[j].sender)
  }

  predicate AllConsumed(before: map<SenderId, Channel>, after: map<SenderId, Channel>) {
    after.Keys == before.Keys && forall s :: s in before ==> Consumed(before[s], after[s])
  }

  ghost predicate Healthy(channels: map<SenderId, Channel>) {
    forall s :: s in channels ==> channels[s].Valid()
  }

  lemma ConsumedStaysHealthy(before: map<SenderId, Channel>, after: map<SenderId, Channel>)
    requires Healthy(before) && AllConsumed(before, after)
    ensures Healthy(after)
  {
    forall s | s in after
      ensures after[s].Valid()
    {
      assert s in before.Keys;
    }
  }

  lemma RowSnoc(subscribers: seq<Subscriber>, row: seq<Outcome>, o: Outcome)
    requires |row| < |subscribers|
    ensures Count(Full, row + [o]) == Count(Full, row) + if o == Full then 1 else 0
    ensures ClosedKeys(row + [o], subscribers) ==
            ClosedKeys(row, subscribers) + if o == Closed then [subscribers[|row|].key] else []
  {
    CountSnoc(Full, row, o);
    assert (row + [o])[..|row|] == row;
  }

  lemma RowsSnoc(subscribers: seq<Subscriber>, rows: seq<seq<Outcome>>, row: seq<Outcome>, chunks: seq<Chunk>)
    requires Rectangular(rows, |subscribers|) && |row| == |subscribers| && |rows| < |chunks|
    ensures Rectangular(rows + [row], |subscribers|)
    ensures CountAll(Full, rows + [row]) == CountAll(Full, rows) + Count(Full, row)
    ensures AllClosedKeys(rows + [row], subscribers) == AllClosedKeys(rows, subscribers) + ClosedKeys(row, subscribers)
    ensures forall s ::
              GainAll(s, subscribers, rows + [row], chunks[..|rows| + 1]) ==
              GainAll(s, subscribers, rows, chunks[..|rows|]) + Gain(s, subscribers, row, Batch(chunks[|rows|]))
  {
    CountAllSnoc(Full, rows, row);
    assert (rows + [row])[..|rows|] == rows;
    assert chunks[..|rows| + 1][..|rows|] == chunks[..|rows|];
  }

  /** Each channel accepted what the outcomes in `row` say, and nothing else. */
  ghost predicate Gained(before: map<SenderId, Channel>, after: map<SenderId, Channel>,
                         subscribers: seq<Subscriber>, row: seq<Outcome>, m: Message)
    requires |row| <= |subscribers|
  {
    && after.Keys == before.Keys
    && forall s :: s in after ==> after[s].accepted == before[s].accepted + Gain(s, subscribers, row, m)
  }

  /** The same, for a single attempt. */
  ghost predicate GainedOne(before: map<SenderId, Channel>, after: map<SenderId, Channel>,
                            to: SenderId, outcome: Outcome, m: Message)
  {
    && after.Keys == before.Keys
    && forall s :: s in after ==>
         after[s].accepted == if s == to && outcome == Delivered then before[s].accepted + [m] else before[s].accepted
  }

  lemma GainSnoc(s: SenderId, subscribers: seq<Subscriber>, row: seq<Outcome>, outcome: Outcome, m: Message)
    requires |row| < |subscribers|
    ensures Gain(s, subscribers, row + [outcome], m) ==
            if subscribers[|row|].sender == s && outcome == Delivered then Gain(s, subscribers, row, m) + [m]
            else Gain(s, subscribers, row, m)
  {
    assert (row + [outcome])[..|row|] == row;
  }

  lemma GainedSnoc(before: map<SenderId, Channel>, between: map<SenderId, Channel>, after: map<SenderId, Channel>,
                   subscribers: seq<Subscriber>, row: seq<Outcome>, outcome: Outcome, m: Message)
    requires |row| < |subscribers|
    requires Gained(before, between, subscribers, row, m)
    requires GainedOne(between, after, subscribers[|row|].sender, outcome, m)
    ensures Gained(before, after, subscribers, row + [outcome], m)
  {
    hide Gain;
    forall s | s in after
      ensures after[s].accepted == before[s].accepted + Gain(s, subscribers, row + [outcome], m)
    {
      assert s in between.Keys;
      GainSnoc(s, subscribers, row, outcome, m);
      var gain := Gain(s, subscribers, row, m);
      assert before[s].accepted + gain + [m] == before[s].accepted + (gain + [m]);
    }
  }

  /** Each channel accepted what the outcomes in `rows` say, in order, and nothing else. */
  ghost predicate GainedAll(before: map<SenderId, Channel>, after: map<SenderId, Channel>,
                            subscribers: seq<Subscriber>, rows: seq<seq<Outcome>>, chunks: seq<Chunk>)
    requires |rows| == |chunks| && Rectangular(rows, |subscribers|)
  {
    && after.Keys == before.Keys
    && forall s :: s in after ==> after[s].accepted == before[s].accepted + GainAll(s, subscribers, rows, chunks)
  }

  lemma GainedAllSnoc(before: map<SenderId, Channel>, between: map<SenderId, Channel>, after: map<SenderId, Channel>,
                      subscribers: seq<Subscriber>, rows: seq<seq<Outcome>>, row: seq<Outcome>, chunks: seq<Chunk>)
    requires |rows| < |chunks| && Rectangular(rows, |subscribers|) && |row| == |subscribers|
    requires GainedAll(before, between, subscribers, rows, chunks[..|rows|])
    requires Gained(between, after, subscribers, row, Batch(chunks[|rows|]))
    ensures Rectangular(rows + [row], |subscribers|)
    ensures GainedAll(before, after, subscribers, rows + [row], chunks[..|rows| + 1])
  {
    RowsSnoc(subscribers, rows, row, chunks);
    hide GainAll, Gain;
    forall s | s in after
      ensures after[s].accepted == before[s].accepted + GainAll(s, subscribers, rows + [row], chunks[..|rows| + 1])
    {
      assert s in between.Keys;
      var g, h := GainAll(s, subscribers, rows, chunks[..|rows|]), Gain(s, subscribers, row, Batch(chunks[|rows|]));
      assert before[s].accepted + g + h == before[s].accepted + (g + h);
    }
  }

  /** Channels only ever accept more, are consumed further, and close. */
  ghost predicate Onward(before: map<SenderId, Channel>, after: map<SenderId, Channel>) {
    && after.Keys == before.Keys
    && forall s :: s in after ==>
         && |before[s].accepted| <= |after[s].accepted|
         && before[s].taken <= after[s].taken
         && (after[s].open ==> before[s].open)
  }

  /** An attempt made between `before` and `after` fails only for the reason given: the subscriber is
      gone, or the channel filled up. */
  ghost predicate Honest(before: Channel, after: Channel, outcome: Outcome) {
    && (outcome == Closed ==> !after.open)
    && (outcome == Full ==> |after.accepted| >= before.taken + 50_000)
  }

  ghost predicate HonestRow(before: map<SenderId, Channel>, after: map<SenderId, Channel>,
                            subscribers: seq<Subscriber>, row: seq<Outcome>)
  {
    |row| <= |subscribers| &&
    forall j :: 0 <= j < |row| ==>
      var s := subscribers[j].sender;
      s in before && s in after && Honest(before[s], after[s], row[j])
  }

  ghost predicate HonestRows(before: map<SenderId, Channel>, after: map<SenderId, Channel>,
                             subscribers: seq<Subscriber>, rows: seq<seq<Outcome>>)
  {
    forall c :: 0 <= c < |rows| ==> HonestRow(before, after, subscribers, rows[c])
  }

  lemma OnwardTwice(a: map<SenderId, Channel>, b: map<SenderId, Channel>, c: map<SenderId, Channel>)
    requires Onward(a, b) && Onward(b, c)
    ensures Onward(a, c)
  {
    forall s | s in c
      ensures |a[s].accepted| <= |c[s].accepted| && a[s].taken <= c[s].taken && (c[s].open ==> a[s].open)
    {
      assert s in b.Keys;
    }
  }

  /** Attempts judged over an interval may be judged over a longer one. */
  lemma HonestLonger(a: map<SenderId, Channel>, b: map<SenderId, Channel>, c: map<SenderId, Channel>, d: map<SenderId, Channel>,
                     subscribers: seq<Subscriber>, row: seq<Outcome>)
    requires Onward(a, b) && HonestRow(b, c, subscribers, row) && Onward(c, d)
    ensures HonestRow(a, d, subscribers, row)
  {
    forall j | 0 <= j < |row|
      ensures subscribers[j].sender in a && subscribers[j].sender in d
              && Honest(a[subscribers[j].sender], d[subscribers[j].sender], row[j])
    {
      var s := subscribers[j].sender;
      assert s in b.Keys && s in c.Keys;
    }
  }

  lemma HonestRowSnoc(a: map<SenderId, Channel>, b: map<SenderId, Channel>, c: map<SenderId, Channel>,
                      subscribers: seq<Subscriber>, row: seq<Outcome>, o: Outcome)
    requires Onward(a, b) && Onward(b, c) && HonestRow(a, b, subscribers, row) && |row| < |subscribers|
    requires subscribers[|row|].sender in b && subscribers[|row|].sender in c
    requires Honest(b[subscribers[|row|].sender], c[subscribers[|row|].sender], o)
    ensures HonestRow(a, c, subscribers, row + [o])
  {
    HonestLonger(a, a, b, c, subscribers, row);
    assert subscribers[|row|].sender in a.Keys;
  }

  lemma HonestRowsSnoc(a: map<SenderId, Channel>, b: map<SenderId, Channel>, c: map<SenderId, Channel>,
                       subscribers: seq<Subscriber>, rows: seq<seq<Outcome>>, row: seq<Outcome>)
    requires Onward(a, b) && Onward(b, c) && HonestRows(a, b, subscribers, rows) && HonestRow(b, c, subscribers, row)
    ensures HonestRows(a, c, subscribers, rows + [row])
  {
    hide HonestRow;
    forall i | 0 <= i < |rows|
      ensures HonestRow(a, c, subscribers, rows[i])
    {
      HonestLonger(a, a, b, c, subscribers, rows[i]);
    }
    HonestLonger(a, b, c, c, subscribers, row);
  }

  /** A subscriber that stays, and whose queue had room for all the chunks, receives them all. */
  lemma RoomMeansDelivery(before: map<SenderId, Channel>, after: map<SenderId, Channel>,
                          subscribers: seq<Subscriber>, rows: seq<seq<Outcome>>, chunks: seq<Chunk>, j: nat)
    requires |rows| == |chunks| && Rectangular(rows, |subscribers|) && j < |subscribers|
    requires HonestRows(before, after, subscribers, rows)
    requires var s := subscribers[j].sender;
             && s in before && s in after && after[s].open
             && after[s].accepted == before[s].accepted + DeliveredTo(rows, chunks, j)
             && |before[s].accepted| - before[s].taken + |chunks| <= 50_000
    ensures DeliveredTo(rows, chunks, j) == Batches(chunks)
  {
    forall c | 0 <= c < |rows|
      ensures rows[c][j] == Delivered
    {
      assert HonestRow(before, after, subscribers, rows[c]);
      MissedOne(rows, chunks, j, c);
    }
    AllDelivered(rows, chunks, j);
  }

  // ---------------------------------------------------------------- the fan-out as a whole

  function Batches(chunks: seq<Chunk>): seq<Message> {
    seq(|chunks|, i requires 0 <= i < |chunks| => Batch(chunks[i]))
  }

  /** How many messages the first `w` subscribers received according to the outcomes. */
  function Tally(rows: seq<seq<Outcome>>, chunks: seq<Chunk>, w: nat): nat
    requires |rows| == |chunks| && forall i :: 0 <= i < |rows| ==> w <= |rows[i]|
  {
    if w == 0 then 0 else Tally(rows, chunks, w - 1) + |DeliveredTo(rows, chunks, w - 1)|
  }

  lemma {:induction false} TallySnoc(rows: seq<seq<Outcome>>, chunks: seq<Chunk>, w: nat)
    requires |rows| == |chunks| && rows != [] && forall i :: 0 <= i < |rows| ==> w <= |rows[i]|
    ensures var n := |rows| - 1;
            Tally(rows, chunks, w) == Tally(rows[..n], chunks[..n], w) + Count(Delivered, rows[n][..w])
  {
    var n := |rows| - 1;
    if w > 0 {
      TallySnoc(rows, chunks, w - 1);
      assert rows[n][..w] == rows[n][..w - 1] + [rows[n][w - 1]];
      CountSnoc(Delivered, rows[n][..w - 1], rows[n][w - 1]);
    }
  }

  /** What the subscribers received together is the number of deliveries. */
  lemma {:induction false} TallyIsCount(rows: seq<seq<Outcome>>, chunks: seq<Chunk>, width: nat)
    requires |rows| == |chunks| && Rectangular(rows, width)
    ensures Tally(rows, chunks, width) == CountAll(Delivered, rows)
  {
    if rows == [] {
      NothingTallied(width);
    } else {
      var n := |rows| - 1;
      TallyIsCount(rows[..n], chunks[..n], width);
      TallySnoc(rows, chunks, width);
      assert rows[n][..width] == rows[n];
    }
  }

  lemma {:induction false} NothingTallied(w: nat)
    ensures Tally([], [], w) == 0
  {
    if w > 0 {
      NothingTallied(w - 1);
    }
  }

  /** How many messages the channels of the first `w` subscribers have accepted in between. */
  function Growth(before: map<SenderId, Channel>, after: map<SenderId, Channel>, subscribers: seq<Subscriber>, w: nat): int
    requires w <= |subscribers|
    requires forall j :: 0 <= j < |subscribers| ==> subscribers[j].sender in before && subscribers[j].sender in after
  {
    if w == 0 then 0
    else
      var s := subscribers[w - 1].sender;
      Growth(before, after, subscribers, w - 1) + |after[s].accepted| - |before[s].accepted|
  }

  /** What one fan-out of the chunks does to the subscribers' channels. Nothing is unaccounted for. What a
      channel gains are some of the chunks, in order, and within its capacity; all of them, if its
      subscriber stays and had room. No other channel gains. */
  ghost predicate FannedOut(before: map<SenderId, Channel>, after: map<SenderId, Channel>,
                            subscribers: seq<Subscriber>, chunks: seq<Chunk>, dropped: nat, failed: seq<Pubkey>)
  {
    && before.Keys == after.Keys
    && (forall j :: 0 <= j < |subscribers| ==> subscribers[j].sender in before && subscribers[j].sender in after)
    && Growth(before, after, subscribers, |subscribers|) + dropped + |failed| == |chunks| * |subscribers|
    && (forall j :: 0 <= j < |subscribers| ==> Served(before[subscribers[j].sender], after[subscribers[j].sender], chunks))
    && (forall s :: s in after && (forall j :: 0 <= j < |subscribers| ==> subscribers[j].sender != s) ==>
          after[s].accepted == before[s].accepted)
  }

  ghost predicate Served(before: Channel, after: Channel, chunks: seq<Chunk>) {
    && after.Valid() && before.accepted <= after.accepted
    && Subsequence(after.accepted[|before.accepted|..], Batches(chunks))
    && (after.open && |before.accepted| - before.taken + |chunks| <= 50_000 ==>
          after.accepted == before.accepted + Batches(chunks))
  }

  lemma {:induction false} GrowthIsTally(before: map<SenderId, Channel>, after: map<SenderId, Channel>,
                                         subscribers: seq<Subscriber>, rows: seq<seq<Outcome>>, chunks: seq<Chunk>, w: nat)
    requires |rows| == |chunks| && Rectangular(rows, |subscribers|) && w <= |subscribers|
    requires forall j :: 0 <= j < |subscribers| ==> subscribers[j].sender in before && subscribers[j].sender in after
    requires forall j :: 0 <= j < |subscribers| ==>
               after[subscribers[j].sender].accepted == before[subscribers[j].sender].accepted + DeliveredTo(rows, chunks, j)
    ensures Growth(before, after, subscribers, w) == Tally(rows, chunks, w)
  {
    if w > 0 {
      GrowthIsTally(before, after, subscribers, rows, chunks, w - 1);
    }
  }

  /** Who is reported failed is gone. */
  lemma {:induction false} ClosedKeysAreClosed(before: map<SenderId, Channel>, after: map<SenderId, Channel>,
                                               subscribers: seq<Subscriber>, rows: seq<seq<Outcome>>)
    requires Rectangular(rows, |subscribers|) && HonestRows(before, after, subscribers, rows)
    ensures forall k :: k in AllClosedKeys(rows, subscribers) ==>
              exists x :: x in subscribers && x.key == k && x.sender in after && !after[x.sender].open
  {
    if rows != [] {
      var n := |rows| - 1;
      ClosedKeysAreClosed(before, after, subscribers, rows[..n]);
      assert HonestRow(before, after, subscribers, rows[n]);
      RowClosedKeys(before, after, subscribers, rows[n]);
    }
  }

  lemma {:induction false} RowClosedKeys(before: map<SenderId, Channel>, after: map<SenderId, Channel>,
                                         subscribers: seq<Subscriber>, row: seq<Outcome>)
    requires |row| <= |subscribers| && HonestRow(before, after, subscribers, row)
    ensures forall k :: k in ClosedKeys(row, subscribers) ==>
              exists x :: x in subscribers && x.key == k && x.sender in after && !after[x.sender].open
  {
    if row != [] {
      var n := |row| - 1;
      RowClosedKeys(before, after, subscribers, row[..n]);
      assert subscribers[n] in subscribers;
    }
  }

  /** From what each attempt did to what all of them did. */
  lemma AttemptsFanOut(before: map<SenderId, Channel>, after: map<SenderId, Channel>,
                       subscribers: seq<Subscriber>, rows: seq<seq<Outcome>>, chunks: seq<Chunk>)
    requires |rows| == |chunks| && Rectangular(rows, |subscribers|) && Distinct(subscribers, after) && Healthy(after)
    requires GainedAll(before, after, subscribers, rows, chunks) && HonestRows(before, after, subscribers, rows)
    ensures FannedOut(before, after, subscribers, chunks, CountAll(Full, rows), AllClosedKeys(rows, subscribers))
  {
    hide Subsequence, Count, CountAll, AllClosedKeys, GainAll, Gain, Honest, HonestRow, HonestRows, DeliveredTo, Growth, Tally;
    forall j | 0 <= j < |subscribers|
      ensures subscribers[j].sender in before && subscribers[j].sender in after
      ensures after[subscribers[j].sender].accepted == before[subscribers[j].sender].accepted + DeliveredTo(rows, chunks, j)
      ensures Served(before[subscribers[j].sender], after[subscribers[j].sender], chunks)
    {
      GainIsDelivery(subscribers[j].sender, subscribers, rows, chunks);
      SubscriberServed(before, after, subscribers, rows, chunks, j);
    }
    forall s | s in after && (forall j :: 0 <= j < |subscribers| ==> subscribers[j].sender != s)
      ensures after[s].accepted == before[s].accepted
    {
      GainIsDelivery(s, subscribers, rows, chunks);
    }
    GrowthIsTally(before, after, subscribers, rows, chunks, |subscribers|);
    TallyIsCount(rows, chunks, |subscribers|);
    FanOutAccounting(rows, |subscribers|);
  }

  lemma SubscriberServed(before: map<SenderId, Channel>, after: map<SenderId, Channel>,
                         subscribers: seq<Subscriber>, rows: seq<seq<Outcome>>, chunks: seq<Chunk>, j: nat)
    requires |rows| == |chunks| && Rectangular(rows, |subscribers|) && j < |subscribers|
    requires HonestRows(before, after, subscribers, rows)
    requires var s := subscribers[j].sender;
             s in before && s in after && after[s].Valid()
             && after[s].accepted == before[s].accepted + DeliveredTo(rows, chunks, j)
    ensures Served(before[subscribers[j].sender], after[subscribers[j].sender], chunks)
  {
    hide HonestRows, DeliveredTo, Subsequence;
    var b, a := before[subscribers[j].sender], after[subscribers[j].sender];
    DeliveredInOrder(rows, chunks, j);
    assert a.accepted[|b.accepted|..] == DeliveredTo(rows, chunks, j);
    if a.open && |b.accepted| - b.taken + |chunks| <= 50_000 {
      RoomMeansDelivery(before, after, subscribers, rows, chunks, j);
    }
  }

  lemma {:induction false} MissedOne(rows: seq<seq<Outcome>>, chunks: seq<Chunk>, j: nat, c: nat)
    requires |rows| == |chunks| && c < |rows| && forall i :: 0 <= i < |rows| ==> j < |rows[i]|
    ensures |DeliveredTo(rows, chunks, j)| <= |rows|
    ensures rows[c][j] != Delivered ==> |DeliveredTo(rows, chunks, j)| < |rows|
  {
    var n := |rows| - 1;
    if n > 0 {
      MissedOne(rows[..n], chunks[..n], j, if c < n then c else 0);
    }
  }

  lemma {:induction false} AllDelivered(rows: seq<seq<Outcome>>, chunks: seq<Chunk>, j: nat)
    requires |rows| == |chunks| && forall i :: 0 <= i < |rows| ==> j < |rows[i]| && rows[i][j] == Delivered
    ensures DeliveredTo(rows, chunks, j) == Batches(chunks)
  {
    if rows != [] {
      AllDelivered(rows[..|rows| - 1], chunks[..|rows| - 1], j);
    }
  }

  lemma DropAllOrNone(m: map<Pubkey, SenderId>)
    ensures m - m.Keys == map[] && m - {} == m
  {
  }

  lemma OneKey(m: map<Pubkey, SenderId>, k: Pubkey)
    requires |m| <= 1 && k in m
    ensures m == map[k := m[k]] && m.Keys == {k}
  {
    assert |m.Keys - {k}| == 0;
  }

  lemma FewerKeys(m: map<Pubkey, SenderId>, ks: set<Pubkey>)
    ensures |m - ks| <= |m|
    ensures forall k :: k in m - ks ==> k in m && (m - ks)[k] == m[k]
  {
    assert (m - ks).Keys == m.Keys - ks;
    assert |m.Keys - ks| <= |m.Keys|;
  }

  lemma NoMembers(m: map<Pubkey, SenderId>)
    ensures m - Members([]) == m
  {
  }

  lemma RemoveSnoc(m: map<Pubkey, SenderId>, ks: seq<Pubkey>, i: nat)
    requires i < |ks|
    ensures (m - Members(ks[..i])) - {ks[i]} == m - Members(ks[..i + 1])
  {
    assert ks[..i + 1] == ks[..i] + [ks[i]];
  }

  lemma EmptyRow(subscribers: seq<Subscriber>, m: Message, channels: map<SenderId, Channel>)
    ensures Count(Full, []) == 0 && ClosedKeys([], subscribers) == []
    ensures Gained(channels, channels, subscribers, [], m) && HonestRow(channels, channels, subscribers, [])
  {
  }

  lemma NothingTried(channels: map<SenderId, Channel>, subscribers: seq<Subscriber>)
    ensures Onward(channels, channels) && HonestRows(channels, channels, subscribers, [])
  {
  }

  lemma NothingToTry(channels: map<SenderId, Channel>, rows: seq<seq<Outcome>>)
    requires Rectangular(rows, 0)
    ensures HonestRows(channels, channels, [], rows)
  {
  }

  lemma NoRows(subscribers: seq<Subscriber>, channels: map<SenderId, Channel>)
    ensures CountAll(Full, []) == 0 && AllClosedKeys([], subscribers) == []
    ensures GainedAll(channels, channels, subscribers, [], [])
  {
  }

  lemma {:induction false} NothingSent(rows: seq<seq<Outcome>>, chunks: seq<Chunk>, channels: map<SenderId, Channel>)
    requires Rectangular(rows, 0) && |rows| == |chunks|
    ensures AllClosedKeys(rows, []) == [] && CountAll(Full, rows) == 0
    ensures (forall s :: GainAll(s, [], rows, chunks) == []) && GainedAll(channels, channels, [], rows, chunks)
  {
    if rows != [] {
      NothingSent(rows[..|rows| - 1], chunks[..|rows| - 1], channels);
    }
  }
}
