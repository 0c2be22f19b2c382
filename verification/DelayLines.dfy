/** The two delay lines: the thread that delays and filters packets received by the relayer, and
    the asynchronous loop that does the same for responses of the block engine. Both keep a queue
    of items with the instant at which each is to be released. */
module DelayLines {
  import opened Prelude
  import opened Packets
  import opened FilterSets
  import opened DelayJournals

  const IDLE_TICK: Time := 100 * MILLISECOND

  // ---------------------------------------------------------------- the relayer's thread

  datatype Received<T> = Item(item: T) | Timeout | Disconnected

  /** The items among the outcomes of a loop's receives, in order. */
  ghost function ItemsReceived<T>(outcomes: seq<Received<T>>): seq<T> {
    if outcomes == [] then []
    else
      var last := outcomes[|outcomes| - 1];
      ItemsReceived(outcomes[..|outcomes| - 1]) + if last.Item? then [last.item] else []
  }

  ghost function Items<T>(es: seq<Entry<T>>): seq<T> {
    seq(|es|, k requires 0 <= k < |es| => es[k].item)
  }

  lemma NothingReceived<T>()
    ensures ItemsReceived<T>([]) == []
  {
  }

  lemma ItemsReceivedSnoc<T>(outcomes: seq<Received<T>>, n: nat)
    requires n < |outcomes|
    ensures ItemsReceived(outcomes[..n + 1]) ==
            ItemsReceived(outcomes[..n]) + if outcomes[n].Item? then [outcomes[n].item] else []
  {
    assert outcomes[..n + 1][..n] == outcomes[..n];
  }

  /** Every turn of the thread sweeps once, after its receive and before its releases, and all its
      releases are filtered after that sweep and before any other. */
  ghost predicate OwnSweep<T>(j: Journal<T>, n: nat, log: Log)
    requires n < |j.passes|
  {
    var p := j.passes[n];
    && 0 < p.sweeps <= |log.sweeps| && p.received <= |j.arrivals|
    && p.start <= log.sweeps[p.sweeps - 1].from <= log.sweeps[p.sweeps - 1].to <= p.now
    && (forall k :: 0 <= k < p.received ==> j.arrivals[k].arrived <= log.sweeps[p.sweeps - 1].from)
    && (forall k: nat :: ReceivedIn(j.passes, n, k) ==> p.start <= j.arrivals[k].arrived)
    && (forall k: nat :: SentIn(j.passes, n, k) ==> k < |j.releases| && |j.releases[k].seen.sweeps| == p.sweeps)
  }

  ghost predicate OwnSweeps<T>(j: Journal<T>, log: Log) {
    forall n :: 0 <= n < |j.passes| ==> OwnSweep(j, n, log)
  }

  /** What is known of past turns stays known as the journal and the log grow. */
  lemma OwnSweepsGrow<T>(j: Journal<T>, j': Journal<T>, log: Log, log': Log, since: Time)
    requires OwnSweeps(j, log) && Grown(log, log', since)
    requires j'.passes == j.passes && j.arrivals <= j'.arrivals && j.releases <= j'.releases
    ensures OwnSweeps(j', log')
  {
    forall n | 0 <= n < |j.passes|
      ensures OwnSweep(j', n, log')
    {
      assert OwnSweep(j, n, log);
    }
  }

  lemma OwnSweepsEndPass<T>(j: Journal<T>, p: Pass, log: Log)
    requires OwnSweeps(j, log) && OwnSweep(j.EndPass(p), |j.passes|, log)
    ensures OwnSweeps(j.EndPass(p), log)
  {
    var j' := j.EndPass(p);
    forall n | 0 <= n < |j.passes|
      ensures OwnSweep(j', n, log)
    {
      assert OwnSweep(j, n, log);
      assert forall k: nat :: ReceivedIn(j'.passes, n, k) ==> ReceivedIn(j.passes, n, k);
      assert forall k: nat :: SentIn(j'.passes, n, k) ==> SentIn(j.passes, n, k);
    }
  }

  /** The releases since `settled` were made in one turn, after its sweep; none is later than its instant. */
  ghost predicate InTurn<T>(j: Journal<T>, settled: nat, t: Time, sweeps: nat) {
    && SamePass(j.releases, settled, t)
    && (forall k :: 0 <= k < |j.releases| ==> j.releases[k].at <= t)
    && (forall k :: settled <= k < |j.releases| ==> |j.releases[k].seen.sweeps| == sweeps)
  }

  /** What arrived since the last pass arrived between two instants. */
  ghost predicate HeardBetween<T>(j: Journal<T>, from: Time, to: Time) {
    && j.Heard() <= |j.arrivals|
    && (forall k :: j.Heard() <= k < |j.arrivals| ==> from <= j.arrivals[k].arrived)
    && (forall k :: 0 <= k < |j.arrivals| ==> j.arrivals[k].arrived <= to)
  }

  lemma TurnBegins<T>(j: Journal<T>, t: Time, sweeps: nat)
    requires forall k :: 0 <= k < |j.releases| ==> j.releases[k].at <= t
    ensures InTurn(j, |j.releases|, t, sweeps)
  {
  }

  lemma TurnGoesOn<T>(j: Journal<T>, settled: nat, t: Time, sweeps: nat, r: Release<T>)
    requires InTurn(j, settled, t, sweeps) && r.at == t && |r.seen.sweeps| == sweeps
    ensures InTurn(j.HandOn(r), settled, t, sweeps) && InTurn(j.(lost := 1), settled, t, sweeps)
  {
  }

  lemma OwnSweepHere<T>(j: Journal<T>, log: Log, p: Pass)
    requires InTurn(j, j.Settled(), p.now, |log.sweeps|) && log.sweeps != [] && HeardBetween(j, p.start, log.Swept().from)
    requires p.start <= log.Swept().from <= log.Swept().to <= p.now
    requires p.sweeps == |log.sweeps| && p.received == |j.arrivals| && p.sent == |j.releases|
    ensures OwnSweep(j.EndPass(p), |j.passes|, log)
  {
  }

  class RelayerDelay {
    const filters: FilterSet
    const delay: Time
    ghost const began: Time
    var queue: seq<Entry<PacketBatches>>
    var sent: seq<PacketBatches>
    ghost var journal: Journal<PacketBatches>

    /** The journal is sound up to now, and the queue and what was sent are as it says. */
    ghost predicate Keeping()
      reads this, filters, filters.clock
    {
      && filters.Valid() && filters.latest <= filters.clock.now && began <= filters.clock.now
      && Sound(journal, filters.log, began, filters.clock.now, delay, MarkBatches)
      && OwnSweeps(journal, filters.log)
      && queue == journal.Queued() && sent == journal.Sent()
    }

    /** Between two turns, or after the last. */
    ghost predicate Valid()
      reads this, filters, filters.clock
    {
      && Keeping() && journal.lost <= 1
      && journal.Settled() == |journal.releases| && journal.Heard() == |journal.arrivals|
      && (forall n :: 0 <= n < |journal.passes| && journal.lost == 0 ==> journal.passes[n].whole)
    }

    constructor (filters: FilterSet, delay: Time)
      requires filters.Valid() && filters.latest <= filters.clock.now
      ensures Valid() && fresh(this) && this.filters == filters && this.delay == delay
      ensures began == filters.clock.now && journal == Nothing()
    {
      this.filters, this.delay, began := filters, delay, filters.clock.now;
      queue, sent, journal := [], [], Nothing();
      NothingIsSound<PacketBatches>(filters.log, filters.clock.now, delay, MarkBatches);
    }

    /** The thread, on the outcomes its receives have until it is told to exit; `takes` says how many
        batches the forwarder takes before it goes away, if it does. `received` receives are made. Every
        one but a disconnected last one is followed by a turn's sweep and releases. */
    method Run(outcomes: seq<Received<PacketBatches>>, takes: Option<nat>) returns (received: nat)
      requires Valid() && journal == Nothing()
      modifies this, filters, filters.clock
      ensures Valid() && received <= |outcomes|
      ensures Items(journal.arrivals) == ItemsReceived(outcomes[..received])
      ensures forall n :: 0 <= n < received - 1 ==> !outcomes[n].Disconnected?
      ensures |journal.passes| == if received > 0 && outcomes[received - 1].Disconnected? then received - 1 else received
      ensures received < |outcomes| ==> received > 0 && (outcomes[received - 1].Disconnected? || journal.lost == 1)
      ensures journal.lost == 1 <==> received > 0 && journal.passes != [] && !journal.passes[|journal.passes| - 1].whole
      ensures journal.lost == 1 ==> takes == Some(|sent|)
    {
      hide FilterSet.Valid, Sound, OwnSweeps, ItemsReceived;
      received := 0;
      NothingReceived<PacketBatches>();
      while received < |outcomes|
        invariant Valid() && journal.lost == 0 && received <= |outcomes| && (takes.Some? ==> |sent| <= takes.value)
        invariant Items(journal.arrivals) == ItemsReceived(outcomes[..received])
        invariant forall n :: 0 <= n < received ==> !outcomes[n].Disconnected?
        invariant |journal.passes| == received
      {
        var alive := Iterate(outcomes[received], takes);
        ItemsReceivedSnoc(outcomes, received);
        received := received + 1;
        if !alive {
          return;
        }
      }
    }

    /** One turn of the thread's loop, with the insertions of the mirror task interleaved between
        its steps. */
    method Iterate(received: Received<PacketBatches>, takes: Option<nat>) returns (alive: bool)
      requires Valid() && journal.lost == 0
      modifies this, filters, filters.clock
      ensures Valid() && old(filters.clock.now) <= filters.clock.now && old(sent) <= sent
      ensures Items(journal.arrivals) == Items(old(journal).arrivals) + if received.Item? then [received.item] else []
      ensures received.Disconnected? ==> !alive && journal == old(journal)
      ensures !received.Disconnected? ==>
                && |journal.passes| == |old(journal).passes| + 1 && old(journal).passes <= journal.passes
                && (alive <==> journal.passes[|journal.passes| - 1].whole)
                && old(filters.clock.now) <= journal.passes[|journal.passes| - 1].start
      ensures alive ==> journal.lost == 0 && NoneDue(queue, journal.passes[|journal.passes| - 1].now)
      ensures alive && received.Timeout? && old(queue) != [] ==> |sent| > |old(sent)|
      ensures !alive && !received.Disconnected? ==> journal.lost == 1 && takes.Some? && takes.value <= |sent|
      ensures takes.Some? && |old(sent)| <= takes.value ==> |sent| <= takes.value
    {
      hide FilterSet.Valid, Sound, OwnSweeps;
      ghost var start := filters.clock.now;
      AllPast(journal, filters.log, began, start, delay, MarkBatches);
      ghost var _ := Receive(received);
      if received.Disconnected? {
        return false;
      }
      Sweep();
      alive := ReleaseDue(takes, start);
    }

    /** Waits for a batch until the front of the queue is due, and queues what arrives. */
    method Receive(received: Received<PacketBatches>) returns (ghost arrived: Time)
      requires Valid() && journal.lost == 0
      modifies this`queue, this`journal, filters, filters.clock
      ensures Keeping() && old(filters.clock.now) <= filters.clock.now
      ensures Grown(old(filters.log), filters.log, old(filters.clock.now)) && filters.log.sweeps == old(filters.log.sweeps)
      ensures HeardBetween(journal, old(filters.clock.now), filters.clock.now)
      ensures old(filters.clock.now) <= arrived <= filters.clock.now
      ensures journal == if received.Item? then old(journal).Arrive(Entry(arrived, arrived + delay, received.item))
                         else old(journal)
      ensures received.Timeout? ==>
                if queue != [] then queue[0].due <= filters.clock.now
                else old(filters.clock.now) + 100 * MILLISECOND <= filters.clock.now
    {
      hide RelayerDelay.Keeping, Grown;
      Interlude();
      var start := Now();
      arrived := start;
      var timeout := if queue == [] then IDLE_TICK
                     else if queue[0].due <= start then 0 else queue[0].due - start;
      label waiting:
      Interlude();
      GrownTwice(old(filters.log), old@waiting(filters.log), filters.log, old(filters.clock.now), old@waiting(filters.clock.now));
      match received {
        case Item(batch) =>
          var at := Now();
          arrived := at;
          Enqueue(at, batch);
        case Timeout =>
          var woken := Now();
          Wait(if woken < start + timeout then start + timeout - woken else 0);
        case Disconnected =>
      }
      ArrivedByNow();
    }

    lemma ArrivedByNow()
      requires Keeping()
      ensures forall k :: 0 <= k < |journal.arrivals| ==> journal.arrivals[k].arrived <= filters.clock.now
    {
      hide FilterSet.Valid, Sound, OwnSweeps;
      AllPast(journal, filters.log, began, filters.clock.now, delay, MarkBatches);
    }

    method Now() returns (t: Time)
      requires Keeping()
      modifies filters.clock
      ensures Keeping() && old(filters.clock.now) <= t == filters.clock.now
    {
      hide FilterSet.Valid, Sound, OwnSweeps;
      t := filters.clock.Read();
      LaterIsSound(journal, filters.log, filters.log, began, old(filters.clock.now), t, delay, MarkBatches);
    }

    method Wait(duration: Time)
      requires Keeping()
      modifies filters.clock
      ensures Keeping() && old(filters.clock.now) + duration <= filters.clock.now
    {
      hide FilterSet.Valid, Sound, OwnSweeps;
      filters.clock.Sleep(duration);
      LaterIsSound(journal, filters.log, filters.log, began, old(filters.clock.now), filters.clock.now, delay, MarkBatches);
    }

    method Enqueue(at: Time, batch: PacketBatches)
      requires Keeping() && at == filters.clock.now
      modifies this`queue, this`journal
      ensures Keeping() && journal == old(journal).Arrive(Entry(at, at + delay, batch))
    {
      hide FilterSet.Valid, Sound, OwnSweeps;
      ArriveIsSound(journal, filters.log, began, at, delay, MarkBatches, batch);
      OwnSweepsGrow(journal, journal.Arrive(Entry(at, at + delay, batch)), filters.log, filters.log, at);
      queue := queue + [Entry(at, at + delay, batch)];
      journal := journal.Arrive(Entry(at, at + delay, batch));
    }

    /** The turn's sweep. */
    method Sweep()
      requires Keeping()
      modifies filters, filters.clock
      ensures Keeping() && filters.log.sweeps != []
      ensures old(filters.clock.now) <= filters.log.Swept().from <= filters.log.Swept().to <= filters.clock.now
    {
      hide Sound, OwnSweeps;
      filters.SweepAmongInsertions();
      hide FilterSet.Valid;
      LaterIsSound(journal, old(filters.log), filters.log, began, old(filters.clock.now), filters.clock.now, delay, MarkBatches);
      OwnSweepsGrow(journal, journal, old(filters.log), filters.log, old(filters.clock.now));
    }

    /** The mirror task's insertions between two steps of this thread. */
    method Interlude()
      requires Keeping()
      modifies filters, filters.clock
      ensures Keeping() && old(filters.clock.now) <= filters.clock.now && filters.log.sweeps == old(filters.log.sweeps)
      ensures Grown(old(filters.log), filters.log, old(filters.clock.now))
    {
      hide FilterSet.Valid, Sound, OwnSweeps;
      filters.Interfere();
      LaterIsSound(journal, old(filters.log), filters.log, began, old(filters.clock.now), filters.clock.now, delay, MarkBatches);
      OwnSweepsGrow(journal, journal, old(filters.log), filters.log, old(filters.clock.now));
    }

    /** Hands the front of the queue on. */
    method SendFront(t: Time, takes: Option<nat>) returns (ok: bool, ghost r: Release<PacketBatches>)
      requires Keeping() && journal.lost == 0 && queue != [] && queue[0].due <= t <= filters.clock.now
      modifies this`queue, this`sent, this`journal
      ensures Keeping() && queue == old(queue[1..]) && ok == !(takes.Some? && |old(sent)| >= takes.value)
      ensures r.at == t && r.seen == filters.log && sent == if ok then old(sent) + [r.output] else old(sent)
      ensures journal == if ok then old(journal).HandOn(r) else old(journal).(lost := 1)
    {
      hide FilterSet.Valid, Sound, OwnSweeps;
      var front := queue[0];
      var out := filters.DiscardFiltered(front.item);
      ok := takes.None? || |sent| < takes.value;
      queue := queue[1..];
      r := Release(t, filters.clock.now, filters.log, filters.table.Keys, front.item, out);
      if ok {
        HandOnIsSound(journal, filters, began, filters.clock.now, delay, MarkBatches, r);
        OwnSweepsGrow(journal, journal.HandOn(r), filters.log, filters.log, t);
        sent, journal := sent + [out], journal.HandOn(r);
      } else {
        LossIsSound(journal, filters.log, began, filters.clock.now, delay, MarkBatches);
        OwnSweepsGrow(journal, journal.(lost := 1), filters.log, filters.log, t);
        journal := journal.(lost := 1);
      }
    }

    /** Releases what is due, and records the turn, which started at `start`. */
    method ReleaseDue(takes: Option<nat>, ghost start: Time) returns (alive: bool)
      requires Keeping() && journal.lost == 0 && journal.Settled() == |journal.releases| && filters.log.sweeps != []
      requires began <= start <= filters.log.Swept().from <= filters.log.Swept().to <= filters.clock.now
      requires forall n :: 0 <= n < |journal.passes| ==> journal.passes[n].whole && journal.passes[n].now <= start
      requires HeardBetween(journal, start, filters.log.Swept().from)
      modifies this, filters, filters.clock
      ensures Valid() && old(filters.clock.now) <= filters.clock.now && old(sent) <= sent
      ensures journal.arrivals == old(journal).arrivals
      ensures |journal.passes| == |old(journal).passes| + 1 && old(journal).passes <= journal.passes
      ensures var p := journal.passes[|journal.passes| - 1];
              p.start == start && p.whole == alive && (alive ==> NoneDue(queue, p.now))
      ensures alive ==> journal.lost == 0
      ensures alive && old(queue) != [] && old(queue[0].due <= filters.clock.now) ==> |sent| > |old(sent)|
      ensures !alive ==> journal.lost == 1 && takes.Some? && takes.value <= |sent|
      ensures takes.Some? && |old(sent)| <= takes.value ==> |sent| <= takes.value
    {
      hide FilterSet.Valid, Sound, OwnSweeps;
      var t := Now();
      AllPast(journal, filters.log, began, t, delay, MarkBatches);
      TurnBegins(journal, t, |filters.log.sweeps|);
      hide InTurn;
      alive := ReleaseUntil(t, takes);
      EndTurn(start, t, alive);
    }

    /** Releases what is due at `t`. */
    method ReleaseUntil(t: Time, takes: Option<nat>) returns (alive: bool)
      requires Keeping() && journal.lost == 0 && t <= filters.clock.now
      requires InTurn(journal, journal.Settled(), t, |filters.log.sweeps|)
      modifies this, filters, filters.clock
      ensures Keeping() && t <= filters.clock.now && filters.log.sweeps == old(filters.log.sweeps)
      ensures journal.arrivals == old(journal).arrivals && journal.passes == old(journal).passes
      ensures old(sent) <= sent && journal.lost == if alive then 0 else 1
      ensures InTurn(journal, journal.Settled(), t, |filters.log.sweeps|)
      ensures alive ==> queue == [] || queue[0].due > t
      ensures alive && old(queue) != [] && old(queue[0].due <= t) ==> |sent| > |old(sent)|
      ensures !alive ==> takes.Some? && takes.value <= |sent|
      ensures takes.Some? && |old(sent)| <= takes.value ==> |sent| <= takes.value
    {
      hide RelayerDelay.Keeping, InTurn;
      alive := true;
      while alive && queue != [] && queue[0].due <= t
        invariant Keeping() && t <= filters.clock.now && filters.log.sweeps == old(filters.log.sweeps)
        invariant journal.arrivals == old(journal).arrivals && journal.passes == old(journal).passes
        invariant old(sent) <= sent && journal.lost == if alive then 0 else 1
        invariant !alive ==> takes.Some? && takes.value <= |sent|
        invariant takes.Some? && |old(sent)| <= takes.value ==> |sent| <= takes.value
        invariant |sent| > |old(sent)| || queue == old(queue) || !alive
        invariant InTurn(journal, journal.Settled(), t, |filters.log.sweeps|)
        decreases alive, |queue|
      {
        Interlude();
        ghost var before := journal;
        ghost var r;
        alive, r := SendFront(t, takes);
        TurnGoesOn(before, journal.Settled(), t, |filters.log.sweeps|, r);
      }
    }

    ghost method EndTurn(start: Time, t: Time, whole: bool)
      requires Keeping() && journal.lost == (if whole then 0 else 1) && filters.log.sweeps != []
      requires began <= start <= filters.log.Swept().from <= filters.log.Swept().to <= t <= filters.clock.now
      requires forall n :: 0 <= n < |journal.passes| ==> journal.passes[n].whole && journal.passes[n].now <= start
      requires HeardBetween(journal, start, filters.log.Swept().from)
      requires InTurn(journal, journal.Settled(), t, |filters.log.sweeps|)
      requires whole ==> queue == [] || queue[0].due > t
      modifies this`journal
      ensures Valid()
      ensures journal == old(journal).EndPass(Pass(start, |filters.log.sweeps|, t, |journal.arrivals|, |journal.releases|, whole))
      ensures whole ==> NoneDue(queue, t)
    {
      hide FilterSet.Valid, Sound, OwnSweeps;
      ghost var p := Pass(start, |filters.log.sweeps|, t, |journal.arrivals|, |journal.releases|, whole);
      if whole {
        StopAtFirstNotDue(journal, filters.log, began, filters.clock.now, delay, MarkBatches, t);
      }
      EndPassIsSound(journal, filters.log, began, filters.clock.now, delay, MarkBatches, p);
      OwnSweepHere(journal, filters.log, p);
      OwnSweepsEndPass(journal, p, filters.log);
      journal := journal.EndPass(p);
    }
  }

  /** What the end-to-end filter promises for one packet. Nothing but the discard mark changes. A packet
      is newly marked only if its signature may be blocked, and leaves unmarked only if it may pass. */
  ghost predicate Delivered(p: Packet, q: Packet, insertions: set<Insertion>, filteredAt: Time, sweep: Span) {
    && q == p.(discard := q.discard)
    && (p.discard ==> q.discard)
    && (!p.discard && q.discard ==> p.payload.Some? && MayBlock(p.payload.value, insertions, filteredAt, sweep))
    && (!q.discard && p.payload.Some? ==> MayPass(p.payload.value, insertions, filteredAt, sweep))
  }

  /** The turn in which a batch left: exactly one, `n`. The batch had arrived before that turn's sweep, and
      at least the delay before the turn's instant; and that sweep was the last before its filtering. */
  ghost predicate LeftIn(line: RelayerDelay, k: nat, n: nat)
    reads line, line.filters
  {
    && SentIn(line.journal.passes, n, k) && k < |line.journal.arrivals| && k < |line.journal.releases|
    && (forall m: nat :: SentIn(line.journal.passes, m, k) ==> m == n)
    && var p, log, e, r := line.journal.passes[n], line.filters.log, line.journal.arrivals[k], line.journal.releases[k];
       && 0 < p.sweeps <= |log.sweeps|
       && var sweep := log.sweeps[p.sweeps - 1];
          && line.began <= e.arrived <= sweep.from <= sweep.to <= p.now <= r.filteredAt
          && p.start <= sweep.from && e.arrived + line.delay <= p.now
          && LatestSweep(log, p.sweeps - 1, r.filteredAt)
  }

  lemma BatchLeaves(line: RelayerDelay, k: nat) returns (n: nat)
    requires line.Valid() && k < |line.sent|
    ensures LeftIn(line, k, n) && line.sent[k] == MarkBatches(line.journal.releases[k].blocked, line.journal.arrivals[k].item)
    ensures |line.journal.releases[k].seen.sweeps| == line.journal.passes[n].sweeps
  {
    hide FilterSet.Valid;
    n := PassOf(line.journal.passes, k);
    forall m: nat | SentIn(line.journal.passes, m, k)
      ensures m == n
    {
      PassIsUnique(line.journal.passes, line.began, line.filters.clock.now, m, n, k);
    }
    assert OwnSweep(line.journal, n, line.filters.log) && Exact(line.journal.passes[n], line.journal.arrivals);
    BlockedRightly(line.journal, line.filters.log, line.began, line.filters.clock.now, line.delay, MarkBatches, k, []);
  }

  /** Any data, judged at the sweep of the turn in which a batch left. */
  lemma JudgedInTurn(line: RelayerDelay, k: nat, n: nat, data: Bytes)
    requires line.Valid() && LeftIn(line, k, n) && |line.journal.releases[k].seen.sweeps| == line.journal.passes[n].sweeps
    ensures var log, r := line.filters.log, line.journal.releases[k];
            var sweep := log.sweeps[line.journal.passes[n].sweeps - 1];
            if Blocks(r.blocked, data) then MayBlock(data, log.insertions, r.filteredAt, sweep)
            else MayPass(data, log.insertions, r.filteredAt, sweep)
  {
    hide FilterSet.Valid, Sound, OwnSweeps, MayBlock, MayPass;
    BlockedRightly(line.journal, line.filters.log, line.began, line.filters.clock.now, line.delay, MarkBatches, k, data);
  }

  /** End-to-end filtering on the relayer path, for every packet of every batch that ever left the thread:
      it was filtered by what was inserted in the filter set's whole history, judged at the sweep of the
      turn in which the batch left. */
  lemma EndToEnd(line: RelayerDelay, k: nat, b: nat, i: nat) returns (n: nat)
    requires line.Valid() && k < |line.sent| && k < |line.journal.arrivals|
    requires var batches := line.journal.arrivals[k].item; b < |batches| && i < |batches[b]|
    ensures LeftIn(line, k, n)
    ensures var log, e, r := line.filters.log, line.journal.arrivals[k], line.journal.releases[k];
            && |line.sent[k]| == |e.item| && |line.sent[k][b]| == |e.item[b]|
            && Delivered(e.item[b][i], line.sent[k][b][i], log.insertions, r.filteredAt,
                         log.sweeps[line.journal.passes[n].sweeps - 1])
  {
    n := BatchLeaves(line, k);
    var r, packet := line.journal.releases[k], line.journal.arrivals[k].item[b][i];
    assert line.sent[k][b][i] == Mark(r.blocked, packet);
    JudgedInTurn(line, k, n, if packet.payload.Some? then packet.payload.value else []);
    hide FilterSet.Valid, RelayerDelay.Valid, MayBlock, MayPass;
  }

  /** The thread's queue after every turn that got through: exactly the batches that had arrived a delay
      before its instant, or earlier, were sent; and nothing that arrived is unaccounted for. */
  lemma TurnsAreExact(line: RelayerDelay, n: nat, k: nat)
    requires line.Valid() && n < |line.journal.passes| && line.journal.passes[n].whole && k < line.journal.passes[n].received
    ensures k < |line.journal.arrivals|
    ensures k < line.journal.passes[n].sent <==> line.journal.arrivals[k].arrived + line.delay <= line.journal.passes[n].now
    ensures |line.sent| + line.journal.lost + |line.queue| == |line.journal.arrivals|
    ensures line.queue == line.journal.arrivals[|line.sent| + line.journal.lost..]
  {
    PassesAreExact(line.journal, line.filters.log, line.began, line.filters.clock.now, line.delay, MarkBatches, n, k);
  }

  // ---------------------------------------------------------------- the block engine's responses

  /** A response of the block engine; each of the two loops carries one of the kinds. */
  datatype Response = Packets(packets: PacketsResponse) | Bundles(bundles: BundlesResponse)

  function RetainResponse(blocked: set<Signature>, resp: Response): Response {
    match resp
    case Packets(packets) => Packets(RetainPackets(blocked, packets))
    case Bundles(bundles) => Bundles(RetainBundles(blocked, bundles))
  }

  /** What the broadcast channel yields. */
  datatype Broadcast = Message(resp: Response) | Lagged(missed: nat) | Closed

  /** The responses among what the channel yielded, in order. */
  ghost function Responses(yielded: seq<Broadcast>): seq<Response> {
    if yielded == [] then []
    else
      var last := yielded[|yielded| - 1];
      Responses(yielded[..|yielded| - 1]) + if last.Message? then [last.resp] else []
  }

  lemma ResponsesSnoc(yielded: seq<Broadcast>, n: nat)
    requires n < |yielded|
    ensures Responses(yielded[..n + 1]) ==
            Responses(yielded[..n]) + if yielded[n].Message? then [yielded[n].resp] else []
  {
    assert yielded[..n + 1][..n] == yielded[..n];
  }

  lemma NoResponses()
    ensures Responses([]) == []
  {
  }

  /** What a poll finds besides the timer: shutdown, and whether the channel has something to yield. */
  datatype Wake = Wake(shutdown: bool, ready: bool)

  /** The loop that delays the block engine's packets or bundles. Sweeps are made by the relayer's
      thread. */
  class ResponseDelay {
    const filters: FilterSet
    const delay: Time
    ghost const began: Time
    var queue: seq<Entry<Response>>
    var sent: seq<Response>
    ghost var journal: Journal<Response>

    ghost predicate Keeping()
      reads this, filters, filters.clock
    {
      && filters.Valid() && filters.latest <= filters.clock.now && began <= filters.clock.now
      && Sound(journal, filters.log, began, filters.clock.now, delay, RetainResponse)
      && journal.lost == 0
      && queue == journal.Queued() && sent == journal.Sent()
    }

    /** Between two polls. */
    ghost predicate Valid()
      reads this, filters, filters.clock
    {
      && Keeping() && journal.Settled() == |journal.releases|
      && forall n :: 0 <= n < |journal.passes| ==> journal.passes[n].whole
    }

    constructor (filters: FilterSet, delay: Time)
      requires filters.Valid() && filters.latest <= filters.clock.now
      ensures Valid() && fresh(this) && this.filters == filters && this.delay == delay
      ensures began == filters.clock.now && journal == Nothing()
    {
      this.filters, this.delay, began := filters, delay, filters.clock.now;
      queue, sent, journal := [], [], Nothing();
      NothingIsSound<Response>(filters.log, filters.clock.now, delay, RetainResponse);
    }

    /** The loop, over the polls it makes, on a channel that yields `incoming`, of which it takes the first
        `taken`. It ends early exactly on shutdown or when it takes the channel's end; what it loses then
        is what is queued. */
    method Run(incoming: seq<Broadcast>, wakes: seq<Wake>) returns (polls: nat, taken: nat)
      requires Valid() && journal == Nothing()
      modifies this, filters, filters.clock
      ensures Valid() && polls <= |wakes| && taken <= |incoming|
      ensures Items(journal.arrivals) == Responses(incoming[..taken])
      ensures forall n :: 0 <= n < polls - 1 ==> !wakes[n].shutdown
      ensures forall n :: 0 <= n < taken - 1 ==> !incoming[n].Closed?
      ensures polls < |wakes| ==>
                polls > 0 && (wakes[polls - 1].shutdown || (taken > 0 && incoming[taken - 1].Closed?))
    {
      hide FilterSet.Valid, Sound, Responses;
      polls, taken := 0, 0;
      NoResponses();
      while polls < |wakes|
        invariant Valid() && polls <= |wakes| && taken <= |incoming|
        invariant Items(journal.arrivals) == Responses(incoming[..taken])
        invariant forall n :: 0 <= n < polls ==> !wakes[n].shutdown
        invariant forall n :: 0 <= n < taken ==> !incoming[n].Closed?
      {
        var wake := wakes[polls];
        var next := if wake.ready && taken < |incoming| then Some(incoming[taken]) else None;
        var alive, released;
        ghost var polled;
        alive, released, polled := Poll(wake.shutdown, next);
        polls := polls + 1;
        if !wake.shutdown && !released && next.Some? {
          ResponsesSnoc(incoming, taken);
          taken := taken + 1;
        }
        if !alive {
          return;
        }
      }
    }

    /** One poll of the biased select: shutdown first, then the release timer, then the channel.
        `released` says the timer arm ran. A timer is ready at a poll exactly when its instant has
        been reached; `polled` is the instant of the poll. */
    method Poll(shutdown: bool, received: Option<Broadcast>) returns (alive: bool, released: bool, ghost polled: Time)
      requires Valid()
      modifies this, filters, filters.clock
      ensures Valid() && old(filters.clock.now) <= filters.clock.now && old(sent) <= sent
      ensures Items(journal.arrivals) == Items(old(journal).arrivals)
                + if !shutdown && !released && received.Some? && received.value.Message? then [received.value.resp] else []
      ensures old(filters.clock.now) <= polled <= filters.clock.now
      ensures released <==> !shutdown && !NoneDue(old(queue), polled)
      ensures if released
              then && |journal.passes| == |old(journal).passes| + 1 && old(journal).passes <= journal.passes
                   && journal.passes[|journal.passes| - 1].start == polled && |sent| > |old(sent)|
              else journal.passes == old(journal).passes && sent == old(sent)
      ensures !alive <==> shutdown || (!released && received == Some(Closed))
      ensures !alive ==> queue == old(queue)
    {
      hide FilterSet.Valid, Sound;
      var t := Wait();
      polled, released := t, false;
      if shutdown {
        return false, false, polled;
      }
      AllPast(journal, filters.log, began, t, delay, RetainResponse);
      if queue != [] && queue[0].due <= t {
        ReleaseDue(t);
        return true, true, polled;
      }
      StopAtFirstNotDue(journal, filters.log, began, t, delay, RetainResponse, t);
      match received {
        case Some(Message(resp)) => var _ := Enqueue(resp);
        case Some(Lagged(_)) =>
        case Some(Closed) =>
          return false, false, polled;
        case None =>
      }
      alive := true;
    }

    /** Time passes; the other tasks and threads insert and sweep. */
    method Wait() returns (t: Time)
      requires Keeping()
      modifies filters, filters.clock
      ensures Keeping() && old(filters.clock.now) <= t == filters.clock.now && filters.log.sweeps != []
    {
      hide Sound;
      filters.InterfereAndSweep();
      hide FilterSet.Valid;
      t := filters.clock.Read();
      LaterIsSound(journal, old(filters.log), filters.log, began, old(filters.clock.now), t, delay, RetainResponse);
    }

    method Enqueue(resp: Response) returns (at: Time)
      requires Valid()
      modifies this`queue, this`journal, filters, filters.clock
      ensures Valid() && old(filters.clock.now) <= at == filters.clock.now
      ensures journal == old(journal).Arrive(Entry(at, at + delay, resp))
    {
      hide FilterSet.Valid, Sound;
      at := Wait();
      ArriveIsSound(journal, filters.log, began, at, delay, RetainResponse, resp);
      queue := queue + [Entry(at, at + delay, resp)];
      journal := journal.Arrive(Entry(at, at + delay, resp));
    }

    /** The filter of the loop's own kind of response. */
    method OnRelease(resp: Response) returns (out: Response)
      requires filters.Valid()
      ensures out == RetainResponse(filters.table.Keys, resp)
    {
      match resp {
        case Packets(packets) =>
          var kept := filters.FilterBePackets(packets);
          out := Packets(kept);
        case Bundles(bundles) =>
          var kept := filters.FilterBeBundles(bundles);
          out := Bundles(kept);
      }
    }

    method SendFront(now: Time)
      requires Keeping() && queue != [] && queue[0].due <= now <= filters.clock.now
      modifies this`queue, this`sent, this`journal, filters, filters.clock
      ensures Keeping() && old(filters.clock.now) <= filters.clock.now
      ensures queue == old(queue[1..]) && |sent| == |old(sent)| + 1 && old(sent) <= sent
      ensures |journal.releases| == |old(journal).releases| + 1 && journal.releases[|old(journal).releases|].at == now
      ensures journal == old(journal).HandOn(journal.releases[|old(journal).releases|])
    {
      hide FilterSet.Valid, Sound;
      var filteredAt := Wait();
      var front := queue[0];
      var out := OnRelease(front.item);
      ghost var r := Release(now, filteredAt, filters.log, filters.table.Keys, front.item, out);
      HandOnIsSound(journal, filters, began, filteredAt, delay, RetainResponse, r);
      queue, sent, journal := queue[1..], sent + [out], journal.HandOn(r);
    }

    method ReleaseDue(polled: Time)
      requires Valid() && began <= polled <= filters.clock.now && queue != [] && queue[0].due <= polled
      requires forall n :: 0 <= n < |journal.passes| ==> journal.passes[n].now <= polled
      modifies this, filters, filters.clock
      ensures Valid() && old(filters.clock.now) <= filters.clock.now && old(sent) <= sent && |sent| > |old(sent)|
      ensures journal.arrivals == old(journal).arrivals
      ensures |journal.passes| == |old(journal).passes| + 1 && old(journal).passes <= journal.passes
      ensures journal.passes[|journal.passes| - 1].start == polled
    {
      hide FilterSet.Valid, Sound;
      var now := Wait();
      AllPast(journal, filters.log, began, now, delay, RetainResponse);
      ghost var sweeps := |filters.log.sweeps|;
      ReleaseUntil(now);
      StopAtFirstNotDue(journal, filters.log, began, filters.clock.now, delay, RetainResponse, now);
      ghost var p := Pass(polled, sweeps, now, |journal.arrivals|, |journal.releases|, true);
      EndPassIsSound(journal, filters.log, began, filters.clock.now, delay, RetainResponse, p);
      journal := journal.EndPass(p);
    }

    /** The releases of a pass at `now`, up to the first entry that is not due. */
    method ReleaseUntil(now: Time)
      requires Keeping() && now <= filters.clock.now && SamePass(journal.releases, journal.Settled(), now)
      requires forall k :: 0 <= k < |journal.releases| ==> journal.releases[k].at <= now
      modifies this, filters, filters.clock
      ensures Keeping() && old(filters.clock.now) <= filters.clock.now && old(sent) <= sent
      ensures journal.arrivals == old(journal).arrivals && journal.passes == old(journal).passes
      ensures SamePass(journal.releases, journal.Settled(), now)
      ensures forall k :: 0 <= k < |journal.releases| ==> journal.releases[k].at <= now
      ensures queue == [] || queue[0].due > now
      ensures old(queue) != [] && old(queue[0].due <= now) ==> |sent| > |old(sent)|
    {
      hide ResponseDelay.Keeping;
      while queue != [] && queue[0].due <= now
        invariant Keeping() && old(filters.clock.now) <= filters.clock.now && old(sent) <= sent
        invariant journal.arrivals == old(journal).arrivals && journal.passes == old(journal).passes
        invariant SamePass(journal.releases, journal.Settled(), now)
        invariant forall k :: 0 <= k < |journal.releases| ==> journal.releases[k].at <= now
        invariant |sent| > |old(sent)| || queue == old(queue)
        decreases |queue|
      {
        SendFront(now);
      }
    }
  }

  ghost predicate BundleMayPass(u: BundleUuid, insertions: set<Insertion>, filteredAt: Time, sweep: Span) {
    u.bundle.Some? ==> forall p :: p in u.bundle.value ==> MayPass(p.data, insertions, filteredAt, sweep)
  }

  ghost predicate BundleMayBlock(u: BundleUuid, insertions: set<Insertion>, filteredAt: Time, sweep: Span) {
    u.bundle.Some? && exists p :: p in u.bundle.value && MayBlock(p.data, insertions, filteredAt, sweep)
  }

  /** Every response that left did so in exactly one pass, at least the delay after it arrived, and was
      filtered under sweep `s`, the last one before its filtering. */
  lemma ResponseLeaves(line: ResponseDelay, k: nat) returns (n: nat, s: nat)
    requires line.Valid() && k < |line.sent|
    ensures SentIn(line.journal.passes, n, k) && k < |line.journal.releases| <= |line.journal.arrivals|
    ensures forall m: nat :: SentIn(line.journal.passes, m, k) ==> m == n
    ensures var p, e, r := line.journal.passes[n], line.journal.arrivals[k], line.journal.releases[k];
            && line.began <= e.arrived && e.arrived + line.delay <= p.now <= r.filteredAt
            && LatestSweep(line.filters.log, s, r.filteredAt) && s == |r.seen.sweeps| - 1
            && line.sent[k] == RetainResponse(r.blocked, e.item)
  {
    hide FilterSet.Valid;
    n := PassOf(line.journal.passes, k);
    forall m: nat | SentIn(line.journal.passes, m, k)
      ensures m == n
    {
      PassIsUnique(line.journal.passes, line.began, line.filters.clock.now, m, n, k);
    }
    assert Exact(line.journal.passes[n], line.journal.arrivals);
    s := |line.journal.releases[k].seen.sweeps| - 1;
    BlockedRightly(line.journal, line.filters.log, line.began, line.filters.clock.now, line.delay, RetainResponse, k, []);
  }

  /** End-to-end filtering of the block engine's packets: what is sent of a batch are, in order, the
      packets that `keep` accepts; it accepts only what may pass and refuses only what may be blocked. */
  lemma PacketsEndToEnd(line: ResponseDelay, k: nat, packets: seq<ProtoPacket>)
    returns (n: nat, s: nat, keep: ProtoPacket -> bool)
    requires line.Valid() && k < |line.sent| && k < |line.journal.arrivals|
    requires line.journal.arrivals[k].item == Packets(PacketsResponse(Some(packets)))
    ensures SentIn(line.journal.passes, n, k) && k < |line.journal.releases|
    ensures line.journal.arrivals[k].arrived + line.delay <= line.journal.passes[n].now
    ensures LatestSweep(line.filters.log, s, line.journal.releases[k].filteredAt)
    ensures line.sent[k] == Packets(PacketsResponse(Some(Retain(keep, packets))))
    ensures forall p :: p in packets ==>
              var log, at := line.filters.log, line.journal.releases[k].filteredAt;
              if keep(p) then MayPass(p.data, log.insertions, at, log.sweeps[s])
              else MayBlock(p.data, log.insertions, at, log.sweeps[s])
  {
    n, s := ResponseLeaves(line, k);
    var blocked := line.journal.releases[k].blocked;
    keep := p => KeepsPacket(blocked, p);
    forall p | p in packets
      ensures var log, at := line.filters.log, line.journal.releases[k].filteredAt;
              if keep(p) then MayPass(p.data, log.insertions, at, log.sweeps[s])
              else MayBlock(p.data, log.insertions, at, log.sweeps[s])
    {
      BlockedRightly(line.journal, line.filters.log, line.began, line.filters.clock.now, line.delay, RetainResponse, k, p.data);
    }
  }

  /** The same for bundles, each of which passes whole, if all its packets may, or not at all. */
  lemma BundlesEndToEnd(line: ResponseDelay, k: nat, bundles: seq<BundleUuid>)
    returns (n: nat, s: nat, keep: BundleUuid -> bool)
    requires line.Valid() && k < |line.sent| && k < |line.journal.arrivals|
    requires line.journal.arrivals[k].item == Bundles(BundlesResponse(bundles))
    ensures SentIn(line.journal.passes, n, k) && k < |line.journal.releases|
    ensures line.journal.arrivals[k].arrived + line.delay <= line.journal.passes[n].now
    ensures LatestSweep(line.filters.log, s, line.journal.releases[k].filteredAt)
    ensures line.sent[k] == Bundles(BundlesResponse(Retain(keep, bundles)))
    ensures forall u :: u in bundles ==>
              var log, at := line.filters.log, line.journal.releases[k].filteredAt;
              if keep(u) then BundleMayPass(u, log.insertions, at, log.sweeps[s])
              else BundleMayBlock(u, log.insertions, at, log.sweeps[s])
  {
    n, s := ResponseLeaves(line, k);
    var blocked := line.journal.releases[k].blocked;
    keep := u => KeepsBundle(blocked, u);
    forall u | u in bundles
      ensures var log, at := line.filters.log, line.journal.releases[k].filteredAt;
              if keep(u) then BundleMayPass(u, log.insertions, at, log.sweeps[s])
              else BundleMayBlock(u, log.insertions, at, log.sweeps[s])
    {
      if u.bundle.Some? {
        forall p | p in u.bundle.value
          ensures var log, at := line.filters.log, line.journal.releases[k].filteredAt;
                  if Blocks(blocked, p.data) then MayBlock(p.data, log.insertions, at, log.sweeps[s])
                  else MayPass(p.data, log.insertions, at, log.sweeps[s])
        {
          BlockedRightly(line.journal, line.filters.log, line.began, line.filters.clock.now, line.delay, RetainResponse, k, p.data);
        }
      }
    }
  }
}
