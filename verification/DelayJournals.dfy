/** What a delay line did, from its start on: every item that arrived, every release, and every pass
    over the queue. The two loops keep such a journal; what is promised of whole runs is stated of it. */
module DelayJournals {
  import opened Prelude
  import opened Packets
  import opened FilterSets

  /** A queued item, the instant it is due, and, as an auxiliary, the instant it arrived. */
  datatype Entry<T> = Entry(arrived: Time, due: Time, item: T)

  /** One item handed on: the instant of its pass, the instant at which it was filtered, what had
      happened to the filter set by then, the signatures blocked then, and the item before and after. */
  datatype Release<T> = Release(at: Time, filteredAt: Time, seen: Log, blocked: set<Signature>, input: T, output: T)

  /** One pass over the queue: when the loop turned to it, how many sweeps there had been and the
      instant it compared with when it started to release, how many items had arrived and had been
      handed on when it ended, and whether it got through. */
  datatype Pass = Pass(start: Time, sweeps: nat, now: Time, received: nat, sent: nat, whole: bool)

  /** `lost` counts the items taken from the queue and not handed on. */
  datatype Journal<T> = Journal(arrivals: seq<Entry<T>>, releases: seq<Release<T>>, lost: nat, passes: seq<Pass>)
  {
    /** What is still queued. */
    function Queued(): seq<Entry<T>> {
      if |releases| + lost <= |arrivals| then arrivals[|releases| + lost..] else []
    }

    function Sent(): seq<T> {
      seq(|releases|, k requires 0 <= k < |releases| => releases[k].output)
    }

    /** How many releases belong to a pass that has ended. */
    function Settled(): nat {
      if passes == [] then 0 else passes[|passes| - 1].sent
    }

    /** How many items had arrived when the last pass ended. */
    function Heard(): nat {
      if passes == [] then 0 else passes[|passes| - 1].received
    }

    function Arrive(e: Entry<T>): Journal<T> {
      this.(arrivals := arrivals + [e])
    }

    function HandOn(r: Release<T>): Journal<T> {
      this.(releases := releases + [r])
    }

    function EndPass(p: Pass): Journal<T> {
      this.(passes := passes + [p])
    }
  }

  // ---------------------------------------------------------------- what a journal may say

  /** Items arrive in order, after the start, and are due one delay later. */
  ghost predicate Dated<T>(es: seq<Entry<T>>, began: Time, now: Time, delay: Time) {
    && (forall k :: 0 <= k < |es| ==> es[k].due == es[k].arrived + delay && began <= es[k].arrived <= now)
    && (forall i, j :: 0 <= i < j < |es| ==> es[i].arrived <= es[j].arrived)
  }

  /** Blocked is what was inserted less than a TTL before the latest sweep, up to the time the sweep
      itself took, or took effect after it. */
  ghost predicate BlockedBySeen<T>(r: Release<T>) {
    && r.seen.sweeps != []
    && (forall s :: s in r.blocked ==>
          exists i :: i in r.seen.insertions && i.signature == s && MayOutlive(i, r.seen.Swept()))
    && (forall i :: i in r.seen.insertions && i.signature !in r.blocked ==> !Outlives(i, r.seen.Swept()))
  }

  /** The k-th release is of the k-th item to arrive, not before it is due, filtered by what was
      blocked then. */
  ghost predicate Carried<T>(arrivals: seq<Entry<T>>, releases: seq<Release<T>>, filter: (set<Signature>, T) -> T) {
    && |releases| <= |arrivals|
    && forall k :: 0 <= k < |releases| ==>
         && arrivals[k].item == releases[k].input && arrivals[k].due <= releases[k].at
         && releases[k].output == filter(releases[k].blocked, releases[k].input)
         && BlockedBySeen(releases[k])
  }

  /** Every release has seen exactly what happened to the filter set before it filtered. */
  ghost predicate SawAll<T>(releases: seq<Release<T>>, log: Log, now: Time) {
    forall k :: 0 <= k < |releases| ==>
      && releases[k].seen.Swept().to <= releases[k].filteredAt <= now && releases[k].at <= releases[k].filteredAt
      && Grown(releases[k].seen, log, releases[k].filteredAt)
      && forall i :: i in releases[k].seen.insertions ==> i.effect <= releases[k].filteredAt
  }

  /** Passes follow each other in time, and only the last may have been cut short. */
  ghost predicate Successive(passes: seq<Pass>, began: Time, now: Time) {
    && (forall n :: 0 <= n < |passes| ==> began <= passes[n].start <= passes[n].now <= now)
    && (forall m, n :: 0 <= m < n < |passes| ==>
          && passes[m].whole && passes[m].now <= passes[n].start
          && passes[m].received <= passes[n].received && passes[m].sent <= passes[n].sent)
  }

  /** Of what had arrived, a pass leaves handed on only what is due, and if it got through, all of it. */
  ghost predicate Exact<T>(p: Pass, arrivals: seq<Entry<T>>) {
    && p.sent <= p.received <= |arrivals|
    && (forall k :: 0 <= k < p.sent ==> arrivals[k].due <= p.now)
    && (p.whole ==> forall k :: p.sent <= k < p.received ==> arrivals[k].due > p.now)
  }

  ghost predicate AllExact<T>(passes: seq<Pass>, arrivals: seq<Entry<T>>) {
    forall n :: 0 <= n < |passes| ==> Exact(passes[n], arrivals)
  }

  /** Item `k` was handed on in pass `n`. */
  predicate SentIn(passes: seq<Pass>, n: nat, k: nat) {
    n < |passes| && k < passes[n].sent && (n > 0 ==> passes[n - 1].sent <= k)
  }

  /** Item `k` arrived while the loop was at pass `n`. */
  predicate ReceivedIn(passes: seq<Pass>, n: nat, k: nat) {
    n < |passes| && k < passes[n].received && (n > 0 ==> passes[n - 1].received <= k)
  }

  ghost predicate Stamped<T>(passes: seq<Pass>, releases: seq<Release<T>>) {
    forall n: nat, k: nat :: SentIn(passes, n, k) ==> k < |releases| && releases[k].at == passes[n].now
  }

  ghost predicate Sound<T>(j: Journal<T>, log: Log, began: Time, now: Time, delay: Time, filter: (set<Signature>, T) -> T) {
    && |j.releases| + j.lost <= |j.arrivals|
    && Dated(j.arrivals, began, now, delay)
    && Carried(j.arrivals, j.releases, filter)
    && SawAll(j.releases, log, now)
    && Successive(j.passes, began, now)
    && AllExact(j.passes, j.arrivals)
    && Stamped(j.passes, j.releases)
    && j.Settled() <= |j.releases|
  }

  function Nothing<T>(): Journal<T> {
    Journal([], [], 0, [])
  }

  lemma NothingIsSound<T>(log: Log, now: Time, delay: Time, filter: (set<Signature>, T) -> T)
    ensures Sound(Nothing<T>(), log, now, now, delay, filter)
    ensures Nothing<T>().Queued() == [] && Nothing<T>().Sent() == []
  {
    NothingStamped<T>();
    hide Stamped;
  }

  lemma NothingStamped<T>()
    ensures Stamped<T>([], [])
  {
  }

  // ---------------------------------------------------------------- what the loops do to it

  lemma SawAllLater<T>(releases: seq<Release<T>>, log: Log, now: Time, log': Log, now': Time)
    requires SawAll(releases, log, now) && now <= now' && Grown(log, log', now)
    ensures SawAll(releases, log', now')
  {
    forall k | 0 <= k < |releases|
      ensures Grown(releases[k].seen, log', releases[k].filteredAt)
    {
      GrownTwice(releases[k].seen, log, log', releases[k].filteredAt, now);
    }
  }

  /** Time passes, and others insert and sweep. */
  lemma LaterIsSound<T>(j: Journal<T>, log: Log, log': Log, began: Time, now: Time, now': Time, delay: Time,
                        filter: (set<Signature>, T) -> T)
    requires Sound(j, log, began, now, delay, filter) && now <= now' && Grown(log, log', now)
    ensures Sound(j, log', began, now', delay, filter)
  {
    hide SawAll, Carried, AllExact, Stamped, Grown;
    SawAllLater(j.releases, log, now, log', now');
  }

  lemma ArriveIsSound<T>(j: Journal<T>, log: Log, began: Time, now: Time, delay: Time,
                         filter: (set<Signature>, T) -> T, item: T)
    requires Sound(j, log, began, now, delay, filter) && began <= now
    ensures var e := Entry(now, now + delay, item);
            && Sound(j.Arrive(e), log, began, now, delay, filter)
            && j.Arrive(e).Queued() == j.Queued() + [e] && j.Arrive(e).Sent() == j.Sent()
  {
    hide SawAll, Successive, Stamped, BlockedBySeen;
  }

  /** Handing on the front of the queue, by a valid filter set. */
  lemma HandOnIsSound<T>(j: Journal<T>, filters: FilterSet, began: Time, now: Time, delay: Time,
                         filter: (set<Signature>, T) -> T, r: Release<T>)
    requires Sound(j, filters.log, began, now, delay, filter)
    requires filters.Valid() && filters.latest <= now && r.at <= r.filteredAt == now
    requires r.seen == filters.log && r.blocked == filters.table.Keys && r.output == filter(r.blocked, r.input)
    requires j.lost == 0 && j.Queued() != [] && j.Queued()[0].item == r.input && j.Queued()[0].due <= r.at
    ensures Sound(j.HandOn(r), filters.log, began, now, delay, filter)
    ensures j.HandOn(r).Queued() == j.Queued()[1..] && j.HandOn(r).Sent() == j.Sent() + [r.output]
  {
    ValidBlocks(filters, r);
    hide FilterSet.Valid, BlockedBySeen, Dated, Successive, AllExact, Carried, SawAll, Stamped;
    assert j.arrivals[|j.releases|] == j.Queued()[0];
    CarriedSnoc(j.arrivals, j.releases, filter, r);
    StampedGrows(j.passes, j.releases, r);
    SawAllSnoc(j.releases, filters.log, now, r);
  }

  /** A valid filter set blocks what its log says. */
  lemma ValidBlocks<T>(filters: FilterSet, r: Release<T>)
    requires filters.Valid() && r.seen == filters.log && r.blocked == filters.table.Keys
    ensures BlockedBySeen(r) && filters.log.Swept().to <= filters.latest
    ensures forall i :: i in filters.log.insertions ==> i.effect <= filters.latest
  {
    forall s | s in r.blocked
      ensures exists i :: i in r.seen.insertions && i.signature == s && MayOutlive(i, r.seen.Swept())
    {
      assert Current(s, filters.table[s], filters.log);
    }
  }

  lemma CarriedSnoc<T>(arrivals: seq<Entry<T>>, releases: seq<Release<T>>, filter: (set<Signature>, T) -> T, r: Release<T>)
    requires Carried(arrivals, releases, filter) && |releases| < |arrivals| && BlockedBySeen(r)
    requires arrivals[|releases|].item == r.input && arrivals[|releases|].due <= r.at && r.output == filter(r.blocked, r.input)
    ensures Carried(arrivals, releases + [r], filter)
  {
    hide BlockedBySeen;
  }

  lemma StampedGrows<T>(passes: seq<Pass>, releases: seq<Release<T>>, r: Release<T>)
    requires Stamped(passes, releases)
    ensures Stamped(passes, releases + [r])
  {
  }

  lemma SawAllSnoc<T>(releases: seq<Release<T>>, log: Log, now: Time, r: Release<T>)
    requires SawAll(releases, log, now) && r.at <= r.filteredAt == now && r.seen == log && log.Swept().to <= now
    requires forall i :: i in log.insertions ==> i.effect <= now
    ensures SawAll(releases + [r], log, now)
  {
  }

  /** Nothing in the journal is later than now. */
  lemma AllPast<T>(j: Journal<T>, log: Log, began: Time, now: Time, delay: Time, filter: (set<Signature>, T) -> T)
    requires Sound(j, log, began, now, delay, filter)
    ensures forall k :: 0 <= k < |j.arrivals| ==> j.arrivals[k].arrived <= now
    ensures forall k :: 0 <= k < |j.releases| ==> j.releases[k].at <= now
    ensures forall n :: 0 <= n < |j.passes| ==> j.passes[n].now <= now
    ensures |j.releases| + j.lost <= |j.arrivals|
  {
  }

  /** The item taken from the queue is lost. */
  lemma LossIsSound<T>(j: Journal<T>, log: Log, began: Time, now: Time, delay: Time, filter: (set<Signature>, T) -> T)
    requires Sound(j, log, began, now, delay, filter) && j.lost == 0 && j.Queued() != []
    ensures Sound(j.(lost := 1), log, began, now, delay, filter)
    ensures j.(lost := 1).Queued() == j.Queued()[1..] && j.(lost := 1).Sent() == j.Sent()
  {
    hide Dated, Carried, SawAll, Successive, AllExact, Stamped;
  }

  /** A pass may stop at the first entry that is not due: the queue stays sorted. */
  lemma StopAtFirstNotDue<T>(j: Journal<T>, log: Log, began: Time, latest: Time, delay: Time,
                             filter: (set<Signature>, T) -> T, now: Time)
    requires Sound(j, log, began, latest, delay, filter) && (j.Queued() == [] || j.Queued()[0].due > now)
    ensures NoneDue(j.Queued(), now)
  {
    hide Carried, SawAll, Successive, AllExact, Stamped;
  }

  ghost predicate NoneDue<T>(es: seq<Entry<T>>, now: Time) {
    forall k :: 0 <= k < |es| ==> es[k].due > now
  }

  /** The releases from `from` on belong to one pass. */
  ghost predicate SamePass<T>(releases: seq<Release<T>>, from: nat, at: Time) {
    forall k :: from <= k < |releases| ==> releases[k].at == at
  }

  /** A pass ends: all releases since the last pass were made in it. */
  lemma EndPassIsSound<T>(j: Journal<T>, log: Log, began: Time, now: Time, delay: Time,
                          filter: (set<Signature>, T) -> T, p: Pass)
    requires Sound(j, log, began, now, delay, filter) && SamePass(j.releases, j.Settled(), p.now)
    requires began <= p.start <= p.now <= now && p.received == |j.arrivals| && p.sent == |j.releases|
    requires forall n :: 0 <= n < |j.passes| ==> j.passes[n].whole && j.passes[n].now <= p.start
    requires forall k :: 0 <= k < |j.releases| ==> j.releases[k].at <= p.now
    requires p.whole ==> j.lost == 0 && NoneDue(j.Queued(), p.now)
    ensures Sound(j.EndPass(p), log, began, now, delay, filter) && j.EndPass(p).Settled() == |j.releases|
    ensures j.EndPass(p).Queued() == j.Queued() && j.EndPass(p).Sent() == j.Sent()
  {
    assert p.whole ==> forall k :: p.sent <= k < p.received ==> j.arrivals[k] == j.Queued()[k - p.sent];
    hide SawAll, Dated, BlockedBySeen, Stamped, Successive;
    assert Exact(p, j.arrivals);
    StampedEndPass(j.passes, j.releases, p);
    SuccessiveEndPass(j, began, now, p);
  }

  lemma StampedEndPass<T>(passes: seq<Pass>, releases: seq<Release<T>>, p: Pass)
    requires Stamped(passes, releases) && p.sent == |releases|
    requires SamePass(releases, if passes == [] then 0 else passes[|passes| - 1].sent, p.now)
    ensures Stamped(passes + [p], releases)
  {
    forall n: nat, k: nat | SentIn(passes + [p], n, k)
      ensures k < |releases| && releases[k].at == (passes + [p])[n].now
    {
      assert n < |passes| ==> SentIn(passes, n, k);
    }
  }

  lemma SuccessiveEndPass<T>(j: Journal<T>, began: Time, now: Time, p: Pass)
    requires Successive(j.passes, began, now) && AllExact(j.passes, j.arrivals) && j.Settled() <= |j.releases|
    requires began <= p.start <= p.now <= now && p.received == |j.arrivals| && p.sent == |j.releases|
    requires forall n :: 0 <= n < |j.passes| ==> j.passes[n].whole && j.passes[n].now <= p.start
    ensures Successive(j.passes + [p], began, now)
  {
    forall n | 0 <= n < |j.passes|
      ensures j.passes[n].received <= p.received && j.passes[n].sent <= p.sent
    {
      assert Exact(j.passes[n], j.arrivals);
      assert n < |j.passes| - 1 ==> j.passes[n].sent <= j.passes[|j.passes| - 1].sent;
    }
  }

  // ---------------------------------------------------------------- what follows of whole runs

  /** Every item handed on was handed on in exactly one pass. */
  lemma {:induction false} PassOf(passes: seq<Pass>, k: nat) returns (n: nat)
    requires passes != [] && k < passes[|passes| - 1].sent
    ensures SentIn(passes, n, k)
    decreases |passes|
  {
    n := |passes| - 1;
    if n > 0 && k < passes[n - 1].sent {
      n := PassOf(passes[..n], k);
    }
  }

  lemma PassIsUnique(passes: seq<Pass>, began: Time, now: Time, m: nat, n: nat, k: nat)
    requires Successive(passes, began, now) && SentIn(passes, m, k) && SentIn(passes, n, k)
    ensures m == n
  {
  }

  /** The queue refines its declarative meaning. After every pass that got through, what had been handed
      on is exactly what had arrived a delay before the pass or earlier. Everything that arrived is, in
      order, what was handed on, what was lost, and what is queued. */
  lemma PassesAreExact<T>(j: Journal<T>, log: Log, began: Time, now: Time, delay: Time,
                          filter: (set<Signature>, T) -> T, n: nat, k: nat)
    requires Sound(j, log, began, now, delay, filter) && n < |j.passes| && j.passes[n].whole && k < j.passes[n].received
    ensures k < |j.arrivals| && (k < j.passes[n].sent <==> j.arrivals[k].arrived + delay <= j.passes[n].now)
    ensures j.arrivals == j.arrivals[..|j.releases| + j.lost] + j.Queued()
    ensures forall i :: 0 <= i < |j.releases| ==> j.arrivals[i].item == j.releases[i].input
  {
    assert Exact(j.passes[n], j.arrivals);
  }

  /** Data with this first signature may pass a filter: every insertion of the signature that took effect
      before the filtering had done so, and was a TTL old, when the latest sweep ended. */
  ghost predicate MayPass(data: Bytes, insertions: set<Insertion>, filteredAt: Time, sweep: Span) {
    |data| >= 65 ==>
      forall i :: i in insertions && i.signature == data[1..65] && i.effect < filteredAt ==> !Outlives(i, sweep)
  }

  /** It may be blocked: an insertion of the signature took effect before the filtering, and was made less
      than a TTL before the latest sweep began, or took effect after the sweep. */
  ghost predicate MayBlock(data: Bytes, insertions: set<Insertion>, filteredAt: Time, sweep: Span) {
    |data| >= 65 &&
    exists i :: i in insertions && i.signature == data[1..65] && i.effect <= filteredAt && MayOutlive(i, sweep)
  }

  /** The sweep that counts for a release is the last one in the filter set's log before the filtering. */
  ghost predicate LatestSweep(log: Log, n: nat, filteredAt: Time) {
    && n < |log.sweeps| && log.sweeps[n].to <= filteredAt
    && forall m :: n < m < |log.sweeps| ==> filteredAt <= log.sweeps[m].from
  }

  /** What was blocked when an item was filtered is right for every byte string. */
  lemma BlockedRightly<T>(j: Journal<T>, log: Log, began: Time, now: Time, delay: Time,
                          filter: (set<Signature>, T) -> T, k: nat, data: Bytes)
    requires Sound(j, log, began, now, delay, filter) && k < |j.releases|
    ensures var r, n := j.releases[k], |j.releases[k].seen.sweeps| - 1;
            && n >= 0 && LatestSweep(log, n, r.filteredAt)
            && if Blocks(r.blocked, data) then MayBlock(data, log.insertions, r.filteredAt, log.sweeps[n])
               else MayPass(data, log.insertions, r.filteredAt, log.sweeps[n])
  {
    hide Dated, Successive, AllExact, Stamped;
    var r := j.releases[k];
    assert BlockedBySeen(r) && Grown(r.seen, log, r.filteredAt);
    assert log.sweeps[|r.seen.sweeps| - 1] == r.seen.Swept();
    if Blocks(r.blocked, data) {
      assert data[1..65] in r.blocked;
    }
  }
}
