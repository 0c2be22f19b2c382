/** The set of blocked signatures: a table with a time to live, its cached size, and the three
    filters that consult it. A sweep and a filter are one atomic step here, and an insert is two, in
    which it reads the clock and takes effect; the module FilterSetConcurrency justifies that. */
module FilterSets {
  import opened Prelude
  import opened Clocks
  import opened Packets

  type Table = map<Signature, Time>

  const TTL: Time := 2 * SECOND
  const FILTER_TAG: Byte := 0

  /** An insertion is dated by a clock read and takes effect no earlier. */
  datatype Insertion = Insertion(signature: Signature, at: Time, effect: Time)

  /** An insert that has read the clock and has not taken effect. */
  datatype Pending = Pending(signature: Signature, at: Time)

  /** `after` is what a sweep that reads the clock once per entry, between `start` and `end`, may
      leave of `before`. */
  ghost predicate SweptBetween(before: Table, after: Table, start: Time, end: Time) {
    && (forall s :: s in after ==> s in before && after[s] == before[s] && before[s] + TTL > start)
    && (forall s :: s in before && s !in after ==> before[s] + TTL <= end)
  }

  /** The interval a sweep took. */
  datatype Span = Span(from: Time, to: Time)

  /** Every insertion ever made and every sweep, in order. The creation of the set, when it is empty,
      counts as the first sweep. */
  datatype Log = Log(insertions: set<Insertion>, sweeps: seq<Span>)
  {
    /** The latest sweep. */
    function Swept(): Span {
      if sweeps == [] then Span(0, 0) else sweeps[|sweeps| - 1]
    }

    function Inserted(i: Insertion): Log {
      this.(insertions := insertions + {i})
    }

    function SweptAgain(s: Span): Log {
      this.(sweeps := sweeps + [s])
    }
  }

  /** `later` extends `earlier` by insertions that took effect, and sweeps made, at `since` or after. */
  ghost predicate Grown(earlier: Log, later: Log, since: Time) {
    && earlier.insertions <= later.insertions
    && (forall i :: i in later.insertions && i !in earlier.insertions ==> i.effect >= since)
    && earlier.sweeps <= later.sweeps
    && (forall n :: |earlier.sweeps| <= n < |later.sweeps| ==> later.sweeps[n].from >= since)
  }

  /** The insertion was certainly younger than the TTL at the sweep, or took effect after it: a sweep that
      reads the clock at any time within its span does not drop it. */
  predicate Outlives(i: Insertion, sweep: Span) {
    i.at + 2 * SECOND > sweep.to || i.effect > sweep.to
  }

  /** A sweep that reads the clock at some time within its span may keep it. */
  predicate MayOutlive(i: Insertion, sweep: Span) {
    i.at + 2 * SECOND > sweep.from || i.effect >= sweep.to
  }

  /** What a datagram asks to be blocked: a tag byte, then exactly one signature. */
  function Requested(bytes: Bytes): (r: Option<Signature>)
    ensures r.Some? <==> |bytes| == 65 && bytes[0] == 0
    ensures r.Some? ==> r.value == bytes[1..]
  {
    if bytes == [] then None
    else
      var tag, signature := bytes[0], bytes[1..];
      if tag != FILTER_TAG then None
      else if |signature| != 64 then None
      else Some(signature)
  }

  /** The table holds the latest insertion of a signature. That one was younger than the TTL when the
      latest sweep began, or took effect after it. A signature is not in the table if every insertion of
      it was a TTL old, and had taken effect, when the latest sweep ended. */
  ghost predicate Tracks(table: Table, log: Log) {
    && (forall s :: s in table ==> Current(s, table[s], log))
    && (forall i :: i in log.insertions ==>
          if i.signature in table then i.at <= table[i.signature] else !Outlives(i, log.Swept()))
  }

  ghost predicate Current(s: Signature, at: Time, log: Log) {
    exists i :: i in log.insertions && i.signature == s && i.at == at && MayOutlive(i, log.Swept())
  }

  lemma InsertTracks(table: Table, log: Log, i: Insertion)
    requires Tracks(table, log) && log.Swept().to <= i.effect
    requires forall j :: j in log.insertions ==> j.at <= i.at
    ensures Tracks(table[i.signature := i.at], log.Inserted(i))
  {
    var table', log' := table[i.signature := i.at], log.Inserted(i);
    forall s | s in table'
      ensures Current(s, table'[s], log')
    {
      if s != i.signature {
        assert Current(s, table[s], log);
        var j :| j in log.insertions && j.signature == s && j.at == table[s] && MayOutlive(j, log.Swept());
        assert j in log'.insertions;
      } else {
        assert i in log'.insertions;
      }
    }
  }

  lemma SweepTracks(before: Table, after: Table, log: Log, span: Span)
    requires Tracks(before, log) && SweptBetween(before, after, span.from, span.to) && log.Swept().to <= span.from <= span.to
    requires forall i :: i in log.insertions ==> i.effect <= span.to
    ensures Tracks(after, log.SweptAgain(span))
  {
    var log' := log.SweptAgain(span);
    forall s | s in after
      ensures Current(s, after[s], log')
    {
      assert Current(s, before[s], log);
      var j :| j in log.insertions && j.signature == s && j.at == before[s] && MayOutlive(j, log.Swept());
      assert j in log'.insertions;
    }
  }

  lemma GrownTwice(a: Log, b: Log, c: Log, s: Time, t: Time)
    requires Grown(a, b, s) && Grown(b, c, t) && s <= t
    ensures Grown(a, c, s)
  {
  }

  lemma NothingGrown(a: Log, s: Time)
    ensures Grown(a, a, s)
  {
  }

  lemma GrownSweep(a: Log, b: Log, s: Time, span: Span)
    requires Grown(a, b, s) && s <= span.from
    ensures Grown(a, b.SweptAgain(span), s)
  {
  }

  lemma GrownInsert(a: Log, b: Log, s: Time, i: Insertion)
    requires Grown(a, b, s) && s <= i.effect
    ensures Grown(a, b.Inserted(i), s)
  {
  }

  class FilterSet {
    const clock: Clock
    var table: Table
    var len: nat
    /** The insert in progress; inserts exclude each other. */
    var pending: Option<Pending>

    /** What has happened to the set, and a bound on all instants in it. */
    ghost var log: Log
    ghost var latest: Time

    ghost predicate Valid()
      reads this
    {
      && len == |table|
      && log.sweeps != [] && log.Swept().from <= log.Swept().to <= latest
      && (forall i :: i in log.insertions ==> i.at <= i.effect <= latest)
      && Tracks(table, log)
      && (pending.Some? ==> forall i :: i in log.insertions ==> i.at <= pending.value.at)
      && (pending.Some? ==> pending.value.at <= latest)
    }

    constructor (clock: Clock)
      ensures Valid() && fresh(this) && this.clock == clock && pending == None
      ensures table == map[] && log == Log({}, [Span(clock.now, clock.now)]) && latest == clock.now
    {
      this.clock := clock;
      table, len, pending := map[], 0, None;
      log, latest := Log({}, [Span(clock.now, clock.now)]), clock.now;
    }

    /** The first half of an insert: the clock read. */
    method BeginInsert(signature: Signature)
      requires Valid() && latest <= clock.now && pending.None?
      modifies this`pending, this`latest, clock
      ensures Valid() && old(clock.now) <= clock.now && latest <= clock.now
      ensures pending == Some(Pending(signature, clock.now))
    {
      var at := clock.Read();
      pending, latest := Some(Pending(signature, at)), at;
    }

    /** The second half: the table and the size change, at some later instant. */
    method FinishInsert() returns (ghost i: Insertion)
      requires Valid() && latest <= clock.now && pending.Some?
      modifies this, clock
      ensures Valid() && old(clock.now) <= clock.now && latest <= clock.now && pending.None?
      ensures i == Insertion(old(pending).value.signature, old(pending).value.at, clock.now)
      ensures table == old(table)[i.signature := i.at] && log == old(log).Inserted(i)
    {
      hide Tracks;
      var effect := clock.Read();
      var p := pending.value;
      i := Insertion(p.signature, p.at, effect);
      table := table[p.signature := p.at];
      len := |table|;
      pending := None;
      InsertTracks(old(table), log, i);
      log, latest := log.Inserted(i), effect;
    }

    /** An insert without interruption. */
    method Insert(signature: Signature) returns (ghost i: Insertion)
      requires Valid() && latest <= clock.now && pending.None?
      modifies this, clock
      ensures Valid() && latest <= clock.now && pending.None?
      ensures i.signature == signature && old(clock.now) <= i.at <= i.effect == clock.now
      ensures table == old(table)[signature := i.at] && log == old(log).Inserted(i)
    {
      BeginInsert(signature);
      i := FinishInsert();
    }

    predicate IsEmpty()
      reads this
    {
      len == 0
    }

    /** Drops what has outlived the TTL. The clock is read anew for every entry. */
    method Sweep()
      requires Valid() && latest <= clock.now
      modifies this, clock
      ensures Valid() && latest == clock.now && old(clock.now) <= clock.now && pending == old(pending)
      ensures log == old(log).SweptAgain(Span(old(clock.now), clock.now))
      ensures SweptBetween(old(table), table, old(clock.now), clock.now)
    {
      hide Tracks;
      ghost var before, start := table, clock.now;
      if !IsEmpty() {
        var rest := table.Keys;
        while rest != {}
          invariant rest <= table.Keys
          invariant start <= clock.now
          invariant forall s :: s in table ==> s in before && table[s] == before[s]
          invariant forall s :: s in table && s !in rest ==> before[s] + TTL > start
          invariant forall s :: s in before && s !in table ==> before[s] + TTL <= clock.now
          modifies this`table, clock
        {
          var s :| s in rest;
          var now := clock.Read();
          if now - table[s] >= TTL {
            table := table - {s};
          }
          rest := rest - {s};
        }
        len := |table|;
      }
      SweepTracks(before, table, log, Span(start, clock.now));
      log, latest := log.SweptAgain(Span(start, clock.now)), clock.now;
    }

    /** Handles a datagram from the mirror server. */
    method IngestFilter(bytes: Bytes) returns (accepted: bool, ghost i: Option<Insertion>)
      requires Valid() && latest <= clock.now && pending.None?
      modifies this, clock
      ensures Valid() && old(clock.now) <= clock.now && latest <= clock.now && pending.None?
      ensures accepted <==> |bytes| == 65 && bytes[0] == 0
      ensures if accepted
              then && i.Some? && i.value.signature == bytes[1..]
                   && old(clock.now) <= i.value.at <= i.value.effect == clock.now
                   && log == old(log).Inserted(i.value) && table == old(table)[bytes[1..] := i.value.at]
              else log == old(log) && table == old(table)
    {
      i := None;
      var signature := Requested(bytes);
      if signature.None? {
        return false, None;
      }
      ghost var inserted := Insert(signature.value);
      return true, Some(inserted);
    }

    /** Whatever the mirror connection does while another thread is between two of its steps. It may be in
        the middle of an insert before and after. */
    method Interfere()
      requires Valid() && latest <= clock.now
      modifies this, clock
      ensures Valid() && old(clock.now) <= clock.now && latest <= clock.now && Grown(old(log), log, old(clock.now))
      ensures log.sweeps == old(log).sweeps
    {
      hide FilterSet.Valid, Grown;
      NothingGrown(log, clock.now);
      var steps: nat :| true;
      while steps > 0
        invariant Valid() && old(clock.now) <= clock.now && latest <= clock.now && Grown(old(log), log, old(clock.now))
        invariant log.sweeps == old(log).sweeps
      {
        if pending.Some? {
          ghost var before := log;
          ghost var i := FinishInsert();
          GrownInsert(old(log), before, old(clock.now), i);
        } else {
          var bytes: Bytes :| true;
          var signature := Requested(bytes);
          if signature.Some? {
            BeginInsert(signature.value);
          }
        }
        steps := steps - 1;
      }
    }

    /** A sweep with other threads' insertions before and after it. */
    method SweepAmongInsertions()
      requires Valid() && latest <= clock.now
      modifies this, clock
      ensures Valid() && latest <= clock.now && Grown(old(log), log, old(clock.now))
      ensures old(clock.now) <= log.Swept().from <= log.Swept().to <= clock.now
    {
      hide FilterSet.Valid, Grown;
      Interfere();
      label sweeping:
      Sweep();
      GrownSweep(old(log), old@sweeping(log), old(clock.now), Span(old@sweeping(clock.now), clock.now));
      label swept:
      Interfere();
      GrownTwice(old(log), old@swept(log), log, old(clock.now), old@swept(clock.now));
    }

    /** As `Interfere`, seen from a task other than the one that sweeps. */
    method InterfereAndSweep()
      requires Valid() && latest <= clock.now
      modifies this, clock
      ensures Valid() && old(clock.now) <= clock.now && latest <= clock.now && Grown(old(log), log, old(clock.now))
    {
      hide FilterSet.Valid, Grown;
      NothingGrown(log, clock.now);
      var rounds: nat :| true;
      while rounds > 0
        invariant Valid() && old(clock.now) <= clock.now && latest <= clock.now && Grown(old(log), log, old(clock.now))
      {
        label round:
        Interfere();
        label sweeping:
        GrownTwice(old(log), old@round(log), log, old(clock.now), old@round(clock.now));
        Sweep();
        GrownSweep(old(log), old@sweeping(log), old(clock.now), Span(old@sweeping(clock.now), clock.now));
        rounds := rounds - 1;
      }
      label last:
      Interfere();
      GrownTwice(old(log), old@last(log), log, old(clock.now), old@last(clock.now));
    }

    method DiscardFiltered(batch: PacketBatches) returns (out: PacketBatches)
      requires Valid()
      ensures out == MarkBatches(table.Keys, batch)
    {
      out := batch;
      if IsEmpty() {
        MarkUnion(table.Keys, {}, batch);
        return;
      }
      for i := 0 to |batch|
        invariant |out| == |batch|
        invariant forall k :: 0 <= k < |batch| ==> |out[k]| == |batch[k]|
        invariant forall k :: 0 <= k < i ==> out[k] == MarkAll(table.Keys, batch[k])
        invariant out[i..] == batch[i..]
      {
        var packets := batch[i];
        for j := 0 to |batch[i]|
          invariant |packets| == |batch[i]|
          invariant packets[..j] == MarkAll(table.Keys, batch[i])[..j]
          invariant packets[j..] == batch[i][j..]
        {
          var packet := packets[j];
          if !packet.discard {
            var data := packet.Data();
            if data.Some? {
              var signature := FirstSignature(data.value);
              if signature.Some? && signature.value in table {
                packets := packets[j := packet.(discard := true)];
              }
            }
          }
          assert packets[j] == Mark(table.Keys, batch[i][j]);
        }
        assert packets == MarkAll(table.Keys, batch[i]);
        out := out[i := packets];
      }
    }

    method FilterBePackets(resp: PacketsResponse) returns (out: PacketsResponse)
      requires Valid()
      ensures out == RetainPackets(table.Keys, resp)
    {
      if IsEmpty() {
        RetainPacketsUnion({}, {}, resp);
        assert table.Keys == {};
        return resp;
      }
      match resp.batch
      case None => out := resp;
      case Some(packets) =>
        var keys := table.Keys;
        var survives := (p: ProtoPacket) =>
          var signature := FirstSignature(p.data); signature.None? || signature.value !in keys;
        out := PacketsResponse(Some(Retain(survives, packets)));
        RetainSame(survives, p => KeepsPacket(keys, p), packets);
    }

    method FilterBeBundles(resp: BundlesResponse) returns (out: BundlesResponse)
      requires Valid()
      ensures out == RetainBundles(table.Keys, resp)
    {
      if IsEmpty() {
        RetainBundlesUnion({}, {}, resp);
        assert table.Keys == {};
        return resp;
      }
      var keys := table.Keys;
      var survives := (u: BundleUuid) =>
        !(u.bundle.Some? && exists p :: p in u.bundle.value && Blocks(keys, p.data));
      out := BundlesResponse(Retain(survives, resp.bundles));
      RetainSame(survives, u => KeepsBundle(keys, u), resp.bundles);
    }
  }
}
