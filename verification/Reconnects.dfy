/** The mirror's reconnect loop: exponential backoff, and the slot other threads send through. */
module Reconnects {
  import opened Prelude

  const BACKOFF_INITIAL: nat := 250   // milliseconds
  const BACKOFF_MAX: nat := 5000

  /** The points at which the loop waits, so that other tasks can look at the slot. */
  datatype Phase = Connecting | Serving(connection: nat) | Sleeping(millis: nat)
  datatype Moment = Moment(phase: Phase, slot: Option<nat>)

  /** What the loop observes in one turn: shutdown at the top, the connection it gets if it gets one,
      and shutdown afterwards. */
  datatype Turn = Turn(shutdownBefore: bool, connection: Option<nat>, shutdownAfter: bool)

  function Pow2(k: nat): nat {
    if k == 0 then 1 else 2 * Pow2(k - 1)
  }

  function Backoff(k: nat): nat {
    if BACKOFF_INITIAL * Pow2(k) < BACKOFF_MAX then BACKOFF_INITIAL * Pow2(k) else BACKOFF_MAX
  }

  /** How many times the loop has slept since it last had a connection, or since the start. */
  function SleepsSinceConnected(log: seq<Moment>): nat {
    if log == [] then 0
    else
      match log[|log| - 1].phase
      case Serving(_) => 0
      case Sleeping(_) => 1 + SleepsSinceConnected(log[..|log| - 1])
      case Connecting => SleepsSinceConnected(log[..|log| - 1])
  }

  lemma SleepsSnoc(log: seq<Moment>, m: Moment)
    ensures SleepsSinceConnected(log + [m]) ==
            match m.phase
            case Serving(_) => 0
            case Sleeping(_) => 1 + SleepsSinceConnected(log)
            case Connecting => SleepsSinceConnected(log)
  {
    assert (log + [m])[..|log|] == log;
  }

  /** The slot holds the connection being served, and is empty at every other moment. */
  ghost predicate SlotTracksConnection(log: seq<Moment>) {
    forall i :: 0 <= i < |log| ==>
      log[i].slot == if log[i].phase.Serving? then Some(log[i].phase.connection) else None
  }

  /** The sleep after k earlier sleeps since the last connection lasts min(250 * 2^k, 5000) ms. */
  ghost predicate SleepsBackOff(log: seq<Moment>) {
    forall i :: 0 <= i < |log| && log[i].phase.Sleeping? ==>
      log[i].phase.millis == Backoff(SleepsSinceConnected(log[..i]))
  }

  datatype Wait = Connect | Serve(connection: nat) | Sleep

  function WaitIn(phase: Phase): Wait {
    match phase
    case Connecting => Connect
    case Serving(c) => Serve(c)
    case Sleeping(_) => Sleep
  }

  function Waits(log: seq<Moment>): seq<Wait> {
    seq(|log|, i requires 0 <= i < |log| => WaitIn(log[i].phase))
  }

  /** The waits the loop owes for a turn: an attempt, the connection if there is one, and a sleep
      unless shutdown ends the loop. */
  function WaitsForTurn(turn: Turn): seq<Wait> {
    [Connect]
    + (if turn.connection.Some? then [Serve(turn.connection.value)] else [])
    + (if turn.shutdownAfter then [] else [Sleep])
  }

  function WaitsFor(turns: seq<Turn>): seq<Wait> {
    if turns == [] || turns[0].shutdownBefore then []
    else WaitsForTurn(turns[0]) + if turns[0].shutdownAfter then [] else WaitsFor(turns[1..])
  }

  class Mirror {
    var conn: Option<nat>
    ghost var log: seq<Moment>

    constructor ()
      ensures conn == None && log == []
    {
      conn, log := None, [];
    }

    /** The loop, over the turns it makes until shutdown. */
    method Run(turns: seq<Turn>)
      requires conn == None && log == []
      modifies this
      ensures conn == None && SlotTracksConnection(log) && SleepsBackOff(log)
      ensures Waits(log) == WaitsFor(turns)
    {
      hide Backoff, SlotTracksConnection, SleepsBackOff, SleepsSinceConnected, WaitsForTurn, Waits;
      BackoffSteps(0);
      NothingYet();
      var backoff := BACKOFF_INITIAL;
      var i := 0;
      while i < |turns| && !turns[i].shutdownBefore
        invariant i <= |turns|
        invariant conn == None && SlotTracksConnection(log) && SleepsBackOff(log)
        invariant backoff == Backoff(SleepsSinceConnected(log))
        invariant Waits(log) + WaitsFor(turns[i..]) == WaitsFor(turns)
      {
        ghost var before, rest := Waits(log), WaitsFor(turns[i + 1..]);
        assert turns[i..][1..] == turns[i + 1..];
        backoff := TakeTurn(turns[i], backoff);
        if turns[i].shutdownAfter {
          assert WaitsFor(turns) == before + WaitsForTurn(turns[i]);
          return;
        }
        assert before + (WaitsForTurn(turns[i]) + rest) == (before + WaitsForTurn(turns[i])) + rest;
        i := i + 1;
      }
      assert Waits(log) + [] == Waits(log);
    }

    method TakeTurn(turn: Turn, backoff: nat) returns (next: nat)
      requires conn == None && SlotTracksConnection(log) && SleepsBackOff(log)
      requires backoff == Backoff(SleepsSinceConnected(log))
      modifies this
      ensures conn == None && SlotTracksConnection(log) && SleepsBackOff(log)
      ensures next == Backoff(SleepsSinceConnected(log))
      ensures Waits(log) == Waits(old(log)) + WaitsForTurn(turn)
    {
      hide Backoff, SlotTracksConnection, SleepsBackOff, SleepsSinceConnected, Waits;
      next := backoff;
      BackoffSteps(0);
      Observe(Connecting);
      match turn.connection {
        case Some(c) =>
          next := BACKOFF_INITIAL;
          conn := Some(c);
          Observe(Serving(c));
          conn := None;
        case None =>
      }
      if turn.shutdownAfter {
        return;
      }
      BackoffSteps(SleepsSinceConnected(log));
      Observe(Sleeping(next));
      next := if next * 2 < BACKOFF_MAX then next * 2 else BACKOFF_MAX;
    }

    /** The loop waits in `phase`; the slot is as it stands. */
    ghost method Observe(phase: Phase)
      requires SlotTracksConnection(log) && SleepsBackOff(log)
      requires conn == if phase.Serving? then Some(phase.connection) else None
      requires phase.Sleeping? ==> phase.millis == Backoff(SleepsSinceConnected(log))
      modifies this`log
      ensures log == old(log) + [Moment(phase, conn)]
      ensures SlotTracksConnection(log) && SleepsBackOff(log)
      ensures Waits(log) == Waits(old(log)) + [WaitIn(phase)]
      ensures SleepsSinceConnected(log) ==
              match phase
              case Serving(_) => 0
              case Sleeping(_) => 1 + SleepsSinceConnected(old(log))
              case Connecting => SleepsSinceConnected(old(log))
    {
      SleepsSnoc(log, Moment(phase, conn));
      ghost var before := log;
      log := log + [Moment(phase, conn)];
      assert forall i :: 0 <= i <= |before| ==> log[..i] == before[..i];
      assert before[..|before|] == before;
    }
  }

  lemma BackoffSteps(k: nat)
    ensures Backoff(0) == BACKOFF_INITIAL
    ensures Backoff(k + 1) == if Backoff(k) * 2 < BACKOFF_MAX then Backoff(k) * 2 else BACKOFF_MAX
  {
  }

  lemma NothingYet()
    ensures SlotTracksConnection([]) && SleepsBackOff([]) && SleepsSinceConnected([]) == 0 && Waits([]) == []
  {
  }

  /** The sleeps never exceed five seconds, never shrink while the server stays away, and reach the
      ceiling at the sixth. */
  lemma BackoffGrowsToCeiling(k: nat, m: nat)
    requires k <= m
    ensures 250 <= Backoff(k) <= Backoff(m) <= 5000
    ensures Backoff(0) == 250 && (Backoff(k) == 5000 <==> k >= 5)
    ensures k < 4 ==> Backoff(k + 1) == 2 * Backoff(k)
  {
    PowGrows(k, m);
    if k >= 5 {
      PowGrows(5, k);
    } else {
      PowGrows(k, 4);
    }
  }

  lemma {:induction false} PowGrows(k: nat, m: nat)
    requires k <= m
    ensures 1 <= Pow2(k) <= Pow2(m)
    decreases m
  {
    if k < m {
      PowGrows(k, m - 1);
    } else if k > 0 {
      PowGrows(k - 1, m - 1);
    }
  }
}
