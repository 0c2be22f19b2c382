/** Pending authentication challenges: a priority queue keyed by client address, in which the
    challenge that expires first is on top. */
module Challenges {
  import opened Prelude
  import opened Clocks

  type Ip = Bytes
  type Pubkey = Bytes

  /** What a token will say about its holder. */
  datatype Claims = Claims(ip: Ip, pubkey: Pubkey, expires: Time)
  {
    predicate IsExpired(now: Time) {
      expires <= now
    }
  }

  datatype AuthChallenge = AuthChallenge(challenge: string, access: Claims, refresh: Claims, expires: Time)
  {
    predicate IsExpired(now: Time) {
      expires <= now
    }
  }

  /** Challenges are ordered by expiry alone, and the queue reverses that order. */
  predicate ReverseLe(a: AuthChallenge, b: AuthChallenge) {
    b.expires <= a.expires
  }

  type Store = map<Ip, AuthChallenge>

  /** The plain meaning of a sweep at instant `now`. */
  function LiveAt(store: Store, now: Time): Store {
    map ip | ip in store && now < store[ip].expires :: store[ip]
  }

  ghost predicate IsTop(store: Store, ip: Ip) {
    ip in store && forall k :: k in store ==> ReverseLe(store[k], store[ip])
  }

  lemma {:induction false} TopExists(store: Store)
    requires store != map[]
    ensures exists ip :: IsTop(store, ip)
    decreases |store|
  {
    var some :| some in store;
    var rest := store - {some};
    assert rest.Keys == store.Keys - {some};
    if rest == map[] {
      assert store.Keys == {some} by {
        assert store.Keys - {some} == {};
      }
      assert IsTop(store, some);
    } else {
      TopExists(rest);
      var top :| IsTop(rest, top);
      assert forall k :: k in store ==> k == some || k in rest;
      assert IsTop(store, if store[some].expires < store[top].expires then some else top);
    }
  }

  class AuthChallenges {
    var queue: Store

    constructor ()
      ensures queue == map[]
    {
      queue := map[];
    }

    /** The entry on top; any of them when several expire together. */
    method Peek() returns (top: Option<Ip>)
      ensures top.None? <==> queue == map[]
      ensures top.Some? ==> IsTop(queue, top.value) && forall k :: k in queue ==> queue[top.value].expires <= queue[k].expires
    {
      if queue == map[] {
        return None;
      }
      TopExists(queue);
      var ip :| ip in queue && forall k :: k in queue ==> ReverseLe(queue[k], queue[ip]);
      return Some(ip);
    }

    /** Pops expired challenges off the top until the top is live, reading the clock anew each time.
        That is as good as filtering the whole queue at one instant, `cut`, during the sweep. */
    method RemoveAllExpired(clock: Clock) returns (ghost cut: Time)
      modifies this, clock
      ensures old(clock.now) <= cut <= clock.now
      ensures queue == LiveAt(old(queue), cut)
      ensures forall k :: k in queue <==> k in old(queue) && cut < old(queue)[k].expires
      ensures forall k :: k in queue ==> queue[k] == old(queue)[k]
    {
      ghost var before := queue;
      cut := clock.now;
      var top := Peek();
      while top.Some?
        invariant old(clock.now) <= cut <= clock.now
        invariant if top.Some? then IsTop(queue, top.value) else queue == map[]
        invariant forall k :: k in queue ==> k in before && queue[k] == before[k]
        invariant forall k :: k in before && k !in queue ==> before[k].IsExpired(cut)
        decreases |queue|
      {
        var now := clock.Read();
        cut := now;
        if !queue[top.value].IsExpired(now) {
          assert forall k :: k in queue ==> ReverseLe(queue[k], queue[top.value]);
          break;
        }
        assert (queue - {top.value}).Keys == queue.Keys - {top.value};
        queue := queue - {top.value};
        top := Peek();
      }
    }

    method Push(ip: Ip, challenge: AuthChallenge)
      modifies this
      ensures queue == old(queue)[ip := challenge]
    {
      queue := queue[ip := challenge];
    }

    method Len() returns (n: nat)
      ensures n == |queue.Keys|
    {
      n := |queue|;
    }

    method GetPriority(ip: Ip) returns (r: Option<AuthChallenge>)
      ensures r.Some? <==> ip in queue
      ensures r.Some? ==> r.value == queue[ip]
    {
      r := if ip in queue then Some(queue[ip]) else None;
    }

    method Remove(ip: Ip)
      modifies this
      ensures queue == old(queue) - {ip}
    {
      queue := queue - {ip};
    }
  }

  /** Sweeping is idempotent and monotone: a later sweep subsumes an earlier one. */
  lemma LaterSweepSubsumes(store: Store, t: Time, u: Time)
    requires t <= u
    ensures LiveAt(LiveAt(store, t), u) == LiveAt(store, u)
    ensures LiveAt(store, u).Keys <= LiveAt(store, t).Keys <= store.Keys
  {
  }

  // ---------------------------------------------------------------- claims as tokens carry them

  /** A token records whole seconds only. */
  datatype TokenClaims = TokenClaims(ip: Ip, pubkey: Pubkey, expiresAtSecond: nat)

  function ToToken(c: Claims): TokenClaims {
    TokenClaims(c.ip, c.pubkey, c.expires / SECOND)
  }

  function FromToken(t: TokenClaims): Claims {
    Claims(t.ip, t.pubkey, t.expiresAtSecond * SECOND)
  }

  /** Through a token, claims keep their holder and lose less than a second of validity, once: never
      is a token valid longer than the claims it was made from. */
  lemma TokenTruncates(c: Claims, now: Time)
    ensures FromToken(ToToken(c)).ip == c.ip && FromToken(ToToken(c)).pubkey == c.pubkey
    ensures c.expires < FromToken(ToToken(c)).expires + SECOND && FromToken(ToToken(c)).expires <= c.expires
    ensures c.IsExpired(now) <==> c.expires <= now
    ensures c.IsExpired(now) ==> FromToken(ToToken(c)).IsExpired(now)
    ensures FromToken(ToToken(c)).IsExpired(now) ==> c.expires <= now + SECOND
    ensures ToToken(FromToken(ToToken(c))) == ToToken(c)
  {
    var s := c.expires / SECOND;
    assert c.expires == s * SECOND + c.expires % SECOND;
    assert (s * SECOND) / SECOND == s;
  }
}
