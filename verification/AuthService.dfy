/** The authentication service's handlers as they run when no other handler runs beside them. Each
    records what it does as events of the machine in the module AuthRuns, so that what is proved of
    all runs there holds of the service. */
module AuthService {
  import opened Prelude
  import opened Clocks
  import opened Challenges
  import opened AuthRuns
  import opened AuthCapacity
  import opened AuthLifecycle

  datatype Result<T> = Ok(value: T) | Err(status: Status)

  datatype TokenPair = TokenPair(access: TokenClaims, refresh: TokenClaims)

  /** The machine's store without its auxiliary serials. */
  ghost function Plain(store: map<Ip, Entry>): Store {
    map ip | ip in store :: store[ip].challenge
  }

  ghost predicate OneHandler(c: Config, es: seq<Event>) {
    forall k :: 0 <= k <= |es| ==> |After(c, es, k).handlers| <= 1
  }

  lemma OneHandlerSnoc(c: Config, es: seq<Event>, e: Event)
    requires OneHandler(c, es) && |Next(c, Final(c, es), e).handlers| <= 1
    ensures OneHandler(c, es + [e])
  {
    forall k | 0 <= k <= |es| + 1
      ensures |After(c, es + [e], k).handlers| <= 1
    {
      if k <= |es| {
        AfterPrefix(c, es, [e], k);
      } else {
        Continue(c, es, e);
      }
    }
  }

  /** A challenge made for the client and key between two instants: what it grants is dated from then. */
  ghost predicate IsNewFor(a: AuthChallenge, ip: Ip, key: Pubkey, from: Time, to: Time) {
    && For(a, ip) && a.access.pubkey == key
    && from + 1_800 * SECOND <= a.access.expires <= to + 1_800 * SECOND
    && from + 180_000 * SECOND <= a.refresh.expires <= to + 180_000 * SECOND
    && from + 1_800 * SECOND <= a.expires <= to + 1_800 * SECOND
  }

  class AuthService {
    const config: Config
    const clock: Clock
    const challenges: AuthChallenges
    ghost var events: seq<Event>

    /** The machine's state. */
    ghost function World(): State
      reads this
    {
      Final(config, events)
    }

    /** Every token signed, and the serial of every challenge for which a pair was signed. */
    ghost function Logs(): (seq<Signed>, seq<nat>)
      reads this
    {
      (World().signed, World().pairs)
    }

    /** The recorded run is one at a time, and has led to the service's store. */
    ghost predicate Mirrored()
      reads this, challenges, clock
    {
      && Plain(World().store) == challenges.queue
      && World().now <= clock.now
      && OneHandler(config, events)
    }

    ghost predicate Valid()
      reads this, challenges, clock
    {
      Mirrored() && World().handlers == map[] && config.limit >= 1
    }

    ghost predicate At(pc: Pc)
      reads this, challenges, clock
    {
      Mirrored() && World().handlers == map[0 := pc]
    }

    constructor (config: Config, clock: Clock)
      requires config.limit >= 1
      ensures Valid() && fresh(challenges) && this.config == config && this.clock == clock
      ensures challenges.queue == map[] && events == []
    {
      this.config, this.clock := config, clock;
      challenges := new AuthChallenges();
      events := [];
    }

    ghost method Record(e: Event)
      requires OneHandler(config, events) && |Next(config, World(), e).handlers| <= 1
      modifies this`events
      ensures events == old(events) + [e] && World() == Next(config, old(World()), e) && OneHandler(config, events)
    {
      hide Next;
      OneHandlerSnoc(config, events, e);
      Continue(config, events, e);
      events := events + [e];
    }

    /** The handler gives its answer. */
    ghost method Return(pc: Pc)
      requires At(pc) && (pc.Rejected? || pc.ChallengeDone? || pc.TokensDone?) && config.limit >= 1
      modifies this`events
      ensures Valid() && old(events) <= events && World() == old(World()).(handlers := map[])
    {
      hide OneHandler;
      assert map[0 := pc] - {0} == map[];
      Record(Advance(0));
    }

    /** A rejected request changes nothing. An answered one leaves the answer stored for the client,
        and replaces what was stored only if that had expired. */
    method GenerateAuthChallenge(req: ChallengeRequest, random: string) returns (r: Result<string>)
      requires Valid()
      modifies this`events, challenges, clock
      ensures Valid() && old(events) <= events && old(clock.now) <= clock.now
      ensures Logs() == old(Logs())
      ensures r.Err? ==> challenges.queue == old(challenges.queue)
      ensures r.Ok? ==> req.remote.Some? && req.remote.value in challenges.queue
                        && challenges.queue[req.remote.value].challenge == r.value
                        && challenges.queue - {req.remote.value} == old(challenges.queue) - {req.remote.value}
      ensures req.remote.Some? && req.remote.value in old(challenges.queue) && |old(challenges.queue)| < 100_000
              && clock.now < old(challenges.queue)[req.remote.value].expires ==>
                r == Ok(old(challenges.queue)[req.remote.value].challenge) && challenges.queue == old(challenges.queue)
      ensures r.Ok? && challenges.queue != old(challenges.queue) ==>
                && (req.remote.value in old(challenges.queue) ==> old(challenges.queue)[req.remote.value].expires <= clock.now)
                && IsNewFor(challenges.queue[req.remote.value], req.remote.value, req.pubkey, old(clock.now), clock.now)
      ensures |old(challenges.queue)| < 100_000 && req.remote.Some? && Allowed(req) ==> r.Ok?
      ensures r.Ok? ==>
                && |old(challenges.queue)| < 100_000
                && (challenges.queue != old(challenges.queue) ==> Allowed(req))
                && (Allowed(req) || (req.remote.value in old(challenges.queue)
                                        && old(clock.now) < old(challenges.queue)[req.remote.value].expires))
      ensures r.Err? ==>
                r.status == if |old(challenges.queue)| >= 100_000 then ResourceExhausted
                            else if req.remote.None? then Internal
                            else if req.role != 2 || |req.pubkey| != 32 then InvalidArgument
                            else PermissionDenied
    {
      hide OneHandler, Final, Plain, Next;
      var admitted := Admit(req);
      if !admitted {
        return Err(ResourceExhausted);
      }
      if req.remote.None? {
        RecordLookUp(req);
        Return(Rejected(Internal));
        return Err(Internal);
      }
      var ip := req.remote.value;
      var found := LookUpClient(req, ip);
      var t := clock.Read();
      RecordTick(World().handlers[0], t);
      if found.Some? && !found.value.IsExpired(t) {
        RecordDecision(random, 0, 0, 0);
        Return(ChallengeDone(ip, found.value.challenge));
        return Ok(found.value.challenge);
      }
      if req.role != ROLE_VALIDATOR || |req.pubkey| != PUBKEY_BYTES {
        RecordDecision(random, 0, 0, 0);
        Return(Rejected(InvalidArgument));
        return Err(InvalidArgument);
      }
      if !config.authorized(req.pubkey) {
        RecordDecision(random, 0, 0, 0);
        Return(Rejected(PermissionDenied));
        return Err(PermissionDenied);
      }
      MakeNew(req, ip, random, t);
      return Ok(random);
    }

    /** A validator with a key of 32 bytes that is authorized. */
    ghost predicate Allowed(req: ChallengeRequest) {
      req.role == 2 && |req.pubkey| == 32 && config.authorized(req.pubkey)
    }

    predicate Acceptable(req: ChallengeRequest) {
      req.role == ROLE_VALIDATOR && |req.pubkey| == PUBKEY_BYTES && config.authorized(req.pubkey)
    }

    method MakeNew(req: ChallengeRequest, ip: Ip, random: string, t: Time)
      requires Deciding(req, ip) && World().now == t == clock.now && config.limit >= 1
      requires var found := World().handlers[0].found; found.None? || found.value.challenge.expires <= t
      requires Acceptable(req)
      modifies this`events, challenges, clock
      ensures Valid() && old(events) <= events && t <= clock.now && Logs() == old(Logs())
      ensures ip in challenges.queue && challenges.queue == old(challenges.queue)[ip := challenges.queue[ip]]
      ensures challenges.queue[ip].challenge == random && IsNewFor(challenges.queue[ip], ip, req.pubkey, t, clock.now)
    {
      hide OneHandler, Final, Plain;
      ghost var pc := World().handlers[0];
      var t1 := clock.Read();
      var t2 := clock.Read();
      var t3 := clock.Read();
      var made := AuthChallenge(random,
                                Claims(ip, req.pubkey, t1 + ACCESS_TOKEN_TTL),
                                Claims(ip, req.pubkey, t2 + REFRESH_TOKEN_TTL),
                                t3 + CHALLENGE_TTL);
      RecordDecision(random, t1 - t, t2 - t1, t3 - t2);
      PushNew(ip, made);
      Return(ChallengeDone(ip, random));
    }

    /** The handler has looked the client up and is about to decide. */
    ghost predicate Deciding(req: ChallengeRequest, ip: Ip)
      reads this, challenges, clock
    {
      && World().handlers.Keys == {0} && World().handlers[0].ChallengeDecide?
      && World().handlers[0].creq == req && World().handlers[0].ip == ip && At(World().handlers[0])
    }

    method Admit(req: ChallengeRequest) returns (admitted: bool)
      requires Valid()
      modifies this`events
      ensures admitted <==> |challenges.queue| < AUTH_CHALLENGES_CAPACITY
      ensures old(events) <= events && config.limit >= 1 && Logs() == old(Logs())
      ensures if admitted then At(ChallengeLookup(req)) else Valid()
    {
      hide OneHandler;
      assert Requests(World()) == {};
      Record(BeginChallenge(0, req));
      var n := challenges.Len();
      PlainSize(World().store);
      Record(Advance(0));
      admitted := n < AUTH_CHALLENGES_CAPACITY;
      if !admitted {
        assert At(Rejected(ResourceExhausted));
        Return(Rejected(ResourceExhausted));
      }
    }

    ghost method RecordLookUp(req: ChallengeRequest)
      requires At(ChallengeLookup(req)) && req.remote.None?
      modifies this`events
      ensures At(Rejected(Internal)) && old(events) <= events && Logs() == old(Logs())
    {
      hide OneHandler;
      Record(Advance(0));
    }

    method LookUpClient(req: ChallengeRequest, ip: Ip) returns (found: Option<AuthChallenge>)
      requires At(ChallengeLookup(req)) && req.remote == Some(ip)
      modifies this`events
      ensures old(events) <= events && Deciding(req, ip) && Logs() == old(Logs())
      ensures var pc := World().handlers[0];
              found == if pc.found.Some? then Some(pc.found.value.challenge) else None
      ensures found == if ip in challenges.queue then Some(challenges.queue[ip]) else None
    {
      hide OneHandler;
      found := challenges.GetPriority(ip);
      Record(Advance(0));
      assert World().handlers == map[0 := World().handlers[0]];
    }

    ghost method RecordTick(pc: Pc, t: Time)
      requires At(pc) && clock.now == t
      modifies this`events
      ensures At(pc) && World().now == t && World().handlers == old(World()).handlers && old(events) <= events
      ensures Logs() == old(Logs())
    {
      hide OneHandler;
      Record(Tick(t - World().now));
    }

    ghost method RecordDecision(random: string, d1: Time, d2: Time, d3: Time)
      requires Mirrored() && World().handlers.Keys == {0} && At(World().handlers[0]) && World().handlers[0].ChallengeDecide?
      requires World().now + d1 + d2 + d3 <= clock.now
      modifies this`events
      ensures old(events) <= events && Logs() == old(Logs())
      ensures var s, pc := old(World()), old(World()).handlers[0];
              At(DecideStep(config, s, 0, pc.creq, pc.ip, pc.found, random, d1, d2, d3).handlers[0])
    {
      hide OneHandler;
      var s, pc := World(), World().handlers[0];
      Record(Decide(0, random, d1, d2, d3));
      assert World().handlers == map[0 := World().handlers[0]];
    }

    method PushNew(ip: Ip, made: AuthChallenge)
      requires At(ChallengePush(ip, made))
      modifies this`events, challenges
      ensures At(ChallengeDone(ip, made.challenge)) && old(events) <= events && Logs() == old(Logs())
      ensures challenges.queue == old(challenges.queue)[ip := made]
    {
      hide OneHandler;
      challenges.Push(ip, made);
      Record(Advance(0));
    }

    /** Tokens are handed out exactly to a client that proves it holds the key its stored challenge is
        for; the pair says so, and the challenge is used up. */
    method GenerateAuthTokens(req: TokensRequest) returns (r: Result<TokenPair>)
      requires Valid()
      modifies this`events, challenges
      ensures Valid() && old(events) <= events
      ensures r.Ok? <==> req.remote.Some? && config.validKey(req.pubkey) && req.remote.value in old(challenges.queue)
                         && Proves(config, req, old(challenges.queue)[req.remote.value])
      ensures r.Ok? ==> Presents(config, req, old(challenges.queue)[req.remote.value])
      ensures (req.remote.Some? && config.validKey(req.pubkey) && req.remote.value in old(challenges.queue)
               && Presents(config, req, old(challenges.queue)[req.remote.value])) ==> r.Ok?
      ensures r.Err? ==> challenges.queue == old(challenges.queue) && Logs() == old(Logs())
      ensures r.Ok? ==>
                && req.remote.value in old(World()).store
                && World().pairs == old(World()).pairs + [old(World()).store[req.remote.value].serial]
                && |World().signed| == |old(World()).signed| + 2 && old(World()).signed <= World().signed
                && World().signed[|old(World()).signed|].token == r.value.access
                && World().signed[|old(World()).signed| + 1].token == r.value.refresh
                && SignedHere(r.value.access) && SignedHere(r.value.refresh)
      ensures r.Err? ==>
                r.status == if req.remote.None? then Internal
                            else if !config.validKey(req.pubkey) then InvalidArgument
                            else if req.remote.value !in challenges.queue then PermissionDenied
                            else if challenges.queue[req.remote.value].access.pubkey != req.pubkey then PermissionDenied
                            else InvalidArgument
      ensures r.Ok? ==> challenges.queue == old(challenges.queue) - {req.remote.value}
      ensures r.Ok? ==> var e := old(challenges.queue)[req.remote.value];
                        && r.value.access == ToToken(e.access) && r.value.refresh == ToToken(e.refresh)
                        && r.value.access.expiresAtSecond == e.access.expires / SECOND
                        && r.value.refresh.expiresAtSecond == e.refresh.expires / SECOND
                        && r.value.access.ip == r.value.refresh.ip == req.remote.value
                        && r.value.access.pubkey == r.value.refresh.pubkey == req.pubkey
    {
      hide OneHandler, Final, Plain, Next, Proves, Presents;
      var entry := LookUpForTokens(req);
      if req.remote.None? {
        Return(Rejected(Internal));
        return Err(Internal);
      }
      if !config.validKey(req.pubkey) {
        Return(Rejected(InvalidArgument));
        return Err(InvalidArgument);
      }
      if entry.None? {
        Return(Rejected(PermissionDenied));
        return Err(PermissionDenied);
      }
      var ip, e := req.remote.value, entry.value;
      ProvesExactly(config, req, e);
      ProofNamesKey(config, req, e);
      RecordVerification(req, ip, e);
      if e.access.pubkey != req.pubkey {
        Return(Rejected(PermissionDenied));
        return Err(PermissionDenied);
      }
      if !Proves(config, req, e) {
        Return(Rejected(InvalidArgument));
        return Err(InvalidArgument);
      }
      var pair := TokenPair(ToToken(e.access), ToToken(e.refresh));
      RemoveUsed(ip, World().handlers[0].serial);
      return Ok(pair);
    }

    method LookUpForTokens(req: TokensRequest) returns (found: Option<AuthChallenge>)
      requires Valid()
      modifies this`events
      ensures old(events) <= events && config.limit >= 1 && Logs() == old(Logs())
      ensures found.Some? ==> req.remote.Some? && req.remote.value in old(World()).store
                              && Verifying(req, req.remote.value, found.value)
                              && World().handlers[0].entry == old(World()).store[req.remote.value]
      ensures if req.remote.None? then At(Rejected(Internal))
              else if !config.validKey(req.pubkey) then At(Rejected(InvalidArgument))
              else if req.remote.value !in challenges.queue then found.None? && At(Rejected(PermissionDenied))
              else found == Some(challenges.queue[req.remote.value]) && Verifying(req, req.remote.value, found.value)
    {
      hide OneHandler;
      found := None;
      Record(BeginTokens(0, req));
      assert World().handlers == map[0 := TokensLookup(req)];
      TokensLookUpStep(config, World(), 0);
      hide Next;
      if req.remote.Some? && config.validKey(req.pubkey) {
        found := challenges.GetPriority(req.remote.value);
      }
      ghost var before := World();
      Record(Advance(0));
      if found.Some? {
        Reachable(config, old(events), |old(events)|);
        assert Logged(before.store[req.remote.value], req.remote.value, before.pushed);
      }
    }

    /** The handler holds the client's entry and is about to check the proof. */
    ghost predicate Verifying(req: TokensRequest, ip: Ip, e: AuthChallenge)
      reads this, challenges, clock
    {
      && World().handlers.Keys == {0} && World().handlers[0].TokensVerify?
      && World().handlers[0].treq == req && World().handlers[0].ip == ip && World().handlers[0].entry.challenge == e
      && At(World().handlers[0]) && For(e, ip)
    }

    ghost method RecordVerification(req: TokensRequest, ip: Ip, e: AuthChallenge)
      requires Verifying(req, ip, e)
      modifies this`events
      ensures old(events) <= events && World().handlers.Keys == {0}
      ensures if e.access.pubkey != req.pubkey then At(Rejected(PermissionDenied))
              else if !Proves(config, req, e) then At(Rejected(InvalidArgument))
              else World().handlers[0].TokensRemove? && World().handlers[0].ip == ip && At(World().handlers[0])
      ensures if Proves(config, req, e)
              then var cause := Issued(old(World()).handlers[0].entry.serial, req.signature);
                   Logs() == (old(World()).signed + [Signed(ToToken(e.access), cause), Signed(ToToken(e.refresh), cause)],
                              old(World()).pairs + [old(World()).handlers[0].entry.serial])
              else Logs() == old(Logs())
    {
      hide OneHandler, Proves;
      ProofNamesKey(config, req, e);
      Record(Advance(0));
      assert World().handlers == map[0 := World().handlers[0]];
    }

    method RemoveUsed(ip: Ip, ghost serial: nat)
      requires At(TokensRemove(ip, serial)) && config.limit >= 1
      modifies this`events, challenges
      ensures Valid() && old(events) <= events && challenges.queue == old(challenges.queue) - {ip} && Logs() == old(Logs())
    {
      hide OneHandler, Final, Plain, Next;
      PlainRemove(World().store, ip);
      challenges.Remove(ip);
      RecordRemoval(ip, serial);
      Return(TokensDone(serial));
    }

    ghost method RecordRemoval(ip: Ip, serial: nat)
      requires OneHandler(config, events) && World().handlers == map[0 := TokensRemove(ip, serial)]
      modifies this`events
      ensures old(events) <= events && OneHandler(config, events) && Logs() == old(Logs())
      ensures World().store == old(World()).store - {ip} && World().now == old(World()).now
      ensures World().handlers == map[0 := TokensDone(serial)]
    {
      RemovalStep(config, World(), 0);
      hide OneHandler, Final, Next;
      Record(Advance(0));
    }

    ghost predicate SignedHere(token: TokenClaims)
      reads this
    {
      exists k :: 0 <= k < |World().signed| && World().signed[k].token == token
    }

    /** A token this service signed, not yet expired, is exchanged for an access token of the same
        holder. `verified` is what the ideal signature check says of the token. */
    method RefreshAccessToken(token: TokenClaims, verified: bool) returns (r: Result<TokenClaims>)
      requires Valid() && (verified <==> SignedHere(token))
      modifies this`events, clock
      ensures Valid() && old(events) <= events && old(clock.now) <= clock.now
      ensures r.Ok? ==> verified && old(clock.now) < token.expiresAtSecond * SECOND && SignedHere(r.value)
      ensures verified && clock.now < token.expiresAtSecond * SECOND ==> r.Ok?
      ensures r.Err? ==> r.status == PermissionDenied && Logs() == old(Logs())
      ensures World().pairs == old(World()).pairs && old(World()).signed <= World().signed
      ensures r.Ok? ==> |World().signed| == |old(World()).signed| + 1 && World().signed[|old(World()).signed|].token == r.value
      ensures r.Ok? ==> r.value.ip == token.ip && r.value.pubkey == token.pubkey
                        && old(clock.now) / SECOND + 1_800 <= r.value.expiresAtSecond <= clock.now / SECOND + 1_800
    {
      hide OneHandler, Final, Plain;
      if !verified {
        return Err(PermissionDenied);
      }
      ghost var k :| 0 <= k < |World().signed| && World().signed[k].token == token;
      var held := FromToken(token);
      var t := clock.Read();
      if held.IsExpired(t) {
        return Err(PermissionDenied);
      }
      var t' := clock.Read();
      r := Ok(ToToken(Claims(held.ip, held.pubkey, t' + ACCESS_TOKEN_TTL)));
      ghost var n := |World().signed|;
      Record(Tick(t - World().now));
      Record(Refresh(token, k, t' - t));
      assert World().signed[n].token == r.value;
    }

    /** The expiry task. */
    method RemoveAllExpired()
      requires Valid()
      modifies this`events, challenges, clock
      ensures Valid() && old(events) <= events && old(clock.now) <= clock.now && Logs() == old(Logs())
      ensures exists cut :: old(clock.now) <= cut <= clock.now && challenges.queue == LiveAt(old(challenges.queue), cut)
                && forall k :: k in challenges.queue <==> k in old(challenges.queue) && cut < old(challenges.queue)[k].expires
    {
      hide OneHandler;
      ghost var cut := challenges.RemoveAllExpired(clock);
      Record(Expire(cut));
    }
  }

  /** Whatever requests the service has handled, no challenge has yielded two token pairs, and the store
      is within its capacity. */
  lemma NeverSignsTwice(service: AuthService)
    requires service.Valid()
    ensures service.config.limit == 1 ==> |service.challenges.queue| <= 100_000
    ensures var pairs := service.World().pairs; forall m, n :: 0 <= m < n < |pairs| ==> pairs[m] != pairs[n]
  {
    OneAtATime(service.config, service.events, |service.events|);
    CapacityBound(service.config, service.events, |service.events|);
    PlainSize(service.World().store);
  }

  lemma PlainRemove(store: map<Ip, Entry>, ip: Ip)
    ensures Plain(store - {ip}) == Plain(store) - {ip}
  {
  }

  lemma PlainSize(store: map<Ip, Entry>)
    ensures |Plain(store)| == |store|
  {
    assert Plain(store).Keys == store.Keys;
  }
}
