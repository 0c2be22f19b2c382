/** How far overlapping challenge requests can overfill the store: the size check and the push take the
    lock separately. */
module AuthCapacity {
  import opened Prelude
  import opened Challenges
  import opened AuthRuns

  predicate PastCheck(pc: Pc) {
    pc.ChallengeLookup? || pc.ChallengeDecide? || pc.ChallengePush?
  }

  /** The requests between their size check and their push. */
  function Admitted(s: State): set<HandlerId> {
    Those(s.handlers, PastCheck)
  }

  ghost predicate WithinCapacity(c: Config, s: State) {
    && |Requests(s)| <= c.limit
    && |s.store| + |Admitted(s)| <= AUTH_CHALLENGES_CAPACITY - 1 + c.limit
  }

  lemma MoveOne(handlers: map<HandlerId, Pc>, h: HandlerId, pc: Pc, p: Pc -> bool)
    ensures Those(handlers[h := pc], p) == if p(pc) then Those(handlers, p) + {h} else Those(handlers, p) - {h}
    ensures h in Those(handlers, p) <==> h in handlers && p(handlers[h])
  {
  }

  lemma FinishOne(handlers: map<HandlerId, Pc>, h: HandlerId, p: Pc -> bool)
    ensures Those(handlers - {h}, p) == Those(handlers, p) - {h}
  {
  }

  lemma {:induction false} SubsetSize<T>(a: set<T>, b: set<T>)
    requires a <= b
    ensures |a| <= |b|
  {
    if a != {} {
      var x :| x in a;
      SubsetSize(a - {x}, b - {x});
    }
  }

  lemma AdmittedAreRequests(s: State)
    ensures |Admitted(s)| <= |Requests(s)|
  {
    SubsetSize(Admitted(s), Requests(s));
  }

  /** How one handler's move changes the two counts. */
  lemma Moved(s: State, s': State, h: HandlerId, pc: Pc)
    requires s'.handlers == s.handlers[h := pc]
    ensures |Requests(s')| <= |Requests(s)| + if InFlight(pc) && !(h in s.handlers && InFlight(s.handlers[h])) then 1 else 0
    ensures PastCheck(pc) && h in s.handlers && PastCheck(s.handlers[h]) ==> |Admitted(s')| == |Admitted(s)|
    ensures !PastCheck(pc) ==> |Admitted(s')| <= |Admitted(s)|
    ensures !PastCheck(pc) && h in s.handlers && PastCheck(s.handlers[h]) ==> |Admitted(s')| == |Admitted(s)| - 1
    ensures |Admitted(s')| <= |Requests(s')|
  {
    AdmittedAreRequests(s');
    MoveOne(s.handlers, h, pc, InFlight);
    MoveOne(s.handlers, h, pc, PastCheck);
    hide Those;
    AddOrDrop(Requests(s), h);
    AddOrDrop(Admitted(s), h);
  }

  lemma AddOrDrop(x: set<HandlerId>, h: HandlerId)
    ensures |x + {h}| == |x| + if h in x then 0 else 1
    ensures |x - {h}| == |x| - if h in x then 1 else 0
  {
    if h in x {
      assert x + {h} == x;
    } else {
      assert x - {h} == x;
    }
  }

  lemma Finished(s: State, s': State, h: HandlerId)
    requires s'.handlers == s.handlers - {h}
    ensures |Requests(s')| <= |Requests(s)| && |Admitted(s')| <= |Admitted(s)|
  {
    FinishOne(s.handlers, h, InFlight);
    FinishOne(s.handlers, h, PastCheck);
  }

  lemma PushWithinCapacity(c: Config, s: State, h: HandlerId)
    requires WithinCapacity(c, s) && h in s.handlers && s.handlers[h].ChallengePush?
    ensures WithinCapacity(c, PushStep(s, h, s.handlers[h].ip, s.handlers[h].made))
  {
    hide Requests, Admitted;
    var s' := PushStep(s, h, s.handlers[h].ip, s.handlers[h].made);
    Moved(s, s', h, s'.handlers[h]);
    assert s'.store.Keys == s.store.Keys + {s.handlers[h].ip};
  }

  lemma RemoveWithinCapacity(c: Config, s: State, h: HandlerId)
    requires WithinCapacity(c, s) && h in s.handlers && s.handlers[h].TokensRemove?
    ensures WithinCapacity(c, RemoveStep(s, h, s.handlers[h].ip, s.handlers[h].serial))
  {
    hide Requests, Admitted;
    var s' := RemoveStep(s, h, s.handlers[h].ip, s.handlers[h].serial);
    Moved(s, s', h, s'.handlers[h]);
    SubsetSize(s'.store.Keys, s.store.Keys);
  }

  lemma AdvanceWithinCapacity(c: Config, s: State, h: HandlerId)
    requires WithinCapacity(c, s) && h in s.handlers
    ensures WithinCapacity(c, AdvanceStep(c, s, h))
  {
    hide Requests, Admitted, PushStep, RemoveStep;
    var s' := AdvanceStep(c, s, h);
    match s.handlers[h]
    case ChallengeDecide(_, _, _) =>
    case ChallengeDone(_, _) => Finished(s, s', h);
    case TokensDone(_) => Finished(s, s', h);
    case Rejected(_) => Finished(s, s', h);
    case TokensRemove(ip, serial) => RemoveWithinCapacity(c, s, h);
    case ChallengePush(ip, made) => PushWithinCapacity(c, s, h);
    case _ => Moved(s, s', h, s'.handlers[h]);
  }

  lemma StepWithinCapacity(c: Config, s: State, e: Event)
    requires WithinCapacity(c, s)
    ensures WithinCapacity(c, Next(c, s, e))
  {
    hide Those, AdvanceStep;
    var s' := Next(c, s, e);
    match e
    case Expire(_) => SubsetSize(s'.store.Keys, s.store.Keys);
    case BeginChallenge(h, req) => if s' != s { Moved(s, s', h, ChallengeStart(req)); }
    case BeginTokens(h, req) => if s' != s { Moved(s, s', h, TokensLookup(req)); }
    case Advance(h) => if h in s.handlers { AdvanceWithinCapacity(c, s, h); }
    case Decide(h, _, _, _, _) =>
      if h in s.handlers && s.handlers[h].ChallengeDecide? {
        Moved(s, s', h, s'.handlers[h]);
      }
    case _ =>
  }

  /** With at most N challenge requests in progress at once, the store never holds more than the
      capacity less one plus N; with one at a time, never more than the capacity. */
  lemma {:induction false} CapacityBound(c: Config, es: seq<Event>, i: nat)
    requires i <= |es|
    ensures WithinCapacity(c, After(c, es, i))
    ensures |After(c, es, i).store| <= 100_000 - 1 + c.limit
    ensures c.limit == 1 ==> |After(c, es, i).store| <= 100_000
  {
    if i == 0 {
      assert Requests(Initial) == {} && Admitted(Initial) == {};
    } else {
      CapacityBound(c, es, i - 1);
      StepWithinCapacity(c, After(c, es, i - 1), es[i - 1]);
    }
  }

  // ---------------------------------------------------------------- building runs

  predicate Welcome(c: Config, key: Pubkey) {
    |key| == PUBKEY_BYTES && c.authorized(key)
  }

  function From(ip: Ip, key: Pubkey): ChallengeRequest {
    ChallengeRequest(Some(ip), ROLE_VALIDATOR, key)
  }

  function NewChallenge(now: Time, ip: Ip, key: Pubkey): AuthChallenge {
    AuthChallenge("nonce", Claims(ip, key, now + ACCESS_TOKEN_TTL), Claims(ip, key, now + REFRESH_TOKEN_TTL), now + CHALLENGE_TTL)
  }

  lemma NobodyYet()
    ensures Requests(Initial) == {}
  {
  }

  /** A request begins and passes its size check. */
  lemma AdmitOne(c: Config, s: State, h: HandlerId, ip: Ip, key: Pubkey)
    requires h !in s.handlers && |Requests(s)| < c.limit && |s.store| < AUTH_CHALLENGES_CAPACITY
    ensures Next(c, Next(c, s, BeginChallenge(h, From(ip, key))), Advance(h)) == s.Go(h, ChallengeLookup(From(ip, key)))
  {
    hide Those;
    assert s.handlers[h := ChallengeStart(From(ip, key))][h := ChallengeLookup(From(ip, key))]
           == s.handlers[h := ChallengeLookup(From(ip, key))];
  }

  /** From there, if nothing is stored for the client, it pushes a new challenge and returns. */
  lemma FinishRequest(c: Config, s: State, h: HandlerId, ip: Ip, key: Pubkey)
    requires h in s.handlers && s.handlers[h] == ChallengeLookup(From(ip, key)) && ip !in s.store && Welcome(c, key)
    ensures var s' := Next(c, Next(c, Next(c, Next(c, s, Advance(h)), Decide(h, "nonce", 0, 0, 0)), Advance(h)), Advance(h));
            && s'.handlers == s.handlers - {h}
            && s'.store == s.store[ip := Entry(|s.pushed|, NewChallenge(s.now, ip, key))]
            && s'.pushed == s.pushed + [NewChallenge(s.now, ip, key)]
            && s'.pairs == s.pairs && s'.signed == s.signed && s'.now == s.now
            && |s'.store| == |s.store| + 1
  {
    MakeChallenge(c, s, h, ip, key);
    hide Those, DecideStep;
    var s2 := Next(c, Next(c, s, Advance(h)), Decide(h, "nonce", 0, 0, 0));
    var s3 := Next(c, s2, Advance(h));
    assert s3.handlers == s2.handlers[h := ChallengeDone(ip, "nonce")];
    assert Next(c, s3, Advance(h)).handlers == s.handlers - {h};
    assert s3.store.Keys == s.store.Keys + {ip};
  }

  lemma MakeChallenge(c: Config, s: State, h: HandlerId, ip: Ip, key: Pubkey)
    requires h in s.handlers && s.handlers[h] == ChallengeLookup(From(ip, key)) && ip !in s.store && Welcome(c, key)
    ensures Next(c, Next(c, s, Advance(h)), Decide(h, "nonce", 0, 0, 0))
            == s.Go(h, ChallengePush(ip, NewChallenge(s.now, ip, key)))
  {
    hide Those;
    var looked := ChallengeDecide(From(ip, key), ip, None);
    var pushing := ChallengePush(ip, NewChallenge(s.now, ip, key));
    assert Next(c, s, Advance(h)) == s.Go(h, looked);
    assert s.handlers[h := looked][h := pushing] == s.handlers[h := pushing];
  }

  lemma Finish(c: Config, es: seq<Event>, h: HandlerId, ip: Ip, key: Pubkey) returns (es': seq<Event>)
    requires var s := Final(c, es);
             h in s.handlers && s.handlers[h] == ChallengeLookup(From(ip, key)) && ip !in s.store && Welcome(c, key)
    ensures var s, s' := Final(c, es), Final(c, es');
            && s'.handlers == s.handlers - {h} && s'.pushed == s.pushed + [NewChallenge(s.now, ip, key)]
            && s'.pairs == s.pairs && s'.signed == s.signed && s'.now == s.now
            && s'.store == s.store[ip := Entry(|s.pushed|, NewChallenge(s.now, ip, key))] && |s'.store| == |s.store| + 1
    ensures forall e :: e in es' ==> e in es || !e.Refresh?
  {
    hide Next, Final;
    FinishRequest(c, Final(c, es), h, ip, key);
    var es1, es2, es3 := es + [Advance(h)], es + [Advance(h)] + [Decide(h, "nonce", 0, 0, 0)],
                         es + [Advance(h)] + [Decide(h, "nonce", 0, 0, 0)] + [Advance(h)];
    es' := es3 + [Advance(h)];
    Continue(c, es, Advance(h));
    Continue(c, es1, Decide(h, "nonce", 0, 0, 0));
    Continue(c, es2, Advance(h));
    Continue(c, es3, Advance(h));
  }

  lemma Admit(c: Config, es: seq<Event>, h: HandlerId, ip: Ip, key: Pubkey) returns (es': seq<Event>)
    requires var s := Final(c, es);
             h !in s.handlers && |Requests(s)| < c.limit && |s.store| < AUTH_CHALLENGES_CAPACITY
    ensures Final(c, es') == Final(c, es).Go(h, ChallengeLookup(From(ip, key)))
    ensures forall e :: e in es' ==> e in es || !e.Refresh?
  {
    hide Next, Final;
    AdmitOne(c, Final(c, es), h, ip, key);
    var es1 := es + [BeginChallenge(h, From(ip, key))];
    es' := es1 + [Advance(h)];
    Continue(c, es, BeginChallenge(h, From(ip, key)));
    Continue(c, es1, Advance(h));
  }

  // ---------------------------------------------------------------- the capacity bound is reached

  /** Client `k`, with an address of its own. */
  function Client(k: nat): Ip {
    seq(k, _ => 0)
  }

  ghost predicate OnlyClientsBelow(store: map<Ip, Entry>, k: nat) {
    forall ip :: ip in store ==> |ip| < k
  }

  /** Requests made one after the other fill the store up to one below the capacity. */
  lemma {:induction false} Fill(c: Config, key: Pubkey, k: nat) returns (es: seq<Event>)
    requires k < AUTH_CHALLENGES_CAPACITY && c.limit >= 1 && Welcome(c, key)
    ensures var s := Final(c, es); s.handlers == map[] && |s.store| == k && OnlyClientsBelow(s.store, k)
  {
    hide Next;
    if k == 0 {
      es := [];
    } else {
      es := Fill(c, key, k - 1);
      assert Requests(Final(c, es)) == {};
      es := Admit(c, es, 0, Client(k - 1), key);
      es := Finish(c, es, 0, Client(k - 1), key);
    }
  }

  ghost function Below(n: nat): (r: set<HandlerId>)
    ensures |r| == n && forall h: nat :: h in r <==> h < n
  {
    if n == 0 then {} else Below(n - 1) + {n - 1}
  }

  /** Requests `from` to `to`, all past their size check. */
  ghost function Pending(key: Pubkey, from: nat, to: nat): map<HandlerId, Pc> {
    map h | h in Below(to) && from <= h :: ChallengeLookup(From(Client(AUTH_CHALLENGES_CAPACITY + h), key))
  }

  lemma NonePending(key: Pubkey)
    ensures Pending(key, 0, 0) == map[]
  {
  }

  lemma PendingSnoc(key: Pubkey, m: nat)
    ensures m !in Pending(key, 0, m)
    ensures Pending(key, 0, m + 1)
            == Pending(key, 0, m)[m := ChallengeLookup(From(Client(AUTH_CHALLENGES_CAPACITY + m), key))]
  {
  }

  lemma PendingRequests(s: State, key: Pubkey, m: nat)
    requires s.handlers == Pending(key, 0, m)
    ensures |Requests(s)| == m
  {
    assert Requests(s) == Below(m);
  }

  /** Then as many requests as are allowed all see that there is room. */
  lemma {:induction false} AdmitAll(c: Config, key: Pubkey, m: nat) returns (es: seq<Event>)
    requires m <= c.limit && c.limit >= 1 && Welcome(c, key)
    ensures var s := Final(c, es);
            && s.handlers == Pending(key, 0, m) && |s.store| == AUTH_CHALLENGES_CAPACITY - 1
            && OnlyClientsBelow(s.store, AUTH_CHALLENGES_CAPACITY)
  {
    hide Next, Final, Pending, Requests;
    if m == 0 {
      NonePending(key);
      es := Fill(c, key, AUTH_CHALLENGES_CAPACITY - 1);
    } else {
      es := AdmitAll(c, key, m - 1);
      PendingRequests(Final(c, es), key, m - 1);
      PendingSnoc(key, m - 1);
      es := Admit(c, es, m - 1, Client(AUTH_CHALLENGES_CAPACITY + m - 1), key);
    }
  }

  /** And all of them push. */
  lemma {:induction false} PushAll(c: Config, key: Pubkey, m: nat) returns (es: seq<Event>)
    requires m <= c.limit && c.limit >= 1 && Welcome(c, key)
    ensures var s := Final(c, es);
            && s.handlers == Pending(key, m, c.limit) && |s.store| == AUTH_CHALLENGES_CAPACITY - 1 + m
            && OnlyClientsBelow(s.store, AUTH_CHALLENGES_CAPACITY + m)
  {
    hide Next, Final;
    if m == 0 {
      es := AdmitAll(c, key, c.limit);
    } else {
      es := PushAll(c, key, m - 1);
      es := Finish(c, es, m - 1, Client(AUTH_CHALLENGES_CAPACITY + m - 1), key);
      assert Pending(key, m - 1, c.limit) - {m - 1} == Pending(key, m, c.limit);
    }
  }

  /** The bound is exact: with N requests allowed in progress, some run ends with the capacity less one
      plus N challenges stored. */
  lemma CapacityBoundIsReached(c: Config, key: Pubkey) returns (es: seq<Event>)
    requires c.limit >= 1 && Welcome(c, key)
    ensures |After(c, es, |es|).store| == 100_000 - 1 + c.limit
  {
    es := PushAll(c, key, c.limit);
  }
}
