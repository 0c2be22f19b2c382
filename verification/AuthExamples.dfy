/** Runs in which overlapping handlers, or the passing of time, bring about what one might not expect. The
    module AuthOverlap says exactly when each of these happens. */
module AuthExamples {
  import opened Prelude
  import opened Challenges
  import opened AuthRuns
  import opened AuthCapacity
  import opened AuthOverlap
  import opened AuthRefresh

  lemma Proven(c: Config, ip: Ip, key: Pubkey, signature: Bytes, now: Time)
    requires CanProve(c, key, signature)
    ensures Proves(c, Proof(c, ip, key, signature), NewChallenge(now, ip, key))
  {
  }

  /** Two token requests that both look a challenge up before either removes it both succeed: one
      challenge, two pairs. */
  lemma OverlapSignsTwice(c: Config, ip: Ip, key: Pubkey, signature: Bytes) returns (es: seq<Event>)
    requires CanProve(c, key, signature)
    ensures After(c, es, |es|).pairs == [0, 0]
  {
    hide Next, Proves;
    var req := Proof(c, ip, key, signature);
    Proven(c, ip, key, signature, 0);
    es := PushOne(c, ip, key);
    es := Look(c, es, 1, req, ip);
    es := Look(c, es, 2, req, ip);
    VerifyProven(c, Final(c, es), 1);
    Continue(c, es, Advance(1));
    es := es + [Advance(1)];
    VerifyProven(c, Final(c, es), 2);
    Continue(c, es, Advance(2));
    es := es + [Advance(2)];
    assert [] + [0] + [0] == [0, 0];
  }

  /** A challenge that has expired still yields a pair, as long as no sweep has come by. */
  lemma ExpiredStillSigns(c: Config, ip: Ip, key: Pubkey, signature: Bytes) returns (es: seq<Event>)
    requires CanProve(c, key, signature)
    ensures var s := After(c, es, |es|);
            s.pairs == [0] && |s.pushed| == 1 && s.pushed[0].expires <= s.now
    ensures es != [] && Signs(c, es, |es| - 1, 0) && After(c, es, |es| - 1).now == After(c, es, |es|).now
  {
    hide Next, Proves;
    Proven(c, ip, key, signature, 0);
    es := PushOne(c, ip, key);
    TickStep(c, Final(c, es), CHALLENGE_TTL);
    Continue(c, es, Tick(CHALLENGE_TTL));
    es := es + [Tick(CHALLENGE_TTL)];
    es := Look(c, es, 1, Proof(c, ip, key, signature), ip);
    VerifyProven(c, Final(c, es), 1);
    Continue(c, es, Advance(1));
    AfterPrefix(c, es, [Advance(1)], |es|);
    assert (es + [Advance(1)])[|es|] == Advance(1);
    es := es + [Advance(1)];
    assert [] + [0] == [0];
  }

  lemma TickStep(c: Config, s: State, passed: Time)
    ensures Next(c, s, Tick(passed)) == s.(now := s.now + passed)
  {
  }

  lemma ExpireAll(c: Config, s: State, ip: Ip)
    requires s.store.Keys == {ip} && s.store[ip].challenge.expires <= CHALLENGE_TTL && s.now == CHALLENGE_TTL
    ensures Next(c, s, Expire(CHALLENGE_TTL)) == s.(store := map[])
  {
  }

  /** A token request removes a newer challenge than the one it used, live and never proven: it looked up
      the old one, that one was swept out, and the client asked for another. */
  lemma RemovesReplacement(c: Config, ip: Ip, key: Pubkey, signature: Bytes) returns (es: seq<Event>)
    requires CanProve(c, key, signature)
    ensures var s := After(c, es, |es|);
            s.pairs == [0] && s.store == map[] && |s.pushed| == 2 && s.now < s.pushed[1].expires
    ensures es != [] && Holds(After(c, es, |es| - 1), ip, 1)
  {
    hide Next, Proves;
    Proven(c, ip, key, signature, 0);
    es := PushOne(c, ip, key);
    TickStep(c, Final(c, es), CHALLENGE_TTL);
    Continue(c, es, Tick(CHALLENGE_TTL));
    es := es + [Tick(CHALLENGE_TTL)];
    es := Look(c, es, 1, Proof(c, ip, key, signature), ip);
    ExpireAll(c, Final(c, es), ip);
    Continue(c, es, Expire(CHALLENGE_TTL));
    es := es + [Expire(CHALLENGE_TTL)];
    OnlyTokenRequests(Final(c, es));
    es := Admit(c, es, 0, ip, key);
    es := Finish(c, es, 0, ip, key);
    VerifyProven(c, Final(c, es), 1);
    Continue(c, es, Advance(1));
    es := es + [Advance(1)];
    RemovalStep(c, Final(c, es), 1);
    Continue(c, es, Advance(1));
    AfterPrefix(c, es, [Advance(1)], |es|);
    es := es + [Advance(1)];
    assert [] + [0] == [0];
  }

  lemma OnlyTokenRequests(s: State)
    requires forall h :: h in s.handlers ==> s.handlers[h].TokensVerify?
    ensures Requests(s) == {}
  {
  }

  /** Two challenge requests of one client that overlap get different challenges, though the first is still
      live when the second is pushed over it. */
  lemma OverlapAnswersTwice(c: Config, ip: Ip, key: Pubkey) returns (es: seq<Event>)
    requires c.limit >= 2 && Welcome(c, key)
    ensures var s := After(c, es, |es|);
            && |s.pushed| == 2 && Holds(s, ip, 1) && s.pairs == []
            && s.pushed[0].access.ip == ip && s.now < s.pushed[0].expires
            && s.handlers.Keys == {0, 1} && s.handlers[0] == ChallengeDone(ip, "nonce") && s.handlers[1] == ChallengeDone(ip, "other")
  {
    assert Final(c, []) == Initial;
    NobodyYet();
    es := Admit(c, [], 0, ip, key);
    OneRequest(Final(c, es));
    es := Admit(c, es, 1, ip, key);
    BothPush(c, Final(c, es), ip, key);
    hide Next, Final;
    var es1 := es + [Advance(0)];
    Continue(c, es, Advance(0));
    var es2 := es1 + [Advance(1)];
    Continue(c, es1, Advance(1));
    var es3 := es2 + [Decide(0, "nonce", 0, 0, 0)];
    Continue(c, es2, Decide(0, "nonce", 0, 0, 0));
    var es4 := es3 + [Decide(1, "other", 0, 0, 0)];
    Continue(c, es3, Decide(1, "other", 0, 0, 0));
    var es5 := es4 + [Advance(0)];
    Continue(c, es4, Advance(0));
    es := es5 + [Advance(1)];
    Continue(c, es5, Advance(1));
    assert Final(c, es) == After(c, es, |es|) by { FinalIs(c, es); }
  }

  lemma FinalIs(c: Config, es: seq<Event>)
    ensures Final(c, es) == After(c, es, |es|)
  {
  }

  lemma OneRequest(s: State)
    requires s.handlers.Keys == {0}
    ensures |Requests(s)| <= 1
  {
    assert Requests(s) <= {0};
    SubsetSize(Requests(s), {0});
  }

  lemma BothPush(c: Config, s: State, ip: Ip, key: Pubkey)
    requires Welcome(c, key) && s.handlers == map[0 := ChallengeLookup(From(ip, key)), 1 := ChallengeLookup(From(ip, key))]
    requires s.store == map[] && s.pushed == [] && s.pairs == [] && s.now == 0
    ensures var s2 := Next(c, Next(c, s, Advance(0)), Advance(1));
            var s4 := Next(c, Next(c, s2, Decide(0, "nonce", 0, 0, 0)), Decide(1, "other", 0, 0, 0));
            var s6 := Next(c, Next(c, s4, Advance(0)), Advance(1));
            && |s6.pushed| == 2 && Holds(s6, ip, 1) && s6.pairs == [] && s6.now == 0
            && s6.pushed[0] == NewChallenge(0, ip, key)
            && s6.handlers == map[0 := ChallengeDone(ip, "nonce"), 1 := ChallengeDone(ip, "other")]
  {
    hide Those;
    var looked := ChallengeDecide(From(ip, key), ip, None);
    var s2 := Next(c, Next(c, s, Advance(0)), Advance(1));
    assert s2 == s.(handlers := map[0 := looked, 1 := looked]);
    var made := NewChallenge(0, ip, key).(challenge := "other");
    var s4 := Next(c, Next(c, s2, Decide(0, "nonce", 0, 0, 0)), Decide(1, "other", 0, 0, 0));
    assert s4 == s.(handlers := map[0 := ChallengePush(ip, NewChallenge(0, ip, key)), 1 := ChallengePush(ip, made)]);
    var s5 := Next(c, s4, Advance(0));
    assert s5.handlers == map[0 := ChallengeDone(ip, "nonce"), 1 := ChallengePush(ip, made)];
    assert s5.pushed == [NewChallenge(0, ip, key)];
  }
}
