/** The life of a challenge when handlers execute one at a time. */
module AuthLifecycle {
  import opened Prelude
  import opened Challenges
  import opened AuthRuns

  /** Challenge `n` has been pushed, has not expired, and no pair was signed for it. */
  ghost predicate Live(s: State, n: nat) {
    n < |s.pushed| && s.now < s.pushed[n].expires && n !in s.pairs
  }

  ghost predicate LiveFor(s: State, n: nat, ip: Ip) {
    Live(s, n) && s.pushed[n].access.ip == ip
  }

  /** What a handler relies on when no other handler runs. */
  ghost predicate Alone(s: State, pc: Pc) {
    match pc
    case ChallengeDecide(_, ip, found) =>
      forall n: nat :: LiveFor(s, n, ip) ==> found.Some? && found.value.serial == n
    case ChallengePush(ip, _) => forall n: nat :: !LiveFor(s, n, ip)
    case TokensVerify(_, ip, e) => e.serial !in s.pairs && (ip in s.store ==> s.store[ip].serial == e.serial)
    case TokensRemove(ip, serial) => ip in s.store ==> s.store[ip].serial == serial
    case _ => true
  }

  ghost predicate Removing(s: State, ip: Ip) {
    exists h :: h in s.handlers && s.handlers[h].TokensRemove? && s.handlers[h].ip == ip
  }

  /** A live challenge is the one stored for its client; a challenge whose pair is signed is stored
      only until its handler removes it; no challenge has two pairs. */
  ghost predicate Orderly(s: State) {
    && (forall n: nat, ip :: LiveFor(s, n, ip) ==> ip in s.store && s.store[ip].serial == n)
    && (forall h :: h in s.handlers ==> Alone(s, s.handlers[h]))
    && (forall ip :: ip in s.store && s.store[ip].serial in s.pairs ==> Removing(s, ip))
    && (forall n: nat :: n in s.pairs ==> n < |s.pushed|)
    && (forall i, j :: 0 <= i < j < |s.pairs| ==> s.pairs[i] != s.pairs[j])
  }

  /** With one handler, whatever is said of a handler is said of it. */
  lemma OnlyOne(s: State, h: HandlerId)
    requires |s.handlers| <= 1 && h in s.handlers
    ensures s.handlers.Keys == {h}
  {
    assert |s.handlers.Keys - {h}| == 0;
  }

  lemma LookUpOrderly(c: Config, s: State, h: HandlerId)
    requires Inv(c, s) && Orderly(s) && |s.handlers| <= 1 && h in s.handlers && s.handlers[h].ChallengeLookup?
    ensures Orderly(LookUp(s, h, s.handlers[h].creq))
  {
    hide SignedOk;
    OnlyOne(s, h);
    var s' := LookUp(s, h, s.handlers[h].creq);
    assert s'.handlers.Keys == {h};
    assert forall n: nat, ip :: LiveFor(s', n, ip) <==> LiveFor(s, n, ip);
  }

  lemma PushOrderly(c: Config, s: State, h: HandlerId)
    requires Inv(c, s) && Orderly(s) && |s.handlers| <= 1 && h in s.handlers && s.handlers[h].ChallengePush?
    ensures Orderly(PushStep(s, h, s.handlers[h].ip, s.handlers[h].made))
  {
    hide SignedOk;
    OnlyOne(s, h);
    var at, made := s.handlers[h].ip, s.handlers[h].made;
    var s' := PushStep(s, h, at, made);
    assert PcOk(s.handlers[h], s.pushed, s.pairs) && Alone(s, s.handlers[h]);
    assert s'.handlers.Keys == {h};
    forall n: nat, ip | LiveFor(s', n, ip)
      ensures ip in s'.store && s'.store[ip].serial == n
    {
      if n < |s.pushed| {
        assert LiveFor(s, n, ip);
        assert ip != at;
      }
    }
  }

  lemma TokensLookUpOrderly(c: Config, s: State, h: HandlerId)
    requires Inv(c, s) && Orderly(s) && |s.handlers| <= 1 && h in s.handlers && s.handlers[h].TokensLookup?
    ensures Orderly(TokensLookUp(c, s, h, s.handlers[h].treq))
  {
    hide SignedOk;
    OnlyOne(s, h);
    var s' := TokensLookUp(c, s, h, s.handlers[h].treq);
    assert s'.handlers.Keys == {h};
    assert forall n: nat, ip :: LiveFor(s', n, ip) <==> LiveFor(s, n, ip);
    assert forall ip :: !Removing(s, ip);
  }

  lemma VerifyOrderly(c: Config, s: State, h: HandlerId)
    requires Inv(c, s) && Orderly(s) && |s.handlers| <= 1 && h in s.handlers && s.handlers[h].TokensVerify?
    ensures Orderly(VerifyStep(c, s, h, s.handlers[h].treq, s.handlers[h].ip, s.handlers[h].entry))
  {
    hide SignedOk, Proves;
    OnlyOne(s, h);
    var at, e := s.handlers[h].ip, s.handlers[h].entry;
    var s' := VerifyStep(c, s, h, s.handlers[h].treq, at, e);
    assert PcOk(s.handlers[h], s.pushed, s.pairs) && Alone(s, s.handlers[h]);
    assert s'.handlers.Keys == {h};
    assert forall ip :: !Removing(s, ip);
    assert forall n: nat, ip :: LiveFor(s', n, ip) ==> LiveFor(s, n, ip);
    forall ip | ip in s'.store && s'.store[ip].serial in s'.pairs
      ensures Removing(s', ip)
    {
      assert Logged(s.store[ip], ip, s.pushed);
      assert s'.handlers[h] == TokensRemove(at, e.serial);
    }
  }

  lemma RemoveOrderly(c: Config, s: State, h: HandlerId)
    requires Inv(c, s) && Orderly(s) && |s.handlers| <= 1 && h in s.handlers && s.handlers[h].TokensRemove?
    ensures Orderly(RemoveStep(s, h, s.handlers[h].ip, s.handlers[h].serial))
  {
    hide SignedOk;
    OnlyOne(s, h);
    var at, serial := s.handlers[h].ip, s.handlers[h].serial;
    var s' := RemoveStep(s, h, at, serial);
    assert PcOk(s.handlers[h], s.pushed, s.pairs) && Alone(s, s.handlers[h]);
    assert s'.handlers.Keys == {h};
    assert forall n: nat, ip :: LiveFor(s', n, ip) ==> LiveFor(s, n, ip);
    assert forall ip :: Removing(s, ip) ==> ip == at;
  }

  /** A handler leaves, or moves between points at which nothing is relied on. */
  lemma QuietOrderly(s: State, s': State, h: HandlerId)
    requires Orderly(s) && h in s.handlers && |s.handlers| <= 1 && !s.handlers[h].TokensRemove?
    requires s'.handlers == s.handlers - {h} || (h in s'.handlers && s'.handlers == map[h := s'.handlers[h]] && Alone(s', s'.handlers[h]))
    requires s'.store == s.store && s'.pushed == s.pushed && s'.pairs == s.pairs && s.now <= s'.now
    ensures Orderly(s')
  {
    OnlyOne(s, h);
    assert forall n: nat, ip :: LiveFor(s', n, ip) ==> LiveFor(s, n, ip);
    assert forall ip :: !Removing(s, ip);
    assert forall g :: g in s'.handlers ==> g == h;
  }

  lemma AdvanceOrderly(c: Config, s: State, h: HandlerId)
    requires Inv(c, s) && Orderly(s) && |s.handlers| <= 1 && h in s.handlers
    ensures Orderly(AdvanceStep(c, s, h))
  {
    hide Inv, Orderly, LookUp, PushStep, TokensLookUp, VerifyStep, RemoveStep;
    OnlyOne(s, h);
    var s' := AdvanceStep(c, s, h);
    match s.handlers[h]
    case ChallengeStart(_) =>
      assert s'.handlers == map[h := s'.handlers[h]];
      QuietOrderly(s, s', h);
    case ChallengeLookup(_) => LookUpOrderly(c, s, h);
    case ChallengePush(_, _) => PushOrderly(c, s, h);
    case TokensLookup(_) => TokensLookUpOrderly(c, s, h);
    case TokensVerify(_, _, _) => VerifyOrderly(c, s, h);
    case TokensRemove(_, _) => RemoveOrderly(c, s, h);
    case ChallengeDecide(_, _, _) =>
    case _ => QuietOrderly(s, s', h);
  }

  lemma DecideOrderly(c: Config, s: State, h: HandlerId, random: string, d1: Time, d2: Time, d3: Time)
    requires Inv(c, s) && Orderly(s) && |s.handlers| <= 1 && h in s.handlers && s.handlers[h].ChallengeDecide?
    ensures Orderly(Next(c, s, Decide(h, random, d1, d2, d3)))
    ensures forall n: nat :: LiveFor(s, n, s.handlers[h].ip) ==>
              Next(c, s, Decide(h, random, d1, d2, d3)) == s.Go(h, ChallengeDone(s.handlers[h].ip, s.pushed[n].challenge))
  {
    hide SignedOk;
    OnlyOne(s, h);
    var s' := Next(c, s, Decide(h, random, d1, d2, d3));
    var at, found := s.handlers[h].ip, s.handlers[h].found;
    assert PcOk(s.handlers[h], s.pushed, s.pairs) && Alone(s, s.handlers[h]);
    assert forall n: nat :: LiveFor(s, n, at) ==> found.Some? && found.value.challenge == s.pushed[n];
    assert s'.handlers == map[h := s'.handlers[h]];
    assert forall n: nat :: LiveFor(s', n, at) ==> LiveFor(s, n, at);
    QuietOrderly(s, s', h);
  }

  /** Time passes, with or without a sweep of the store. */
  lemma TimeOrderly(c: Config, s: State, s': State)
    requires Inv(c, s) && Orderly(s)
    requires s'.handlers == s.handlers && s'.pushed == s.pushed && s'.pairs == s.pairs && s.now <= s'.now
    requires forall ip :: ip in s'.store ==> ip in s.store && s'.store[ip] == s.store[ip]
    requires forall ip :: ip in s.store && ip !in s'.store ==> s.store[ip].challenge.expires <= s'.now
    ensures Orderly(s')
  {
    hide SignedOk, HandlersOk;
    assert forall n: nat, ip :: LiveFor(s', n, ip) ==> LiveFor(s, n, ip);
    assert forall ip :: Removing(s', ip) <==> Removing(s, ip);
    forall h | h in s'.handlers
      ensures Alone(s', s'.handlers[h])
    {
      assert Alone(s, s.handlers[h]);
    }
  }

  lemma BeginOrderly(s: State, h: HandlerId, pc: Pc)
    requires Orderly(s) && h !in s.handlers && (pc.ChallengeStart? || pc.TokensLookup?)
    ensures Orderly(s.Go(h, pc))
  {
    var s' := s.Go(h, pc);
    assert forall n: nat, ip :: LiveFor(s', n, ip) <==> LiveFor(s, n, ip);
    forall ip | Removing(s, ip)
      ensures Removing(s', ip)
    {
      var g :| g in s.handlers && s.handlers[g].TokensRemove? && s.handlers[g].ip == ip;
      assert g in s'.handlers && s'.handlers[g] == s.handlers[g];
    }
    forall g | g in s'.handlers
      ensures Alone(s', s'.handlers[g])
    {
      assert g != h ==> Alone(s, s.handlers[g]);
    }
  }

  lemma StepOrderly(c: Config, s: State, e: Event)
    requires Inv(c, s) && Orderly(s) && |s.handlers| <= 1
    ensures Orderly(Next(c, s, e))
  {
    hide Inv, Orderly, AdvanceStep, DecideStep;
    match e
    case Tick(_) => TimeOrderly(c, s, Next(c, s, e));
    case Expire(_) => TimeOrderly(c, s, Next(c, s, e));
    case Refresh(_, _, _) => TimeOrderly(c, s, Next(c, s, e));
    case BeginChallenge(h, req) => if h !in s.handlers { BeginOrderly(s, h, ChallengeStart(req)); }
    case BeginTokens(h, req) => if h !in s.handlers { BeginOrderly(s, h, TokensLookup(req)); }
    case Advance(h) => if h in s.handlers { AdvanceOrderly(c, s, h); }
    case Decide(h, random, d1, d2, d3) =>
      if h in s.handlers && s.handlers[h].ChallengeDecide? {
        DecideOrderly(c, s, h, random, d1, d2, d3);
      }
  }

  /** In runs in which handlers execute one at a time, no challenge yields two token pairs, and a live
      challenge stays the one stored for its client. */
  lemma {:induction false} OneAtATime(c: Config, es: seq<Event>, i: nat)
    requires i <= |es| && forall k :: 0 <= k <= i ==> |After(c, es, k).handlers| <= 1
    ensures Orderly(After(c, es, i))
    ensures var pairs := After(c, es, i).pairs; forall m, n :: 0 <= m < n < |pairs| ==> pairs[m] != pairs[n]
  {
    hide Next, Inv;
    if i == 0 {
      assert After(c, es, 0) == Initial;
    } else {
      OneAtATime(c, es, i - 1);
      Reachable(c, es, i - 1);
      StepOrderly(c, After(c, es, i - 1), es[i - 1]);
      assert After(c, es, i) == Next(c, After(c, es, i - 1), es[i - 1]);
    }
  }

  /** In such runs, from its push until it expires or its pair is signed, every challenge request of
      its client that gets as far as the decision is answered with that challenge, and none replaces
      it. */
  lemma SameAnswerWhileLive(c: Config, es: seq<Event>, i: nat, h: HandlerId, n: nat)
    requires i < |es| && forall k :: 0 <= k <= i ==> |After(c, es, k).handlers| <= 1
    requires h in After(c, es, i).handlers
    requires var pc := After(c, es, i).handlers[h];
             (pc.ChallengeDecide? && es[i].Decide? && es[i].handler == h) || (pc.ChallengePush? && es[i] == Advance(h))
    requires LiveFor(After(c, es, i), n, After(c, es, i).handlers[h].ip)
    ensures After(c, es, i).handlers[h].ChallengeDecide?
    ensures After(c, es, i + 1) ==
            After(c, es, i).Go(h, ChallengeDone(After(c, es, i).handlers[h].ip, After(c, es, i).pushed[n].challenge))
  {
    hide Next, Inv;
    var s := After(c, es, i);
    OneAtATime(c, es, i);
    Reachable(c, es, i);
    assert Alone(s, s.handlers[h]);
    DecideOrderly(c, s, h, es[i].random, es[i].d1, es[i].d2, es[i].d3);
    assert After(c, es, i + 1) == Next(c, s, es[i]);
  }
}
