/** How far refreshing can prolong access. Any token the service signed may be presented, also one that
    was itself obtained by a refresh. */
module AuthRefresh {
  import opened Prelude
  import opened Challenges
  import opened AuthRuns
  import opened AuthCapacity

  // ---------------------------------------------------------------- what each refresh adds

  /** No refresh took longer than `delta` between its two clock reads. */
  ghost predicate Prompt(es: seq<Event>, i: nat, delta: Time) {
    i <= |es| && forall k :: 0 <= k < i && es[k].Refresh? ==> es[k].passed <= delta
  }

  ghost function Expiry(signed: seq<Signed>, k: nat): Time
    requires k < |signed|
  {
    FromToken(signed[k].token).expires
  }

  function WholeSeconds(t: int): int {
    t / SECOND * SECOND
  }

  /** By how much a refreshed token can outlast the one presented. That one is not expired when it is
      checked, the new one is dated up to `delta` later, and tokens expire at whole seconds. */
  function Gain(delta: Time): (r: int)
    ensures ACCESS_TOKEN_TTL + delta - SECOND <= r < ACCESS_TOKEN_TTL + delta
  {
    ACCESS_TOKEN_TTL + WholeSeconds(delta - 1)
  }

  ghost predicate ChainBounded(signed: seq<Signed>, delta: Time) {
    forall k :: 0 <= k < |signed| && signed[k].cause.Refreshed? ==>
      signed[k].cause.parent < k && Expiry(signed, k) <= Expiry(signed, signed[k].cause.parent) + Gain(delta)
  }

  /** The expiry of a token made `passed` after the check of one that expires at second `s`. */
  lemma RefreshedExpiry(s: nat, now: Time, passed: Time, delta: Time)
    requires now < s * SECOND && passed <= delta
    ensures WholeSeconds(now + passed + ACCESS_TOKEN_TTL) <= s * SECOND + Gain(delta)
    ensures now == s * SECOND - 1 && passed == delta ==>
              WholeSeconds(now + passed + ACCESS_TOKEN_TTL) == s * SECOND + Gain(delta)
  {
  }

  lemma RefreshBounds(s: State, token: TokenClaims, parent: nat, passed: Time, delta: Time)
    requires ChainBounded(s.signed, delta) && passed <= delta
    ensures ChainBounded(RefreshStep(s, token, parent, passed).signed, delta)
  {
    hide Gain;
    if s.now < token.expiresAtSecond * SECOND {
      RefreshedExpiry(token.expiresAtSecond, s.now, passed, delta);
    }
  }

  lemma OthersSignIssued(c: Config, s: State, e: Event, delta: Time)
    requires ChainBounded(s.signed, delta) && !e.Refresh?
    ensures ChainBounded(Next(c, s, e).signed, delta)
  {
    hide FromToken, ToToken, Gain;
  }

  lemma {:induction false} AlwaysChainBounded(c: Config, es: seq<Event>, i: nat, delta: Time)
    requires Prompt(es, i, delta)
    ensures ChainBounded(After(c, es, i).signed, delta)
  {
    hide Next, ChainBounded, RefreshStep;
    if i == 0 {
      NothingSigned(delta);
    } else {
      AlwaysChainBounded(c, es, i - 1, delta);
      var s, e := After(c, es, i - 1), es[i - 1];
      if e.Refresh? {
        RefreshBounds(s, e.token, e.parent, e.passed, delta);
        assert Next(c, s, e) == RefreshStep(s, e.token, e.parent, e.passed) by { RefreshIsStep(c, s, e); }
      } else {
        OthersSignIssued(c, s, e, delta);
      }
    }
  }

  lemma NothingSigned(delta: Time)
    ensures ChainBounded([], delta)
  {
  }

  lemma RefreshIsStep(c: Config, s: State, e: Event)
    requires e.Refresh?
    ensures Next(c, s, e) == RefreshStep(s, e.token, e.parent, e.passed)
  {
  }

  /** In every run, a token reached from a challenge's pair by some number of refreshes expires no later
      than the pair's refresh token, plus what that many refreshes gain. */
  lemma {:induction false} RefreshesAddUp(c: Config, es: seq<Event>, i: nat, delta: Time, k: nat)
    requires Prompt(es, i, delta) && k < |After(c, es, i).signed|
    ensures var s := After(c, es, i);
            && Root(s.signed, k) <= k && s.signed[Root(s.signed, k)].cause.Issued?
            && s.signed[Root(s.signed, k)].cause.serial < |s.pushed|
            && Expiry(s.signed, k) <= WholeSeconds(s.pushed[s.signed[Root(s.signed, k)].cause.serial].refresh.expires)
                                      + Depth(s.signed, k) * Gain(delta)
    decreases k
  {
    hide Next, After, StoreOk, HandlersOk, Gain;
    var s := After(c, es, i);
    Reachable(c, es, i);
    assert Justified(c, k, s.signed, s.pushed);
    match s.signed[k].cause
    case Issued(serial, _) =>
      GrantsAreBounded(c, es, i);
      assert Dated(s.pushed[serial], s.now);
    case Refreshed(parent) =>
      AlwaysChainBounded(c, es, i, delta);
      RefreshesAddUp(c, es, i, delta, parent);
      assert (Depth(s.signed, parent) + 1) * Gain(delta) == Depth(s.signed, parent) * Gain(delta) + Gain(delta);
  }

  /** If only issued tokens are ever presented, nothing that descends from a challenge lasts longer than its
      refresh token by more than one refresh gains. */
  lemma IssuedOnlyIsBounded(c: Config, es: seq<Event>, i: nat, delta: Time, k: nat)
    requires Prompt(es, i, delta) && k < |After(c, es, i).signed|
    requires var signed := After(c, es, i).signed;
             signed[k].cause.Refreshed? ==> signed[k].cause.parent < |signed| && signed[signed[k].cause.parent].cause.Issued?
    ensures var s := After(c, es, i);
            && Root(s.signed, k) <= k && s.signed[Root(s.signed, k)].cause.Issued?
            && s.signed[Root(s.signed, k)].cause.serial < |s.pushed|
            && Expiry(s.signed, k) <= WholeSeconds(s.pushed[s.signed[Root(s.signed, k)].cause.serial].refresh.expires) + Gain(delta)
  {
    hide After, Expiry, WholeSeconds;
    RefreshesAddUp(c, es, i, delta, k);
    var depth := Depth(After(c, es, i).signed, k);
    assert depth <= 1;
    assert depth == 0 || depth == 1;
    GainIsPositive(delta);
  }

  lemma GainIsPositive(delta: Time)
    ensures Gain(delta) >= 1
  {
  }

  // ---------------------------------------------------------------- the bound is reached, and there is no end

  /** A client with a key to prove. */
  predicate CanProve(c: Config, key: Pubkey, signature: Bytes) {
    && c.limit >= 1 && Welcome(c, key) && c.validKey(key)
    && |signature| == 64 && c.validSignature(signature)
    && c.verifies(key, c.show(key) + "-" + "nonce", signature)
  }

  function Proof(c: Config, ip: Ip, key: Pubkey, signature: Bytes): TokensRequest {
    TokensRequest(Some(ip), key, c.show(key) + "-" + "nonce", signature)
  }

  /** A token request begins and looks its client up. */
  lemma LookOne(c: Config, s: State, h: HandlerId, req: TokensRequest, ip: Ip)
    requires h !in s.handlers && req.remote == Some(ip) && ip in s.store && c.validKey(req.pubkey)
    ensures Next(c, Next(c, s, BeginTokens(h, req)), Advance(h)) == s.Go(h, TokensVerify(req, ip, s.store[ip]))
  {
    assert s.handlers[h := TokensLookup(req)][h := TokensVerify(req, ip, s.store[ip])]
           == s.handlers[h := TokensVerify(req, ip, s.store[ip])];
  }

  lemma Look(c: Config, es: seq<Event>, h: HandlerId, req: TokensRequest, ip: Ip) returns (es': seq<Event>)
    requires var s := Final(c, es); h !in s.handlers && req.remote == Some(ip) && ip in s.store && c.validKey(req.pubkey)
    ensures Final(c, es') == Final(c, es).Go(h, TokensVerify(req, ip, Final(c, es).store[ip]))
    ensures es' == es + [BeginTokens(h, req)] + [Advance(h)]
  {
    hide Next, Final;
    LookOne(c, Final(c, es), h, req, ip);
    Continue(c, es, BeginTokens(h, req));
    Continue(c, es + [BeginTokens(h, req)], Advance(h));
    es' := es + [BeginTokens(h, req)] + [Advance(h)];
  }

  /** A first challenge, and its pair. */
  lemma IssueOne(c: Config, ip: Ip, key: Pubkey, signature: Bytes) returns (es: seq<Event>)
    requires CanProve(c, key, signature)
    ensures var s := Final(c, es);
            && s.pairs == [0] && s.now == 0 && s.pushed == [NewChallenge(0, ip, key)]
            && |s.signed| == 2 && s.signed[1] == Signed(TokenClaims(ip, key, 180_000), Issued(0, signature))
    ensures forall e :: e in es ==> !e.Refresh?
  {
    hide Next;
    es := PushOne(c, ip, key);
    var req := Proof(c, ip, key, signature);
    es := Look(c, es, 1, req, ip);
    VerifyProven(c, Final(c, es), 1);
    Continue(c, es, Advance(1));
    es := es + [Advance(1)];
    assert [] + [0] == [0];
  }

  lemma VerifyProven(c: Config, s: State, h: HandlerId)
    requires h in s.handlers && s.handlers[h].TokensVerify? && Proves(c, s.handlers[h].treq, s.handlers[h].entry.challenge)
    ensures var s', pc := Next(c, s, Advance(h)), s.handlers[h];
            && s'.pairs == s.pairs + [pc.entry.serial] && s'.now == s.now && s'.pushed == s.pushed && s'.store == s.store
            && s'.handlers == s.handlers[h := TokensRemove(pc.ip, pc.entry.serial)]
            && |s'.signed| == |s.signed| + 2
            && s'.signed[|s.signed| + 1] == Signed(ToToken(pc.entry.challenge.refresh), Issued(pc.entry.serial, pc.treq.signature))
  {
  }

  lemma PushOne(c: Config, ip: Ip, key: Pubkey) returns (es: seq<Event>)
    requires c.limit >= 1 && Welcome(c, key)
    ensures var s := Final(c, es);
            && s.handlers == map[] && s.pushed == [NewChallenge(0, ip, key)] && s.now == 0
            && s.store == map[ip := Entry(0, NewChallenge(0, ip, key))] && s.pairs == [] && s.signed == []
    ensures forall e :: e in es ==> !e.Refresh?
  {
    assert Final(c, []) == Initial;
    NobodyYet();
    es := Admit(c, [], 0, ip, key);
    es := Finish(c, es, 0, ip, key);
  }

  /** What is known of a token's chain does not change when more are signed. */
  lemma {:induction false} ChainStays(signed: seq<Signed>, more: seq<Signed>, k: nat)
    requires k < |signed|
    ensures Depth(signed + more, k) == Depth(signed, k) && Root(signed + more, k) == Root(signed, k) <= k
  {
    if signed[k].cause.Refreshed? && signed[k].cause.parent < k {
      ChainStays(signed, more, signed[k].cause.parent);
    }
  }

  /** The last moment of a token: a refresh then, which takes `delta`, gains the most. */
  lemma RefreshLate(c: Config, s: State, k: nat, delta: Time)
    requires k < |s.signed| && s.now < Expiry(s.signed, k)
    ensures var s' := Next(c, Next(c, s, Tick(Expiry(s.signed, k) - 1 - s.now)), Refresh(s.signed[k].token, k, delta));
            && s'.pairs == s.pairs && s'.pushed == s.pushed && |s'.signed| == |s.signed| + 1
            && s'.signed == s.signed + [s'.signed[|s.signed|]] && s'.signed[|s.signed|].cause == Refreshed(k)
            && Expiry(s'.signed, |s.signed|) == Expiry(s.signed, k) + Gain(delta)
            && s'.now < Expiry(s'.signed, |s.signed|)
  {
    RefreshedExpiry(s.signed[k].token.expiresAtSecond, Expiry(s.signed, k) - 1, delta, delta);
    hide Gain;
    GainCovers(delta);
  }

  lemma GainCovers(delta: Time)
    ensures delta <= Gain(delta)
  {
  }

  /** For every number of refreshes, and however long each may take, a run attains the bound. */
  lemma {:induction false} RefreshBoundIsReached(c: Config, ip: Ip, key: Pubkey, signature: Bytes, d: nat, delta: Time)
    returns (es: seq<Event>, k: nat)
    requires CanProve(c, key, signature)
    ensures Prompt(es, |es|, delta)
    ensures var s := Final(c, es);
            && s.pairs == [0] && s.pushed == [NewChallenge(0, ip, key)] && k < |s.signed|
            && Depth(s.signed, k) == d && Root(s.signed, k) == 1 < |s.signed|
            && s.signed[1].cause == Issued(0, signature)
            && Expiry(s.signed, k) == WholeSeconds(s.pushed[0].refresh.expires) + d * Gain(delta) && s.now < Expiry(s.signed, k)
  {
    if d == 0 {
      es := IssueOne(c, ip, key, signature);
      k := 1;
    } else {
      es, k := RefreshBoundIsReached(c, ip, key, signature, d - 1, delta);
      var s := Final(c, es);
      RefreshLate(c, s, k, delta);
      hide Next, Final, Expiry, Gain, WholeSeconds;
      var tick, refresh := Tick(Expiry(s.signed, k) - 1 - s.now), Refresh(s.signed[k].token, k, delta);
      Continue(c, es, tick);
      Continue(c, es + [tick], refresh);
      es := es + [tick] + [refresh];
      ChainStays(s.signed, [Final(c, es).signed[|s.signed|]], k);
      assert d * Gain(delta) == (d - 1) * Gain(delta) + Gain(delta);
      k := |s.signed|;
    }
  }

  /** From the second refresh on, a chain can outlast anything obtained from issued tokens alone. */
  lemma DeeperLastsLonger(c: Config, ip: Ip, key: Pubkey, signature: Bytes, d: nat, delta: Time)
    returns (es: seq<Event>, k: nat)
    requires CanProve(c, key, signature) && d >= 2
    ensures Prompt(es, |es|, delta)
    ensures var s := Final(c, es);
            && k < |s.signed| && Depth(s.signed, k) == d && |s.pushed| == 1
            && Expiry(s.signed, k) > WholeSeconds(s.pushed[0].refresh.expires) + Gain(delta)
  {
    es, k := RefreshBoundIsReached(c, ip, key, signature, d, delta);
    GainIsPositive(delta);
    hide Gain;
    assert d * Gain(delta) == (d - 1) * Gain(delta) + Gain(delta);
    AtLeast(d - 1, Gain(delta));
  }

  lemma {:induction false} AtLeast(n: nat, x: int)
    requires x >= 1
    ensures n * x >= n
  {
    if n > 0 {
      AtLeast(n - 1, x);
      assert n * x == (n - 1) * x + x;
    }
  }

  /** With a single pair, there is for every instant a run that signs a token valid beyond it. */
  lemma AccessNeverEnds(c: Config, ip: Ip, key: Pubkey, signature: Bytes, t: Time) returns (es: seq<Event>, k: nat)
    requires CanProve(c, key, signature)
    ensures var s := Final(c, es);
            s.pairs == [0] && k < |s.signed| && t < s.signed[k].token.expiresAtSecond * SECOND
  {
    es, k := RefreshBoundIsReached(c, ip, key, signature, t, 0);
    GainIsPositive(0);
    AtLeast(t, Gain(0));
  }
}
