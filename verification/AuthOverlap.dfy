/** What overlapping handlers do to a challenge. Everything follows from an exact account of how long a
    pushed challenge stays stored for its client: a handler gets it if, and only if, it looks it up in
    that time. */
module AuthOverlap {
  import opened Prelude
  import opened Challenges
  import opened AuthRuns

  // ---------------------------------------------------------------- how long a challenge is stored

  ghost predicate Holds(s: State, ip: Ip, n: nat) {
    ip in s.store && s.store[ip].serial == n
  }

  ghost predicate PushesFor(s: State, e: Event, ip: Ip) {
    && e.Advance? && e.handler in s.handlers
    && s.handlers[e.handler].ChallengePush? && s.handlers[e.handler].ip == ip
  }

  ghost predicate RemovesFor(s: State, e: Event, ip: Ip) {
    && e.Advance? && e.handler in s.handlers
    && s.handlers[e.handler].TokensRemove? && s.handlers[e.handler].ip == ip
  }

  /** The three ways in which a client's challenge leaves the store: another push for the client, a
      removal for the client, or a sweep at or after its expiry. */
  ghost predicate Evicts(s: State, e: Event, a: AuthChallenge) {
    || PushesFor(s, e, a.access.ip)
    || RemovesFor(s, e, a.access.ip)
    || (e.Expire? && a.expires <= e.cut)
  }

  lemma AdvanceHolds(c: Config, s: State, h: HandlerId, n: nat)
    requires Inv(c, s) && n < |s.pushed| && h in s.handlers
    ensures var ip := s.pushed[n].access.ip;
            Holds(AdvanceStep(c, s, h), ip, n) <==> Holds(s, ip, n) && !Evicts(s, Advance(h), s.pushed[n])
  {
    hide SignedOk, HandlersOk, Proves;
  }

  lemma StoreStep(c: Config, s: State, e: Event, n: nat)
    requires Inv(c, s) && n < |s.pushed|
    ensures s.pushed <= Next(c, s, e).pushed
    ensures var ip := s.pushed[n].access.ip;
            Holds(Next(c, s, e), ip, n) <==> Holds(s, ip, n) && !Evicts(s, e, s.pushed[n])
  {
    hide SignedOk, HandlersOk, AdvanceStep, DecideStep;
    PushedGrows(c, s, e);
    match e
    case Advance(h) => if h in s.handlers { AdvanceHolds(c, s, h, n); }
    case Decide(h, random, d1, d2, d3) => DecideKeepsStore(c, s, h, random, d1, d2, d3);
    case _ =>
  }

  lemma DecideKeepsStore(c: Config, s: State, h: HandlerId, random: string, d1: Time, d2: Time, d3: Time)
    ensures Next(c, s, Decide(h, random, d1, d2, d3)).store == s.store
  {
  }

  lemma PushedGrows(c: Config, s: State, e: Event)
    ensures s.pushed <= Next(c, s, e).pushed
  {
  }

  lemma {:induction false} PushedStays(c: Config, es: seq<Event>, i: nat, j: nat)
    requires i <= j <= |es|
    ensures After(c, es, i).pushed <= After(c, es, j).pushed
  {
    if i < j {
      PushedStays(c, es, i, j - 1);
      PushedGrows(c, After(c, es, j - 1), es[j - 1]);
    }
  }

  /** Event `p` pushes challenge `n`. */
  ghost predicate PushedAt(c: Config, es: seq<Event>, p: nat, n: nat) {
    p < |es| && |After(c, es, p).pushed| == n < |After(c, es, p + 1).pushed|
  }

  /** Challenge `n` has been pushed before event `i`, and nothing has evicted it since. */
  ghost predicate Available(c: Config, es: seq<Event>, i: nat, n: nat) {
    i <= |es| && exists p :: 0 <= p < i && PushedAt(c, es, p, n) && Unevicted(c, es, p, i, n)
  }

  ghost predicate Unevicted(c: Config, es: seq<Event>, p: nat, i: nat, n: nat)
    requires i <= |es| && PushedAt(c, es, p, n)
  {
    forall k :: p < k < i ==> !Evicts(After(c, es, k), es[k], After(c, es, p + 1).pushed[n])
  }

  lemma PushStores(c: Config, s: State, e: Event)
    requires Inv(c, s) && |s.pushed| < |Next(c, s, e).pushed|
    ensures Holds(Next(c, s, e), Next(c, s, e).pushed[|s.pushed|].access.ip, |s.pushed|)
    ensures PushesFor(s, e, Next(c, s, e).pushed[|s.pushed|].access.ip)
  {
    hide SignedOk, StoreOk, Proves;
    assert PcOk(s.handlers[e.handler], s.pushed, s.pairs);
  }

  lemma {:induction false} PushEvent(c: Config, es: seq<Event>, i: nat, n: nat) returns (p: nat)
    requires i <= |es| && n < |After(c, es, i).pushed|
    ensures p < i && PushedAt(c, es, p, n)
  {
    hide Next;
    if n < |After(c, es, i - 1).pushed| {
      p := PushEvent(c, es, i - 1, n);
    } else {
      p := i - 1;
      PushesOne(c, After(c, es, p), es[p]);
      assert After(c, es, i) == Next(c, After(c, es, p), es[p]);
    }
  }

  lemma PushesOne(c: Config, s: State, e: Event)
    ensures |Next(c, s, e).pushed| <= |s.pushed| + 1
  {
  }

  /** A challenge is stored for its client exactly from its push until it is first evicted. */
  lemma {:induction false} StoredExactly(c: Config, es: seq<Event>, p: nat, i: nat, n: nat)
    requires p < i <= |es| && PushedAt(c, es, p, n)
    ensures After(c, es, p + 1).pushed <= After(c, es, i).pushed
    ensures Holds(After(c, es, i), After(c, es, i).pushed[n].access.ip, n) <==> Unevicted(c, es, p, i, n)
  {
    hide Next, Evicts, Holds, Inv;
    Reachable(c, es, i - 1);
    PushedStays(c, es, p + 1, i);
    assert After(c, es, i) == Next(c, After(c, es, i - 1), es[i - 1]);
    if i == p + 1 {
      PushStores(c, After(c, es, p), es[p]);
    } else {
      StoredExactly(c, es, p, i - 1, n);
      StoreStep(c, After(c, es, i - 1), es[i - 1], n);
    }
  }

  /** In any run, challenge `n` is stored for a client exactly while it is available, and then for its
      own. */
  lemma AvailableExactly(c: Config, es: seq<Event>, i: nat, ip: Ip, n: nat)
    requires i <= |es|
    ensures Holds(After(c, es, i), ip, n) ==>
              n < |After(c, es, i).pushed| && After(c, es, i).pushed[n].access.ip == ip && Available(c, es, i, n)
    ensures Available(c, es, i, n) ==>
              n < |After(c, es, i).pushed| && Holds(After(c, es, i), After(c, es, i).pushed[n].access.ip, n)
  {
    hide Next, Evicts, After, SignedOk, HandlersOk;
    Reachable(c, es, i);
    if Holds(After(c, es, i), ip, n) {
      var p := PushEvent(c, es, i, n);
      StoredExactly(c, es, p, i, n);
    }
    if Available(c, es, i, n) {
      var p :| 0 <= p < i && PushedAt(c, es, p, n) && Unevicted(c, es, p, i, n);
      StoredExactly(c, es, p, i, n);
    }
  }

  // ---------------------------------------------------------------- a handler between two of its steps

  /** The event is handler `h`'s next step. */
  ghost predicate Moves(s: State, e: Event, h: HandlerId) {
    h in s.handlers && if s.handlers[h].ChallengeDecide? then e.Decide? && e.handler == h else e == Advance(h)
  }

  /** Only its own steps move a handler. */
  lemma HandlerStays(c: Config, s: State, e: Event, h: HandlerId)
    requires h in s.handlers && !Moves(s, e, h)
    ensures h in Next(c, s, e).handlers && Next(c, s, e).handlers[h] == s.handlers[h]
  {
    hide AdvanceStep, DecideStep;
    match e
    case Advance(g) =>
      if g in s.handlers {
        AdvanceMovesOne(c, s, g);
      }
    case Decide(g, random, d1, d2, d3) => DecideMovesOne(c, s, g, random, d1, d2, d3);
    case _ =>
  }

  lemma AdvanceMovesOne(c: Config, s: State, g: HandlerId)
    requires g in s.handlers
    ensures forall h :: h in s.handlers && h != g ==>
              h in AdvanceStep(c, s, g).handlers && AdvanceStep(c, s, g).handlers[h] == s.handlers[h]
    ensures s.handlers[g].ChallengeDecide? ==> AdvanceStep(c, s, g) == s
  {
  }

  lemma DecideMovesOne(c: Config, s: State, g: HandlerId, random: string, d1: Time, d2: Time, d3: Time)
    ensures var s' := Next(c, s, Decide(g, random, d1, d2, d3));
            && (forall h :: h in s.handlers && h != g ==> h in s'.handlers && s'.handlers[h] == s.handlers[h])
            && (g in s.handlers && !s.handlers[g].ChallengeDecide? ==> s' == s)
  {
  }

  /** Handler `h` makes a step at event `l`, and its next one at event `v`. */
  ghost predicate Consecutive(c: Config, es: seq<Event>, l: nat, v: nat, h: HandlerId) {
    && l < v < |es| && Moves(After(c, es, l), es[l], h) && Moves(After(c, es, v), es[v], h)
    && forall k :: l < k < v ==> !Moves(After(c, es, k), es[k], h)
  }

  lemma {:induction false} HandlerWaits(c: Config, es: seq<Event>, l: nat, i: nat, h: HandlerId)
    requires l < i <= |es| && h in After(c, es, l + 1).handlers
    requires forall k :: l < k < i ==> !Moves(After(c, es, k), es[k], h)
    ensures h in After(c, es, i).handlers && After(c, es, i).handlers[h] == After(c, es, l + 1).handlers[h]
  {
    hide Next, Moves;
    if i > l + 1 {
      HandlerWaits(c, es, l, i - 1, h);
      HandlerStays(c, After(c, es, i - 1), es[i - 1], h);
      assert After(c, es, i) == Next(c, After(c, es, i - 1), es[i - 1]);
    }
  }

  // ---------------------------------------------------------------- which requests get a pair

  /** Event `v` signs a pair for challenge `n`. */
  ghost predicate Signs(c: Config, es: seq<Event>, v: nat, n: nat) {
    v < |es| && After(c, es, v + 1).pairs == After(c, es, v).pairs + [n]
  }

  /** A token request about to look its client up, with a proof of challenge `a`. */
  ghost predicate Proving(c: Config, pc: Pc, a: AuthChallenge) {
    pc.TokensLookup? && pc.treq.remote == Some(a.access.ip) && c.validKey(pc.treq.pubkey) && Presents(c, pc.treq, a)
  }

  /** One step signs for `n` exactly if it is the verification of a proven challenge `n`. */
  lemma SigningStep(c: Config, s: State, e: Event, n: nat)
    ensures Next(c, s, e).pairs == s.pairs + [n] <==>
            && e.Advance? && e.handler in s.handlers && s.handlers[e.handler].TokensVerify?
            && s.handlers[e.handler].entry.serial == n
            && Proves(c, s.handlers[e.handler].treq, s.handlers[e.handler].entry.challenge)
    ensures Next(c, s, e).pairs == s.pairs
            || exists m :: Next(c, s, e).pairs == s.pairs + [m]
  {
    hide Proves;
    assert forall x: nat, y: nat :: s.pairs + [x] == s.pairs + [y] ==> (s.pairs + [x])[|s.pairs|] == (s.pairs + [y])[|s.pairs|];
    if e.Advance? && e.handler in s.handlers && s.handlers[e.handler].TokensVerify? {
      var v := s.handlers[e.handler];
      ProofNamesKey(c, v.treq, v.entry.challenge);
    }
  }

  /** A token request that looks its client up at event `l` and has its proof checked at event `v` gets a
      pair for challenge `n` if, and only if, it proves that challenge and the challenge was available at
      the lookup. What has been signed for it already makes no difference, and neither does its expiry. */
  lemma SignsExactly(c: Config, es: seq<Event>, l: nat, v: nat, h: HandlerId, n: nat)
    requires Consecutive(c, es, l, v, h) && After(c, es, l).handlers[h].TokensLookup? && n < |After(c, es, v).pushed|
    ensures Signs(c, es, v, n) <==>
            Proving(c, After(c, es, l).handlers[h], After(c, es, v).pushed[n]) && Available(c, es, l, n)
  {
    hide Next, Proves, Presents, Available, SignedOk, HandlersOk;
    var s, req := After(c, es, l), After(c, es, l).handlers[h].treq;
    ProvesExactly(c, req, After(c, es, v).pushed[n]);
    Reachable(c, es, l);
    TokensLookUpStep(c, s, h);
    assert After(c, es, l + 1) == Next(c, s, es[l]);
    HandlerWaits(c, es, l, v, h);
    SigningStep(c, After(c, es, v), es[v], n);
    assert After(c, es, v + 1) == Next(c, After(c, es, v), es[v]);
    PushedStays(c, es, l, v);
    if req.remote.Some? {
      AvailableExactly(c, es, l, req.remote.value, n);
    }
  }

  lemma {:induction false} VerifyFollowsLookup(c: Config, es: seq<Event>, i: nat, h: HandlerId) returns (l: nat)
    requires i <= |es| && h in After(c, es, i).handlers && After(c, es, i).handlers[h].TokensVerify?
    ensures l < i && Moves(After(c, es, l), es[l], h) && After(c, es, l).handlers[h].TokensLookup?
    ensures forall k :: l < k < i ==> !Moves(After(c, es, k), es[k], h)
  {
    hide Next;
    var s := After(c, es, i - 1);
    ArrivesAtVerify(c, s, es[i - 1], h);
    assert After(c, es, i) == Next(c, s, es[i - 1]);
    if Moves(s, es[i - 1], h) {
      l := i - 1;
    } else {
      l := VerifyFollowsLookup(c, es, i - 1, h);
    }
  }

  lemma ArrivesAtVerify(c: Config, s: State, e: Event, h: HandlerId)
    requires h in Next(c, s, e).handlers && Next(c, s, e).handlers[h].TokensVerify?
    ensures h in s.handlers
    ensures if Moves(s, e, h) then s.handlers[h].TokensLookup? else s.handlers[h].TokensVerify?
  {
    if h in s.handlers && !Moves(s, e, h) {
      HandlerStays(c, s, e, h);
    } else if e == Advance(h) && h in s.handlers {
      OnlyLookupVerifies(c, s, h);
    }
  }

  lemma OnlyLookupVerifies(c: Config, s: State, h: HandlerId)
    requires h in s.handlers
    ensures h in AdvanceStep(c, s, h).handlers && AdvanceStep(c, s, h).handlers[h].TokensVerify? ==> s.handlers[h].TokensLookup?
  {
  }

  /** Event `v` checks a proof of challenge `n` by a request that looked its client up while the challenge
      was available. */
  ghost predicate ProvenInTime(c: Config, es: seq<Event>, v: nat, n: nat)
    requires n < |After(c, es, |es|).pushed|
  {
    exists l, h :: ProvenBy(c, es, l, v, h, n)
  }

  ghost predicate ProvenBy(c: Config, es: seq<Event>, l: nat, v: nat, h: HandlerId, n: nat)
    requires n < |After(c, es, |es|).pushed|
  {
    && Consecutive(c, es, l, v, h)
    && Proving(c, After(c, es, l).handlers[h], After(c, es, |es|).pushed[n])
    && Available(c, es, l, n)
  }

  lemma SignsIffProvenInTime(c: Config, es: seq<Event>, v: nat, n: nat)
    requires n < |After(c, es, |es|).pushed|
    ensures Signs(c, es, v, n) <==> ProvenInTime(c, es, v, n)
  {
    hide Next, Available, Proves, StoreOk, SignedOk;
    if Signs(c, es, v, n) {
      var s := After(c, es, v);
      Reachable(c, es, v);
      SigningStep(c, s, es[v], n);
      assert After(c, es, v + 1) == Next(c, s, es[v]);
      var h := es[v].handler;
      assert PcOk(s.handlers[h], s.pushed, s.pairs);
      var l := VerifyFollowsLookup(c, es, v, h);
      PushedStays(c, es, v, |es|);
      SignsExactly(c, es, l, v, h, n);
      assert ProvenBy(c, es, l, v, h, n);
    }
    if ProvenInTime(c, es, v, n) {
      var l, h :| ProvenBy(c, es, l, v, h, n);
      AvailableExactly(c, es, l, [], n);
      PushedStays(c, es, l, v);
      PushedStays(c, es, v, |es|);
      SignsExactly(c, es, l, v, h, n);
    }
  }

  // ---------------------------------------------------------------- how many pairs

  lemma {:induction false} PairsGrow(c: Config, es: seq<Event>, i: nat, j: nat)
    requires i <= j <= |es|
    ensures After(c, es, i).pairs <= After(c, es, j).pairs
  {
    hide Next;
    if i < j {
      PairsGrow(c, es, i, j - 1);
      SigningStep(c, After(c, es, j - 1), es[j - 1], 0);
      assert After(c, es, j) == Next(c, After(c, es, j - 1), es[j - 1]);
    }
  }

  /** The event that signed the pair at position `a`. */
  lemma {:induction false} PairEvent(c: Config, es: seq<Event>, i: nat, a: nat) returns (v: nat)
    requires i <= |es| && a < |After(c, es, i).pairs|
    ensures v < i && |After(c, es, v).pairs| == a && Signs(c, es, v, After(c, es, i).pairs[a])
  {
    hide Next;
    var s := After(c, es, i - 1);
    SigningStep(c, s, es[i - 1], 0);
    assert After(c, es, i) == Next(c, s, es[i - 1]);
    if a < |s.pairs| {
      v := PairEvent(c, es, i - 1, a);
    } else {
      v := i - 1;
    }
  }

  ghost predicate TwoPairs(pairs: seq<nat>, n: nat) {
    exists a, b :: 0 <= a < b < |pairs| && pairs[a] == n && pairs[b] == n
  }

  /** A challenge yields more than one pair if, and only if, two proofs of it are checked for requests that
      both looked it up while it was available: after its push and before it was first replaced, removed
      or swept out. In particular both looked it up before the first removal. */
  lemma TwoPairsExactly(c: Config, es: seq<Event>, n: nat)
    requires n < |After(c, es, |es|).pushed|
    ensures TwoPairs(After(c, es, |es|).pairs, n) <==>
            exists v, w :: 0 <= v < w && ProvenInTime(c, es, v, n) && ProvenInTime(c, es, w, n)
  {
    hide Next, After, ProvenInTime;
    var pairs := After(c, es, |es|).pairs;
    if TwoPairs(pairs, n) {
      var a, b :| 0 <= a < b < |pairs| && pairs[a] == n && pairs[b] == n;
      var v := PairEvent(c, es, |es|, a);
      var w := PairEvent(c, es, |es|, b);
      if w <= v {
        PairsGrow(c, es, w, v);
      }
      SignsIffProvenInTime(c, es, v, n);
      SignsIffProvenInTime(c, es, w, n);
    }
    if v, w :| 0 <= v < w && ProvenInTime(c, es, v, n) && ProvenInTime(c, es, w, n) {
      SignsIffProvenInTime(c, es, v, n);
      SignsIffProvenInTime(c, es, w, n);
      PairsGrow(c, es, v + 1, w);
      PairsGrow(c, es, w + 1, |es|);
      assert pairs[|After(c, es, v).pairs|] == n && pairs[|After(c, es, w).pairs|] == n;
    }
  }

  /** Once there has been a removal for the client, no request that looks the client up later gets a pair
      for a challenge pushed before the removal. */
  lemma NoPairAfterRemoval(c: Config, es: seq<Event>, r: nat, l: nat, v: nat, h: HandlerId, n: nat)
    requires r < l && Consecutive(c, es, l, v, h) && After(c, es, l).handlers[h].TokensLookup?
    requires n < |After(c, es, r).pushed| && RemovesFor(After(c, es, r), es[r], After(c, es, r).pushed[n].access.ip)
    ensures !Signs(c, es, v, n)
  {
    hide Next, After, Moves, Proving;
    PushedStays(c, es, r, v);
    SignsExactly(c, es, l, v, h, n);
    if Available(c, es, l, n) {
      var p :| 0 <= p < l && PushedAt(c, es, p, n) && Unevicted(c, es, p, l, n);
      PushedBefore(c, es, p, r, n);
      PushedStays(c, es, p + 1, r);
    }
  }

  lemma PushedBefore(c: Config, es: seq<Event>, p: nat, i: nat, n: nat)
    requires i <= |es| && PushedAt(c, es, p, n) && n < |After(c, es, i).pushed|
    ensures p < i
  {
    if i <= p {
      PushedStays(c, es, i, p);
    }
  }

  // ---------------------------------------------------------------- what a removal removes

  /** A token request looks its client up at event `l`, has its proof of challenge `n` checked at `v`, and
      removes at `r` what is stored for the client by then. That is a challenge `m` other than the one
      used if, and only if, `m` was pushed for the client after the lookup and is still available. */
  lemma RemovalIsExactUnlessReplaced(c: Config, es: seq<Event>, l: nat, v: nat, r: nat, h: HandlerId, m: nat)
    requires Consecutive(c, es, l, v, h) && After(c, es, l).handlers[h].TokensLookup?
    requires Consecutive(c, es, v, r, h) && After(c, es, v).handlers[h].TokensVerify? && After(c, es, r).handlers[h].TokensRemove?
    ensures var s, pc := After(c, es, r), After(c, es, r).handlers[h];
            && After(c, es, r + 1).store == s.store - {pc.ip}
            && pc.serial < |After(c, es, l).pushed|
            && (m != pc.serial && Holds(s, pc.ip, m) <==>
                |After(c, es, l).pushed| <= m < |s.pushed| && s.pushed[m].access.ip == pc.ip && Available(c, es, r, m))
  {
    hide Next, Available, Proves, SignedOk, HandlersOk;
    RemovalRuns(c, es, l, v, r, h);
    var s, pc := After(c, es, r), After(c, es, r).handlers[h];
    Reachable(c, es, l);
    assert pc.serial < |After(c, es, l).pushed|;
    AvailableExactly(c, es, r, pc.ip, m);
    if Holds(s, pc.ip, m) && m < |After(c, es, l).pushed| {
      HeldThroughout(c, es, l, r, pc.ip, m);
    }
  }

  /** What such a request does between its steps. */
  lemma RemovalRuns(c: Config, es: seq<Event>, l: nat, v: nat, r: nat, h: HandlerId)
    requires Consecutive(c, es, l, v, h) && After(c, es, l).handlers[h].TokensLookup?
    requires Consecutive(c, es, v, r, h) && After(c, es, v).handlers[h].TokensVerify? && After(c, es, r).handlers[h].TokensRemove?
    ensures var pc := After(c, es, r).handlers[h];
            && After(c, es, r + 1).store == After(c, es, r).store - {pc.ip}
            && pc.ip in After(c, es, l).store && After(c, es, l).store[pc.ip].serial == pc.serial
  {
    hide Next;
    TokensLookUpStep(c, After(c, es, l), h);
    assert After(c, es, l + 1) == Next(c, After(c, es, l), es[l]);
    HandlerWaits(c, es, l, v, h);
    VerifyStepEnds(c, After(c, es, v), h);
    assert After(c, es, v + 1) == Next(c, After(c, es, v), es[v]);
    HandlerWaits(c, es, v, r, h);
    RemovalStep(c, After(c, es, r), h);
    assert After(c, es, r + 1) == Next(c, After(c, es, r), es[r]);
  }

  /** A challenge held now was held ever since it was pushed. */
  lemma HeldThroughout(c: Config, es: seq<Event>, i: nat, j: nat, ip: Ip, m: nat)
    requires i <= j <= |es| && Holds(After(c, es, j), ip, m) && m < |After(c, es, i).pushed|
    ensures Holds(After(c, es, i), ip, m)
  {
    hide Next, After, Evicts;
    AvailableExactly(c, es, j, ip, m);
    var p :| 0 <= p < j && PushedAt(c, es, p, m) && Unevicted(c, es, p, j, m);
    PushedBefore(c, es, p, i, m);
    StoredExactly(c, es, p, i, m);
    PushedStays(c, es, i, j);
  }

  lemma VerifyStepEnds(c: Config, s: State, h: HandlerId)
    requires h in s.handlers && s.handlers[h].TokensVerify?
    ensures var s', pc := Next(c, s, Advance(h)), s.handlers[h];
            h in s'.handlers && (s'.handlers[h].Rejected? || s'.handlers[h] == TokensRemove(pc.ip, pc.entry.serial))
  {
    hide Proves;
  }

  // ---------------------------------------------------------------- which challenge answers a request

  /** A challenge request that looks its client up at event `l` and decides at event `d` is answered with
      challenge `n`, not expired by then, if, and only if, `n` was available at the lookup. */
  lemma AnsweredExactly(c: Config, es: seq<Event>, l: nat, d: nat, h: HandlerId, n: nat)
    requires Consecutive(c, es, l, d, h) && After(c, es, l).handlers[h].ChallengeLookup? && es[d].Decide?
    requires n < |After(c, es, d).pushed| && After(c, es, d).now < After(c, es, d).pushed[n].expires
    requires After(c, es, l).handlers[h].creq.remote == Some(After(c, es, d).pushed[n].access.ip)
    ensures After(c, es, d).handlers[h].ChallengeDecide?
    ensures var found := After(c, es, d).handlers[h].found;
            found.Some? && found.value.serial == n <==> Available(c, es, l, n)
    ensures Available(c, es, l, n) ==>
              After(c, es, d + 1) == After(c, es, d).Go(h, ChallengeDone(After(c, es, d).pushed[n].access.ip, After(c, es, d).pushed[n].challenge))
  {
    hide Next, Available, SignedOk, HandlersOk;
    var s := After(c, es, l);
    Reachable(c, es, l);
    LookUpStep(c, s, h);
    assert After(c, es, l + 1) == Next(c, s, es[l]);
    HandlerWaits(c, es, l, d, h);
    PushedStays(c, es, l, d);
    AvailableExactly(c, es, l, s.handlers[h].creq.remote.value, n);
    DecidesOnLive(c, After(c, es, d), es[d]);
    assert After(c, es, d + 1) == Next(c, After(c, es, d), es[d]);
  }

  lemma LookUpStep(c: Config, s: State, h: HandlerId)
    requires h in s.handlers && s.handlers[h].ChallengeLookup? && s.handlers[h].creq.remote.Some?
    ensures var s', ip := Next(c, s, Advance(h)), s.handlers[h].creq.remote.value;
            && h in s'.handlers
            && s'.handlers[h] == ChallengeDecide(s.handlers[h].creq, ip, if ip in s.store then Some(s.store[ip]) else None)
  {
  }

  lemma DecidesOnLive(c: Config, s: State, e: Event)
    requires e.Decide? && e.handler in s.handlers && s.handlers[e.handler].ChallengeDecide?
    ensures var pc := s.handlers[e.handler];
            if pc.found.Some? && s.now < pc.found.value.challenge.expires
            then Next(c, s, e) == s.Go(e.handler, ChallengeDone(pc.ip, pc.found.value.challenge.challenge))
            else var s' := Next(c, s, e);
                 e.handler in s'.handlers && (s'.handlers[e.handler].Rejected?
                                              || (s'.handlers[e.handler].ChallengePush? && s'.handlers[e.handler].ip == pc.ip))
  {
  }

  /** A challenge that is not expired is replaced only by a request that looked its client up before it
      was pushed: with lookup `l`, decision `d` and push `q`. */
  lemma ReplacedOnlyByEarlierLookup(c: Config, es: seq<Event>, l: nat, d: nat, q: nat, h: HandlerId, n: nat)
    requires Consecutive(c, es, l, d, h) && After(c, es, l).handlers[h].ChallengeLookup?
    requires Consecutive(c, es, d, q, h) && After(c, es, d).handlers[h].ChallengeDecide? && After(c, es, q).handlers[h].ChallengePush?
    requires Holds(After(c, es, q), After(c, es, q).handlers[h].ip, n)
    requires n < |After(c, es, q).pushed| && After(c, es, d).now < After(c, es, q).pushed[n].expires
    ensures |After(c, es, l).pushed| <= n
  {
    hide Next, Available, SignedOk, HandlersOk;
    var s, ip := After(c, es, l), After(c, es, q).handlers[h].ip;
    if n < |s.pushed| {
      Reachable(c, es, l);
      ChallengeRuns(c, es, l, d, q, h);
      HeldThroughout(c, es, l, q, ip, n);
      PushedStays(c, es, l, q);
      assert false;
    }
  }

  /** A request gets to its push only if it found nothing or something expired. */
  lemma ChallengeRuns(c: Config, es: seq<Event>, l: nat, d: nat, q: nat, h: HandlerId)
    requires Consecutive(c, es, l, d, h) && After(c, es, l).handlers[h].ChallengeLookup?
    requires Consecutive(c, es, d, q, h) && After(c, es, d).handlers[h].ChallengeDecide? && After(c, es, q).handlers[h].ChallengePush?
    ensures var s, ip := After(c, es, l), After(c, es, q).handlers[h].ip;
            ip in s.store ==> s.store[ip].challenge.expires <= After(c, es, d).now
  {
    hide Next;
    var s := After(c, es, l);
    AnyLookUpStep(c, s, h);
    assert After(c, es, l + 1) == Next(c, s, es[l]);
    HandlerWaits(c, es, l, d, h);
    DecidesOnLive(c, After(c, es, d), es[d]);
    assert After(c, es, d + 1) == Next(c, After(c, es, d), es[d]);
    HandlerWaits(c, es, d, q, h);
  }

  lemma AnyLookUpStep(c: Config, s: State, h: HandlerId)
    requires h in s.handlers && s.handlers[h].ChallengeLookup?
    ensures var s' := Next(c, s, Advance(h));
            && h in s'.handlers
            && (s'.handlers[h].ChallengeDecide? ==>
                  var pc := s'.handlers[h];
                  s.handlers[h].creq.remote == Some(pc.ip) && pc.found == if pc.ip in s.store then Some(s.store[pc.ip]) else None)
  {
  }
}
