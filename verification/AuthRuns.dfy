/** The authentication service under every interleaving of its handlers. Each time a handler takes
    the store's lock is a step of its own, as is each stretch between two lock acquisitions. */
module AuthRuns {
  import opened Prelude
  import opened Packets
  import opened Challenges

  const AUTH_CHALLENGES_CAPACITY: nat := 100_000
  const ACCESS_TOKEN_TTL: Time := 1_800 * SECOND
  const REFRESH_TOKEN_TTL: Time := 180_000 * SECOND
  const CHALLENGE_TTL: Time := 1_800 * SECOND
  const ROLE_VALIDATOR: int := 2
  const PUBKEY_BYTES: nat := 32

  type HandlerId = nat

  /** The parts of the world the service consults but does not contain, and the number of challenge
      requests that may be in progress at once. `verifies` is the ideal signature check. */
  datatype Config = Config(
    authorized: Pubkey -> bool,
    validKey: Bytes -> bool,
    validSignature: Bytes -> bool,
    verifies: (Pubkey, string, Bytes) -> bool,
    show: Pubkey -> string,
    limit: nat)
  {
    /** The text a client has to sign. */
    function Expected(pubkey: Pubkey, challenge: string): string {
      show(pubkey) + "-" + challenge
    }
  }

  datatype ChallengeRequest = ChallengeRequest(remote: Option<Ip>, role: int, pubkey: Bytes)
  datatype TokensRequest = TokensRequest(remote: Option<Ip>, pubkey: Bytes, challenge: string, signature: Bytes)
  datatype Status = ResourceExhausted | Internal | InvalidArgument | PermissionDenied

  /** A stored challenge and, as an auxiliary, its place in the log of pushes. */
  datatype Entry = Entry(serial: nat, challenge: AuthChallenge)

  datatype Pc =
    | ChallengeStart(creq: ChallengeRequest)
    | ChallengeLookup(creq: ChallengeRequest)
    | ChallengeDecide(creq: ChallengeRequest, ip: Ip, found: Option<Entry>)
    | ChallengePush(ip: Ip, made: AuthChallenge)
    | ChallengeDone(ip: Ip, answer: string)
    | TokensLookup(treq: TokensRequest)
    | TokensVerify(treq: TokensRequest, ip: Ip, entry: Entry)
    | TokensRemove(ip: Ip, serial: nat)
    | TokensDone(serial: nat)
    | Rejected(status: Status)

  /** Why a token was signed. */
  datatype Cause = Issued(serial: nat, signature: Bytes) | Refreshed(parent: nat)
  datatype Signed = Signed(token: TokenClaims, cause: Cause)

  /** `pushed` logs every challenge pushed, `signed` every token signed, `pairs` the challenges for
      which a token pair was signed, and `retired` those whose pair has been followed by the removal. */
  datatype State = State(
    now: Time, store: map<Ip, Entry>, handlers: map<HandlerId, Pc>,
    pushed: seq<AuthChallenge>, signed: seq<Signed>, pairs: seq<nat>, retired: set<nat>)
  {
    function Go(h: HandlerId, pc: Pc): State {
      this.(handlers := handlers[h := pc])
    }
  }

  datatype Event =
    | Tick(passed: Time)
    | Expire(cut: Time)
    | BeginChallenge(handler: HandlerId, creq: ChallengeRequest)
    | BeginTokens(handler: HandlerId, treq: TokensRequest)
    | Advance(handler: HandlerId)
    | Decide(handler: HandlerId, random: string, d1: Time, d2: Time, d3: Time)
    | Refresh(token: TokenClaims, parent: nat, passed: Time)

  // ---------------------------------------------------------------- the steps of a challenge request

  predicate InFlight(pc: Pc) {
    pc.ChallengeStart? || pc.ChallengeLookup? || pc.ChallengeDecide? || pc.ChallengePush? || pc.ChallengeDone?
  }

  function Those(handlers: map<HandlerId, Pc>, p: Pc -> bool): set<HandlerId> {
    set h | h in handlers && p(handlers[h])
  }

  /** The challenge requests in progress. */
  function Requests(s: State): set<HandlerId> {
    Those(s.handlers, InFlight)
  }

  /** First lock: the size check. */
  function CheckSize(s: State, h: HandlerId, req: ChallengeRequest): State {
    if |s.store| >= AUTH_CHALLENGES_CAPACITY then s.Go(h, Rejected(ResourceExhausted))
    else s.Go(h, ChallengeLookup(req))
  }

  /** Second lock: what is stored for the client. */
  function LookUp(s: State, h: HandlerId, req: ChallengeRequest): State {
    match req.remote
    case None => s.Go(h, Rejected(Internal))
    case Some(ip) => s.Go(h, ChallengeDecide(req, ip, if ip in s.store then Some(s.store[ip]) else None))
  }

  /** No lock: answer with a live challenge, refuse, or make a new one. The clock is read for each of
      the three expiries. */
  function DecideStep(c: Config, s: State, h: HandlerId, req: ChallengeRequest, ip: Ip, found: Option<Entry>,
                      random: string, d1: Time, d2: Time, d3: Time): State
  {
    if found.Some? && !found.value.challenge.IsExpired(s.now) then
      s.Go(h, ChallengeDone(ip, found.value.challenge.challenge))
    else if req.role != ROLE_VALIDATOR || |req.pubkey| != PUBKEY_BYTES then s.Go(h, Rejected(InvalidArgument))
    else if !c.authorized(req.pubkey) then s.Go(h, Rejected(PermissionDenied))
    else
      var t1, t2, t3 := s.now + d1, s.now + d1 + d2, s.now + d1 + d2 + d3;
      var made := AuthChallenge(random,
                                 Claims(ip, req.pubkey, t1 + ACCESS_TOKEN_TTL),
                                 Claims(ip, req.pubkey, t2 + REFRESH_TOKEN_TTL),
                                 t3 + CHALLENGE_TTL);
      s.(now := t3).Go(h, ChallengePush(ip, made))
  }

  /** Third lock: the push, which replaces whatever is stored for the client by then. */
  function PushStep(s: State, h: HandlerId, ip: Ip, made: AuthChallenge): State {
    s.(store := s.store[ip := Entry(|s.pushed|, made)], pushed := s.pushed + [made])
     .Go(h, ChallengeDone(ip, made.challenge))
  }

  // ---------------------------------------------------------------- the steps of a token request

  /** First lock: what is stored for the client. */
  function TokensLookUp(c: Config, s: State, h: HandlerId, req: TokensRequest): State {
    if req.remote.None? then s.Go(h, Rejected(Internal))
    else if !c.validKey(req.pubkey) then s.Go(h, Rejected(InvalidArgument))
    else if req.remote.value !in s.store then s.Go(h, Rejected(PermissionDenied))
    else s.Go(h, TokensVerify(req, req.remote.value, s.store[req.remote.value]))
  }

  predicate Proves(c: Config, req: TokensRequest, challenge: AuthChallenge) {
    && challenge.access.pubkey == req.pubkey
    && c.Expected(req.pubkey, challenge.challenge) == req.challenge
    && |req.signature| == SIGNATURE_BYTES && c.validSignature(req.signature)
    && c.verifies(req.pubkey, req.challenge, req.signature)
  }

  lemma ProofNamesKey(c: Config, req: TokensRequest, a: AuthChallenge)
    ensures Proves(c, req, a) ==> a.access.pubkey == req.pubkey
  {
  }

  /** What a client has to present: its own key, its key and the challenge joined by a dash, and 64 bytes
      that are a signature of that text by that key. */
  ghost predicate Presents(c: Config, req: TokensRequest, a: AuthChallenge) {
    var prefix := c.show(req.pubkey) + "-";
    && req.pubkey == a.access.pubkey
    && prefix <= req.challenge && req.challenge[|prefix|..] == a.challenge
    && |req.signature| == 64 && c.validSignature(req.signature)
    && c.verifies(req.pubkey, req.challenge, req.signature)
  }

  lemma ProvesExactly(c: Config, req: TokensRequest, a: AuthChallenge)
    ensures Proves(c, req, a) <==> Presents(c, req, a)
  {
    var prefix := c.show(req.pubkey) + "-";
    assert (prefix + a.challenge)[|prefix|..] == a.challenge;
    if prefix <= req.challenge {
      assert req.challenge == prefix + req.challenge[|prefix|..];
    }
  }

  /** No lock: check the proof and sign the pair. */
  function VerifyStep(c: Config, s: State, h: HandlerId, req: TokensRequest, ip: Ip, e: Entry): State {
    if e.challenge.access.pubkey != req.pubkey then s.Go(h, Rejected(PermissionDenied))
    else if !Proves(c, req, e.challenge) then s.Go(h, Rejected(InvalidArgument))
    else
      var cause := Issued(e.serial, req.signature);
      s.(signed := s.signed + [Signed(ToToken(e.challenge.access), cause), Signed(ToToken(e.challenge.refresh), cause)],
         pairs := s.pairs + [e.serial])
       .Go(h, TokensRemove(ip, e.serial))
  }

  /** Second lock: the removal, which removes whatever is stored for the client by then. */
  function RemoveStep(s: State, h: HandlerId, ip: Ip, serial: nat): State {
    s.(store := s.store - {ip}, retired := s.retired + {serial}).Go(h, TokensDone(serial))
  }

  // ---------------------------------------------------------------- runs

  /** The expiry task's sweep. It takes effect with its lock; the instant it compares with may lie between
      the clock reads that another step makes at once, and so before the latest of them. */
  function ExpireStep(s: State, cut: Time): State {
    s.(now := if s.now < cut then cut else s.now, store := map ip | ip in s.store && !s.store[ip].challenge.IsExpired(cut) :: s.store[ip])
  }

  /** A presented token verifies exactly when the service signed it. The new access token is valid for
      the holder of the presented one. */
  function RefreshStep(s: State, token: TokenClaims, parent: nat, passed: Time): State {
    if parent < |s.signed| && s.signed[parent].token == token && !FromToken(token).IsExpired(s.now) then
      var held := FromToken(token);
      var t := s.now + passed;
      s.(now := t, signed := s.signed + [Signed(ToToken(Claims(held.ip, held.pubkey, t + ACCESS_TOKEN_TTL)), Refreshed(parent))])
    else s
  }

  function AdvanceStep(c: Config, s: State, h: HandlerId): State
    requires h in s.handlers
  {
    match s.handlers[h]
    case ChallengeStart(req) => CheckSize(s, h, req)
    case ChallengeLookup(req) => LookUp(s, h, req)
    case ChallengePush(ip, made) => PushStep(s, h, ip, made)
    case TokensLookup(req) => TokensLookUp(c, s, h, req)
    case TokensVerify(req, ip, e) => VerifyStep(c, s, h, req, ip, e)
    case TokensRemove(ip, serial) => RemoveStep(s, h, ip, serial)
    case ChallengeDecide(_, _, _) => s
    case _ => s.(handlers := s.handlers - {h})
  }

  /** The step an event makes; an event that is not enabled makes none. */
  function Next(c: Config, s: State, e: Event): State {
    match e
    case Tick(passed) => s.(now := s.now + passed)
    case Expire(cut) => ExpireStep(s, cut)
    case BeginChallenge(h, req) =>
      if h !in s.handlers && |Requests(s)| < c.limit then s.Go(h, ChallengeStart(req)) else s
    case BeginTokens(h, req) => if h !in s.handlers then s.Go(h, TokensLookup(req)) else s
    case Advance(h) => if h in s.handlers then AdvanceStep(c, s, h) else s
    case Decide(h, random, d1, d2, d3) =>
      if h in s.handlers && s.handlers[h].ChallengeDecide? then
        var pc := s.handlers[h];
        DecideStep(c, s, h, pc.creq, pc.ip, pc.found, random, d1, d2, d3)
      else s
    case Refresh(token, parent, passed) => RefreshStep(s, token, parent, passed)
  }

  const Initial := State(0, map[], map[], [], [], [], {})

  function After(c: Config, es: seq<Event>, i: nat): State
    requires i <= |es|
  {
    if i == 0 then Initial else Next(c, After(c, es, i - 1), es[i - 1])
  }

  function Final(c: Config, es: seq<Event>): State {
    After(c, es, |es|)
  }

  lemma {:induction false} AfterPrefix(c: Config, es: seq<Event>, more: seq<Event>, i: nat)
    requires i <= |es|
    ensures After(c, es + more, i) == After(c, es, i)
  {
    if i > 0 {
      AfterPrefix(c, es, more, i - 1);
    }
  }

  /** Adding events to a run continues from its final state. */
  lemma Continue(c: Config, es: seq<Event>, e: Event)
    ensures Final(c, es + [e]) == Next(c, Final(c, es), e)
  {
    AfterPrefix(c, es, [e], |es|);
  }

  lemma TokensLookUpStep(c: Config, s: State, h: HandlerId)
    requires h in s.handlers && s.handlers[h].TokensLookup?
    ensures var req := s.handlers[h].treq;
            Next(c, s, Advance(h)) ==
            s.Go(h, if req.remote.None? then Rejected(Internal)
                    else if !c.validKey(req.pubkey) then Rejected(InvalidArgument)
                    else if req.remote.value !in s.store then Rejected(PermissionDenied)
                    else TokensVerify(req, req.remote.value, s.store[req.remote.value]))
  {
  }

  lemma RemovalStep(c: Config, s: State, h: HandlerId)
    requires h in s.handlers && s.handlers[h].TokensRemove?
    ensures Next(c, s, Advance(h)) == RemoveStep(s, h, s.handlers[h].ip, s.handlers[h].serial)
  {
  }

  // ---------------------------------------------------------------- who a challenge belongs to

  /** Both claims of a challenge are for the given client and for one key. */
  ghost predicate For(challenge: AuthChallenge, ip: Ip) {
    challenge.access.ip == ip == challenge.refresh.ip && challenge.access.pubkey == challenge.refresh.pubkey
  }

  /** The entry is the challenge logged under its serial, and belongs to the client. */
  ghost predicate Logged(e: Entry, ip: Ip, pushed: seq<AuthChallenge>) {
    e.serial < |pushed| && pushed[e.serial] == e.challenge && For(e.challenge, ip)
  }

  ghost predicate PcOk(pc: Pc, pushed: seq<AuthChallenge>, pairs: seq<nat>) {
    match pc
    case ChallengeDecide(_, ip, found) => found.Some? ==> Logged(found.value, ip, pushed)
    case ChallengePush(ip, made) => For(made, ip)
    case TokensVerify(_, ip, e) => Logged(e, ip, pushed)
    case TokensRemove(ip, serial) => serial < |pushed| && For(pushed[serial], ip) && serial in pairs
    case _ => true
  }

  /** A token was signed for a proven challenge, or for the holder of an earlier token. */
  ghost predicate Justified(c: Config, k: nat, signed: seq<Signed>, pushed: seq<AuthChallenge>)
    requires k < |signed|
  {
    var token := signed[k].token;
    match signed[k].cause
    case Issued(serial, signature) =>
      && serial < |pushed|
      && For(pushed[serial], token.ip) && pushed[serial].access.pubkey == token.pubkey
      && (token == ToToken(pushed[serial].access) || token == ToToken(pushed[serial].refresh))
      && c.verifies(token.pubkey, c.show(token.pubkey) + "-" + pushed[serial].challenge, signature)
    case Refreshed(parent) =>
      parent < k && signed[parent].token.ip == token.ip && signed[parent].token.pubkey == token.pubkey
  }

  ghost predicate StoreOk(s: State) {
    forall ip :: ip in s.store ==> Logged(s.store[ip], ip, s.pushed) && s.store[ip].serial !in s.retired
  }

  ghost predicate HandlersOk(s: State) {
    forall h :: h in s.handlers ==> PcOk(s.handlers[h], s.pushed, s.pairs)
  }

  ghost predicate SignedOk(c: Config, s: State) {
    forall k :: 0 <= k < |s.signed| ==> Justified(c, k, s.signed, s.pushed)
  }

  ghost predicate Inv(c: Config, s: State) {
    && StoreOk(s) && HandlersOk(s) && SignedOk(c, s)
    && (forall n: nat :: n in s.retired ==> n < |s.pushed|)
  }

  /** Nothing that holds of the log of pushes is lost when it grows. */
  lemma PushKeepsInv(c: Config, s: State, h: HandlerId, ip: Ip, made: AuthChallenge)
    requires Inv(c, s) && h in s.handlers && s.handlers[h] == ChallengePush(ip, made)
    ensures Inv(c, PushStep(s, h, ip, made))
  {
    var s' := PushStep(s, h, ip, made);
    assert SignedOk(c, s') by {
      forall k | 0 <= k < |s.signed|
        ensures Justified(c, k, s'.signed, s'.pushed)
      {
        assert Justified(c, k, s.signed, s.pushed);
      }
    }
    assert HandlersOk(s') by {
      forall g | g in s'.handlers
        ensures PcOk(s'.handlers[g], s'.pushed, s'.pairs)
      {
        assert g != h ==> PcOk(s.handlers[g], s.pushed, s.pairs);
      }
    }
  }

  lemma VerifyKeepsInv(c: Config, s: State, h: HandlerId, req: TokensRequest, ip: Ip, e: Entry)
    requires Inv(c, s) && h in s.handlers && s.handlers[h] == TokensVerify(req, ip, e)
    ensures Inv(c, VerifyStep(c, s, h, req, ip, e))
  {
    var s' := VerifyStep(c, s, h, req, ip, e);
    assert PcOk(s.handlers[h], s.pushed, s.pairs);
    assert SignedOk(c, s') by {
      forall k | 0 <= k < |s'.signed|
        ensures Justified(c, k, s'.signed, s'.pushed)
      {
        assert k < |s.signed| ==> Justified(c, k, s.signed, s.pushed);
      }
    }
    assert HandlersOk(s') by {
      forall g | g in s'.handlers
        ensures PcOk(s'.handlers[g], s'.pushed, s'.pairs)
      {
        assert g != h ==> PcOk(s.handlers[g], s.pushed, s.pairs);
      }
    }
  }

  lemma RefreshKeepsInv(c: Config, s: State, token: TokenClaims, parent: nat, passed: Time)
    requires Inv(c, s)
    ensures Inv(c, RefreshStep(s, token, parent, passed))
  {
    var s' := RefreshStep(s, token, parent, passed);
    forall k | 0 <= k < |s'.signed|
      ensures Justified(c, k, s'.signed, s'.pushed)
    {
      assert k < |s.signed| ==> Justified(c, k, s.signed, s.pushed);
    }
  }

  lemma RemoveKeepsInv(c: Config, s: State, h: HandlerId, ip: Ip, serial: nat)
    requires Inv(c, s) && h in s.handlers && s.handlers[h] == TokensRemove(ip, serial)
    ensures Inv(c, RemoveStep(s, h, ip, serial))
  {
    hide Justified;
    assert PcOk(s.handlers[h], s.pushed, s.pairs);
  }

  /** A handler moves or leaves, and nothing else changes. */
  lemma MoveKeepsInv(c: Config, s: State, s': State, h: HandlerId)
    requires Inv(c, s) && s'.store == s.store && s'.pushed == s.pushed && s'.signed == s.signed
    requires s'.pairs == s.pairs && s'.retired == s.retired
    requires s'.handlers == s.handlers - {h}
             || (h in s'.handlers && s'.handlers == s.handlers[h := s'.handlers[h]] && PcOk(s'.handlers[h], s.pushed, s.pairs))
    ensures Inv(c, s')
  {
    hide Justified, PcOk;
  }

  lemma LookUpKeepsInv(c: Config, s: State, h: HandlerId)
    requires Inv(c, s) && h in s.handlers && (s.handlers[h].ChallengeLookup? || s.handlers[h].TokensLookup?)
    ensures Inv(c, AdvanceStep(c, s, h))
  {
    hide SignedOk, HandlersOk;
    MoveKeepsInv(c, s, AdvanceStep(c, s, h), h);
  }

  lemma AdvanceKeepsInv(c: Config, s: State, h: HandlerId)
    requires Inv(c, s) && h in s.handlers
    ensures Inv(c, AdvanceStep(c, s, h))
  {
    hide Inv, PushStep, VerifyStep, RemoveStep, LookUp, TokensLookUp;
    match s.handlers[h]
    case ChallengePush(ip, made) => PushKeepsInv(c, s, h, ip, made);
    case TokensVerify(req, ip, e) => VerifyKeepsInv(c, s, h, req, ip, e);
    case TokensRemove(ip, serial) => RemoveKeepsInv(c, s, h, ip, serial);
    case ChallengeLookup(_) => LookUpKeepsInv(c, s, h);
    case TokensLookup(_) => LookUpKeepsInv(c, s, h);
    case ChallengeDecide(_, _, _) =>
    case _ => MoveKeepsInv(c, s, AdvanceStep(c, s, h), h);
  }

  lemma StepKeepsInv(c: Config, s: State, e: Event)
    requires Inv(c, s)
    ensures Inv(c, Next(c, s, e))
  {
    hide Justified;
    match e
    case Advance(h) => if h in s.handlers { AdvanceKeepsInv(c, s, h); }
    case Refresh(token, parent, passed) => RefreshKeepsInv(c, s, token, parent, passed);
    case _ =>
  }

  lemma {:induction false} Reachable(c: Config, es: seq<Event>, i: nat)
    requires i <= |es|
    ensures Inv(c, After(c, es, i))
  {
    if i > 0 {
      Reachable(c, es, i - 1);
      StepKeepsInv(c, After(c, es, i - 1), es[i - 1]);
    }
  }

  // ---------------------------------------------------------------- where tokens come from

  /** Token `r` was issued for a challenge among `pushed`, after its client's key signed the expected
      text, and token `k` is for the same client and key. */
  ghost predicate Origin(c: Config, signed: seq<Signed>, pushed: seq<AuthChallenge>, r: nat, k: nat)
    requires r < |signed| && k < |signed|
  {
    && signed[r].cause.Issued? && signed[r].cause.serial < |pushed|
    && var challenge := pushed[signed[r].cause.serial];
       && For(challenge, signed[k].token.ip) && challenge.access.pubkey == signed[k].token.pubkey
       && (signed[r].token == ToToken(challenge.access) || signed[r].token == ToToken(challenge.refresh))
       && c.verifies(signed[k].token.pubkey, c.show(signed[k].token.pubkey) + "-" + challenge.challenge,
                     signed[r].cause.signature)
  }

  /** The token that a chain of refreshes started from. */
  ghost function Root(signed: seq<Signed>, k: nat): nat
    requires k < |signed|
  {
    match signed[k].cause
    case Issued(_, _) => k
    case Refreshed(parent) => if parent < k then Root(signed, parent) else k
  }

  /** How many refreshes the chain has. */
  ghost function Depth(signed: seq<Signed>, k: nat): nat
    requires k < |signed|
  {
    match signed[k].cause
    case Issued(_, _) => 0
    case Refreshed(parent) => if parent < k then Depth(signed, parent) + 1 else 0
  }

  /** Following refreshes back always ends at an issued token of the same holder. */
  lemma {:induction false} RootIsOrigin(c: Config, s: State, k: nat)
    requires SignedOk(c, s) && k < |s.signed|
    ensures Root(s.signed, k) <= k && Origin(c, s.signed, s.pushed, Root(s.signed, k), k)
  {
    assert Justified(c, k, s.signed, s.pushed);
    if s.signed[k].cause.Refreshed? {
      RootIsOrigin(c, s, s.signed[k].cause.parent);
    }
  }

  /** Every token, when it is signed, carries the client address and key of a challenge pushed before,
      for which a signature by that key over the expected text has been verified: directly, or for the
      token its chain of refreshes started from. */
  lemma Provenance(c: Config, es: seq<Event>, j: nat, k: nat)
    requires j < |es| && |After(c, es, j).signed| <= k < |After(c, es, j + 1).signed|
    ensures var signed := After(c, es, j + 1).signed;
            Root(signed, k) <= k && Origin(c, signed, After(c, es, j).pushed, Root(signed, k), k)
  {
    Reachable(c, es, j + 1);
    SigningDoesNotPush(c, After(c, es, j), es[j]);
    RootIsOrigin(c, After(c, es, j + 1), k);
  }

  lemma SigningDoesNotPush(c: Config, s: State, e: Event)
    ensures Next(c, s, e).signed == s.signed || Next(c, s, e).pushed == s.pushed
  {
  }

  // ---------------------------------------------------------------- how long grants last

  /** The three expiries of a challenge are dated from three clock reads, in this order, all past. */
  ghost predicate Dated(a: AuthChallenge, now: Time) {
    && a.access.expires - ACCESS_TOKEN_TTL <= a.refresh.expires - REFRESH_TOKEN_TTL
    && a.refresh.expires - REFRESH_TOKEN_TTL <= a.expires - CHALLENGE_TTL <= now
  }

  ghost predicate AllDated(s: State) {
    && (forall n :: 0 <= n < |s.pushed| ==> Dated(s.pushed[n], s.now))
    && (forall h :: h in s.handlers && s.handlers[h].ChallengePush? ==> Dated(s.handlers[h].made, s.now))
    && (forall k :: 0 <= k < |s.signed| ==>
          FromToken(s.signed[k].token).expires
            <= s.now + if s.signed[k].cause.Refreshed? then ACCESS_TOKEN_TTL else REFRESH_TOKEN_TTL)
  }

  lemma VerifyKeepsDated(c: Config, s: State, h: HandlerId, req: TokensRequest, ip: Ip, e: Entry)
    requires AllDated(s) && Logged(e, ip, s.pushed)
    ensures AllDated(VerifyStep(c, s, h, req, ip, e))
  {
    hide Proves, FromToken, ToToken;
    assert Dated(s.pushed[e.serial], s.now);
    TokenTruncates(e.challenge.access, s.now);
    TokenTruncates(e.challenge.refresh, s.now);
  }

  lemma AdvanceKeepsDated(c: Config, s: State, h: HandlerId)
    requires HandlersOk(s) && AllDated(s) && h in s.handlers
    ensures AllDated(AdvanceStep(c, s, h))
  {
    hide VerifyStep, PushStep, FromToken, HandlersOk, AllDated;
    match s.handlers[h]
    case TokensVerify(req, ip, e) =>
      assert PcOk(s.handlers[h], s.pushed, s.pairs) by { PcIsOk(s, h); }
      VerifyKeepsDated(c, s, h, req, ip, e);
    case ChallengePush(ip, made) => PushKeepsDated(s, h, ip, made);
    case _ => MoveKeepsDated(s, AdvanceStep(c, s, h), h);
  }

  lemma PushKeepsDated(s: State, h: HandlerId, ip: Ip, made: AuthChallenge)
    requires AllDated(s) && h in s.handlers && s.handlers[h] == ChallengePush(ip, made)
    ensures AllDated(PushStep(s, h, ip, made))
  {
    hide FromToken, Dated;
  }

  /** A handler moves or leaves, and nothing is granted. */
  lemma MoveKeepsDated(s: State, s': State, h: HandlerId)
    requires AllDated(s) && s'.now == s.now && s'.pushed == s.pushed && s'.signed == s.signed
    requires s'.handlers == s.handlers || s'.handlers == s.handlers - {h}
             || (h in s'.handlers && s'.handlers == s.handlers[h := s'.handlers[h]] && !s'.handlers[h].ChallengePush?)
    ensures AllDated(s')
  {
    hide FromToken, Dated;
  }

  lemma PcIsOk(s: State, h: HandlerId)
    requires HandlersOk(s) && h in s.handlers
    ensures PcOk(s.handlers[h], s.pushed, s.pairs)
  {
  }

  lemma StepKeepsDated(c: Config, s: State, e: Event)
    requires Inv(c, s) && AllDated(s)
    ensures AllDated(Next(c, s, e))
  {
    hide AdvanceStep, FromToken, StoreOk, HandlersOk, SignedOk;
    match e
    case Advance(h) => if h in s.handlers { AdvanceKeepsDated(c, s, h); }
    case Refresh(token, _, passed) =>
      var held := FromToken(token);
      TokenTruncates(Claims(held.ip, held.pubkey, s.now + passed + ACCESS_TOKEN_TTL), s.now);
    case _ =>
  }

  /** In every reachable state: challenges expire with the lifetimes promised, and no token outlives
      the present by more than a refresh token's lifetime, or an access token's if it was obtained by
      a refresh. */
  lemma {:induction false} GrantsAreBounded(c: Config, es: seq<Event>, i: nat)
    requires i <= |es|
    ensures AllDated(After(c, es, i))
  {
    if i > 0 {
      GrantsAreBounded(c, es, i - 1);
      Reachable(c, es, i - 1);
      StepKeepsDated(c, After(c, es, i - 1), es[i - 1]);
    }
  }
}
