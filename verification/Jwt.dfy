/**
 Session tokens (crates/chisl-auth/src/jwt.rs).

 `JwtService` is the service object, one method per entry point.  Below it the same
 entry points are cut at every point where another thread can run, and the revocation
 guarantee is proved for all interleavings of those steps.
 */
module Jwt {
  import opened Wrappers

  const TOKEN_EXPIRY: nat := 24 * 60 * 60
  const JWT_ISSUER := "aionui"
  const JWT_AUDIENCE := "aionui-webui"

  type Secret = string
  type ThreadId = nat

  datatype Payload = Payload(userId: string, username: string, iat: nat, exp: nat, iss: string, aud: string)

  /** A token text is either the encoding of some claims under some secret, or a text no secret verifies. */
  datatype Token = Signed(claims: Payload, secret: Secret) | Foreign(text: string)

  datatype AuthError = TokenBlacklisted | TokenExpired | TokenInvalid

  function Claims(userId: string, username: string, now: nat): Payload {
    Payload(userId, username, now, now + TOKEN_EXPIRY, JWT_ISSUER, JWT_AUDIENCE)
  }

  /** Signed under this secret, by this service for this service. */
  predicate Genuine(t: Token, secret: Secret) {
    t.Signed? && t.secret == secret && t.claims.iss == "aionui" && t.claims.aud == "aionui-webui"
  }

  /** Signature, issuer and audience, without looking at the clock. */
  function Decode(t: Token, secret: Secret): Option<Payload> {
    if t.Signed? && t.secret == secret && t.claims.iss == JWT_ISSUER && t.claims.aud == JWT_AUDIENCE
    then Some(t.claims)
    else None
  }

  /** Full decoding.  Section 4.1.4 of RFC 7519 rejects on or after `exp`; `grace` is the leeway it permits. */
  function DecodeLive(t: Token, secret: Secret, now: nat, grace: nat): Result<Payload, AuthError> {
    match Decode(t, secret)
    case None => Failure(TokenInvalid)
    case Some(claims) => if now < claims.exp + grace then Success(claims) else Failure(TokenExpired)
  }

  /** The expiry stored with a revoked token: its own, or a full lifetime when it cannot be decoded. */
  function StoredExpiry(t: Token, secret: Secret, now: nat): nat {
    match Decode(t, secret)
    case Some(claims) => claims.exp
    case None => now + TOKEN_EXPIRY
  }

  // ------------------------------------------------------------------
  // The service object
  // ------------------------------------------------------------------

  class JwtService {
    var secret: Secret
    var blacklist: map<Token, nat>
    const grace: nat

    constructor (secret: Secret, grace: nat)
      ensures this.secret == secret && this.grace == grace && blacklist == map[]
    {
      this.secret := secret;
      this.grace := grace;
      blacklist := map[];
    }

    method Sign(userId: string, username: string, now: nat) returns (t: Token)
      ensures t.Signed? && t.secret == secret
      ensures t.claims.userId == userId && t.claims.username == username
      ensures t.claims.iat == now && t.claims.exp == now + 86400
      ensures t.claims.iss == "aionui" && t.claims.aud == "aionui-webui"
      ensures DecodeLive(t, secret, now, grace) == Success(t.claims)
      ensures forall other :: other != secret ==> Decode(t, other) == None
    {
      t := Signed(Claims(userId, username, now), secret);
    }

    method Verify(t: Token, now: nat) returns (r: Result<Payload, AuthError>)
      ensures r == Failure(TokenBlacklisted) <==> t in blacklist
      ensures t !in blacklist ==> r == DecodeLive(t, secret, now, grace)
      ensures r.Success? ==> Genuine(t, secret) && r.value == t.claims && now < t.claims.exp + grace
      ensures r == Failure(TokenExpired) <==> t !in blacklist && Genuine(t, secret) && now >= t.claims.exp + grace
      ensures r == Failure(TokenInvalid) <==> t !in blacklist && !Genuine(t, secret)
    {
      if t in blacklist {
        return Failure(TokenBlacklisted);
      }
      r := DecodeLive(t, secret, now, grace);
    }

    method BlacklistToken(t: Token, now: nat)
      modifies this`blacklist
      ensures blacklist == old(blacklist)[t := StoredExpiry(t, secret, now)]
      ensures blacklist[t] == if Genuine(t, secret) then t.claims.exp else now + 86400
    {
      var own := Decode(t, secret);
      var exp := if own.Some? then own.value.exp else now + TOKEN_EXPIRY;
      blacklist := blacklist[t := exp];
    }

    method RotateSecret(newSecret: Secret) returns (r: Secret)
      modifies this`secret, this`blacklist
      ensures r == secret == newSecret && blacklist == map[]
    {
      secret := newSecret;
      blacklist := map[];
      r := newSecret;
    }

    method CleanupBlacklist(now: nat)
      modifies this`blacklist
      ensures blacklist.Keys <= old(blacklist).Keys
      ensures forall t :: t in old(blacklist) ==>
                (t in blacklist <==> old(blacklist)[t] > now) && (t in blacklist ==> blacklist[t] == old(blacklist)[t])
    {
      blacklist := map t | t in blacklist && blacklist[t] > now :: blacklist[t];
    }

    method BlacklistSize() returns (n: nat)
      ensures n == |blacklist.Keys|
    {
      n := |blacklist|;
    }
  }

  // ------------------------------------------------------------------
  // The same calls, cut where another thread may run
  // ------------------------------------------------------------------

  /** Where a call in progress stands. */
  datatype Call =
    | Signing(userId: string, username: string, now: nat)  // clock read, secret not yet
    | Looked(t: Token, late: bool)    // verify: not on the blacklist; `late` if t was already revoked then
    | NoExpiry(t: Token)              // blacklist_token: t did not decode, clock not yet read
    | Storing(t: Token, exp: nat)     // blacklist_token: about to insert
    | Clearing                        // rotate_secret: secret swapped, write lock held
    | Sweeping(cutoff: nat)           // cleanup_blacklist: clock read, sharded map being swept

  /** `retired`, `issued` and `revoked` are history: past secrets, tokens handed out, finished revocations. */
  datatype State = State(
    secret: Secret, blacklist: map<Token, nat>, now: nat,
    retired: set<Secret>, issued: set<Token>, revoked: set<Token>, calls: map<ThreadId, Call>)

  datatype Event =
    | Tick(elapsed: nat)
    | SignStart(p: ThreadId, userId: string, username: string, at: nat)
    | SignFinish(p: ThreadId, token: Token)
    | VerifyLookup(p: ThreadId, token: Token, hit: bool, late: bool)
    | VerifyDecode(p: ThreadId, token: Token, r: Result<Payload, AuthError>)
    | RevokeDecode(p: ThreadId, token: Token, own: Option<Payload>)
    | RevokeFallback(p: ThreadId, token: Token, exp: nat)
    | RevokeStore(p: ThreadId, token: Token, exp: nat)
    | RotateSwap(p: ThreadId, installed: Secret, previous: Secret)
    | RotateClear(p: ThreadId, gone: set<Token>)
    | RotateUnlock(p: ThreadId)
    | CleanupStart(p: ThreadId, cutoff: nat)
    | CleanupSweep(p: ThreadId, gone: set<Token>)
    | CleanupEnd(p: ThreadId)

  /** The write lock is held from the swap until the rotation is over. */
  predicate Locked(s: State) {
    exists p :: p in s.calls && s.calls[p] == Clearing
  }

  /** Tokens come from `sign`, or never decode. */
  predicate Presentable(s: State, t: Token) {
    t.Foreign? || t in s.issued
  }

  predicate Idle(s: State, p: ThreadId) {
    p !in s.calls
  }

  predicate At(s: State, p: ThreadId, c: Call) {
    p in s.calls && s.calls[p] == c
  }

  ghost predicate Enabled(grace: nat, s: State, e: Event) {
    match e
    case Tick(_) => true
    case SignStart(p, _, _, at) => Idle(s, p) && at == s.now
    case SignFinish(p, t) =>
      && p in s.calls && s.calls[p].Signing? && !Locked(s)
      && t == Signed(Claims(s.calls[p].userId, s.calls[p].username, s.calls[p].now), s.secret)
    case VerifyLookup(p, t, hit, late) =>
      Idle(s, p) && Presentable(s, t) && hit == (t in s.blacklist) && late == (t in s.revoked)
    case VerifyDecode(p, t, r) =>
      && (At(s, p, Looked(t, true)) || At(s, p, Looked(t, false)))
      && !Locked(s) && r == DecodeLive(t, s.secret, s.now, grace)
    case RevokeDecode(p, t, own) =>
      Idle(s, p) && Presentable(s, t) && !Locked(s) && own == Decode(t, s.secret)
    case RevokeFallback(p, t, exp) => At(s, p, NoExpiry(t)) && exp == s.now + TOKEN_EXPIRY
    case RevokeStore(p, t, exp) => At(s, p, Storing(t, exp))
    case RotateSwap(p, installed, previous) =>
      Idle(s, p) && !Locked(s) && previous == s.secret && installed != s.secret && installed !in s.retired
    // The map is sharded: a clear or a sweep empties it piece by piece.
    case RotateClear(p, gone) => At(s, p, Clearing)
    case RotateUnlock(p) => At(s, p, Clearing)
    case CleanupStart(p, cutoff) => Idle(s, p) && cutoff == s.now
    case CleanupSweep(p, gone) =>
      && p in s.calls && s.calls[p].Sweeping?
      && forall t | t in gone && t in s.blacklist :: s.blacklist[t] <= s.calls[p].cutoff
    case CleanupEnd(p) => p in s.calls && s.calls[p].Sweeping?
  }

  function Apply(s: State, e: Event): State {
    match e
    case Tick(elapsed) => s.(now := s.now + elapsed)
    case SignStart(p, userId, username, at) => s.(calls := s.calls[p := Signing(userId, username, at)])
    case SignFinish(p, t) => s.(issued := s.issued + {t}, calls := s.calls - {p})
    case VerifyLookup(p, t, hit, late) => if hit then s else s.(calls := s.calls[p := Looked(t, late)])
    case VerifyDecode(p, _, _) => s.(calls := s.calls - {p})
    case RevokeDecode(p, t, own) =>
      s.(calls := s.calls[p := if own.Some? then Storing(t, own.value.exp) else NoExpiry(t)])
    case RevokeFallback(p, t, exp) => s.(calls := s.calls[p := Storing(t, exp)])
    case RevokeStore(p, t, exp) =>
      s.(blacklist := s.blacklist[t := exp], revoked := s.revoked + {t}, calls := s.calls - {p})
    case RotateSwap(p, installed, previous) =>
      s.(secret := installed, retired := s.retired + {previous}, calls := s.calls[p := Clearing])
    case RotateClear(_, gone) => s.(blacklist := s.blacklist - gone)
    case RotateUnlock(p) => s.(calls := s.calls - {p})
    case CleanupStart(p, cutoff) => s.(calls := s.calls[p := Sweeping(cutoff)])
    case CleanupSweep(_, gone) => s.(blacklist := s.blacklist - gone)
    case CleanupEnd(p) => s.(calls := s.calls - {p})
  }

  ghost predicate IsInit(s: State) {
    s.blacklist == map[] && s.retired == {} && s.issued == {} && s.revoked == {} && s.calls == map[]
  }

  function After(init: State, es: seq<Event>): State {
    if es == [] then init else Apply(After(init, es[..|es| - 1]), es[|es| - 1])
  }

  ghost predicate Feasible(grace: nat, s: State, es: seq<Event>) {
    forall i | 0 <= i < |es| :: Enabled(grace, After(s, es[..i]), es[i])
  }

  /** Every interleaving: a sequence of events each enabled where it occurs. */
  ghost predicate Execution(grace: nat, init: State, es: seq<Event>) {
    IsInit(init) && Feasible(grace, init, es)
  }

  // ------------------------------------------------------------------
  // What every step keeps
  // ------------------------------------------------------------------

  /** No verification can succeed within the nominal lifetime any more; once true it stays true. */
  predicate Dead(s: State, t: Token) {
    t.Foreign? || t.secret in s.retired || t.claims.exp <= s.now
  }

  ghost predicate CallInv(s: State, c: Call) {
    match c
    case Looked(t, late) => late ==> Dead(s, t)
    case NoExpiry(t) => Presentable(s, t) && Dead(s, t)
    case Storing(t, exp) => Presentable(s, t) && (Dead(s, t) || exp == t.claims.exp)
    case Clearing => forall t | t in s.issued :: t.Signed? && t.secret in s.retired
    case Sweeping(cutoff) => cutoff <= s.now
    case Signing(_, _, _) => true
  }

  ghost predicate TokensInv(s: State) {
    && s.secret !in s.retired
    && forall t | t in s.issued ::
         && t.Signed? && (t.secret == s.secret || t.secret in s.retired)
         && t.claims.iss == JWT_ISSUER && t.claims.aud == JWT_AUDIENCE
  }

  ghost predicate BlacklistInv(s: State) {
    && (forall t | t in s.blacklist :: Presentable(s, t) && (Dead(s, t) || s.blacklist[t] == t.claims.exp))
    && (forall t | t in s.revoked :: t in s.blacklist || Dead(s, t))
  }

  ghost predicate CallsInv(s: State) {
    && (forall p | p in s.calls :: CallInv(s, s.calls[p]))
    && (forall p, q | p in s.calls && q in s.calls && s.calls[p] == s.calls[q] == Clearing :: p == q)
  }

  ghost predicate Inv(s: State) {
    TokensInv(s) && BlacklistInv(s) && CallsInv(s)
  }

  lemma StepKeepsTokens(grace: nat, s: State, e: Event)
    requires TokensInv(s) && Enabled(grace, s, e)
    ensures TokensInv(Apply(s, e))
    ensures s.issued <= Apply(s, e).issued
    ensures forall t :: Dead(s, t) ==> Dead(Apply(s, e), t)
  {
  }

  lemma StepKeepsBlacklist(grace: nat, s: State, e: Event)
    requires Inv(s) && Enabled(grace, s, e)
    ensures BlacklistInv(Apply(s, e))
  {
    StepKeepsTokens(grace, s, e);
    var s' := Apply(s, e);
    match e
    case RotateClear(p, gone) =>
      // Nobody signs while the lock is held: everything a clear can drop is an old token.
      assert CallInv(s, s.calls[p]);
    case CleanupSweep(p, gone) =>
      assert CallInv(s, s.calls[p]);
    case RevokeStore(p, t, exp) =>
      assert CallInv(s, s.calls[p]);
    case _ =>
      assert s'.blacklist == s.blacklist && s'.revoked == s.revoked;
  }

  /** What is true of a call in progress survives the steps of the others. */
  lemma StepKeepsOtherCalls(grace: nat, s: State, e: Event, c: Call)
    requires TokensInv(s) && Enabled(grace, s, e) && CallInv(s, c)
    requires c == Clearing ==> !e.SignFinish?
    ensures CallInv(Apply(s, e), c)
  {
    StepKeepsTokens(grace, s, e);
  }

  lemma StepKeepsCalls(grace: nat, s: State, e: Event)
    requires Inv(s) && Enabled(grace, s, e)
    ensures CallsInv(Apply(s, e))
  {
    StepKeepsTokens(grace, s, e);
    var s' := Apply(s, e);
    forall q | q in s'.calls ensures CallInv(s', s'.calls[q]) {
      if q in s.calls && s'.calls[q] == s.calls[q] {
        StepKeepsOtherCalls(grace, s, e, s.calls[q]);
      } else if e.RevokeFallback? {
        assert CallInv(s, s.calls[q]);
      }
    }
  }

  lemma StepKeepsInv(grace: nat, s: State, e: Event)
    requires Inv(s) && Enabled(grace, s, e)
    ensures Inv(Apply(s, e))
  {
    StepKeepsTokens(grace, s, e);
    StepKeepsBlacklist(grace, s, e);
    StepKeepsCalls(grace, s, e);
  }

  lemma {:induction false} ExecutionKeepsInv(grace: nat, init: State, es: seq<Event>)
    requires Execution(grace, init, es)
    ensures Inv(After(init, es))
  {
    if es != [] {
      var before := es[..|es| - 1];
      PrefixIsExecution(grace, init, es, |before|);
      ExecutionKeepsInv(grace, init, before);
      StepKeepsInv(grace, After(init, before), es[|es| - 1]);
    }
  }

  lemma PrefixIsExecution(grace: nat, init: State, es: seq<Event>, n: nat)
    requires Execution(grace, init, es) && n <= |es|
    ensures Execution(grace, init, es[..n])
  {
    forall i | 0 <= i < n ensures Enabled(grace, After(init, es[..n][..i]), es[..n][i]) {
      assert es[..n][..i] == es[..i];
    }
  }

  // ------------------------------------------------------------------
  // Results over whole executions
  // ------------------------------------------------------------------

  function Thread(e: Event): Option<ThreadId> {
    if e.Tick? then None else Some(e.p)
  }

  lemma NextState(init: State, es: seq<Event>, i: nat)
    requires i < |es|
    ensures After(init, es[..i + 1]) == Apply(After(init, es[..i]), es[i])
  {
    assert es[..i + 1][..i] == es[..i];
  }

  lemma StateInv(grace: nat, init: State, es: seq<Event>, i: nat)
    requires Execution(grace, init, es) && i <= |es|
    ensures Inv(After(init, es[..i]))
  {
    PrefixIsExecution(grace, init, es, i);
    ExecutionKeepsInv(grace, init, es[..i]);
  }

  lemma {:induction false} RevokedOnceRevokedAlways(init: State, es: seq<Event>, i: nat, j: nat, t: Token)
    requires i <= j <= |es| && t in After(init, es[..i]).revoked
    ensures t in After(init, es[..j]).revoked
  {
    if i < j {
      hide After;
      RevokedOnceRevokedAlways(init, es, i, j - 1, t);
      NextState(init, es, j - 1);
    }
  }

  lemma OtherLeavesCallAlone(s: State, e: Event, p: ThreadId)
    requires p in s.calls && Thread(e) != Some(p)
    ensures At(Apply(s, e), p, s.calls[p])
  {
  }

  lemma {:induction false} OthersLeaveCallAlone(init: State, es: seq<Event>, i: nat, j: nat, p: ThreadId)
    requires i <= j <= |es| && p in After(init, es[..i]).calls
    requires forall m | i <= m < j :: Thread(es[m]) != Some(p)
    ensures At(After(init, es[..j]), p, After(init, es[..i]).calls[p])
  {
    if i < j {
      hide After, Apply;
      OthersLeaveCallAlone(init, es, i, j - 1, p);
      NextState(init, es, j - 1);
      OtherLeavesCallAlone(After(init, es[..j - 1]), es[j - 1], p);
    }
  }

  /**
   Event i is the return of a `blacklist_token(t)` call, event j the start of a later `verify(t)` that finds
   no entry, and event k the end of that same call.
   */
  ghost predicate VerifyAfterRevocation(grace: nat, init: State, es: seq<Event>, i: nat, j: nat, k: nat) {
    && Execution(grace, init, es) && i < j < k < |es|
    && es[i].RevokeStore? && es[j].VerifyLookup? && !es[j].hit && es[k].VerifyDecode?
    && es[j].token == es[i].token && es[k].p == es[j].p
    && forall m | j < m < k :: Thread(es[m]) != Some(es[j].p)
  }

  /** The leeway a token of the current secret still has after its expiry. */
  predicate InLeeway(grace: nat, s: State, t: Token) {
    t.Signed? && t.secret == s.secret && t.claims.exp <= s.now < t.claims.exp + grace
  }

  /** In every interleaving a revoked token verifies exactly in the leeway after its expiry. */
  lemma RevokedTokenStaysDead(grace: nat, init: State, es: seq<Event>, i: nat, j: nat, k: nat)
    requires VerifyAfterRevocation(grace, init, es, i, j, k)
    ensures es[k].token == es[i].token
    ensures es[k].r.Success? <==> InLeeway(grace, After(init, es[..k]), es[i].token)
    ensures es[k].r.Success? ==> es[k].r == Success(es[i].token.claims)
  {
    hide After, Apply, Enabled, Inv, DecodeLive, InLeeway;
    var t, p := es[i].token, es[j].p;
    NextState(init, es, i);
    RevokedThen(After(init, es[..i]), es[i]);
    RevokedOnceRevokedAlways(init, es, i + 1, j, t);
    NextState(init, es, j);
    LookedThen(grace, After(init, es[..j]), es[j]);
    OthersLeaveCallAlone(init, es, j + 1, k, p);
    IssuedStaysIssued(grace, init, es, j, k);
    StateInv(grace, init, es, k);
    DecodedThen(grace, After(init, es[..k]), es[k], t);
    LateDecode(grace, After(init, es[..k]), p, t);
  }

  lemma RevokedThen(s: State, e: Event)
    requires e.RevokeStore?
    ensures e.token in Apply(s, e).revoked
  {
  }

  lemma LookedThen(grace: nat, s: State, e: Event)
    requires e.VerifyLookup? && !e.hit && Enabled(grace, s, e) && e.token in s.revoked
    ensures Presentable(s, e.token) && At(Apply(s, e), e.p, Looked(e.token, true))
  {
  }

  lemma DecodedThen(grace: nat, s: State, e: Event, t: Token)
    requires e.VerifyDecode? && Enabled(grace, s, e) && At(s, e.p, Looked(t, true))
    ensures e.token == t && e.r == DecodeLive(t, s.secret, s.now, grace)
  {
  }

  lemma LateDecode(grace: nat, s: State, p: ThreadId, t: Token)
    requires Inv(s) && At(s, p, Looked(t, true)) && Presentable(s, t)
    ensures var r := DecodeLive(t, s.secret, s.now, grace);
            (r.Success? <==> InLeeway(grace, s, t)) && (r.Success? ==> r == Success(t.claims))
  {
    assert CallInv(s, s.calls[p]);
  }

  lemma {:induction false} IssuedStaysIssued(grace: nat, init: State, es: seq<Event>, i: nat, j: nat)
    requires Execution(grace, init, es) && i <= j <= |es|
    ensures After(init, es[..i]).issued <= After(init, es[..j]).issued
  {
    hide After, Apply, Enabled, BlacklistInv, CallsInv, TokensInv;
    if i < j {
      IssuedStaysIssued(grace, init, es, i, j - 1);
      StateInv(grace, init, es, j - 1);
      StepKeepsTokens(grace, After(init, es[..j - 1]), es[j - 1]);
      NextState(init, es, j - 1);
    }
  }

  /** A clear only ever drops tokens of retired secrets, so it loses no revocation that still matters. */
  lemma ClearLosesNoLiveRevocation(grace: nat, init: State, es: seq<Event>, i: nat, t: Token)
    requires Execution(grace, init, es) && i < |es| && es[i].RotateClear?
    requires t in es[i].gone && t in After(init, es[..i]).blacklist
    ensures Decode(t, After(init, es[..i]).secret) == None
    ensures forall j | i <= j <= |es| :: Decode(t, After(init, es[..j]).secret) == None
  {
    var s := After(init, es[..i]);
    StateInv(grace, init, es, i);
    assert CallInv(s, s.calls[es[i].p]) && Presentable(s, t);
    forall j | i <= j <= |es| ensures Decode(t, After(init, es[..j]).secret) == None {
      StateInv(grace, init, es, j);
      RetiredStaysRetired(init, es, i, j);
    }
  }

  lemma {:induction false} RetiredStaysRetired(init: State, es: seq<Event>, i: nat, j: nat)
    requires i <= j <= |es|
    ensures After(init, es[..i]).retired <= After(init, es[..j]).retired
  {
    if i < j {
      RetiredStaysRetired(init, es, i, j - 1);
      NextState(init, es, j - 1);
    }
  }

  /** Only a stored revocation can put a token on the blacklist. */
  lemma {:induction false} OnlyRevocationBlacklists(grace: nat, init: State, es: seq<Event>, t: Token)
    requires Execution(grace, init, es)
    requires forall i | 0 <= i < |es| && es[i].RevokeStore? :: es[i].token != t
    ensures t !in After(init, es).blacklist && t !in After(init, es).revoked
  {
    if es != [] {
      hide Apply, Enabled;
      var before := es[..|es| - 1];
      PrefixIsExecution(grace, init, es, |before|);
      forall i | 0 <= i < |before| && before[i].RevokeStore? ensures before[i].token != t {
        assert before[i] == es[i];
      }
      OnlyRevocationBlacklists(grace, init, before, t);
      StillUnlisted(grace, After(init, before), es[|es| - 1], t);
    }
  }

  lemma StillUnlisted(grace: nat, s: State, e: Event, t: Token)
    requires Enabled(grace, s, e) && t !in s.blacklist && t !in s.revoked && (e.RevokeStore? ==> e.token != t)
    ensures t !in Apply(s, e).blacklist && t !in Apply(s, e).revoked
  {
  }

  lemma Extend(grace: nat, init: State, es: seq<Event>, e: Event)
    requires Feasible(grace, init, es) && Enabled(grace, After(init, es), e)
    ensures Feasible(grace, init, es + [e])
    ensures After(init, es + [e]) == Apply(After(init, es), e)
  {
    var es' := es + [e];
    assert es'[..|es|] == es;
    forall i | 0 <= i < |es'| ensures Enabled(grace, After(init, es'[..i]), es'[i]) {
      if i < |es| {
        assert es'[..i] == es[..i] && es'[i] == es[i];
      }
    }
  }

  // ------------------------------------------------------------------
  // Run without interruption, the steps are the methods of `JwtService`
  // ------------------------------------------------------------------

  ghost predicate Reaches(grace: nat, s: State, s': State) {
    exists es: seq<Event> :: Feasible(grace, s, es) && After(s, es) == s'
  }

  lemma ReachesSelf(grace: nat, s: State)
    ensures Reaches(grace, s, s)
  {
    assert Feasible(grace, s, []) && After(s, []) == s;
  }

  lemma ReachesNext(grace: nat, s: State, m: State, e: Event)
    requires Reaches(grace, s, m) && Enabled(grace, m, e)
    ensures Reaches(grace, s, Apply(m, e))
  {
    hide Enabled, Apply;
    var es: seq<Event> :| Feasible(grace, s, es) && After(s, es) == m;
    Extend(grace, s, es, e);
  }

  lemma UninterruptedSign(grace: nat, s: State, p: ThreadId, userId: string, username: string)
    requires Idle(s, p) && !Locked(s)
    ensures var claims := Payload(userId, username, s.now, s.now + 86400, "aionui", "aionui-webui");
            Reaches(grace, s, s.(issued := s.issued + {Signed(claims, s.secret)}))
  {
    hide Reaches;
    ReachesSelf(grace, s);
    ReachesNext(grace, s, s, SignStart(p, userId, username, s.now));
    var m := Apply(s, SignStart(p, userId, username, s.now));
    ReachesNext(grace, s, m, SignFinish(p, Signed(Claims(userId, username, s.now), s.secret)));
    assert m.calls - {p} == s.calls;
  }

  /** A verify run without interruption is refused at once, or changes nothing and answers what the token deserves. */
  lemma UninterruptedVerify(grace: nat, s: State, p: ThreadId, t: Token)
    requires Idle(s, p) && Presentable(s, t) && !Locked(s)
    ensures var lookup := VerifyLookup(p, t, t in s.blacklist, t in s.revoked);
            var decode := VerifyDecode(p, t, DecodeLive(t, s.secret, s.now, grace));
            && Enabled(grace, s, lookup)
            && (t in s.blacklist ==> Apply(s, lookup) == s)
            && (t !in s.blacklist ==>
                  Enabled(grace, Apply(s, lookup), decode) && Apply(Apply(s, lookup), decode) == s)
  {
    if t !in s.blacklist {
      var m := Apply(s, VerifyLookup(p, t, false, t in s.revoked));
      assert m.calls - {p} == s.calls;
      StaysUnlocked(s, p, Looked(t, t in s.revoked));
    }
  }

  lemma StaysUnlocked(s: State, p: ThreadId, c: Call)
    requires !Locked(s) && c != Clearing
    ensures !Locked(s.(calls := s.calls[p := c]))
  {
  }

  lemma UninterruptedRevocation(grace: nat, s: State, p: ThreadId, t: Token)
    requires Idle(s, p) && Presentable(s, t) && !Locked(s)
    ensures Reaches(grace, s,
              s.(blacklist := s.blacklist[t := StoredExpiry(t, s.secret, s.now)], revoked := s.revoked + {t}))
  {
    hide Reaches;
    var own := Decode(t, s.secret);
    var exp := StoredExpiry(t, s.secret, s.now);
    ReachesSelf(grace, s);
    ReachesNext(grace, s, s, RevokeDecode(p, t, own));
    var m := Apply(s, RevokeDecode(p, t, own));
    if own.None? {
      ReachesNext(grace, s, m, RevokeFallback(p, t, exp));
      m := Apply(m, RevokeFallback(p, t, exp));
    }
    ReachesNext(grace, s, m, RevokeStore(p, t, exp));
    assert m.calls - {p} == s.calls;
  }

  lemma UninterruptedRotation(grace: nat, s: State, p: ThreadId, newSecret: Secret)
    requires Idle(s, p) && !Locked(s) && newSecret != s.secret && newSecret !in s.retired
    ensures Reaches(grace, s, s.(secret := newSecret, blacklist := map[], retired := s.retired + {s.secret}))
  {
    hide Reaches;
    ReachesSelf(grace, s);
    ReachesNext(grace, s, s, RotateSwap(p, newSecret, s.secret));
    var swapped := Apply(s, RotateSwap(p, newSecret, s.secret));
    ReachesNext(grace, s, swapped, RotateClear(p, s.blacklist.Keys));
    var cleared := Apply(swapped, RotateClear(p, s.blacklist.Keys));
    assert cleared.blacklist == map[];
    ReachesNext(grace, s, cleared, RotateUnlock(p));
    assert cleared.calls - {p} == s.calls;
  }

  lemma UninterruptedCleanup(grace: nat, s: State, p: ThreadId)
    requires Idle(s, p)
    ensures Reaches(grace, s,
              s.(blacklist := map t | t in s.blacklist && s.blacklist[t] > s.now :: s.blacklist[t]))
  {
    hide Reaches;
    var gone := Stale(s.blacklist, s.now);
    ReachesSelf(grace, s);
    ReachesNext(grace, s, s, CleanupStart(p, s.now));
    var sweeping := Apply(s, CleanupStart(p, s.now));
    ReachesNext(grace, s, sweeping, CleanupSweep(p, gone));
    var swept := Apply(sweeping, CleanupSweep(p, gone));
    ReachesNext(grace, s, swept, CleanupEnd(p));
    SweepIsFilter(s.blacklist, s.now);
    assert swept.calls - {p} == s.calls;
  }

  function Stale(blacklist: map<Token, nat>, now: nat): set<Token> {
    set t | t in blacklist && blacklist[t] <= now
  }

  lemma SweepIsFilter(blacklist: map<Token, nat>, now: nat)
    ensures blacklist - Stale(blacklist, now) == map t | t in blacklist && blacklist[t] > now :: blacklist[t]
  {
  }

  /** A token signed under the current secret, not expired and never revoked always verifies. */
  lemma UnrevokedTokenVerifies(grace: nat, init: State, es: seq<Event>, p: ThreadId, t: Token)
    requires Execution(grace, init, es)
    requires forall i | 0 <= i < |es| && es[i].RevokeStore? :: es[i].token != t
    requires t in After(init, es).issued && t.Signed? && t.secret == After(init, es).secret
    requires After(init, es).now < t.claims.exp
    requires Idle(After(init, es), p)
    ensures Execution(grace, init, es + [VerifyLookup(p, t, false, false)] + [VerifyDecode(p, t, Success(t.claims))])
  {
    OnlyRevocationBlacklists(grace, init, es, t);
    ExecutionKeepsInv(grace, init, es);
    var lookup := VerifyLookup(p, t, false, false);
    Extend(grace, init, es, lookup);
    CurrentTokenMeansUnlocked(After(init, es), t);
    VerifyDecodes(grace, After(init, es), p, t);
    Extend(grace, init, es + [lookup], VerifyDecode(p, t, Success(t.claims)));
  }

  lemma CurrentTokenMeansUnlocked(s: State, t: Token)
    requires Inv(s) && t in s.issued && t.Signed? && t.secret == s.secret
    ensures !Locked(s)
  {
    assert forall q | q in s.calls :: CallInv(s, s.calls[q]);
  }

  lemma VerifyDecodes(grace: nat, s: State, p: ThreadId, t: Token)
    requires TokensInv(s) && t in s.issued && t.secret == s.secret && s.now < t.claims.exp && !Locked(s)
    ensures Enabled(grace, Apply(s, VerifyLookup(p, t, false, false)), VerifyDecode(p, t, Success(t.claims)))
  {
    var s' := Apply(s, VerifyLookup(p, t, false, false));
    assert forall q | q in s'.calls && s'.calls[q] == Clearing :: q in s.calls && s.calls[q] == Clearing;
  }

  // ------------------------------------------------------------------
  // Is revocation final?  Not during the leeway.
  // ------------------------------------------------------------------

  ghost predicate RevocationIsFinal(grace: nat) {
    forall init: State, es: seq<Event>, i: nat, j: nat, k: nat ::
      VerifyAfterRevocation(grace, init, es, i, j, k) ==> es[k].r.Failure?
  }

  const FIRST := State("k", map[], 0, {}, {}, {}, map[])
  const LOGIN := Signed(Claims("u", "n", 0), "k")

  /** Sign, revoke, wait until `late` seconds after the expiry, clean up, verify. */
  function RevivingRun(late: nat): seq<Event> {
    var now := TOKEN_EXPIRY + late;
    [SignStart(0, "u", "n", 0), SignFinish(0, LOGIN),
     RevokeDecode(0, LOGIN, Some(LOGIN.claims)), RevokeStore(0, LOGIN, TOKEN_EXPIRY),
     Tick(now),
     CleanupStart(0, now), CleanupSweep(0, {LOGIN}), CleanupEnd(0),
     VerifyLookup(0, LOGIN, false, true), VerifyDecode(0, LOGIN, Success(LOGIN.claims))]
  }

  /** The state after the first n of these events. */
  function RevivingState(late: nat, n: nat): State {
    var signed := FIRST.(issued := {LOGIN});
    var revoked := signed.(blacklist := map[LOGIN := TOKEN_EXPIRY], revoked := {LOGIN});
    var expired := revoked.(now := TOKEN_EXPIRY + late);
    var cleaned := expired.(blacklist := map[]);
    match n
    case 0 => FIRST
    case 1 => FIRST.(calls := map[0 := Signing("u", "n", 0)])
    case 2 => signed
    case 3 => signed.(calls := map[0 := Storing(LOGIN, TOKEN_EXPIRY)])
    case 4 => revoked
    case 5 => expired
    case 6 => expired.(calls := map[0 := Sweeping(TOKEN_EXPIRY + late)])
    case 7 => cleaned.(calls := map[0 := Sweeping(TOKEN_EXPIRY + late)])
    case 8 => cleaned
    case 9 => cleaned.(calls := map[0 := Looked(LOGIN, true)])
    case _ => cleaned
  }

  lemma RevivingStep(grace: nat, late: nat, n: nat)
    requires late < grace && n < |RevivingRun(late)|
    ensures Enabled(grace, RevivingState(late, n), RevivingRun(late)[n])
    ensures Apply(RevivingState(late, n), RevivingRun(late)[n]) == RevivingState(late, n + 1)
  {
    var s, e := RevivingState(late, n), RevivingRun(late)[n];
    if n < 5 {
    } else if n == 6 {
      assert Apply(s, e).blacklist == map[];
    } else {
    }
  }

  lemma {:induction false} RevivingRunExecutes(grace: nat, late: nat, n: nat)
    requires late < grace && n <= |RevivingRun(late)|
    ensures Execution(grace, FIRST, RevivingRun(late)[..n])
    ensures After(FIRST, RevivingRun(late)[..n]) == RevivingState(late, n)
  {
    hide After, Apply, Enabled, RevivingState, RevivingRun, Feasible, IsInit;
    var es := RevivingRun(late);
    RevivingStarts(grace, late);
    if n == 0 {
      assert es[..0] == [];
    } else {
      RevivingRunExecutes(grace, late, n - 1);
      RevivingStep(grace, late, n - 1);
      assert es[..n] == es[..n - 1] + [es[n - 1]];
      Extend(grace, FIRST, es[..n - 1], es[n - 1]);
    }
  }

  lemma RevivingStarts(grace: nat, late: nat)
    ensures Execution(grace, FIRST, []) && After(FIRST, []) == RevivingState(late, 0)
  {
  }

  /** At every instant of the leeway, from its first to its last, some run accepts a token revoked before. */
  lemma RevivedThroughoutLeeway(grace: nat, late: nat)
    requires late < grace
    ensures var es := RevivingRun(late);
            && VerifyAfterRevocation(grace, FIRST, es, 3, 8, 9) && es[9].r == Success(es[3].token.claims)
            && After(FIRST, es[..9]).now == es[3].token.claims.exp + late
  {
    var es := RevivingRun(late);
    RevivingRunExecutes(grace, late, |es|);
    RevivingRunExecutes(grace, late, 9);
    assert es[..|es|] == es;
  }

  /** So no revoked token ever verifies again just when there is no leeway. */
  lemma RevocationFinalIffNoLeeway(grace: nat)
    ensures RevocationIsFinal(grace) <==> grace == 0
  {
    if grace > 0 {
      RevivedThroughoutLeeway(grace, 0);
    } else {
      forall init: State, es: seq<Event>, i: nat, j: nat, k: nat
        | VerifyAfterRevocation(grace, init, es, i, j, k)
        ensures es[k].r.Failure?
      {
        RevokedTokenStaysDead(grace, init, es, i, j, k);
      }
    }
  }
}
