/**
 One-time QR login tokens (crates/chisl-auth/src/qr_token.rs).

 Every call locks a token's entry once, so for each token a run is a sequence of whole calls; the random
 token texts are inputs.  Generation and cleanup read the clock before they lock, a validation after.
 */
module QrTokens {
  import opened Wrappers

  const QR_TOKEN_TTL_MS: int := 5 * 60 * 1000
  const I64_MIN: int := -0x8000_0000_0000_0000
  const I64_MAX: int := 0x7FFF_FFFF_FFFF_FFFF

  newtype Millis = x: int | -0x8000_0000_0000_0000 <= x <= 0x7FFF_FFFF_FFFF_FFFF

  datatype TokenData = TokenData(createdAt: Millis, used: bool)
  datatype AppError = InvalidToken | AlreadyUsed | Expired

  type Tokens = map<string, TokenData>

  /** 64-bit subtraction that stops at the ends of the range. */
  function SaturatingSub(a: Millis, b: Millis): int {
    var d := a as int - b as int;
    if d < I64_MIN then I64_MIN else if d > I64_MAX then I64_MAX else d
  }

  predicate IsExpired(data: TokenData, now: Millis) {
    SaturatingSub(now, data.createdAt) > QR_TOKEN_TTL_MS
  }

  /** Saturation never changes the answer. */
  lemma ExpiredMeans(data: TokenData, now: Millis)
    ensures IsExpired(data, now) <==> now as int > data.createdAt as int + QR_TOKEN_TTL_MS
  {
  }

  function Validated(tokens: Tokens, token: string, now: Millis): Result<(), AppError> {
    if token !in tokens then Failure(InvalidToken)
    else if tokens[token].used then Failure(AlreadyUsed)
    else if IsExpired(tokens[token], now) then Failure(Expired)
    else Success(())
  }

  function Consumed(tokens: Tokens, token: string, now: Millis): Tokens {
    if Validated(tokens, token, now).Success? then tokens[token := tokens[token].(used := true)] else tokens
  }

  function Cleaned(tokens: Tokens, now: Millis): Tokens {
    map token | token in tokens && !IsExpired(tokens[token], now) :: tokens[token]
  }

  class QrTokenStore {
    var tokens: Tokens

    constructor ()
      ensures tokens == map[]
    {
      tokens := map[];
    }

    method GenerateWithExpiry(token: string, now: Millis) returns (r: (string, int))
      modifies this
      ensures tokens == old(tokens)[token := TokenData(now, false)]
      ensures r.0 == token && r.1 == now as int + 300_000
      ensures forall t: Millis :: Validated(tokens, token, t).Success? <==> t as int <= r.1
    {
      tokens := tokens[token := TokenData(now, false)];
      r := (token, now as int + QR_TOKEN_TTL_MS);
      forall t: Millis ensures Validated(tokens, token, t).Success? <==> t as int <= r.1 {
        ExpiredMeans(tokens[token], t);
      }
    }

    method ValidateAndConsume(token: string, now: Millis) returns (r: Result<(), AppError>)
      modifies this
      ensures r == Validated(old(tokens), token, now)
      ensures r == Failure(InvalidToken) <==> token !in old(tokens)
      ensures r == Failure(AlreadyUsed) <==> token in old(tokens) && old(tokens)[token].used
      ensures r.Success? <==> token in old(tokens) && !old(tokens)[token].used
                              && now as int <= old(tokens)[token].createdAt as int + 300_000
      ensures tokens == Consumed(old(tokens), token, now)
      ensures tokens == if r.Success? then old(tokens)[token := TokenData(old(tokens)[token].createdAt, true)]
                        else old(tokens)
      ensures r.Success? ==> forall t: Millis :: Validated(tokens, token, t) == Failure(AlreadyUsed)
    {
      if token !in tokens {
        return Failure(InvalidToken);
      }
      if tokens[token].used {
        return Failure(AlreadyUsed);
      }
      var elapsed := SaturatingSub(now, tokens[token].createdAt);
      if elapsed > QR_TOKEN_TTL_MS {
        return Failure(Expired);
      }
      tokens := tokens[token := tokens[token].(used := true)];
      r := Success(());
    }

    method Cleanup(now: Millis)
      modifies this
      ensures tokens == Cleaned(old(tokens), now)
      ensures forall t :: t in tokens <==>
                t in old(tokens) && now as int <= old(tokens)[t].createdAt as int + 300_000
      ensures forall t :: t in tokens ==> tokens[t] == old(tokens)[t]
    {
      tokens := map token | token in tokens && SaturatingSub(now, tokens[token].createdAt) <= QR_TOKEN_TTL_MS
                  :: tokens[token];
    }

    method TokenCount() returns (n: nat)
      ensures n == |tokens.Keys|
    {
      n := |tokens|;
    }
  }

  // ------------------------------------------------------------------
  // Runs
  // ------------------------------------------------------------------

  datatype Call =
    | Generate(token: string, now: Millis)
    | Validate(token: string, now: Millis)
    | Cleanup(now: Millis)

  function Step(tokens: Tokens, call: Call): Tokens {
    match call
    case Generate(token, now) => tokens[token := TokenData(now, false)]
    case Validate(token, now) => Consumed(tokens, token, now)
    case Cleanup(now) => Cleaned(tokens, now)
  }

  function After(calls: seq<Call>): Tokens {
    if calls == [] then map[] else Step(After(calls[..|calls| - 1]), calls[|calls| - 1])
  }

  /** A validation reads the clock after the sweeps that came before it. */
  ghost predicate Run(calls: seq<Call>) {
    forall i, j | 0 <= i < j < |calls| && calls[i].Cleanup? && calls[j].Validate? :: calls[i].now <= calls[j].now
  }

  /** The sweeps of a run happened by `now`. */
  ghost predicate SweptBy(calls: seq<Call>, now: Millis) {
    forall i | 0 <= i < |calls| && calls[i].Cleanup? :: calls[i].now <= now
  }

  /** Call i is answered Ok. */
  predicate Accepted(calls: seq<Call>, i: nat)
    requires i < |calls|
  {
    calls[i].Validate? && Validated(After(calls[..i]), calls[i].token, calls[i].now).Success?
  }

  // The history of a token text since it was last generated.

  /** When it was generated. */
  function CreatedAt(calls: seq<Call>, token: string): Option<Millis> {
    if calls == [] then None else
    var last := calls[|calls| - 1];
    if last.Generate? && last.token == token then Some(last.now) else CreatedAt(calls[..|calls| - 1], token)
  }

  /** Whether a validation of it was accepted. */
  predicate Spent(calls: seq<Call>, token: string) {
    if calls == [] then false else
    var init, last := calls[..|calls| - 1], calls[|calls| - 1];
    !(last.Generate? && last.token == token)
    && (Spent(init, token)
        || (last.Validate? && last.token == token && Validated(After(init), token, last.now).Success?))
  }

  /** Whether a cleanup found it past its expiry. */
  predicate Swept(calls: seq<Call>, token: string) {
    if calls == [] then false else
    var init, last := calls[..|calls| - 1], calls[|calls| - 1];
    !(last.Generate? && last.token == token)
    && (Swept(init, token) || (last.Cleanup? && PastExpiry(init, token, last.now)))
  }

  predicate PastExpiry(calls: seq<Call>, token: string, now: Millis) {
    CreatedAt(calls, token).Some? && now as int > CreatedAt(calls, token).value as int + QR_TOKEN_TTL_MS
  }

  /** In every run, in any order of clock readings, the store holds a token's true record until a cleanup sweeps it. */
  lemma {:induction false} StoreTracks(calls: seq<Call>, token: string)
    ensures token in After(calls) <==> CreatedAt(calls, token).Some? && !Swept(calls, token)
    ensures token in After(calls) ==>
              After(calls)[token] == TokenData(CreatedAt(calls, token).value, Spent(calls, token))
    ensures Spent(calls, token) || Swept(calls, token) ==> CreatedAt(calls, token).Some?
  {
    if calls != [] {
      var init, last := calls[..|calls| - 1], calls[|calls| - 1];
      StoreTracks(init, token);
      if last.Cleanup? && token in After(init) {
        ExpiredMeans(After(init)[token], last.now);
      }
    }
  }

  lemma PrefixIsRun(calls: seq<Call>, n: nat)
    requires Run(calls) && n <= |calls|
    ensures Run(calls[..n])
    ensures n < |calls| && calls[n].Validate? ==> SweptBy(calls[..n], calls[n].now)
  {
  }

  lemma {:induction false} SweptIsPastExpiry(calls: seq<Call>, token: string, now: Millis)
    requires SweptBy(calls, now) && Swept(calls, token)
    ensures PastExpiry(calls, token, now)
  {
    var init, last := calls[..|calls| - 1], calls[|calls| - 1];
    if Swept(init, token) {
      SweptIsPastExpiry(init, token, now);
    } else {
      assert calls[|calls| - 1].now <= now;
    }
  }

  /** Generated, not spent, and not past the expiry that was returned with it. */
  predicate Redeemable(calls: seq<Call>, token: string, now: Millis) {
    CreatedAt(calls, token).Some? && !Spent(calls, token) && !PastExpiry(calls, token, now)
  }

  lemma ValidatedIffRedeemable(calls: seq<Call>, token: string, now: Millis)
    requires SweptBy(calls, now)
    ensures Validated(After(calls), token, now).Success? <==> Redeemable(calls, token, now)
  {
    StoreTracks(calls, token);
    if token in After(calls) {
      ExpiredMeans(After(calls)[token], now);
    } else if Swept(calls, token) {
      SweptIsPastExpiry(calls, token, now);
    }
  }

  /** Whatever cleanups happened, a validation is accepted exactly when the token is redeemable. */
  lemma AcceptedIffRedeemable(calls: seq<Call>, i: nat)
    requires Run(calls) && i < |calls| && calls[i].Validate?
    ensures Accepted(calls, i) <==> Redeemable(calls[..i], calls[i].token, calls[i].now)
  {
    PrefixIsRun(calls, i);
    ValidatedIffRedeemable(calls[..i], calls[i].token, calls[i].now);
  }

  lemma {:induction false} AcceptedMeansSpent(calls: seq<Call>, i: nat, j: nat)
    requires i < j <= |calls| && Accepted(calls, i)
    requires forall m | i < m < j && calls[m].Generate? :: calls[m].token != calls[i].token
    ensures Spent(calls[..j], calls[i].token)
    decreases j
  {
    assert calls[..j][..j - 1] == calls[..j - 1];
    if i < j - 1 {
      AcceptedMeansSpent(calls, i, j - 1);
    }
  }

  /** No token is accepted twice unless its text is generated again in between. */
  lemma ConsumedAtMostOnce(calls: seq<Call>, i: nat, j: nat)
    requires i < j < |calls| && Accepted(calls, i) && Accepted(calls, j)
    requires forall m | i < m < j && calls[m].Generate? :: calls[m].token != calls[i].token
    ensures calls[i].token != calls[j].token
  {
    AcceptedMeansSpent(calls, i, j);
    StoreTracks(calls[..j], calls[j].token);
  }

  // ------------------------------------------------------------------
  // What a cleanup changes
  // ------------------------------------------------------------------

  function WithoutCleanup(calls: seq<Call>): seq<Call> {
    if calls == [] then [] else
    var init, last := calls[..|calls| - 1], calls[|calls| - 1];
    WithoutCleanup(init) + if last.Cleanup? then [] else [last]
  }

  lemma WithoutCleanupSnoc(calls: seq<Call>)
    requires calls != []
    ensures var kept := WithoutCleanup(calls[..|calls| - 1]);
            if calls[|calls| - 1].Cleanup? then WithoutCleanup(calls) == kept
            else WithoutCleanup(calls) != [] && WithoutCleanup(calls)[|kept|..] == [calls[|calls| - 1]]
                 && WithoutCleanup(calls)[..|kept|] == kept && |WithoutCleanup(calls)| == |kept| + 1
  {
  }

  lemma {:induction false} NothingSwept(calls: seq<Call>, token: string, now: Millis)
    ensures !Swept(WithoutCleanup(calls), token) && SweptBy(WithoutCleanup(calls), now)
  {
    if calls != [] {
      NothingSwept(calls[..|calls| - 1], token, now);
      WithoutCleanupSnoc(calls);
    }
  }

  /** How one more call continues a token's history. */
  lemma Snoc(calls: seq<Call>, call: Call, token: string)
    ensures CreatedAt(calls + [call], token) ==
            if call.Generate? && call.token == token then Some(call.now) else CreatedAt(calls, token)
    ensures Spent(calls + [call], token) <==>
            !(call.Generate? && call.token == token)
            && (Spent(calls, token)
                || (call == Validate(token, call.now) && Validated(After(calls), token, call.now).Success?))
  {
    assert (calls + [call])[..|calls|] == calls;
  }

  lemma SameOutcome(calls: seq<Call>, token: string, now: Millis)
    requires SweptBy(calls, now)
    requires CreatedAt(calls, token) == CreatedAt(WithoutCleanup(calls), token)
    requires Spent(calls, token) == Spent(WithoutCleanup(calls), token)
    ensures Validated(After(calls), token, now).Success? == Validated(After(WithoutCleanup(calls)), token, now).Success?
  {
    ValidatedIffRedeemable(calls, token, now);
    NothingSwept(calls, token, now);
    ValidatedIffRedeemable(WithoutCleanup(calls), token, now);
  }

  /** The cleanups of a run leave no trace in a token's history. */
  lemma {:induction false} HistoryUnchanged(calls: seq<Call>, token: string)
    requires Run(calls)
    ensures CreatedAt(calls, token) == CreatedAt(WithoutCleanup(calls), token)
    ensures Spent(calls, token) == Spent(WithoutCleanup(calls), token)
  {
    if calls != [] {
      var init, last := calls[..|calls| - 1], calls[|calls| - 1];
      PrefixIsRun(calls, |init|);
      HistoryUnchanged(init, token);
      assert calls == init + [last];
      Snoc(init, last, token);
      if last.Cleanup? {
        assert WithoutCleanup(calls) == WithoutCleanup(init);
      } else {
        Snoc(WithoutCleanup(init), last, token);
        if last.Validate? {
          SameOutcome(init, token, last.now);
        }
      }
    }
  }

  /**
   A validation after any run is answered as by a store that never cleans up, except for a token that was swept:
   it is past its expiry, and the refusal says Invalid instead of Already used or Expired.
   */
  lemma CleanupChangesTheRefusal(calls: seq<Call>, token: string, now: Millis)
    requires Run(calls) && SweptBy(calls, now)
    ensures var r, r' := Validated(After(calls), token, now), Validated(After(WithoutCleanup(calls)), token, now);
            if Swept(calls, token)
            then PastExpiry(calls, token, now) && r == Failure(InvalidToken)
                 && r' == Failure(if Spent(calls, token) then AlreadyUsed else Expired)
            else r == r'
  {
    StoreTracks(calls, token);
    StoreTracks(WithoutCleanup(calls), token);
    HistoryUnchanged(calls, token);
    NothingSwept(calls, token, now);
    if Swept(calls, token) {
      SweptIsPastExpiry(calls, token, now);
      ExpiredMeans(After(WithoutCleanup(calls))[token], now);
    }
  }

  /** The answers to the validations of a run. */
  function Answers(calls: seq<Call>): seq<Result<(), AppError>> {
    if calls == [] then [] else
    var init, last := calls[..|calls| - 1], calls[|calls| - 1];
    Answers(init) + if last.Validate? then [Validated(After(init), last.token, last.now)] else []
  }

  /** One answer with cleanups against the one without. */
  predicate SameButForSweeps(r: Result<(), AppError>, r': Result<(), AppError>) {
    r == r' || (r == Failure(InvalidToken) && (r' == Failure(AlreadyUsed) || r' == Failure(Expired)))
  }

  /** Cleanups anywhere in a run change no Ok into an error or back, and an error only into Invalid. */
  lemma {:induction false} CleanupKeepsOutcomes(calls: seq<Call>)
    requires Run(calls)
    ensures var rs, rs' := Answers(calls), Answers(WithoutCleanup(calls));
            |rs| == |rs'| && forall i | 0 <= i < |rs| :: SameButForSweeps(rs[i], rs'[i])
    ensures var rs, rs' := Answers(calls), Answers(WithoutCleanup(calls));
            forall i | 0 <= i < |rs| :: rs[i].Success? <==> rs'[i].Success?
  {
    if calls != [] {
      var init, last := calls[..|calls| - 1], calls[|calls| - 1];
      PrefixIsRun(calls, |init|);
      CleanupKeepsOutcomes(init);
      WithoutCleanupSnoc(calls);
      if last.Validate? {
        CleanupChangesTheRefusal(init, last.token, last.now);
      }
    }
  }
}
