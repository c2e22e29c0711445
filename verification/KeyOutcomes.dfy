/** Which tokens the key cache lets through, step by step: exactly those it can prove. */
module KeyOutcomes {
  import opened Prelude
  import opened KeyCache

  // The keys hold the token's key, and the token decodes under it to claims with an allowed email.
  predicate Proves(c: Config, keys: Keys, token: Token, kid: Kid, claims: Claims) {
    kid in keys && c.crypto.decode(token, keys[kid]) == Payload(Some(claims)) && claims.email in c.allowed
  }

  ghost predicate Denied(c: Config, keys: Keys, token: Token, kid: Kid) {
    exists claims: Claims :: kid in keys && c.crypto.decode(token, keys[kid]) == Payload(Some(claims)) && claims.email !in c.allowed
  }

  // What one look into the keys gives; an unknown key or a wrong signature waits for new ones.
  ghost predicate Answered(c: Config, keys: Keys, token: Token, kid: Kid, clock: real, v: Verification) {
    && (forall claims :: v == Accepted(token, claims) <==> Proves(c, keys, token, kid, claims))
    && (v == Rejected(token, EmailNotAllowed) <==> Denied(c, keys, token, kid))
    && (v == Rejected(token, ClaimsInvalid) <==> kid in keys && c.crypto.decode(token, keys[kid]) == Payload(None))
    && (v == Rejected(token, TokenInvalid) <==> kid in keys && c.crypto.decode(token, keys[kid]) == Invalid)
    && (v == Waiting(token, kid, InvalidSignature, clock) <==> kid in keys && c.crypto.decode(token, keys[kid]) == BadSignature)
    && (v == Waiting(token, kid, KidMiss, clock) <==> kid !in keys)
  }

  // The other verifications are left alone.
  predicate OnlyOne(before: seq<Verification>, after: seq<Verification>, i: nat) {
    && i < |after| && |before| <= |after| && (i < |before| ==> |after| == |before|)
    && forall j :: 0 <= j < |before| && j != i ==> after[j] == before[j]
  }

  // A verification begins by reading the token's header. With keys younger than their time to
  // live it is answered at once; with none, or with old ones, it asks for a refresh first.
  lemma {:induction false} BeginOutcome(c: Config, s: State, token: Option<Token>, clock: real)
    ensures var next, i := Step(c, s, Begin(token, clock)), |s.verifications|;
            && |next.verifications| == i + 1 && OnlyOne(s.verifications, next.verifications, i)
            && next == s.(verifications := next.verifications)
            && var v := next.verifications[i];
               match token {
                 case None => v == Rejected(0, MissingToken)
                 case Some(t) =>
                   match c.crypto.header(t) {
                     case None => v == Rejected(t, InvalidHeader)
                     case Some(None) => v == Rejected(t, MissingKid)
                     case Some(Some(kid)) =>
                       if s.keys == map[] then v == Waiting(t, kid, ColdStart, clock)
                       else if s.builtAt + c.ttl <= clock then v == Waiting(t, kid, TtlExpired, clock)
                       else Answered(c, s.keys, t, kid, clock, v)
                   }
               }
  {
    if token.Some? && c.crypto.header(token.value).Some? && c.crypto.header(token.value).value.Some? {
      LookupAnswers(c, s.keys, token.value, c.crypto.header(token.value).value.value, clock);
    }
    hide Lookup, Answered;
  }

  lemma LookupAnswers(c: Config, keys: Keys, token: Token, kid: Kid, clock: real)
    ensures Answered(c, keys, token, kid, clock, Lookup(c, keys, token, kid, clock))
  {
    if kid in keys && c.crypto.decode(token, keys[kid]).Payload? && c.crypto.decode(token, keys[kid]).claims.Some? {
      var claims := c.crypto.decode(token, keys[kid]).claims.value;
      assert Denied(c, keys, token, kid) <==> claims.email !in c.allowed;
    }
  }

  // What a verification gets when its refresh is over: `keys` is the cache then, `result` what
  // its own fetch brought. With no keys ever it fails. One that had found the keys missing or
  // old is answered from the cache, so that old keys outlive a failed refresh. One that had
  // missed its own key is answered from its own fetch. One with a wrong signature is accepted
  // or refused for good.
  ghost predicate Settled(c: Config, keys: Keys, asked: Verification, result: Option<Keys>, clock: real, v: Verification)
    requires asked.Waiting? || asked.Fetching?
  {
    var token, kid := asked.token, asked.kid;
    match asked.reason {
      case ColdStart => if keys == map[] then v == Rejected(token, JwksUnavailable) else Answered(c, keys, token, kid, clock, v)
      case TtlExpired => Answered(c, keys, token, kid, clock, v)
      case KidMiss =>
        if result.Some? && kid in result.value then Answered(c, result.value, token, kid, clock, v)
        else v == Rejected(token, UnknownKid)
      case InvalidSignature =>
        && (forall claims :: v == Accepted(token, claims) <==> result.Some? && Proves(c, result.value, token, kid, claims))
        && (v == Rejected(token, EmailNotAllowed) <==> result.Some? && Denied(c, result.value, token, kid))
        && (v == Rejected(token, ClaimsInvalid) <==>
              result.Some? && kid in result.value && c.crypto.decode(token, result.value[kid]) == Payload(None))
        && (v == Rejected(token, TokenInvalid) <==>
              result.Some? && kid in result.value && c.crypto.decode(token, result.value[kid]) == Invalid)
        && (v == Rejected(token, SignatureInvalid) <==>
              result.None? || kid !in result.value || c.crypto.decode(token, result.value[kid]) == BadSignature)
    }
  }

  lemma ResumedSettles(c: Config, keys: Keys, asked: Verification, result: Option<Keys>, clock: real)
    requires asked.Waiting? || asked.Fetching?
    ensures Settled(c, keys, asked, result, clock, Resumed(c, keys, asked.token, asked.kid, asked.reason, result, clock))
  {
    LookupAnswers(c, keys, asked.token, asked.kid, clock);
    if result.Some? && asked.kid in result.value {
      LookupAnswers(c, result.value, asked.token, asked.kid, clock);
      var decoded := c.crypto.decode(asked.token, result.value[asked.kid]);
      if decoded.Payload? && decoded.claims.Some? {
        assert Denied(c, result.value, asked.token, asked.kid) <==> decoded.claims.value.email !in c.allowed;
      }
    }
  }

  // The lock's next holder fetches, if the reading it began waiting with is at least a
  // cooldown behind the last recorded one; else it settles with the cache as it is.
  lemma {:induction false} AcquireOutcome(c: Config, s: State, i: nat, clock: real)
    requires Enabled(s, Acquire(i, clock))
    ensures var next, v := Step(c, s, Acquire(i, clock)), s.verifications[i];
            && OnlyOne(s.verifications, next.verifications, i)
            && if s.lastAttempt + c.cooldown <= v.now
               then && next.verifications[i] == Fetching(v.token, v.kid, v.reason) && next.lock == Some(i) && next.lastAttempt == v.now
                    && (next.keys, next.builtAt) == (s.keys, s.builtAt)
               else && next == s.(verifications := next.verifications)
                    && Settled(c, s.keys, v, None, clock, next.verifications[i])
  {
    var v := s.verifications[i];
    ResumedSettles(c, s.keys, v, None, clock);
    hide Resumed, Settled;
  }

  // A fetch that brings keys puts them in the place of the old ones and dates them; one that
  // fails leaves the cache. Either way the verification settles and gives the lock back.
  lemma {:induction false} FetchOutcome(c: Config, s: State, i: nat, result: Option<Keys>, clock: real)
    requires Enabled(s, FetchEnds(i, result, clock))
    ensures var next := Step(c, s, FetchEnds(i, result, clock));
            && OnlyOne(s.verifications, next.verifications, i) && next.lock.None? && next.lastAttempt == s.lastAttempt
            && next.keys == (if result.Some? then result.value else s.keys)
            && next.builtAt == (if result.Some? then clock else s.builtAt)
            && Settled(c, next.keys, s.verifications[i], result, clock, next.verifications[i])
  {
    var v := s.verifications[i];
    ResumedSettles(c, if result.Some? then result.value else s.keys, v, result, clock);
    hide Resumed, Settled;
  }

  // A verification that is given up gives up the lock with it, and nothing else.
  lemma CancelOutcome(c: Config, s: State, i: nat)
    requires Enabled(s, Cancel(i))
    ensures var next := Step(c, s, Cancel(i));
            && OnlyOne(s.verifications, next.verifications, i) && next.verifications[i] == Cancelled
            && next == s.(verifications := next.verifications, lock := next.lock)
            && next.lock == (if s.lock == Some(i) then None else s.lock)
  {
  }

  // ---------- whole verifications ----------

  // With the lock free and the cooldown over, a verification that finds no keys and fetches
  // some lets the token through exactly if those prove it.
  lemma {:induction false} ColdStartAccepts(c: Config, s: State, token: Token, kid: Kid, began: real, keys: Keys, ended: real,
                                            claims: Claims)
    requires s.keys == map[] && s.lock.None? && s.lastAttempt + c.cooldown <= began
    requires c.crypto.header(token) == Some(Some(kid)) && keys != map[]
    ensures var i := |s.verifications|;
            var one := Step(c, s, Begin(Some(token), began));
            Enabled(one, Acquire(i, began))
            && var two := Step(c, one, Acquire(i, began));
               Enabled(two, FetchEnds(i, Some(keys), ended))
               && var three := Step(c, two, FetchEnds(i, Some(keys), ended));
                  three.verifications[i] == Accepted(token, claims) <==> Proves(c, keys, token, kid, claims)
  {
    hide Step, Answered;
    var i := |s.verifications|;
    BeginOutcome(c, s, Some(token), began);
    var one := Step(c, s, Begin(Some(token), began));
    AcquireOutcome(c, one, i, began);
    var two := Step(c, one, Acquire(i, began));
    FetchOutcome(c, two, i, Some(keys), ended);
    AnsweredAccepts(c, keys, token, kid, ended, Step(c, two, FetchEnds(i, Some(keys), ended)).verifications[i], claims);
  }

  lemma AnsweredAccepts(c: Config, keys: Keys, token: Token, kid: Kid, clock: real, v: Verification, claims: Claims)
    requires Answered(c, keys, token, kid, clock, v)
    ensures v == Accepted(token, claims) <==> Proves(c, keys, token, kid, claims)
  {
  }

  // Keys that are long out of date still let a token through when the refresh fails.
  lemma {:induction false} OldKeysAccept(c: Config, s: State, token: Token, kid: Kid, began: real, ended: real, claims: Claims)
    requires s.keys != map[] && s.lock.None? && s.lastAttempt + c.cooldown <= began && s.builtAt + c.ttl <= began
    requires c.crypto.header(token) == Some(Some(kid))
    ensures var i := |s.verifications|;
            var one := Step(c, s, Begin(Some(token), began));
            Enabled(one, Acquire(i, began))
            && var two := Step(c, one, Acquire(i, began));
               Enabled(two, FetchEnds(i, None, ended))
               && var three := Step(c, two, FetchEnds(i, None, ended));
                  three.verifications[i] == Accepted(token, claims) <==> Proves(c, s.keys, token, kid, claims)
  {
    hide Step, Answered;
    var i := |s.verifications|;
    BeginOutcome(c, s, Some(token), began);
    var one := Step(c, s, Begin(Some(token), began));
    AcquireOutcome(c, one, i, began);
    var two := Step(c, one, Acquire(i, began));
    FetchOutcome(c, two, i, None, ended);
    AnsweredAccepts(c, s.keys, token, kid, ended, Step(c, two, FetchEnds(i, None, ended)).verifications[i], claims);
  }

  // Keys rotated at the issuer are picked up by the first token signed with a new one: after
  // a miss it is let through exactly if the new fetch proves it.
  lemma {:induction false} RotationAccepts(c: Config, s: State, token: Token, kid: Kid, began: real, keys: Keys, ended: real,
                                           claims: Claims)
    requires s.keys != map[] && s.lock.None? && s.lastAttempt + c.cooldown <= began < s.builtAt + c.ttl
    requires c.crypto.header(token) == Some(Some(kid)) && keys != map[]
    requires kid !in s.keys || c.crypto.decode(token, s.keys[kid]) == BadSignature
    ensures var i := |s.verifications|;
            var one := Step(c, s, Begin(Some(token), began));
            Enabled(one, Acquire(i, began))
            && var two := Step(c, one, Acquire(i, began));
               Enabled(two, FetchEnds(i, Some(keys), ended))
               && var three := Step(c, two, FetchEnds(i, Some(keys), ended));
                  three.verifications[i] == Accepted(token, claims) <==> Proves(c, keys, token, kid, claims)
  {
    hide Step;
    var i := |s.verifications|;
    BeginOutcome(c, s, Some(token), began);
    var one := Step(c, s, Begin(Some(token), began));
    AcquireOutcome(c, one, i, began);
    var two := Step(c, one, Acquire(i, began));
    FetchOutcome(c, two, i, Some(keys), ended);
    hide Denied;
  }
}
