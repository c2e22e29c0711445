/**
 The signing-key cache behind token verification. Any number of verifications share one
 cache; they interleave wherever one waits for the lock or for a fetch to come back.
 */
module KeyCache {
  import opened Prelude

  type Token = nat
  type Kid = nat
  type Key = nat
  type Email = nat
  type Keys = map<Kid, Key>

  datatype Claims = Claims(subject: nat, email: Email)

  datatype Decoded = Payload(claims: Option<Claims>) | BadSignature | Invalid

  // What the token library says: the key id in a token's header (none when the header is
  // malformed, or names no key), and the outcome of decoding a token with a key.
  datatype Crypto = Crypto(header: Token -> Option<Option<Kid>>, decode: (Token, Key) -> Decoded)

  datatype Config = Config(crypto: Crypto, allowed: set<Email>, ttl: real, cooldown: real)

  datatype Reason = ColdStart | TtlExpired | KidMiss | InvalidSignature

  datatype Rejection =
    MissingToken | InvalidHeader | MissingKid | JwksUnavailable | UnknownKid | SignatureInvalid | TokenInvalid
    | ClaimsInvalid | EmailNotAllowed

  datatype Verification =
    | Waiting(token: Token, kid: Kid, reason: Reason, now: real)
    | Fetching(token: Token, kid: Kid, reason: Reason)
    | Rejected(token: Token, rejection: Rejection)
    | Accepted(token: Token, claims: Claims)
    | Cancelled

  // `fetches` lists the clock readings recorded for the fetches made, `starts` the clock when
  // each of them starts, `installed` the results of those that succeeded.
  datatype State = State(keys: Keys, builtAt: real, lastAttempt: real, lock: Option<nat>,
                         verifications: seq<Verification>, fetches: seq<real>, starts: seq<real>, installed: seq<Keys>)

  datatype Action =
    | Begin(token: Option<Token>, clock: real)
    | Acquire(i: nat, clock: real)
    | FetchEnds(i: nat, result: Option<Keys>, clock: real)
    | Cancel(i: nat)

  // ---------- the parts of a verification that run without waiting ----------

  function Checked(c: Config, token: Token, payload: Option<Claims>): Verification {
    if payload.None? then Rejected(token, ClaimsInvalid)
    else if payload.value.email !in c.allowed then Rejected(token, EmailNotAllowed)
    else Accepted(token, payload.value)
  }

  // First decoding: a wrong signature asks for a refresh.
  function Decode(c: Config, token: Token, kid: Kid, key: Key, clock: real): Verification {
    match c.crypto.decode(token, key)
    case Payload(claims) => Checked(c, token, claims)
    case BadSignature => Waiting(token, kid, InvalidSignature, clock)
    case Invalid => Rejected(token, TokenInvalid)
  }

  function Lookup(c: Config, keys: Keys, token: Token, kid: Kid, clock: real): Verification {
    if kid in keys then Decode(c, token, kid, keys[kid], clock) else Waiting(token, kid, KidMiss, clock)
  }

  function Begun(c: Config, s: State, token: Option<Token>, clock: real): Verification {
    if token.None? then Rejected(0, MissingToken)
    else
      var header := c.crypto.header(token.value);
      if header.None? then Rejected(token.value, InvalidHeader)
      else if header.value.None? then Rejected(token.value, MissingKid)
      else
        var kid := header.value.value;
        if s.keys == map[] then Waiting(token.value, kid, ColdStart, clock)
        else if clock - s.builtAt >= c.ttl then Waiting(token.value, kid, TtlExpired, clock)
        else Lookup(c, s.keys, token.value, kid, clock)
  }

  // After a refresh: `fetched` is its result, none when it was skipped or failed.
  function Resumed(c: Config, keys: Keys, token: Token, kid: Kid, reason: Reason, fetched: Option<Keys>,
                   clock: real): Verification {
    match reason
    case ColdStart => if keys == map[] then Rejected(token, JwksUnavailable) else Lookup(c, keys, token, kid, clock)
    case TtlExpired => Lookup(c, keys, token, kid, clock)
    case KidMiss =>
      if fetched.None? || kid !in fetched.value then Rejected(token, UnknownKid)
      else Decode(c, token, kid, fetched.value[kid], clock)
    case InvalidSignature =>
      if fetched.None? || kid !in fetched.value then Rejected(token, SignatureInvalid)
      else match c.crypto.decode(token, fetched.value[kid])
           case Payload(claims) => Checked(c, token, claims)
           case BadSignature => Rejected(token, SignatureInvalid)
           case Invalid => Rejected(token, TokenInvalid)
  }

  // ---------- steps ----------

  predicate CoolingDown(c: Config, s: State, now: real) {
    now - s.lastAttempt < c.cooldown
  }

  predicate Enabled(s: State, act: Action) {
    match act
    case Begin(_, _) => true
    case Acquire(i, _) => i < |s.verifications| && s.verifications[i].Waiting? && s.lock.None?
    case FetchEnds(i, result, _) =>
      && i < |s.verifications| && s.verifications[i].Fetching? && s.lock == Some(i)
      // A fetch without usable keys fails.
      && (result.Some? ==> result.value != map[])
    case Cancel(i) => i < |s.verifications| && (s.verifications[i].Waiting? || s.verifications[i].Fetching?)
  }

  function Step(c: Config, s: State, act: Action): State
    requires Enabled(s, act)
  {
    match act
    case Begin(token, clock) => s.(verifications := s.verifications + [Begun(c, s, token, clock)])
    case Acquire(i, clock) =>
      var v := s.verifications[i];
      if CoolingDown(c, s, v.now) then
        s.(verifications := s.verifications[i := Resumed(c, s.keys, v.token, v.kid, v.reason, None, clock)])
      else
        s.(lastAttempt := v.now, fetches := s.fetches + [v.now], starts := s.starts + [clock], lock := Some(i),
           verifications := s.verifications[i := Fetching(v.token, v.kid, v.reason)])
    case FetchEnds(i, result, clock) =>
      var v := s.verifications[i];
      var next := s.(lock := None,
                     keys := if result.Some? then result.value else s.keys,
                     builtAt := if result.Some? then clock else s.builtAt,
                     installed := if result.Some? then s.installed + [result.value] else s.installed);
      next.(verifications := s.verifications[i := Resumed(c, next.keys, v.token, v.kid, v.reason, result, clock)])
    case Cancel(i) =>
      s.(verifications := s.verifications[i := Cancelled], lock := if s.lock == Some(i) then None else s.lock)
  }

  function Start(): State {
    State(map[], 0.0, 0.0, None, [], [], [], [])
  }

  // ---------- the invariant ----------

  ghost predicate Spaced(fetches: seq<real>, cooldown: real) {
    forall i :: 0 < i < |fetches| ==> fetches[i] - fetches[i - 1] >= cooldown
  }

  // Claims come from a payload decoded under a fetched key with the token's own key id.
  ghost predicate Backed(c: Config, installed: seq<Keys>, token: Token, claims: Claims) {
    exists n, kid :: 0 <= n < |installed| && kid in installed[n]
      && c.crypto.header(token) == Some(Some(kid))
      && c.crypto.decode(token, installed[n][kid]) == Payload(Some(claims))
      && claims.email in c.allowed
  }

  ghost predicate VerificationOk(c: Config, s: State, i: nat)
    requires i < |s.verifications|
  {
    match s.verifications[i]
    case Waiting(token, kid, _, _) => c.crypto.header(token) == Some(Some(kid))
    case Fetching(token, kid, _) => c.crypto.header(token) == Some(Some(kid)) && s.lock == Some(i)
    case Accepted(token, claims) => Backed(c, s.installed, token, claims)
    case Rejected(_, _) => true
    case Cancelled => true
  }

  // The cache is empty, or the whole of the last successful fetch.
  ghost predicate CacheOk(s: State) {
    && s.keys == (if s.installed == [] then map[] else s.installed[|s.installed| - 1])
    && (forall n :: 0 <= n < |s.installed| ==> s.installed[n] != map[])
  }

  ghost predicate Inv(c: Config, s: State) {
    && CacheOk(s) && Spaced(s.fetches, c.cooldown)
    && s.lastAttempt == (if s.fetches == [] then 0.0 else s.fetches[|s.fetches| - 1])
    && (s.lock.Some? ==> s.lock.value < |s.verifications| && s.verifications[s.lock.value].Fetching?)
    && (forall i :: 0 <= i < |s.verifications| ==> VerificationOk(c, s, i))
  }

  lemma StartIsOk(c: Config)
    ensures Inv(c, Start())
  {
  }

  lemma BackedStays(c: Config, installed: seq<Keys>, more: seq<Keys>, token: Token, claims: Claims)
    requires installed <= more && Backed(c, installed, token, claims)
    ensures Backed(c, more, token, claims)
  {
    var n, kid :| 0 <= n < |installed| && kid in installed[n]
      && c.crypto.header(token) == Some(Some(kid))
      && c.crypto.decode(token, installed[n][kid]) == Payload(Some(claims))
      && claims.email in c.allowed;
    assert more[n] == installed[n];
  }

  // What decoding and lookup leave is in order, given that the keys were fetched.
  ghost predicate Fetched(installed: seq<Keys>, keys: Keys) {
    keys == map[] || exists n :: 0 <= n < |installed| && installed[n] == keys
  }

  ghost predicate ResultOk(c: Config, installed: seq<Keys>, v: Verification) {
    match v
    case Waiting(token, kid, _, _) => c.crypto.header(token) == Some(Some(kid))
    case Fetching(_, _, _) => false
    case Accepted(token, claims) => Backed(c, installed, token, claims)
    case Rejected(_, _) => true
    case Cancelled => true
  }

  lemma DecodeOk(c: Config, installed: seq<Keys>, keys: Keys, token: Token, kid: Kid, clock: real)
    requires Fetched(installed, keys) && kid in keys && c.crypto.header(token) == Some(Some(kid))
    ensures ResultOk(c, installed, Decode(c, token, kid, keys[kid], clock))
    ensures c.crypto.decode(token, keys[kid]).Payload? ==>
              ResultOk(c, installed, Checked(c, token, c.crypto.decode(token, keys[kid]).claims))
  {
    var n :| 0 <= n < |installed| && installed[n] == keys;
    assert kid in installed[n];
  }

  lemma ResumedOk(c: Config, installed: seq<Keys>, keys: Keys, token: Token, kid: Kid, reason: Reason,
                  fetched: Option<Keys>, clock: real)
    requires Fetched(installed, keys) && (fetched.Some? ==> Fetched(installed, fetched.value))
    requires c.crypto.header(token) == Some(Some(kid))
    ensures ResultOk(c, installed, Resumed(c, keys, token, kid, reason, fetched, clock))
  {
    hide Backed, Fetched;
    if kid in keys {
      DecodeOk(c, installed, keys, token, kid, clock);
    }
    if fetched.Some? && kid in fetched.value {
      DecodeOk(c, installed, fetched.value, token, kid, clock);
    }
  }

  lemma CacheIsFetched(s: State)
    requires CacheOk(s)
    ensures Fetched(s.installed, s.keys)
  {
    if s.installed != [] {
      assert s.installed[|s.installed| - 1] == s.keys;
    }
  }

  lemma OthersStayOk(c: Config, s: State, s': State, j: nat)
    requires j < |s.verifications| && j < |s'.verifications| && s'.verifications[j] == s.verifications[j]
    requires VerificationOk(c, s, j) && s.installed <= s'.installed
    requires s.verifications[j].Fetching? ==> s'.lock == s.lock
    ensures VerificationOk(c, s', j)
  {
    if s.verifications[j].Accepted? {
      BackedStays(c, s.installed, s'.installed, s.verifications[j].token, s.verifications[j].claims);
    }
  }

  lemma {:induction false} StepKeeps(c: Config, s: State, act: Action)
    requires Inv(c, s) && Enabled(s, act)
    ensures Inv(c, Step(c, s, act))
  {
    hide Backed, Fetched, Resumed, Decode;
    var s' := Step(c, s, act);
    CacheIsFetched(s);
    var own := match act case Begin(_, _) => |s.verifications| case Acquire(i, _) => i case FetchEnds(i, _, _) => i case Cancel(i) => i;
    forall j | 0 <= j < |s'.verifications| && j != own
      ensures VerificationOk(c, s', j)
    {
      OthersStayOk(c, s, s', j);
    }
    match act {
      case Begin(token, clock) =>
        BegunOk(c, s, token, clock);
      case Acquire(i, clock) =>
        var v := s.verifications[i];
        assert VerificationOk(c, s, i);
        ResumedOk(c, s.installed, s.keys, v.token, v.kid, v.reason, None, clock);
      case FetchEnds(i, result, clock) =>
        var v := s.verifications[i];
        assert VerificationOk(c, s, i);
        CacheIsFetched(s');
        ResumedOk(c, s'.installed, s'.keys, v.token, v.kid, v.reason, result, clock);
      case Cancel(i) =>
    }
  }

  lemma BegunOk(c: Config, s: State, token: Option<Token>, clock: real)
    requires CacheOk(s)
    ensures ResultOk(c, s.installed, Begun(c, s, token, clock))
  {
    hide Backed, Fetched, Decode;
    CacheIsFetched(s);
    if token.Some? && c.crypto.header(token.value).Some? && c.crypto.header(token.value).value.Some? {
      var kid := c.crypto.header(token.value).value.value;
      if kid in s.keys {
        DecodeOk(c, s.installed, s.keys, token.value, kid, clock);
      }
    }
  }

  // ---------- runs ----------

  ghost predicate Run(c: Config, s: State, acts: seq<Action>, last: State)
    decreases |acts|
  {
    if acts == [] then s == last
    else Enabled(s, acts[0]) && Run(c, Step(c, s, acts[0]), acts[1..], last)
  }

  // A step installs the whole result of a fetch or leaves the cache as it is.
  lemma KeysChangeWhole(c: Config, s: State, act: Action)
    requires Enabled(s, act)
    ensures Step(c, s, act).keys == s.keys || (act.FetchEnds? && act.result == Some(Step(c, s, act).keys))
    ensures s.installed <= Step(c, s, act).installed && s.fetches <= Step(c, s, act).fetches
  {
    hide Begun, Resumed;
  }

  // Over every run from the start: fetches are a cooldown apart, the cache is empty or one
  // whole fetch and never becomes empty again, and accepted claims were decoded under a
  // fetched key with the token's key id.
  lemma {:induction false} EveryRunIsSafe(c: Config, s: State, acts: seq<Action>, last: State)
    requires Inv(c, s) && Run(c, s, acts, last)
    ensures Inv(c, last)
    ensures s.keys != map[] ==> last.keys != map[]
    ensures s.installed <= last.installed && s.fetches <= last.fetches
    decreases |acts|
  {
    hide Step, Enabled, Spaced, VerificationOk;
    if acts != [] {
      StepKeeps(c, s, acts[0]);
      KeysChangeWhole(c, s, acts[0]);
      EveryRunIsSafe(c, Step(c, s, acts[0]), acts[1..], last);
    }
  }

  lemma {:induction false} SpacedSpan(fetches: seq<real>, cooldown: real, i: nat, j: nat)
    requires Spaced(fetches, cooldown) && i <= j < |fetches|
    ensures fetches[j] - fetches[i] >= (j - i) as real * cooldown
    decreases j
  {
    if i < j {
      SpacedSpan(fetches, cooldown, i, j - 1);
      assert fetches[j] - fetches[j - 1] >= cooldown;
      assert (j - i) as real * cooldown == (j - 1 - i) as real * cooldown + cooldown;
    }
  }

  // However many verifications ask and whatever key ids they bring, readings that span L
  // hold at most floor(L / cooldown) + 1 fetches.
  lemma {:induction false} FetchesAreFew(c: Config, acts: seq<Action>, last: State, i: nat, j: nat, span: real)
    requires c.cooldown > 0.0 && Run(c, Start(), acts, last)
    requires i <= j < |last.fetches| && last.fetches[j] - last.fetches[i] <= span
    ensures j - i + 1 <= (span / c.cooldown).Floor + 1
  {
    hide Run, VerificationOk;
    StartIsOk(c);
    EveryRunIsSafe(c, Start(), acts, last);
    SpacedSpan(last.fetches, c.cooldown, i, j);
    AtMost((j - i) as int, span, c.cooldown);
  }

  lemma AtMost(n: int, span: real, cooldown: real)
    requires cooldown > 0.0 && n as real * cooldown <= span
    ensures n <= (span / cooldown).Floor
  {
    assert n as real <= span / cooldown by {
      assert (n as real * cooldown) / cooldown == n as real;
    }
  }

  // ---------- when fetches start ----------

  function ClockOf(act: Action): Option<real> {
    match act
    case Begin(_, clock) => Some(clock)
    case Acquire(_, clock) => Some(clock)
    case FetchEnds(_, _, clock) => Some(clock)
    case Cancel(_) => None
  }

  function Later(now: real, act: Action): real {
    if ClockOf(act).Some? then ClockOf(act).value else now
  }

  // The clock does not run backwards.
  ghost predicate Clocked(now: real, acts: seq<Action>)
    decreases |acts|
  {
    acts == [] || (now <= Later(now, acts[0]) && Clocked(Later(now, acts[0]), acts[1..]))
  }

  // Readings are taken before the lock is waited for, and fetches start after it.
  ghost predicate TimesOk(s: State, now: real) {
    && |s.starts| == |s.fetches|
    && (forall k :: 0 <= k < |s.starts| ==> s.fetches[k] <= s.starts[k] <= now)
    && (forall v :: v in s.verifications && v.Waiting? ==> v.now <= now)
  }

  lemma {:induction false} StepTimes(c: Config, s: State, act: Action, now: real)
    requires Enabled(s, act) && TimesOk(s, now) && now <= Later(now, act)
    ensures TimesOk(Step(c, s, act), Later(now, act))
  {
    if act.Begin? {
      BegunWaits(c, s, act.token, act.clock);
    } else if !act.Cancel? {
      assert s.verifications[act.i] in s.verifications;
    }
    hide Begun, Decode;
  }

  lemma BegunWaits(c: Config, s: State, token: Option<Token>, clock: real)
    ensures Begun(c, s, token, clock).Waiting? ==> Begun(c, s, token, clock).now == clock
  {
  }

  lemma {:induction false} RunTimes(c: Config, s: State, acts: seq<Action>, last: State, now: real) returns (end: real)
    requires Run(c, s, acts, last) && TimesOk(s, now) && Clocked(now, acts)
    ensures TimesOk(last, end)
    decreases |acts|
  {
    hide Step, Enabled, TimesOk;
    if acts == [] {
      end := now;
    } else {
      StepTimes(c, s, acts[0], now);
      end := RunTimes(c, Step(c, s, acts[0]), acts[1..], last, Later(now, acts[0]));
    }
  }

  function Waited(s: State, k: nat): real
    requires k < |s.starts| && k < |s.fetches|
  {
    s.starts[k] - s.fetches[k]
  }

  // Over every run: two fetches in a row start closer than the cooldown if and only if the
  // first waited for the lock longer than the second, by more than their readings are apart
  // beyond the cooldown. So never after a fetch that did not have to wait.
  lemma {:induction false} StartsAreCloseIff(c: Config, acts: seq<Action>, last: State, k: nat)
    requires Run(c, Start(), acts, last) && Clocked(0.0, acts) && k + 1 < |last.fetches|
    ensures |last.starts| == |last.fetches| && Waited(last, k) >= 0.0 && Waited(last, k + 1) >= 0.0
    ensures last.fetches[k + 1] - last.fetches[k] >= c.cooldown
    ensures last.starts[k + 1] - last.starts[k] < c.cooldown
            <==> Waited(last, k) - Waited(last, k + 1) > last.fetches[k + 1] - last.fetches[k] - c.cooldown
    ensures Waited(last, k) == 0.0 ==> last.starts[k + 1] - last.starts[k] >= c.cooldown
  {
    hide Run, VerificationOk, CacheOk;
    StartIsOk(c);
    EveryRunIsSafe(c, Start(), acts, last);
    var end := RunTimes(c, Start(), acts, last, 0.0);
  }

  lemma {:induction false} RunsOn(c: Config, s: State, acts: seq<Action>, mid: State, act: Action)
    requires Run(c, s, acts, mid) && Enabled(mid, act)
    ensures Run(c, s, acts + [act], Step(c, mid, act))
    decreases |acts|
  {
    hide Step, Enabled;
    if acts == [] {
      assert [act][1..] == [] && acts + [act] == [act];
    } else {
      RunsOn(c, Step(c, s, acts[0]), acts[1..], mid, act);
      assert (acts + [act])[1..] == acts[1..] + [act];
    }
  }

  lemma {:induction false} ClockedOn(now: real, acts: seq<Action>, end: real, act: Action)
    requires Clocked(now, acts) && LastClock(now, acts) == end && end <= Later(end, act)
    ensures Clocked(now, acts + [act]) && LastClock(now, acts + [act]) == Later(end, act)
    decreases |acts|
  {
    if acts == [] {
      assert [act][1..] == [] && acts + [act] == [act];
    } else {
      ClockedOn(Later(now, acts[0]), acts[1..], end, act);
      assert (acts + [act])[1..] == acts[1..] + [act];
    }
  }

  function LastClock(now: real, acts: seq<Action>): real
    decreases |acts|
  {
    if acts == [] then now else LastClock(Later(now, acts[0]), acts[1..])
  }

  // The n-th multiple of the cooldown.
  function Ticks(c: Config, n: nat): real {
    if n == 0 then 0.0 else Ticks(c, n - 1) + c.cooldown
  }

  // A cold cache and n verifications that begin a cooldown apart while the first one fetches.
  function Queue(c: Config, token: Token, kid: Kid, n: nat): seq<Verification> {
    seq(n, j requires 0 <= j < n => Waiting(token, kid, ColdStart, Ticks(c, j + 2)))
  }

  function Queued(c: Config, token: Token, kid: Kid, n: nat): State {
    State(map[], 0.0, c.cooldown, Some(0), [Fetching(token, kid, ColdStart)] + Queue(c, token, kid, n),
          [c.cooldown], [c.cooldown], [])
  }

  lemma TicksOne(c: Config)
    ensures Ticks(c, 1) == c.cooldown
  {
    assert Ticks(c, 0) == 0.0;
  }

  lemma {:induction false} FirstFetches(c: Config, token: Token, kid: Kid) returns (acts: seq<Action>)
    requires c.cooldown > 0.0 && c.crypto.header(token) == Some(Some(kid))
    ensures Run(c, Start(), acts, Queued(c, token, kid, 0))
    ensures Clocked(0.0, acts) && LastClock(0.0, acts) == Ticks(c, 1)
  {
    TicksOne(c);
    var begin, acquire := Begin(Some(token), c.cooldown), Acquire(0, c.cooldown);
    assert Run(c, Start(), [], Start()) && Clocked(0.0, []) && LastClock(0.0, []) == 0.0;
    hide Run, Clocked, LastClock;
    RunsOn(c, Start(), [], Start(), begin);
    ClockedOn(0.0, [], 0.0, begin);
    var begun := Step(c, Start(), begin);
    assert begun.verifications == [Waiting(token, kid, ColdStart, c.cooldown)];
    RunsOn(c, Start(), [] + [begin], begun, acquire);
    ClockedOn(0.0, [] + [begin], c.cooldown, acquire);
    assert Step(c, begun, acquire) == Queued(c, token, kid, 0);
    acts := [] + [begin] + [acquire];
  }

  lemma {:induction false} QueueFills(c: Config, token: Token, kid: Kid, n: nat) returns (acts: seq<Action>)
    requires c.cooldown > 0.0 && c.crypto.header(token) == Some(Some(kid))
    ensures Run(c, Start(), acts, Queued(c, token, kid, n))
    ensures Clocked(0.0, acts) && LastClock(0.0, acts) == Ticks(c, n + 1)
  {
    if n == 0 {
      acts := FirstFetches(c, token, kid);
    } else {
      hide Run, Clocked, LastClock;
      var before := QueueFills(c, token, kid, n - 1);
      var begin := Begin(Some(token), Ticks(c, n + 1));
      RunsOn(c, Start(), before, Queued(c, token, kid, n - 1), begin);
      ClockedOn(0.0, before, Ticks(c, n), begin);
      acts := before + [begin];
      var waiting := Waiting(token, kid, ColdStart, Ticks(c, n + 1));
      assert Queue(c, token, kid, n - 1) + [waiting] == Queue(c, token, kid, n);
      assert [Fetching(token, kid, ColdStart)] + Queue(c, token, kid, n - 1) + [waiting]
          == [Fetching(token, kid, ColdStart)] + (Queue(c, token, kid, n - 1) + [waiting]);
    }
  }

  // When that fetch fails at last, so do the others, one after the other.
  function Drained(c: Config, token: Token, kid: Kid, n: nat, m: nat, end: real): State
    requires m <= n
  {
    State(map[], 0.0, Ticks(c, m + 1), None,
          seq(m + 1, _ => Rejected(token, JwksUnavailable)) + Queue(c, token, kid, n)[m..],
          seq(m + 1, j requires 0 <= j < m + 1 => Ticks(c, j + 1)), [c.cooldown] + seq(m, _ => end), [])
  }

  lemma {:induction false} FirstFails(c: Config, token: Token, kid: Kid, n: nat, end: real)
    ensures Enabled(Queued(c, token, kid, n), FetchEnds(0, None, end))
    ensures Step(c, Queued(c, token, kid, n), FetchEnds(0, None, end)) == Drained(c, token, kid, n, 0, end)
  {
    TicksOne(c);
    var after := Step(c, Queued(c, token, kid, n), FetchEnds(0, None, end));
    assert after.verifications == Drained(c, token, kid, n, 0, end).verifications;
    assert after.fetches == Drained(c, token, kid, n, 0, end).fetches;
    assert after.starts == Drained(c, token, kid, n, 0, end).starts;
  }

  lemma {:induction false} NextFails(c: Config, token: Token, kid: Kid, n: nat, m: nat, end: real)
    requires m < n && c.cooldown > 0.0
    ensures Enabled(Drained(c, token, kid, n, m, end), Acquire(m + 1, end))
    ensures var fetching := Step(c, Drained(c, token, kid, n, m, end), Acquire(m + 1, end));
            && Enabled(fetching, FetchEnds(m + 1, None, end))
            && Step(c, fetching, FetchEnds(m + 1, None, end)) == Drained(c, token, kid, n, m + 1, end)
  {
    var before, next := Drained(c, token, kid, n, m, end), Drained(c, token, kid, n, m + 1, end);
    var v := Waiting(token, kid, ColdStart, Ticks(c, m + 2));
    assert before.verifications[m + 1] == Queue(c, token, kid, n)[m..][0] == Queue(c, token, kid, n)[m] == v;
    var fetching := Step(c, before, Acquire(m + 1, end));
    var after := Step(c, fetching, FetchEnds(m + 1, None, end));
    assert after.verifications == next.verifications;
    assert after.fetches == next.fetches;
    assert after.starts == next.starts;
  }

  // So for every n there is a run in which n fetches start at the same instant.
  lemma {:induction false} FetchesCanBurst(c: Config, token: Token, kid: Kid, n: nat) returns (acts: seq<Action>, last: State)
    requires c.cooldown > 0.0 && c.crypto.header(token) == Some(Some(kid))
    ensures Run(c, Start(), acts, last) && Clocked(0.0, acts)
    ensures last.starts == [c.cooldown] + seq(n, _ => Ticks(c, n + 1))
  {
    hide Run, Clocked, LastClock, Step, Enabled;
    var end := Ticks(c, n + 1);
    acts := QueueFills(c, token, kid, n);
    FirstFails(c, token, kid, n, end);
    RunsOn(c, Start(), acts, Queued(c, token, kid, n), FetchEnds(0, None, end));
    ClockedOn(0.0, acts, end, FetchEnds(0, None, end));
    acts := acts + [FetchEnds(0, None, end)];
    for m := 0 to n
      invariant Run(c, Start(), acts, Drained(c, token, kid, n, m, end))
      invariant Clocked(0.0, acts) && LastClock(0.0, acts) == end
    {
      NextFails(c, token, kid, n, m, end);
      var before := Drained(c, token, kid, n, m, end);
      RunsOn(c, Start(), acts, before, Acquire(m + 1, end));
      ClockedOn(0.0, acts, end, Acquire(m + 1, end));
      RunsOn(c, Start(), acts + [Acquire(m + 1, end)], Step(c, before, Acquire(m + 1, end)), FetchEnds(m + 1, None, end));
      ClockedOn(0.0, acts + [Acquire(m + 1, end)], end, FetchEnds(m + 1, None, end));
      acts := acts + [Acquire(m + 1, end)] + [FetchEnds(m + 1, None, end)];
    }
    last := Drained(c, token, kid, n, n, end);
  }

  // Until the clock has passed one cooldown nothing is fetched, so a cold cache rejects.
  lemma {:induction false} TooEarlyToFetch(c: Config, s: State, acts: seq<Action>, last: State)
    requires Inv(c, s) && s.fetches == [] && Run(c, s, acts, last)
    requires forall k :: 0 <= k < |acts| && acts[k].Begin? ==> acts[k].clock < c.cooldown
    requires forall k :: 0 <= k < |acts| && acts[k].Acquire? ==> acts[k].clock < c.cooldown
    requires forall v :: v in s.verifications && v.Waiting? ==> v.now < c.cooldown
    requires s.keys == map[] && s.lock.None?
    ensures last.fetches == [] && forall v :: v in last.verifications ==> !v.Accepted? || v in s.verifications
    decreases |acts|
  {
    hide Backed;
    if acts != [] {
      var act := acts[0];
      StepKeeps(c, s, act);
      var next := Step(c, s, act);
      NothingFetched(c, s, act);
      TooEarlyToFetch(c, next, acts[1..], last);
    }
  }

  lemma NothingFetched(c: Config, s: State, act: Action)
    requires Inv(c, s) && Enabled(s, act) && s.fetches == [] && s.keys == map[] && s.lock.None?
    requires act.Begin? || act.Acquire? ==> act.clock < c.cooldown
    requires forall v :: v in s.verifications && v.Waiting? ==> v.now < c.cooldown
    ensures var next := Step(c, s, act);
            && next.fetches == [] && next.keys == map[] && next.lock.None?
            && (forall v :: v in next.verifications && v.Waiting? ==> v.now < c.cooldown)
            && (forall v :: v in next.verifications && v.Accepted? ==> v in s.verifications)
  {
    if act.Acquire? {
      assert s.verifications[act.i] in s.verifications;
    }
  }
}
