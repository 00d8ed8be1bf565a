/**
 How the gateway accepts a signed request once (apps/query-gateway/src/nonce-store.ts and
 apps/query-gateway/src/auth.ts).  Hashing and signature verification are abstract predicates, and one
 clock reading serves a whole request.
 */
module ReplayDefence {
  import opened Options
  import opened Instants

  const SIGNATURE_LIFETIME_CEILING_MS := 300_000
  const SIGNATURE_SCHEME := "OA1-ED25519"
  const KEY_PREFIX := "oa:gw:nonce:"

  predicate Later(i: Instant, t: int) { i.At? && i.ms > t }

  predicate Past(i: Instant, t: int) { i.At? && i.ms <= t }

  // ----- the in-memory store -----

  type Seen = map<string, Instant>

  function Pruned(seen: Seen, now: int): Seen {
    map nonce | nonce in seen && !Past(seen[nonce], now) :: seen[nonce]
  }

  function Swept(seen: Seen, threshold: nat, now: int): Seen {
    if |seen| >= threshold then Pruned(seen, now) else seen
  }

  function Consumed(seen: Seen, threshold: nat, nonce: string, expiresAt: Instant, now: int): (Seen, bool) {
    var swept := Swept(seen, threshold, now);
    if nonce in swept && Later(swept[nonce], now) then (swept, false) else (swept[nonce := expiresAt], true)
  }

  class InMemoryNonceStore {
    var seen: Seen
    const pruneThreshold: nat

    constructor (pruneThreshold: nat)
      ensures seen == map[] && this.pruneThreshold == pruneThreshold
    {
      seen := map[];
      this.pruneThreshold := pruneThreshold;
    }

    method Consume(nonce: string, expiresAt: Instant, now: int) returns (unseen: bool)
      modifies this`seen
      ensures (seen, unseen) == Consumed(old(seen), pruneThreshold, nonce, expiresAt, now)
    {
      if |seen| >= pruneThreshold { Prune(now); }
      if nonce in seen && Later(seen[nonce], now) { return false; }
      seen := seen[nonce := expiresAt];
      unseen := true;
    }

    method Prune(now: int)
      modifies this`seen
      ensures seen == Pruned(old(seen), now)
    {
      var nonces := seen.Keys;
      while nonces != {}
        invariant nonces <= old(seen).Keys
        invariant forall n :: n in seen <==> n in old(seen) && (n in nonces || !Past(old(seen)[n], now))
        invariant forall n :: n in seen ==> seen[n] == old(seen)[n]
        decreases |nonces|
      {
        var nonce :| nonce in nonces;
        nonces := nonces - {nonce};
        if Past(seen[nonce], now) { seen := seen - {nonce}; }
      }
    }
  }

  // ----- the shared store -----

  /** Keys and the times they expire at. */
  type Shared = map<string, int>

  /** `SET key NX PX ttl`: atomic, and refused unless the lifetime is a positive number. */
  function SetNx(store: Shared, key: string, ttl: Instant, now: int): (Shared, Option<bool>) {
    if !ttl.At? || ttl.ms <= 0 then (store, None)
    else if key in store && now < store[key] then (store, Some(false))
    else (store[key := now + ttl.ms], Some(true))
  }

  function TtlOf(expiresAt: Instant, now: int): Instant {
    if expiresAt.NotADate? then NotADate
    else if expiresAt.ms - now > 1 then At(expiresAt.ms - now) else At(1)
  }

  function ConsumedShared(store: Shared, nonce: string, expiresAt: Instant, now: int): (Shared, Option<bool>) {
    SetNx(store, KEY_PREFIX + nonce, TtlOf(expiresAt, now), now)
  }

  // ----- verification -----

  datatype Failure =
    MISSING_SIGNATURE | MALFORMED_SIGNATURE | BAD_SIGNATURE | EXPIRED | WRONG_AUDIENCE | REPLAYED | BODY_MISMATCH

  /** A missing header reads as the empty string: the source treats both alike. */
  datatype Request = Request(
    signature: string, scheme: string, keyId: string, audience: string, issuedAt: string, expiresAt: string,
    nonce: string, bodySha256: string, httpMethod: string, path: string, body: string)

  /**
   `parse` pins the format and reads the instant (None: not in the format); `bodyMatches` compares the hash
   header with the body's hash; `verifies` checks the signature over the canonical string.
   */
  datatype Config = Config(
    audience: string, keyId: Option<string>, maxLifetimeMs: int, clockSkewMs: int, pruneThreshold: nat,
    parse: string -> Option<Instant>, bodyMatches: (string, string) -> bool, verifies: Request -> bool)

  datatype Verdict = Accepted | Refused(why: Failure) | StoreFailed

  function MaxLifetime(c: Config): int {
    if c.maxLifetimeMs < SIGNATURE_LIFETIME_CEILING_MS then c.maxLifetimeMs else SIGNATURE_LIFETIME_CEILING_MS
  }

  /** A window that runs backwards or too long; a comparison with a non-date is false. */
  predicate BadWindow(issuedAt: Instant, expiresAt: Instant, max: int) {
    issuedAt.At? && expiresAt.At? && (expiresAt.ms <= issuedAt.ms || expiresAt.ms - issuedAt.ms > max)
  }

  predicate HeadersPresent(r: Request) {
    && r.keyId != "" && r.audience != "" && r.issuedAt != "" && r.expiresAt != ""
    && r.nonce != "" && r.bodySha256 != ""
  }

  /** The first check a request fails, the nonce aside. */
  function Check(c: Config, r: Request, now: int): Option<Failure> {
    if r.signature == "" then Some(MISSING_SIGNATURE)
    else if r.scheme != SIGNATURE_SCHEME || !HeadersPresent(r) then Some(MALFORMED_SIGNATURE)
    else if r.audience != c.audience then Some(WRONG_AUDIENCE)
    else if c.parse(r.issuedAt).None? || c.parse(r.expiresAt).None? then Some(MALFORMED_SIGNATURE)
    else
      var issuedAt, expiresAt := c.parse(r.issuedAt).value, c.parse(r.expiresAt).value;
      if BadWindow(issuedAt, expiresAt, MaxLifetime(c)) then Some(MALFORMED_SIGNATURE)
      else if Past(expiresAt, now) then Some(EXPIRED)
      else if Later(issuedAt, now + c.clockSkewMs) then Some(EXPIRED)
      else if !c.bodyMatches(r.bodySha256, r.body) then Some(BODY_MISMATCH)
      else if c.keyId.Some? && r.keyId != c.keyId.value then Some(BAD_SIGNATURE)
      else if !c.verifies(r) then Some(BAD_SIGNATURE)
      else None
  }

  /** The expiry a request that passes the checks carries. */
  function Expiry(c: Config, r: Request): Instant {
    if c.parse(r.expiresAt).Some? then c.parse(r.expiresAt).value else NotADate
  }

  function Verify(c: Config, seen: Seen, r: Request, now: int): (Seen, Verdict) {
    match Check(c, r, now)
    case Some(f) => (seen, Refused(f))
    case None =>
      var (after, unseen) := Consumed(seen, c.pruneThreshold, r.nonce, Expiry(c, r), now);
      (after, if unseen then Accepted else Refused(REPLAYED))
  }

  function VerifyShared(c: Config, store: Shared, r: Request, now: int): (Shared, Verdict) {
    match Check(c, r, now)
    case Some(f) => (store, Refused(f))
    case None =>
      var (after, reply) := ConsumedShared(store, r.nonce, Expiry(c, r), now);
      (after, match reply
        case None => StoreFailed
        case Some(unseen) => if unseen then Accepted else Refused(REPLAYED))
  }

  class SignedRequestAuth {
    const config: Config
    const nonceStore: InMemoryNonceStore
    var signingKeyId: Option<string>

    constructor (config: Config)
      ensures this.config == config && fresh(nonceStore) && signingKeyId == None
      ensures nonceStore.seen == map[] && nonceStore.pruneThreshold == config.pruneThreshold
    {
      this.config := config;
      nonceStore := new InMemoryNonceStore(config.pruneThreshold);
      signingKeyId := None;
    }

    /** Guards in order, the nonce last; the key id is recorded for an accepted request only. */
    method Authenticate(r: Request, now: int) returns (verdict: Verdict)
      requires nonceStore.pruneThreshold == config.pruneThreshold
      modifies this`signingKeyId, nonceStore`seen
      ensures (nonceStore.seen, verdict) == Verify(config, old(nonceStore.seen), r, now)
      ensures signingKeyId == if verdict == Accepted then Some(r.keyId) else old(signingKeyId)
    {
      if r.signature == "" { return Refused(MISSING_SIGNATURE); }
      if r.scheme != SIGNATURE_SCHEME { return Refused(MALFORMED_SIGNATURE); }
      if !HeadersPresent(r) { return Refused(MALFORMED_SIGNATURE); }
      if r.audience != config.audience { return Refused(WRONG_AUDIENCE); }

      var issuedAt, expiresAt := config.parse(r.issuedAt), config.parse(r.expiresAt);
      if issuedAt.None? || expiresAt.None? { return Refused(MALFORMED_SIGNATURE); }
      if BadWindow(issuedAt.value, expiresAt.value, MaxLifetime(config)) { return Refused(MALFORMED_SIGNATURE); }
      if Past(expiresAt.value, now) { return Refused(EXPIRED); }
      if Later(issuedAt.value, now + config.clockSkewMs) { return Refused(EXPIRED); }

      if !config.bodyMatches(r.bodySha256, r.body) { return Refused(BODY_MISMATCH); }
      if config.keyId.Some? && r.keyId != config.keyId.value { return Refused(BAD_SIGNATURE); }
      if !config.verifies(r) { return Refused(BAD_SIGNATURE); }

      var unseen := nonceStore.Consume(r.nonce, expiresAt.value, now);
      if !unseen { return Refused(REPLAYED); }
      signingKeyId := Some(r.keyId);
      verdict := Accepted;
    }
  }

  // ----- runs -----

  datatype Attempt = Attempt(r: Request, now: int)

  predicate InOrder(run: seq<Attempt>) {
    forall i, j :: 0 <= i < j < |run| ==> run[i].now <= run[j].now
  }

  function After(c: Config, run: seq<Attempt>): Seen {
    if run == [] then map[]
    else Verify(c, After(c, run[..|run|-1]), run[|run|-1].r, run[|run|-1].now).0
  }

  function AfterShared(c: Config, run: seq<Attempt>): Shared {
    if run == [] then map[]
    else VerifyShared(c, AfterShared(c, run[..|run|-1]), run[|run|-1].r, run[|run|-1].now).0
  }

  function VerdictOf(c: Config, run: seq<Attempt>, i: nat): Verdict
    requires i < |run|
  {
    Verify(c, After(c, run[..i]), run[i].r, run[i].now).1
  }

  function SharedVerdictOf(c: Config, run: seq<Attempt>, i: nat): Verdict
    requires i < |run|
  {
    VerifyShared(c, AfterShared(c, run[..i]), run[i].r, run[i].now).1
  }

  // ----- what pruning forgets -----

  /** Some signature carrying `nonce` with the recorded expiry could still verify at `t`. */
  predicate Remembered(seen: Seen, nonce: string, t: int) { nonce in seen && Later(seen[nonce], t) }

  /** Pruning forgets only what no check at this time or later would find. */
  lemma {:induction false} PruningForgetsOnlyTheDead(seen: Seen, nonce: string, now: int, t: int)
    requires now <= t
    ensures Remembered(Pruned(seen, now), nonce, t) <==> Remembered(seen, nonce, t)
    ensures Remembered(seen, nonce, t) ==> Pruned(seen, now)[nonce] == seen[nonce]
    ensures nonce in seen && seen[nonce].At? && nonce !in Pruned(seen, now) ==> seen[nonce].ms <= t
  {
  }

  // ----- no replay -----

  /** A remembered nonce is refused and stays remembered, whatever else arrives. */
  lemma StepRemembers(c: Config, seen: Seen, a: Attempt, nonce: string, expiry: int)
    requires nonce in seen && seen[nonce] == At(expiry) && a.now < expiry
    ensures
      var (after, verdict) := Verify(c, seen, a.r, a.now);
      && nonce in after && after[nonce] == At(expiry)
      && (a.r.nonce == nonce ==> verdict != Accepted)
  {
  }

  lemma {:induction false} RunRemembers(c: Config, run: seq<Attempt>, i: nat, j: nat, expiry: int)
    requires InOrder(run) && i < j < |run| && run[j].now < expiry
    requires VerdictOf(c, run, i) == Accepted && Expiry(c, run[i].r) == At(expiry)
    ensures
      var seen := After(c, run[..j]);
      run[i].r.nonce in seen && seen[run[i].r.nonce] == At(expiry)
    decreases j
  {
    assert run[..j][..j-1] == run[..j-1];
    if i < j - 1 {
      RunRemembers(c, run, i, j - 1, expiry);
      StepRemembers(c, After(c, run[..j-1]), run[j-1], run[i].r.nonce, expiry);
    }
  }

  /** No replay: a nonce accepted with a date is not accepted again before that date. */
  lemma {:induction false} NonceUsedOnce(c: Config, run: seq<Attempt>, i: nat, j: nat)
    requires InOrder(run) && i < j < |run| && run[i].r.nonce == run[j].r.nonce
    requires VerdictOf(c, run, i) == Accepted && VerdictOf(c, run, j) == Accepted
    ensures !Later(Expiry(c, run[i].r), run[j].now)
  {
    var e := Expiry(c, run[i].r);
    if Later(e, run[j].now) {
      RunRemembers(c, run, i, j, e.ms);
      StepRemembers(c, After(c, run[..j]), run[j], run[i].r.nonce, e.ms);
    }
  }

  /** An undated entry is never remembered, and never swept either. */
  lemma {:induction false} UndatedIsNeverRemembered(c: Config, run: seq<Attempt>, i: nat, j: nat)
    requires i < j <= |run| && VerdictOf(c, run, i) == Accepted && Expiry(c, run[i].r) == NotADate
    requires forall k :: i < k < j ==> run[k].r.nonce != run[i].r.nonce
    ensures
      var seen, nonce := After(c, run[..j]), run[i].r.nonce;
      nonce in seen && seen[nonce] == NotADate
    decreases j
  {
    assert run[..j][..j-1] == run[..j-1];
    if i < j - 1 { UndatedIsNeverRemembered(c, run, i, j - 1); }
  }

  /**
   The same signed request, sent again with no other use of its nonce in between, is accepted a second time
   exactly when its expiry is not a date.
   */
  lemma {:induction false} ReplayedExactlyWhenUndated(c: Config, run: seq<Attempt>, i: nat, j: nat)
    requires InOrder(run) && i < j < |run| && run[i].r == run[j].r && VerdictOf(c, run, i) == Accepted
    requires forall k :: i < k < j ==> run[k].r.nonce != run[i].r.nonce
    ensures VerdictOf(c, run, j) == Accepted <==> Expiry(c, run[i].r) == NotADate
  {
    if Expiry(c, run[i].r) == NotADate {
      UndatedIsNeverRemembered(c, run, i, j);
    } else if VerdictOf(c, run, j) == Accepted {
      NonceUsedOnce(c, run, i, j);
    }
  }

  /** A dated request is accepted at most once in any run, whatever else the run does. */
  lemma {:induction false} AcceptedAtMostOnce(c: Config, run: seq<Attempt>, i: nat, j: nat)
    requires InOrder(run) && i < j < |run| && run[i].r == run[j].r && Expiry(c, run[i].r).At?
    ensures VerdictOf(c, run, i) != Accepted || VerdictOf(c, run, j) != Accepted
  {
    if VerdictOf(c, run, i) == Accepted && VerdictOf(c, run, j) == Accepted { NonceUsedOnce(c, run, i, j); }
  }

  /** A verifier that trusts every signature, with the real reading of instants. */
  function Trusting(): Config {
    Config("gateway", None, 60_000, 5_000, 10_000, s => ParseInstant(s), (hash, body) => true, _ => true)
  }

  function Stamped(issuedAt: string, expiresAt: string): Request {
    Request("s", SIGNATURE_SCHEME, "k", "gateway", issuedAt, expiresAt, "n", "h", "POST", "/", "")
  }

  /** A thirteenth month is such an expiry: the request is accepted whenever it is sent again. */
  lemma {:induction false} UndatedExample()
    ensures
      var c, r := Trusting(), Stamped(THIRTEENTH_MONTH, THIRTEENTH_MONTH);
      && Expiry(c, r) == NotADate
      && forall t, u :: VerdictOf(c, [Attempt(r, t), Attempt(r, u)], 1) == Accepted
  {
    ThirteenthMonth();
    UndatedTwice(THIRTEENTH_MONTH);
  }

  lemma UndatedTwice(text: string)
    requires text != "" && ParseInstant(text) == Some(NotADate)
    ensures
      var c, r := Trusting(), Stamped(text, text);
      && Expiry(c, r) == NotADate
      && forall t, u :: VerdictOf(c, [Attempt(r, t), Attempt(r, u)], 1) == Accepted
  {
    var c, r := Trusting(), Stamped(text, text);
    assert c.parse(text) == Some(NotADate);
    forall t, u ensures VerdictOf(c, [Attempt(r, t), Attempt(r, u)], 1) == Accepted {
      var run := [Attempt(r, t), Attempt(r, u)];
      assert run[..1] == [Attempt(r, t)] && run[..1][..0] == [];
      assert Check(c, r, t) == None && Check(c, r, u) == None;
      assert After(c, run[..1]) == Verify(c, map[], r, t).0;
    }
  }

  // ----- the lifetime ceiling -----

  /** The time checks alone. */
  predicate InTime(c: Config, issuedAt: Instant, expiresAt: Instant, now: int) {
    && !BadWindow(issuedAt, expiresAt, MaxLifetime(c))
    && !Past(expiresAt, now) && !Later(issuedAt, now + c.clockSkewMs)
  }

  /** An accepted request was in time, and between two dates its window is positive and within the ceiling. */
  lemma {:induction false} AcceptedWithinCeiling(c: Config, run: seq<Attempt>, i: nat)
    requires i < |run| && VerdictOf(c, run, i) == Accepted
    ensures
      var r, now := run[i].r, run[i].now;
      && c.parse(r.issuedAt).Some? && c.parse(r.expiresAt).Some?
      && InTime(c, c.parse(r.issuedAt).value, c.parse(r.expiresAt).value, now)
      && (c.parse(r.issuedAt).value.At? && c.parse(r.expiresAt).value.At? ==>
            var issued, expires := c.parse(r.issuedAt).value.ms, c.parse(r.expiresAt).value.ms;
            && 0 < expires - issued <= MaxLifetime(c) <= SIGNATURE_LIFETIME_CEILING_MS
            && issued - c.clockSkewMs <= now < expires)
  {
  }

  /** Any two moments at which the window is in time are less than the lifetime and the skew apart. */
  ghost predicate LifetimeBounded(c: Config, issuedAt: Instant, expiresAt: Instant) {
    forall t, u :: InTime(c, issuedAt, expiresAt, t) && InTime(c, issuedAt, expiresAt, u) ==>
      u - t < MaxLifetime(c) + c.clockSkewMs
  }

  /** A window that is ever in time is bounded by the ceiling exactly when both its ends are dates. */
  lemma {:induction false} CeilingHoldsExactlyWhenDated(c: Config, issuedAt: Instant, expiresAt: Instant, now: int)
    requires InTime(c, issuedAt, expiresAt, now)
    ensures LifetimeBounded(c, issuedAt, expiresAt) <==> issuedAt.At? && expiresAt.At?
  {
    var span := MaxLifetime(c) + c.clockSkewMs;
    var far := if span < 0 then 0 else span;
    if issuedAt.NotADate? {
      assert InTime(c, issuedAt, expiresAt, now - far);
    } else if expiresAt.NotADate? {
      assert InTime(c, issuedAt, expiresAt, now + far);
    }
  }

  /** With no date for its start, a signature is in time from the beginning of time to the end of its year 9999. */
  lemma {:induction false} UndatedStartExample(now: int)
    requires now < LAST_SECOND_MS
    ensures
      var c, r := Trusting(), Stamped(THIRTEENTH_MONTH, LAST_SECOND);
      Expiry(c, r) == At(LAST_SECOND_MS) && VerdictOf(c, [Attempt(r, now)], 0) == Accepted
  {
    ThirteenthMonth();
    LastSecond();
    UndatedStart(THIRTEENTH_MONTH, LAST_SECOND, LAST_SECOND_MS, now);
  }

  lemma UndatedStart(issuedAt: string, expiresAt: string, expires: int, now: int)
    requires issuedAt != "" && expiresAt != "" && now < expires
    requires ParseInstant(issuedAt) == Some(NotADate) && ParseInstant(expiresAt) == Some(At(expires))
    ensures
      var c, r := Trusting(), Stamped(issuedAt, expiresAt);
      Expiry(c, r) == At(expires) && VerdictOf(c, [Attempt(r, now)], 0) == Accepted
  {
    var c, r := Trusting(), Stamped(issuedAt, expiresAt);
    assert c.parse(issuedAt) == Some(NotADate) && c.parse(expiresAt) == Some(At(expires));
    assert [Attempt(r, now)][..0] == [];
    assert Check(c, r, now) == None;
  }

  // ----- who is accepted -----

  predicate Shaped(r: Request) {
    && r.scheme == "OA1-ED25519" && r.keyId != "" && r.audience != "" && r.issuedAt != "" && r.expiresAt != ""
    && r.nonce != "" && r.bodySha256 != ""
  }

  /** Everything a request has to show, the times and the nonce aside. */
  predicate Genuine(c: Config, r: Request) {
    && r.signature != "" && Shaped(r) && r.audience == c.audience && (c.keyId.Some? ==> r.keyId == c.keyId.value)
    && c.bodyMatches(r.bodySha256, r.body) && c.verifies(r)
  }

  /** Both ends are in the format, and two dates are in order and close enough. */
  predicate Windowed(c: Config, r: Request) {
    && c.parse(r.issuedAt).Some? && c.parse(r.expiresAt).Some?
    && var issued, expires := c.parse(r.issuedAt).value, c.parse(r.expiresAt).value;
    issued.At? && expires.At? ==>
      0 < expires.ms - issued.ms <= c.maxLifetimeMs && expires.ms - issued.ms <= 300_000
  }

  /** What dates the ends are allow the moment. */
  predicate Timely(c: Config, r: Request, now: int) {
    && Windowed(c, r)
    && var issued, expires := c.parse(r.issuedAt).value, c.parse(r.expiresAt).value;
    (expires.At? ==> now < expires.ms) && (issued.At? ==> issued.ms <= now + c.clockSkewMs)
  }

  lemma CheckIs(c: Config, r: Request, now: int)
    ensures Check(c, r, now) == None <==> Genuine(c, r) && Timely(c, r, now)
  {
  }

  /** An earlier request of the run was accepted with this nonce, and its signature lives beyond `now`. */
  ghost predicate UsedBefore(c: Config, run: seq<Attempt>, i: nat, nonce: string, now: int)
    requires i <= |run|
  {
    exists k :: 0 <= k < i && Spends(c, run, k, nonce, now)
  }

  predicate Spends(c: Config, run: seq<Attempt>, k: nat, nonce: string, now: int)
    requires k < |run|
  {
    && run[k].r.nonce == nonce && VerdictOf(c, run, k) == Accepted
    && c.parse(run[k].r.expiresAt).Some? && c.parse(run[k].r.expiresAt).value.At?
    && now < c.parse(run[k].r.expiresAt).value.ms
  }

  lemma {:induction false} RememberedWasUsed(c: Config, run: seq<Attempt>, i: nat, nonce: string, now: int)
    requires i <= |run| && Remembered(After(c, run[..i]), nonce, now)
    ensures UsedBefore(c, run, i, nonce, now)
  {
    var j := i - 1;
    assert run[..i][..j] == run[..j];
    var seen, a := After(c, run[..j]), run[j];
    if VerdictOf(c, run, j) == Accepted && a.r.nonce == nonce {
      CheckIs(c, a.r, a.now);
      assert Spends(c, run, j, nonce, now);
    } else {
      RememberedWasUsed(c, run, j, nonce, now);
    }
  }

  lemma UsedIsRemembered(c: Config, run: seq<Attempt>, i: nat, nonce: string)
    requires InOrder(run) && i < |run| && UsedBefore(c, run, i, nonce, run[i].now)
    ensures Remembered(After(c, run[..i]), nonce, run[i].now)
  {
    var k :| 0 <= k < i && Spends(c, run, k, nonce, run[i].now);
    RunRemembers(c, run, k, i, c.parse(run[k].r.expiresAt).value.ms);
  }

  /**
   Who is accepted, in any run: exactly the requests that show everything (the signature, the body's hash, the
   audience and the key among it), at a moment their dates allow, with a nonce no accepted request used whose own
   signature is still alive.
   */
  lemma {:induction false} AcceptedExactly(c: Config, run: seq<Attempt>, i: nat)
    requires InOrder(run) && i < |run|
    ensures
      var r, now := run[i].r, run[i].now;
      VerdictOf(c, run, i) == Accepted <==>
        Genuine(c, r) && Timely(c, r, now) && !UsedBefore(c, run, i, r.nonce, now)
  {
    var r, now, seen := run[i].r, run[i].now, After(c, run[..i]);
    CheckIs(c, r, now);
    PruningForgetsOnlyTheDead(seen, r.nonce, now, now);
    if Remembered(seen, r.nonce, now) {
      RememberedWasUsed(c, run, i, r.nonce, now);
    } else if UsedBefore(c, run, i, r.nonce, now) {
      UsedIsRemembered(c, run, i, r.nonce);
    }
  }

  /** What a refusal says: the first thing missing, a replay only of a request that shows everything else. */
  lemma {:induction false} RefusedBecause(c: Config, run: seq<Attempt>, i: nat)
    requires InOrder(run) && i < |run|
    ensures
      var r, now, v := run[i].r, run[i].now, VerdictOf(c, run, i);
      var addressed := r.signature != "" && Shaped(r) && r.audience == c.audience;
      && (v == Refused(MISSING_SIGNATURE) <==> r.signature == "")
      && (v == Refused(WRONG_AUDIENCE) <==> r.signature != "" && Shaped(r) && r.audience != c.audience)
      && (v == Refused(MALFORMED_SIGNATURE) <==> (r.signature != "" && !Shaped(r)) || (addressed && !Windowed(c, r)))
      && (v == Refused(EXPIRED) <==> addressed && Windowed(c, r) && !Timely(c, r, now))
      && var bound := c.bodyMatches(r.bodySha256, r.body);
      && (v == Refused(BODY_MISMATCH) <==> addressed && Timely(c, r, now) && !bound)
      && (v == Refused(BAD_SIGNATURE) <==> addressed && Timely(c, r, now) && bound && !Genuine(c, r))
      && (v == Refused(REPLAYED) <==> Genuine(c, r) && Timely(c, r, now) && UsedBefore(c, run, i, r.nonce, now))
      && v != StoreFailed
  {
    AcceptedExactly(c, run, i);
    CheckIs(c, run[i].r, run[i].now);
  }

  // ----- only verified requests reach the store -----

  /** The attempts whose signature verifies. */
  function Verified(c: Config, run: seq<Attempt>): seq<Attempt> {
    if run == [] then []
    else
      var last := run[|run|-1];
      Verified(c, run[..|run|-1]) + (if c.verifies(last.r) then [last] else [])
  }

  /** A forged request neither fills the store nor burns a nonce: leaving such requests out changes nothing. */
  lemma {:induction false} ForgeriesLeaveNoTrace(c: Config, run: seq<Attempt>)
    ensures After(c, run) == After(c, Verified(c, run))
  {
    if run != [] {
      var init, last := run[..|run|-1], run[|run|-1];
      ForgeriesLeaveNoTrace(c, init);
      CheckIs(c, last.r, last.now);
      if c.verifies(last.r) {
        assert (Verified(c, init) + [last])[..|Verified(c, init)|] == Verified(c, init);
      } else {
        assert Verified(c, run) == Verified(c, init);
      }
    }
  }

  /** A store at its threshold keeps no entry that is past, beside the one being added. */
  lemma {:induction false} FullStoreIsSwept(c: Config, seen: Seen, r: Request, now: int, nonce: string)
    requires |seen| >= c.pruneThreshold && Genuine(c, r) && Timely(c, r, now)
    ensures
      var (after, _) := Verify(c, seen, r, now);
      nonce in after && nonce != r.nonce ==> nonce in seen && (seen[nonce].At? ==> now < seen[nonce].ms)
  {
    CheckIs(c, r, now);
  }

  // ----- the two stores -----

  predicate Alive(store: Shared, nonce: string, t: int) {
    KEY_PREFIX + nonce in store && t < store[KEY_PREFIX + nonce]
  }

  /** From `now` on, the stores remember the same nonces. */
  ghost predicate Agree(seen: Seen, store: Shared, now: int) {
    forall nonce, t :: now <= t ==> (Remembered(seen, nonce, t) <==> Alive(store, nonce, t))
  }

  /** Requests that get as far as the store carry a date. */
  predicate Dated(c: Config, a: Attempt) {
    Check(c, a.r, a.now).None? ==> Expiry(c, a.r).At?
  }

  lemma PrefixInjective(m: string, n: string)
    requires KEY_PREFIX + m == KEY_PREFIX + n
    ensures m == n
  {
    assert (KEY_PREFIX + m)[|KEY_PREFIX|..] == m && (KEY_PREFIX + n)[|KEY_PREFIX|..] == n;
  }

  lemma ConsumeAgrees(seen: Seen, store: Shared, threshold: nat, nonce: string, expiry: int, now: int)
    requires Agree(seen, store, now) && now < expiry
    ensures
      var (seen', unseen) := Consumed(seen, threshold, nonce, At(expiry), now);
      var (store', reply) := ConsumedShared(store, nonce, At(expiry), now);
      Agree(seen', store', now) && reply == Some(unseen)
  {
    var (seen', unseen) := Consumed(seen, threshold, nonce, At(expiry), now);
    var (store', reply) := ConsumedShared(store, nonce, At(expiry), now);
    var swept := Swept(seen, threshold, now);
    forall n, t | now <= t ensures Remembered(swept, n, t) <==> Alive(store, n, t) {
      PruningForgetsOnlyTheDead(seen, n, now, t);
    }
    assert Remembered(swept, nonce, now) <==> Alive(store, nonce, now);
    forall n, t | now <= t ensures Remembered(seen', n, t) <==> Alive(store', n, t) {
      assert Remembered(swept, n, t) <==> Alive(store, n, t);
      if KEY_PREFIX + n == KEY_PREFIX + nonce { PrefixInjective(n, nonce); }
    }
  }

  lemma StepAgrees(c: Config, seen: Seen, store: Shared, a: Attempt)
    requires Agree(seen, store, a.now)
    ensures Dated(c, a) ==>
      Agree(Verify(c, seen, a.r, a.now).0, VerifyShared(c, store, a.r, a.now).0, a.now)
    ensures Dated(c, a) <==> Verify(c, seen, a.r, a.now).1 == VerifyShared(c, store, a.r, a.now).1
  {
    if Check(c, a.r, a.now).None? && Expiry(c, a.r).At? {
      ConsumeAgrees(seen, store, c.pruneThreshold, a.r.nonce, Expiry(c, a.r).ms, a.now);
    }
  }

  lemma {:induction false} RunAgrees(c: Config, run: seq<Attempt>, now: int)
    requires InOrder(run) && (run != [] ==> run[|run|-1].now <= now)
    requires forall k :: 0 <= k < |run| ==> Dated(c, run[k])
    ensures Agree(After(c, run), AfterShared(c, run), now)
  {
    if run != [] {
      var last := run[|run|-1];
      RunAgrees(c, run[..|run|-1], last.now);
      StepAgrees(c, After(c, run[..|run|-1]), AfterShared(c, run[..|run|-1]), last);
    }
  }

  /**
   The shared store refines the in-memory one: over a whole run the verdicts are the same exactly when every
   request that reaches the store carries a date (an undated one is an error to `SET`).
   */
  lemma {:induction false} StoresAgreeExactly(c: Config, run: seq<Attempt>)
    requires InOrder(run)
    ensures (forall i :: 0 <= i < |run| ==> VerdictOf(c, run, i) == SharedVerdictOf(c, run, i))
       <==> (forall i :: 0 <= i < |run| ==> Dated(c, run[i]))
  {
    if forall i :: 0 <= i < |run| ==> Dated(c, run[i]) {
      forall i | 0 <= i < |run| ensures VerdictOf(c, run, i) == SharedVerdictOf(c, run, i) {
        RunAgrees(c, run[..i], run[i].now);
        StepAgrees(c, After(c, run[..i]), AfterShared(c, run[..i]), run[i]);
      }
    }
    forall i | 0 <= i < |run| && !Dated(c, run[i])
      ensures VerdictOf(c, run, i) != SharedVerdictOf(c, run, i)
    {
    }
  }
}
