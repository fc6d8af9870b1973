/**
 The attestation that the issuer signs and the client verifies.

 Instants are nanoseconds since 1970-01-01T00:00:00Z. A formatted RFC 3339 date-time (section 5.6 of
 RFC 3339) is modelled by the instant it denotes, since parsing undoes formatting; `None` stands for
 text that does not parse. Signatures are ideal: a signature is the key together with what was signed.
 */
module Attestation {
  import opened Wrappers

  const SECOND: int := 1_000_000_000

  /** 9999-12-31T23:59:59.999999999Z, the last instant that the date type can hold in UTC. */
  const LAST_INSTANT: int := 253_402_300_800 * SECOND - 1

  /** 0000-01-01T00:00:00Z, the first instant that RFC 3339 can write in UTC. */
  const FIRST_WRITABLE: int := -62_167_219_200 * SECOND

  const MAX_I64: int := 0x7FFF_FFFF_FFFF_FFFF
  const MAX_U64: int := 0xFFFF_FFFF_FFFF_FFFF

  type U64 = x: int | 0 <= x <= 0xFFFF_FFFF_FFFF_FFFF

  datatype Claims = Claims(messageKind: string, binding: string, workUnit: string, issuer: string, audience: string)

  datatype Payload = Payload(claims: Claims, issuedAt: Option<int>, expiresAt: Option<int>)

  datatype Signature = Signed(key: string, payload: Payload) | NoSignature

  datatype SignedAttestation = SignedAttestation(
    payload: Payload, keyId: string, algorithm: string, signature: Signature)

  datatype Identity =
    | Text(text: string)
    | OfClaims(claims: Claims)
    | OfRequest(request: RequestBody)
    | OfResponse(response: ResponseBody)

  datatype RequestBody = RequestBody(
    claims: Claims, claimsIdentity: Identity, requestedSeconds: U64,
    producerBinding: string, launcherService: string, launcherConfiguration: string,
    launcherExecutable: string, launcherProfile: string, audience: string, wellFormed: bool)
  datatype Request = Request(identity: Identity, body: RequestBody)

  datatype ResponseBody = ResponseBody(
    requestIdentity: Identity, claimsIdentity: Identity, attestation: SignedAttestation, wellFormed: bool)
  datatype Response = Response(identity: Identity, body: ResponseBody)

  datatype Binding = Binding(
    identity: string, launcherService: string, launcherConfiguration: string,
    launcherExecutable: string, launcherProfile: string, issuer: string, audience: string,
    keyId: string, publicKey: string, keyNotBefore: Option<int>, keyNotAfter: Option<int>,
    maximumAge: U64, verifierAge: U64)

  datatype Error = InvalidRequest | InvalidFreshness | ConfigMalformed

  type Result<+T> = Wrappers.Result<T, Error>

  // ---------------------------------------------------------------- the issuer

  /** `replace_nanosecond(0)` */
  function ToSecond(t: int): int { t - t % SECOND }

  predicate FitsI64(x: int) { x <= MAX_I64 }

  /** `checked_add` of a whole number of seconds */
  function CheckedAdd(t: int, seconds: int): Option<int> {
    if t + seconds * SECOND <= LAST_INSTANT then Some(t + seconds * SECOND) else None
  }

  function Format(t: int): Option<int> { if t >= FIRST_WRITABLE then Some(t) else None }

  function Min(a: int, b: int): int { if b < a then b else a }

  function Max(a: int, b: int): int { if a < b then b else a }

  predicate ValidRequest(binding: Binding, request: Request) {
    var b := request.body;
    && b.wellFormed && request.identity == OfRequest(b) && b.claimsIdentity == OfClaims(b.claims)
    && b.producerBinding == binding.identity
    && b.launcherService == binding.launcherService
    && b.launcherConfiguration == binding.launcherConfiguration
    && b.launcherExecutable == binding.launcherExecutable
    && b.launcherProfile == binding.launcherProfile
    && b.audience == binding.audience
    && b.claims.issuer == binding.issuer
    && b.claims.audience == binding.audience
  }

  /** The freshness window that `issue` computes: when the attestation is issued and when it expires. */
  function Window(binding: Binding, requested: U64, clock: int): Result<(int, int)> {
    if binding.keyNotBefore.None? || binding.keyNotAfter.None? then Err(ConfigMalformed)
    else
      var now := ToSecond(clock);
      var notAfter := binding.keyNotAfter.value;
      if now < binding.keyNotBefore.value || now >= notAfter then Err(InvalidFreshness)
      else if !FitsI64(requested) || !FitsI64(binding.maximumAge) || !FitsI64(binding.verifierAge) then
        Err(InvalidFreshness)
      else
        var a, b, c := CheckedAdd(now, requested), CheckedAdd(now, binding.maximumAge),
          CheckedAdd(now, binding.verifierAge);
        if a.None? || b.None? || c.None? then Err(InvalidFreshness)
        else
          var expires := Min(Min(Min(a.value, b.value), c.value), notAfter);
          if expires <= now then Err(InvalidFreshness) else Ok((now, expires))
  }

  /** `wellFormed` is the protocol library's verdict on the finished response. */
  function Issue(binding: Binding, key: string, request: Request, clock: int, wellFormed: bool): Result<Response> {
    if !ValidRequest(binding, request) then Err(InvalidRequest)
    else
      var window := Window(binding, request.body.requestedSeconds, clock);
      if window.Err? then Err(window.error)
      else
        var issuedAt, expiresAt := Format(window.value.0), Format(window.value.1);
        if issuedAt.None? || expiresAt.None? then Err(InvalidFreshness)
        else
          var payload := Payload(request.body.claims, issuedAt, expiresAt);
          var attestation := SignedAttestation(payload, binding.keyId, "ed25519", Signed(key, payload));
          if OfClaims(attestation.payload.claims) != request.body.claimsIdentity || !wellFormed then Err(InvalidRequest)
          else
            var body := ResponseBody(request.identity, request.body.claimsIdentity, attestation, true);
            Ok(Response(OfResponse(body), body))
  }

  // ---------------------------------------------------------------- the verifier

  /** `as i64` on an unsigned number: the upper half wraps to the negative numbers. */
  function AsI64(x: U64): int { if x <= MAX_I64 then x else x - MAX_U64 - 1 }

  predicate VerifyResponse(binding: Binding, request: Request, response: Response, clock: int) {
    var body := response.body;
    var payload := body.attestation.payload;
    && body.wellFormed && response.identity == OfResponse(body)
    && body.requestIdentity == request.identity
    && body.claimsIdentity == request.body.claimsIdentity
    && payload.claims == request.body.claims
    && OfClaims(payload.claims) == request.body.claimsIdentity
    && body.attestation.keyId == binding.keyId
    && body.attestation.algorithm == "ed25519"
    && payload.claims.issuer == binding.issuer
    && payload.claims.audience == binding.audience
    && payload.issuedAt.Some? && payload.expiresAt.Some?
    && binding.keyNotBefore.Some? && binding.keyNotAfter.Some?
    && var issued, expires := payload.issuedAt.value, payload.expiresAt.value;
    && var maximumAge: U64 := Min(Min(binding.maximumAge, binding.verifierAge), request.body.requestedSeconds);
    && issued >= binding.keyNotBefore.value
    && expires <= binding.keyNotAfter.value
    && issued <= clock
    && expires > clock
    && expires > issued
    && expires - issued <= AsI64(maximumAge) * SECOND
    && body.attestation.signature == Signed(binding.publicKey, payload)
  }

  // ---------------------------------------------------------------- agreement

  /** When exactly there is a window, and what it is: as long as every limit allows, and no longer. */
  lemma WindowIsExact(binding: Binding, requested: U64, clock: int)
    requires binding.keyNotBefore.Some? && binding.keyNotAfter.Some?
    ensures var w := Window(binding, requested, clock);
            var least := Min(Min(requested, binding.maximumAge), binding.verifierAge);
            var greatest := Max(Max(requested, binding.maximumAge), binding.verifierAge);
            && (w.Ok? <==>
                  && binding.keyNotBefore.value <= ToSecond(clock) < binding.keyNotAfter.value
                  && 0 < least && greatest <= MAX_I64
                  && ToSecond(clock) + greatest * SECOND <= LAST_INSTANT)
            && (w.Ok? ==>
                  && w.value.0 == ToSecond(clock)
                  && w.value.1 == Min(w.value.0 + least * SECOND, binding.keyNotAfter.value))
  {
  }

  lemma TruncationIsSmall(clock: int)
    ensures ToSecond(clock) <= clock < ToSecond(clock) + SECOND
    ensures ToSecond(clock) % SECOND == 0
  {
  }

  /**
   Producer and verifier agree: what is issued at `clock` is accepted at an instant exactly when that
   instant lies in the signed window, so at every instant from `clock` until it expires and at none after.
   */
  lemma ProducerAndVerifierAgree(binding: Binding, request: Request, clock: int, at: int)
    requires Issue(binding, binding.publicKey, request, clock, true).Ok?
    ensures var response := Issue(binding, binding.publicKey, request, clock, true).value;
            var payload := response.body.attestation.payload;
            && payload.issuedAt.Some? && payload.expiresAt.Some?
            && var issued, expires := payload.issuedAt.value, payload.expiresAt.value;
            && (VerifyResponse(binding, request, response, at) <==> issued <= at < expires)
            && (clock <= at < expires ==> VerifyResponse(binding, request, response, at))
            && (at >= expires ==> !VerifyResponse(binding, request, response, at))
            && issued <= clock < issued + SECOND
  {
    TruncationIsSmall(clock);
    WindowIsExact(binding, request.body.requestedSeconds, clock);
  }

  /** Whatever the verifier accepts, from whatever issuer: never older than the limits, never beyond the key. */
  lemma LifetimeIsBounded(binding: Binding, request: Request, response: Response, at: int)
    requires VerifyResponse(binding, request, response, at)
    ensures var payload := response.body.attestation.payload;
            && payload.issuedAt.Some? && payload.expiresAt.Some?
            && binding.keyNotBefore.Some? && binding.keyNotAfter.Some?
            && var issued, expires := payload.issuedAt.value, payload.expiresAt.value;
            && binding.keyNotBefore.value <= issued <= at < expires <= binding.keyNotAfter.value
            && expires - issued <= request.body.requestedSeconds * SECOND
            && expires - issued <= binding.maximumAge * SECOND
            && expires - issued <= binding.verifierAge * SECOND
  {
  }

  /** The one response that carries this window for this request, signed with this key. */
  function Sealed(binding: Binding, key: string, request: Request, issued: int, expires: int): Response {
    var payload := Payload(request.body.claims, Some(issued), Some(expires));
    var attestation := SignedAttestation(payload, binding.keyId, "ed25519", Signed(key, payload));
    var body := ResponseBody(request.identity, OfClaims(request.body.claims), attestation, true);
    Response(OfResponse(body), body)
  }

  /** The instant lies in the window, the window in that of the key, and it is no longer than any limit. */
  predicate InBounds(binding: Binding, requested: U64, issued: int, expires: int, at: int) {
    && binding.keyNotBefore.Some? && binding.keyNotBefore.value <= issued
    && binding.keyNotAfter.Some? && expires <= binding.keyNotAfter.value
    && issued <= at < expires
    && expires - issued <= requested * SECOND
    && expires - issued <= binding.maximumAge * SECOND
    && expires - issued <= binding.verifierAge * SECOND
    && (requested <= MAX_I64 || binding.maximumAge <= MAX_I64 || binding.verifierAge <= MAX_I64)
  }

  /**
   Unforgeability, and when exactly the verifier accepts: the response is the one that the binding's own key
   signs over this request's claims, for the binding's issuer and audience, with a window in bounds. The
   last bound is the cast to a signed number: with all three limits beyond it nothing is accepted.
   */
  lemma VerifiesExactly(binding: Binding, request: Request, response: Response, at: int)
    ensures VerifyResponse(binding, request, response, at) <==>
              && request.body.claimsIdentity == OfClaims(request.body.claims)
              && request.body.claims.issuer == binding.issuer
              && request.body.claims.audience == binding.audience
              && exists issued, expires ::
                   && response == Sealed(binding, binding.publicKey, request, issued, expires)
                   && InBounds(binding, request.body.requestedSeconds, issued, expires, at)
  {
    if VerifyResponse(binding, request, response, at) {
      var payload := response.body.attestation.payload;
      var issued, expires := payload.issuedAt.value, payload.expiresAt.value;
      assert response == Sealed(binding, binding.publicKey, request, issued, expires);
      assert InBounds(binding, request.body.requestedSeconds, issued, expires, at);
    }
  }

  /** Whoever made it, what is accepted carries the signature of the binding's key over just these claims. */
  lemma Unforgeable(binding: Binding, request: Request, response: Response, at: int)
    requires VerifyResponse(binding, request, response, at)
    ensures var a := response.body.attestation;
            && a.signature == Signed(binding.publicKey, a.payload)
            && a.keyId == binding.keyId && a.algorithm == "ed25519"
            && a.payload.claims == request.body.claims
            && a.payload.claims.issuer == binding.issuer && a.payload.claims.audience == binding.audience
            && response.body.requestIdentity == request.identity
  {
    VerifiesExactly(binding, request, response, at);
  }

  /**
   When exactly the issuer signs, and what: a request for this very producer, a window that exists and can be
   written, and then the response sealed with the second of the clock and the expiry that all limits allow.
   */
  lemma IssuesExactly(
    binding: Binding, key: string, request: Request, clock: int, wellFormed: bool, response: Response)
    ensures Issue(binding, key, request, clock, wellFormed) == Ok(response) <==>
              && wellFormed
              && var b := request.body;
              && b.wellFormed && request.identity == OfRequest(b) && b.claimsIdentity == OfClaims(b.claims)
              && b.producerBinding == binding.identity
              && b.launcherService == binding.launcherService
              && b.launcherConfiguration == binding.launcherConfiguration
              && b.launcherExecutable == binding.launcherExecutable
              && b.launcherProfile == binding.launcherProfile
              && b.audience == binding.audience
              && b.claims.issuer == binding.issuer && b.claims.audience == binding.audience
              && var now := clock - clock % SECOND;
              && now >= FIRST_WRITABLE
              && binding.keyNotBefore.Some? && binding.keyNotBefore.value <= now
              && binding.keyNotAfter.Some? && now < binding.keyNotAfter.value
              && 0 < b.requestedSeconds <= MAX_I64 && now + b.requestedSeconds * SECOND <= LAST_INSTANT
              && 0 < binding.maximumAge <= MAX_I64 && now + binding.maximumAge * SECOND <= LAST_INSTANT
              && 0 < binding.verifierAge <= MAX_I64 && now + binding.verifierAge * SECOND <= LAST_INSTANT
              && exists expires ::
                   && response == Sealed(binding, key, request, now, expires)
                   && LeastOf(expires, now, b.requestedSeconds, binding)
  {
    WindowSealed(binding, key, request, clock, wellFormed);
    WindowIsLeast(binding, request.body.requestedSeconds, clock);
    hide Sealed, Issue, Window, LeastOf;
    var w := Window(binding, request.body.requestedSeconds, clock);
    LeastIsOne(ToSecond(clock), request.body.requestedSeconds, binding);
  }

  /** The same window, limit by limit. */
  lemma WindowIsLeast(binding: Binding, requested: U64, clock: int)
    ensures var w, now := Window(binding, requested, clock), ToSecond(clock);
            && (w.Ok? <==>
                  && binding.keyNotBefore.Some? && binding.keyNotBefore.value <= now
                  && binding.keyNotAfter.Some? && now < binding.keyNotAfter.value
                  && 0 < requested <= MAX_I64 && now + requested * SECOND <= LAST_INSTANT
                  && 0 < binding.maximumAge <= MAX_I64 && now + binding.maximumAge * SECOND <= LAST_INSTANT
                  && 0 < binding.verifierAge <= MAX_I64 && now + binding.verifierAge * SECOND <= LAST_INSTANT)
            && (w.Ok? ==> w.value.0 == now && LeastOf(w.value.1, now, requested, binding))
  {
    if binding.keyNotBefore.Some? && binding.keyNotAfter.Some? {
      WindowIsExact(binding, requested, clock);
    }
  }

  lemma WindowSealed(binding: Binding, key: string, request: Request, clock: int, wellFormed: bool)
    ensures var i := Issue(binding, key, request, clock, wellFormed);
            var w := Window(binding, request.body.requestedSeconds, clock);
            && (i.Ok? <==> wellFormed && ValidRequest(binding, request) && w.Ok? && w.value.0 >= FIRST_WRITABLE)
            && (i.Ok? ==> i.value == Sealed(binding, key, request, w.value.0, w.value.1))
  {
  }

  /** Which error a refused request gets: the request first, then the key dates, then the window. */
  lemma RefusesExactly(binding: Binding, key: string, request: Request, clock: int)
    requires Issue(binding, key, request, clock, true).Err?
    ensures var b, e := request.body, Issue(binding, key, request, clock, true).error;
            && (e == InvalidRequest <==>
                  || !b.wellFormed || request.identity != OfRequest(b) || b.claimsIdentity != OfClaims(b.claims)
                  || b.producerBinding != binding.identity || b.launcherService != binding.launcherService
                  || b.launcherConfiguration != binding.launcherConfiguration
                  || b.launcherExecutable != binding.launcherExecutable
                  || b.launcherProfile != binding.launcherProfile || b.audience != binding.audience
                  || b.claims.issuer != binding.issuer || b.claims.audience != binding.audience)
            && (e == ConfigMalformed <==>
                  e != InvalidRequest && (binding.keyNotBefore.None? || binding.keyNotAfter.None?))
  {
  }

  /** The instant is one of the four limits, and none of them is earlier. */
  predicate LeastOf(expires: int, now: int, requested: U64, binding: Binding) {
    && binding.keyNotAfter.Some?
    && var limits := {now + requested * SECOND, now + binding.maximumAge * SECOND, now + binding.verifierAge * SECOND,
                      binding.keyNotAfter.value};
    && expires in limits && forall l <- limits :: expires <= l
  }

  lemma LeastIsOne(now: int, requested: U64, binding: Binding)
    ensures forall a, b | LeastOf(a, now, requested, binding) && LeastOf(b, now, requested, binding) :: a == b
  {
  }

  /** A response for one request verifies for no other. */
  lemma VerifiesOneRequest(binding: Binding, a: Request, b: Request, response: Response, at: int)
    requires a.identity == OfRequest(a.body) && b.identity == OfRequest(b.body)
    requires VerifyResponse(binding, a, response, at) && VerifyResponse(binding, b, response, at)
    ensures a == b
  {
  }
}
