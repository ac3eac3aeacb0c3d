/** Signed HTTP request wrappers and their validation. */
module Transport {
  import opened Wrappers
  import opened Text
  import opened Directory
  import opened Protocol
  import opened Broker

  const MAX_AUTH_TTL_MS := 120_000

  datatype RequestBody =
    | EnvelopeBody(envelope: Envelope)
    | ClaimBody(recipient: string, limit: int, leaseMs: int)
    | AckRequest(ack: Ack)
    | OtherBody(text: string)

  datatype AuthBody = AuthBody(
    schema: string,
    agent: string,
    signingKid: string,
    request: Uuid,
    issued: int,
    expires: int,
    verb: string,
    path: string,
    body: Digest<RequestBody>)

  datatype Auth = Auth(body: AuthBody, alg: string, kid: string, value: Signature<AuthBody>)

  datatype Wrapper = Wrapper(auth: Auth, body: RequestBody)

  datatype RequestCode = MalformedRequest | ExpiredRequest | BodyMismatch | UnauthorizedCaller | MalformedSignature | BadSignature

  predicate TimesOk(a: AuthBody, now: int) {
    && a.issued < a.expires
    && now < a.expires
    && a.issued <= now + MAX_CLOCK_SKEW_MS
    && a.expires - a.issued <= MAX_AUTH_TTL_MS
  }

  /** The caller's key is active and its window covers both the claimed issuance and the present. */
  predicate CallerOk(a: AuthBody, table: map<string, OwnedKey>) {
    && a.signingKid in table
    && table[a.signingKid].owner == a.agent
    && table[a.signingKid].key.status.Active?
    && InWindow(table[a.signingKid].key, a.issued)
  }

  function RequestError(w: Wrapper, table: map<string, OwnedKey>, verb: string, path: string, now: int): Option<RequestCode> {
    var a := w.auth.body;
    if a.schema != "tribe-http-auth/v1" || a.verb != verb || a.path != path then Some(MalformedRequest)
    else if !IsIdentifier(a.agent) || !IsIdentifier(a.signingKid) || !a.request.HasVersion(7) then Some(MalformedRequest)
    else if !TimesOk(a, now) then Some(ExpiredRequest)
    else if a.body != Sha256(w.body) then Some(BodyMismatch)
    else if w.auth.alg != "Ed25519" || w.auth.kid != a.signingKid then Some(MalformedRequest)
    else if !CallerOk(a, table) || !InWindow(table[a.signingKid].key, now) then Some(UnauthorizedCaller)
    else if w.auth.value.Malformed? then Some(MalformedSignature)
    else if !Verifies(w.auth.value, table[a.signingKid].key.publicKey, a) then Some(BadSignature)
    else None
  }

  /** An accepted request was signed, for this path and this very body, by its agent's active key; it is unexpired,
      and its expiry is at most one skew and one lifetime ahead, so its replay row is short-lived. */
  lemma AcceptedIsAuthentic(w: Wrapper, table: map<string, OwnedKey>, verb: string, path: string, now: int)
    requires RequestError(w, table, verb, path, now).None?
    ensures var kid := w.auth.body.signingKid;
      && kid in table && table[kid].owner == w.auth.body.agent && table[kid].key.status.Active?
      && InWindow(table[kid].key, now) && InWindow(table[kid].key, w.auth.body.issued)
      && w.auth.value.Ed25519?
      && w.auth.value.key == table[kid].key.publicKey
      && w.auth.value.message.path == path
      && w.auth.value.message.body == Sha256(w.body)
      && now < w.auth.value.message.expires <= now + MAX_CLOCK_SKEW_MS + MAX_AUTH_TTL_MS
  {
  }

  /** The wrapper a client makes for a body. */
  function Wrap(body: RequestBody, agent: string, kid: string, publicKey: Bytes, request: Uuid, path: string, at: int, ttl: int): Wrapper {
    var a := AuthBody("tribe-http-auth/v1", agent, kid, request, at, at + ttl, "POST", path, Sha256(body));
    Wrapper(Auth(a, "Ed25519", kid, Ed25519(publicKey, a, 0)), body)
  }

  /** Round trip: what a client wraps is accepted exactly while it lives and its key's window covers issuance and arrival. */
  lemma WrappedIsAccepted(body: RequestBody, agent: string, kid: string, request: Uuid, path: string, at: int, ttl: int,
      table: map<string, OwnedKey>, now: int)
    requires IsIdentifier(agent) && IsIdentifier(kid) && request.HasVersion(7) && 1_000 <= ttl <= MAX_AUTH_TTL_MS
    requires kid in table && table[kid].owner == agent && table[kid].key.status.Active?
    ensures RequestError(Wrap(body, agent, kid, table[kid].key.publicKey, request, path, at, ttl), table, "POST", path, now).None? <==>
      && at - MAX_CLOCK_SKEW_MS <= now < at + ttl
      && InWindow(table[kid].key, at) && InWindow(table[kid].key, now)
  {
    hide IsIdentifier;
  }
}
