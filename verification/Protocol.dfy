/** Envelopes and the two validators: broker admission and endpoint receive. */
module Protocol {
  import opened Wrappers
  import opened Text
  import opened Sorting
  import opened Directory

  const PROTOCOL := "tribe"
  const VERSION := 1
  const SUITE := "TB1_HPKE_X25519_HKDF_SHA256_CHACHA20POLY1305_ED25519_JCS"
  const MAX_TTL_MS := 172_800_000

  /** A UUID text with the 128-bit value it parses to, if it parses. */
  datatype Uuid = Uuid(text: string, bits: Option<nat>) {
    /** Version and timestamp fields as laid out in section 5.7 of RFC 9562. */
    predicate HasVersion(version: nat) {
      && bits.Some?
      && (bits.value / 75557863725914323419136) % 16 == version
      && (bits.value / 4611686018427387904) % 4 == 2
    }

    function Timestamp(): nat
      requires bits.Some?
    {
      bits.value / 1208925819614629174706176
    }
  }

  datatype Recipient = Recipient(id: string, encryptionKid: string, enc: Bytes, wrappedCek: Bytes)

  /** The signed part of an envelope: every field but the signature. */
  datatype Body = Body(
    protocolName: string,
    version: int,
    suite: string,
    messageId: Uuid,
    issued: int,
    expires: int,
    senderId: string,
    signingKid: string,
    audience: AudienceKey,
    contentType: string,
    nonce: Bytes,
    ciphertext: Bytes,
    recipients: seq<Recipient>)

  datatype Envelope = Envelope(body: Body, alg: string, kid: string, value: Signature<Body>)

  datatype Code =
    | MalformedEnvelope
    | UnsupportedProtocol
    | UnsupportedVersion
    | DowngradeRejected
    | InvalidRecipientSet
    | UnknownKey
    | UnauthorizedSender
    | RevokedKey
    | KeyNotValid
    | InvalidSignature
    | IssuedInFuture
    | Expired
    | Replay
    | UnauthorizedAudience
    | WrongAudience
    | NotRecipient

  datatype OwnedKey = OwnedKey(owner: string, key: Key)

  /** What a validator knows besides the envelope. */
  datatype Context = Context(
    now: int,
    receiver: Option<string>,
    seen: set<(string, Uuid)>,
    authorized: set<AudienceKey>,
    receiverAudiences: set<AudienceKey>,
    members: map<AudienceKey, seq<string>>,
    signingKeys: map<string, OwnedKey>,
    encryptionKeys: map<string, OwnedKey>)

  predicate IsTokenChar(c: char) {
    IsLowerAlnum(c) || c in "!#$&^_.+-"
  }

  predicate IsToken(s: string) {
    s != [] && IsLowerAlnum(s[0]) && forall i :: 0 <= i < |s| ==> IsTokenChar(s[i])
  }

  /** A lower-case media type: two tokens around one slash, the second of at most 127 characters. */
  predicate IsContentType(s: string) {
    exists i :: 0 <= i < |s| && s[i] == '/' && IsToken(s[..i]) && IsToken(s[i..][1..]) && |s[i..]| <= 128
  }

  // ---- structure ----

  predicate MessageIdOk(id: Uuid, issued: int) {
    id.HasVersion(7) && -MAX_CLOCK_SKEW_MS <= id.Timestamp() - issued <= MAX_CLOCK_SKEW_MS
  }

  predicate RecipientOk(r: Recipient) {
    IsIdentifier(r.id) && IsIdentifier(r.encryptionKid) && |r.enc| == 32 && |r.wrappedCek| == 48
  }

  function RecipientIds(recipients: seq<Recipient>): set<string> {
    set i | 0 <= i < |recipients| :: recipients[i].id
  }

  predicate UniqueRecipients(recipients: seq<Recipient>) {
    forall i, j :: 0 <= i < j < |recipients| ==> recipients[i].id != recipients[j].id
  }

  /** The first complaint of the recipient loop, entry by entry: identifier, duplicate, then the other fields. */
  function RecipientsError(recipients: seq<Recipient>): (r: Option<Code>)
    ensures r.None? <==> UniqueRecipients(recipients) && forall i :: 0 <= i < |recipients| ==> RecipientOk(recipients[i])
  {
    if recipients == [] then None
    else
      var front, last := recipients[..|recipients| - 1], recipients[|recipients| - 1];
      var before := RecipientsError(front);
      assert forall i :: 0 <= i < |front| ==> recipients[i] == front[i];
      assert last.id in RecipientIds(front) <==> exists i :: 0 <= i < |front| && recipients[i].id == last.id;
      if before.Some? then before
      else if !IsIdentifier(last.id) then Some(MalformedEnvelope)
      else if last.id in RecipientIds(front) then Some(InvalidRecipientSet)
      else if !RecipientOk(last) then Some(MalformedEnvelope)
      else None
  }

  method CheckRecipients(recipients: seq<Recipient>) returns (r: Option<Code>, seen: set<string>)
    ensures r == RecipientsError(recipients)
    ensures r.None? ==> seen == RecipientIds(recipients)
  {
    seen := {};
    for n := 0 to |recipients|
      invariant RecipientsError(recipients[..n]).None?
      invariant seen == RecipientIds(recipients[..n])
    {
      var next := recipients[n];
      assert recipients[..n + 1][..n] == recipients[..n];
      if !IsIdentifier(next.id) {
        RecipientsErrorStays(recipients, n + 1);
        return Some(MalformedEnvelope), seen;
      }
      if next.id in seen {
        RecipientsErrorStays(recipients, n + 1);
        return Some(InvalidRecipientSet), seen;
      }
      if !RecipientOk(next) {
        RecipientsErrorStays(recipients, n + 1);
        return Some(MalformedEnvelope), seen;
      }
      seen := seen + {next.id};
    }
    assert recipients[..|recipients|] == recipients;
    r := None;
  }

  lemma {:induction false} RecipientsErrorStays(recipients: seq<Recipient>, n: nat)
    requires n <= |recipients| && RecipientsError(recipients[..n]).Some?
    ensures RecipientsError(recipients) == RecipientsError(recipients[..n])
  {
    if n < |recipients| {
      var front := recipients[..|recipients| - 1];
      assert front[..n] == recipients[..n];
      RecipientsErrorStays(front, n);
    } else {
      assert recipients[..n] == recipients;
    }
  }

  predicate IntegersOk(b: Body) {
    && -MAX_INTEGER <= b.issued <= MAX_INTEGER
    && -MAX_INTEGER <= b.expires <= MAX_INTEGER
    && b.audience.epoch <= MAX_INTEGER
  }

  function StructureError(e: Envelope): Option<Code> {
    var b := e.body;
    if b.protocolName != PROTOCOL then Some(UnsupportedProtocol)
    else if b.version != VERSION then Some(UnsupportedVersion)
    else if b.suite != SUITE then Some(DowngradeRejected)
    else if b.expires <= b.issued || b.expires - b.issued > MAX_TTL_MS then Some(MalformedEnvelope)
    else if !MessageIdOk(b.messageId, b.issued) then Some(MalformedEnvelope)
    else if !IsIdentifier(b.senderId) || !IsIdentifier(b.signingKid) then Some(MalformedEnvelope)
    else if !IsIdentifier(b.audience.name.id) || b.audience.epoch < 1 then Some(MalformedEnvelope)
    else if !IsContentType(b.contentType) then Some(MalformedEnvelope)
    else if |b.nonce| != 12 || |b.ciphertext| < 16 then Some(MalformedEnvelope)
    else if b.recipients == [] || |b.recipients| > MAX_RECIPIENTS then Some(InvalidRecipientSet)
    else if RecipientsError(b.recipients).Some? then RecipientsError(b.recipients)
    else if b.audience.name.kind.Direct? && b.audience.name.id !in RecipientIds(b.recipients) then Some(InvalidRecipientSet)
    else if e.alg != "Ed25519" || e.kid != b.signingKid || e.value.Malformed? then Some(MalformedEnvelope)
    else if !IntegersOk(b) then Some(MalformedEnvelope)
    else None
  }

  /** The structural parser with its recipient loop. */
  method ValidateStructure(e: Envelope) returns (r: Option<Code>)
    ensures r == StructureError(e)
  {
    var b := e.body;
    if b.protocolName != PROTOCOL {
      return Some(UnsupportedProtocol);
    }
    if b.version != VERSION {
      return Some(UnsupportedVersion);
    }
    if b.suite != SUITE {
      return Some(DowngradeRejected);
    }
    if b.expires <= b.issued || b.expires - b.issued > MAX_TTL_MS || !MessageIdOk(b.messageId, b.issued) {
      return Some(MalformedEnvelope);
    }
    if !IsIdentifier(b.senderId) || !IsIdentifier(b.signingKid) || !IsIdentifier(b.audience.name.id) || b.audience.epoch < 1 {
      return Some(MalformedEnvelope);
    }
    if !IsContentType(b.contentType) || |b.nonce| != 12 || |b.ciphertext| < 16 {
      return Some(MalformedEnvelope);
    }
    if b.recipients == [] || |b.recipients| > MAX_RECIPIENTS {
      return Some(InvalidRecipientSet);
    }
    var complaint, seen := CheckRecipients(b.recipients);
    if complaint.Some? {
      return complaint;
    }
    if b.audience.name.kind.Direct? && b.audience.name.id !in seen {
      return Some(InvalidRecipientSet);
    }
    if e.alg != "Ed25519" || e.kid != b.signingKid || e.value.Malformed? || !IntegersOk(b) {
      return Some(MalformedEnvelope);
    }
    r := None;
  }

  // ---- keys, time, authorization ----

  function SignerError(e: Envelope, c: Context): Option<Code> {
    var b := e.body;
    if b.signingKid !in c.signingKeys then Some(UnknownKey)
    else
      var record := c.signingKeys[b.signingKid];
      if record.owner != b.senderId then Some(UnauthorizedSender)
      else if record.key.status.Compromised? || record.key.status.Revoked? then Some(RevokedKey)
      else if !InWindow(record.key, b.issued) then Some(KeyNotValid)
      else if !Verifies(e.value, record.key.publicKey, b) then Some(InvalidSignature)
      else None
  }

  function TimeError(e: Envelope, c: Context): Option<Code> {
    if e.body.issued > c.now + MAX_CLOCK_SKEW_MS then Some(IssuedInFuture)
    else if e.body.expires <= c.now then Some(Expired)
    else if (e.body.senderId, e.body.messageId) in c.seen then Some(Replay)
    else None
  }

  predicate KeyIsValid(table: map<string, OwnedKey>, kid: string, owner: string, at: int, allowRetired: bool) {
    && kid in table
    && table[kid].owner == owner
    && (table[kid].key.status.Active? || (allowRetired && table[kid].key.status.Retired?))
    && InWindow(table[kid].key, at)
  }

  function NameSet(names: seq<string>): set<string> {
    set i | 0 <= i < |names| :: names[i]
  }

  predicate WrapsValid(recipients: seq<Recipient>, c: Context) {
    forall i :: 0 <= i < |recipients| ==>
      KeyIsValid(c.encryptionKeys, recipients[i].encryptionKid, recipients[i].id, c.now, false)
  }

  /** Broker admission: the signer and every wrap key must be active now, whatever the claimed issuance. */
  function BrokerError(e: Envelope, c: Context): Option<Code> {
    var b := e.body;
    if StructureError(e).Some? then StructureError(e)
    else if SignerError(e, c).Some? then SignerError(e, c)
    else if TimeError(e, c).Some? then TimeError(e, c)
    else if !KeyIsValid(c.signingKeys, b.signingKid, b.senderId, c.now, false) then Some(KeyNotValid)
    else if b.audience !in c.authorized then Some(UnauthorizedAudience)
    else if b.audience !in c.members || RecipientIds(b.recipients) != NameSet(c.members[b.audience]) then Some(InvalidRecipientSet)
    else if !WrapsValid(b.recipients, c) then Some(InvalidRecipientSet)
    else None
  }

  predicate Admits(e: Envelope, c: Context) {
    BrokerError(e, c).None?
  }

  /** Admission in one piece: an unexpired, unseen envelope, well formed and genuine, from a key active at issuance and now,
      to exactly the members of an audience the sender may address, wrapped to keys active now. */
  lemma AdmitsExactly(e: Envelope, c: Context)
    ensures Admits(e, c) <==>
      && StructureError(e).None?
      && e.body.issued - MAX_CLOCK_SKEW_MS <= c.now < e.body.expires
      && (e.body.senderId, e.body.messageId) !in c.seen
      && e.body.signingKid in c.signingKeys
      && c.signingKeys[e.body.signingKid].owner == e.body.senderId
      && c.signingKeys[e.body.signingKid].key.status.Active?
      && InWindow(c.signingKeys[e.body.signingKid].key, e.body.issued)
      && InWindow(c.signingKeys[e.body.signingKid].key, c.now)
      && Verifies(e.value, c.signingKeys[e.body.signingKid].key.publicKey, e.body)
      && e.body.audience in c.authorized
      && e.body.audience in c.members
      && RecipientIds(e.body.recipients) == NameSet(c.members[e.body.audience])
      && WrapsValid(e.body.recipients, c)
  {
    hide StructureError, RecipientIds, NameSet, WrapsValid;
  }

  function WrapsFor(recipients: seq<Recipient>, id: string): (r: seq<Recipient>)
    ensures forall w :: w in r <==> w in recipients && w.id == id
    ensures (forall w :: w in recipients ==> w.id != id) ==> r == []
  {
    if recipients == [] then []
    else
      var front, last := recipients[..|recipients| - 1], recipients[|recipients| - 1];
      assert forall w :: w in recipients <==> w in front || w == last;
      WrapsFor(front, id) + (if last.id == id then [last] else [])
  }

  lemma {:induction false} OneWrap(recipients: seq<Recipient>, i: nat)
    requires i < |recipients| && UniqueRecipients(recipients)
    ensures WrapsFor(recipients, recipients[i].id) == [recipients[i]]
  {
    var front, last := recipients[..|recipients| - 1], recipients[|recipients| - 1];
    if i < |front| {
      OneWrap(front, i);
    } else {
      assert forall w :: w in front ==> w.id != last.id;
    }
  }

  /** Endpoint receive: historical windows are checked against issuance, so a planned cut strands nothing. */
  function EndpointError(e: Envelope, c: Context): Option<Code> {
    var b := e.body;
    if StructureError(e).Some? then StructureError(e)
    else if SignerError(e, c).Some? then SignerError(e, c)
    else if TimeError(e, c).Some? then TimeError(e, c)
    else if c.receiver.None? || b.audience !in c.receiverAudiences then Some(WrongAudience)
    else if b.audience !in c.members || c.members[b.audience] == [] || !Distinct(c.members[b.audience])
        || RecipientIds(b.recipients) != NameSet(c.members[b.audience])
      then Some(InvalidRecipientSet)
    else
      var wraps := WrapsFor(b.recipients, c.receiver.value);
      if |wraps| != 1 then Some(NotRecipient)
      else if !KeyIsValid(c.encryptionKeys, wraps[0].encryptionKid, c.receiver.value, b.issued, true) then Some(KeyNotValid)
      else None
  }

  predicate Receives(e: Envelope, c: Context) {
    EndpointError(e, c).None?
  }
}
