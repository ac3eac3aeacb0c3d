/** What the validators accept, rule by rule across their functions, in the terms of what they are given. */
module Acceptance {
  import opened Wrappers
  import opened Text
  import opened Sorting
  import opened Directory
  import opened Protocol
  import opened DirectoryContext
  import DirectoryStore
  import opened Broker
  import opened Transport
  import opened Inbox
  import Service

  // ---- identifiers and types ----

  /** A UUID's version and variant are read from the places section 5.7 of RFC 9562 gives them, and its timestamp from the first 48 bits. */
  lemma UuidFields(text: string, timestamp: nat, version: nat, randomA: nat, variant: nat, randomB: nat, wanted: nat)
    requires version < 0x10 && randomA < 0x1000 && variant < 4 && randomB < 0x4000_0000_0000_0000
    ensures var bits := (((timestamp * 0x10 + version) * 0x1000 + randomA) * 4 + variant) * 0x4000_0000_0000_0000 + randomB;
      && Uuid(text, Some(bits)).Timestamp() == timestamp
      && (Uuid(text, Some(bits)).HasVersion(wanted) <==> version == wanted && variant == 2)
  {
    var head := timestamp * 0x10 + version;
    var middle := (head * 0x1000 + randomA) * 4 + variant;
    var bits := middle * 0x4000_0000_0000_0000 + randomB;
    assert bits / 0x4000_0000_0000_0000 == middle && middle % 4 == variant;
    assert bits / 0x1000_0000_0000_0000_0000 == head && head % 0x10 == version;
    assert bits / 0x1_0000_0000_0000_0000_0000 == timestamp;
  }

  /** A media type is two tokens around a slash, the second of at most 127 characters. */
  lemma ContentTypeExactly(s: string)
    ensures IsContentType(s) <==> exists kind, subtype :: TwoTokens(s, kind, subtype)
  {
    hide IsToken, TwoTokens;
    if i :| 0 <= i < |s| && s[i] == '/' && IsToken(s[..i]) && IsToken(s[i..][1..]) && |s[i..]| <= 128 {
      SplitAtSlash(s, i);
    }
    if kind, subtype :| TwoTokens(s, kind, subtype) {
      JoinedAtSlash(s, kind, subtype);
    }
  }

  predicate TwoTokens(s: string, kind: string, subtype: string) {
    s == kind + "/" + subtype && IsToken(kind) && IsToken(subtype) && |subtype| <= 127
  }

  lemma SplitAtSlash(s: string, i: nat)
    requires i < |s| && s[i] == '/' && IsToken(s[..i]) && IsToken(s[i..][1..]) && |s[i..]| <= 128
    ensures TwoTokens(s, s[..i], s[i..][1..])
  {
    hide IsToken;
    assert s == s[..i] + "/" + s[i..][1..];
  }

  lemma JoinedAtSlash(s: string, kind: string, subtype: string)
    requires TwoTokens(s, kind, subtype)
    ensures var i := |kind|; i < |s| && s[i] == '/' && IsToken(s[..i]) && IsToken(s[i..][1..]) && |s[i..]| <= 128
  {
    hide IsToken;
    var i := |kind|;
    assert s[i] == '/' && s[..i] == kind && s[i..][1..] == subtype;
  }

  // ---- envelopes ----

  /** Both validators take exactly these envelopes as well formed. */
  lemma FormedExactly(e: Envelope)
    ensures var b := e.body;
      StructureError(e).None? <==>
        && b.protocolName == "tribe" && b.version == 1
        && b.suite == "TB1_HPKE_X25519_HKDF_SHA256_CHACHA20POLY1305_ED25519_JCS"
        && b.issued < b.expires <= b.issued + 48 * 60 * 60 * 1000
        && b.messageId.HasVersion(7) && b.issued - 300_000 <= b.messageId.Timestamp() <= b.issued + 300_000
        && IsIdentifier(b.senderId) && IsIdentifier(b.signingKid) && IsIdentifier(b.audience.name.id)
        && 1 <= b.audience.epoch <= MAX_INTEGER && -MAX_INTEGER <= b.issued && b.expires <= MAX_INTEGER
        && IsContentType(b.contentType) && |b.nonce| == 12 && 16 <= |b.ciphertext|
        && 1 <= |b.recipients| <= 256
        && (forall i, j :: 0 <= i < j < |b.recipients| ==> b.recipients[i].id != b.recipients[j].id)
        && (forall i :: 0 <= i < |b.recipients| ==>
              && IsIdentifier(b.recipients[i].id) && IsIdentifier(b.recipients[i].encryptionKid)
              && |b.recipients[i].enc| == 32 && |b.recipients[i].wrappedCek| == 48)
        && (b.audience.name.kind.Direct? ==> exists i :: 0 <= i < |b.recipients| && b.recipients[i].id == b.audience.name.id)
        && e.alg == "Ed25519" && e.kid == b.signingKid && e.value.Ed25519?
  {
    hide IsIdentifier, IsContentType, RecipientsError;
    assert forall id :: id in RecipientIds(e.body.recipients) <==> exists i :: 0 <= i < |e.body.recipients| && e.body.recipients[i].id == id;
  }

  /** Every wrap key is its recipient's, active, and in force at this time. */
  lemma WrapsExactly(recipients: seq<Recipient>, c: Context)
    ensures WrapsValid(recipients, c) <==>
      forall i :: 0 <= i < |recipients| ==>
        && recipients[i].encryptionKid in c.encryptionKeys
        && c.encryptionKeys[recipients[i].encryptionKid].owner == recipients[i].id
        && c.encryptionKeys[recipients[i].encryptionKid].key.status.Active?
        && c.encryptionKeys[recipients[i].encryptionKid].key.notBefore <= c.now
        && (c.encryptionKeys[recipients[i].encryptionKid].key.notAfter.Some? ==>
              c.now < c.encryptionKeys[recipients[i].encryptionKid].key.notAfter.value)
  {
  }

  /** The receiver's own entry: named once, wrapped to a key of its own that was in force at issuance and is not revoked. */
  predicate WrappedFor(e: Envelope, c: Context, id: string, w: Recipient) {
    && w in e.body.recipients && w.id == id
    && w.encryptionKid in c.encryptionKeys && c.encryptionKeys[w.encryptionKid].owner == id
    && (c.encryptionKeys[w.encryptionKid].key.status.Active? || c.encryptionKeys[w.encryptionKid].key.status.Retired?)
    && InWindow(c.encryptionKeys[w.encryptionKid].key, e.body.issued)
  }

  /**
   * An endpoint receives exactly well-formed, unexpired, unseen envelopes, signed by a key of the sender that was in force at
   * issuance and is not revoked, for exactly the members of an audience it may read, with a wrap key of its own.
   */
  lemma ReceivesExactly(e: Envelope, c: Context)
    ensures Receives(e, c) <==>
      && StructureError(e).None?
      && e.body.issued - 300_000 <= c.now < e.body.expires
      && (e.body.senderId, e.body.messageId) !in c.seen
      && e.body.signingKid in c.signingKeys
      && c.signingKeys[e.body.signingKid].owner == e.body.senderId
      && (c.signingKeys[e.body.signingKid].key.status.Active? || c.signingKeys[e.body.signingKid].key.status.Retired?)
      && InWindow(c.signingKeys[e.body.signingKid].key, e.body.issued)
      && Verifies(e.value, c.signingKeys[e.body.signingKid].key.publicKey, e.body)
      && c.receiver.Some? && e.body.audience in c.receiverAudiences && e.body.audience in c.members
      && c.members[e.body.audience] != [] && Distinct(c.members[e.body.audience])
      && RecipientIds(e.body.recipients) == NameSet(c.members[e.body.audience])
      && exists w :: WrappedFor(e, c, c.receiver.value, w)
  {
    hide StructureError, SignerError, TimeError, RecipientIds, NameSet, Distinct, KeyIsValid, WrappedFor, WrapsFor;
    GenuineAtIssuance(e, c);
    if StructureError(e).None? && c.receiver.Some? {
      FormedUnique(e);
      WrappedExactly(e, c, c.receiver.value);
    }
  }

  lemma GenuineAtIssuance(e: Envelope, c: Context)
    ensures SignerError(e, c).None? && TimeError(e, c).None? <==>
      && e.body.issued - 300_000 <= c.now < e.body.expires
      && (e.body.senderId, e.body.messageId) !in c.seen
      && e.body.signingKid in c.signingKeys
      && c.signingKeys[e.body.signingKid].owner == e.body.senderId
      && (c.signingKeys[e.body.signingKid].key.status.Active? || c.signingKeys[e.body.signingKid].key.status.Retired?)
      && InWindow(c.signingKeys[e.body.signingKid].key, e.body.issued)
      && Verifies(e.value, c.signingKeys[e.body.signingKid].key.publicKey, e.body)
  {
  }

  lemma WrappedExactly(e: Envelope, c: Context, id: string)
    requires UniqueRecipients(e.body.recipients)
    ensures (exists w :: WrappedFor(e, c, id, w)) <==>
      var wraps := WrapsFor(e.body.recipients, id);
      |wraps| == 1 && KeyIsValid(c.encryptionKeys, wraps[0].encryptionKid, id, e.body.issued, true)
  {
    hide InWindow, UniqueRecipients;
    var wraps := WrapsFor(e.body.recipients, id);
    forall w | w in e.body.recipients && w.id == id ensures wraps == [w] {
      var i :| 0 <= i < |e.body.recipients| && e.body.recipients[i] == w;
      OneWrap(e.body.recipients, i);
    }
    if |wraps| == 1 {
      assert wraps[0] in wraps;
      if KeyIsValid(c.encryptionKeys, wraps[0].encryptionKid, id, e.body.issued, true) {
        assert WrappedFor(e, c, id, wraps[0]);
      }
    }
  }

  lemma FormedUnique(e: Envelope)
    ensures StructureError(e).None? ==> UniqueRecipients(e.body.recipients)
  {
  }

  /** An agent's key of the directory that was in force at this time and is not revoked. */
  ghost predicate InForce(s: Snapshot, purpose: Purpose, agent: string, kid: string, at: int, k: Key) {
    && (exists i, j :: HasSlot(s.agents, i, purpose, j) && s.agents[i].id == agent && KeyAt(s.agents, i, purpose, j) == k)
    && k.kid == kid && (k.status.Active? || k.status.Retired?)
    && k.notBefore <= at && (k.notAfter.Some? ==> at < k.notAfter.value)
  }

  /** The envelope is for exactly the members and observers of an audience that is not revoked, this receiver among them. */
  ghost predicate Addressed(s: Snapshot, e: Envelope, receiver: string, a: Audience) {
    && a in s.audiences && a.key == e.body.audience && !a.status.RevokedAudience? && Reaches(a, receiver)
    && Distinct(a.Recipients())
    && (forall id :: id in RecipientIds(e.body.recipients) <==> Reaches(a, id))
  }

  lemma FiledInForce(s: Snapshot, purpose: Purpose, agent: string, kid: string, at: int)
    requires UniqueKids(s.agents)
    ensures var table := KeyTable(s.agents, purpose);
      forall k :: InForce(s, purpose, agent, kid, at, k) <==>
        && kid in table && table[kid] == OwnedKey(agent, k) && (k.status.Active? || k.status.Retired?) && InWindow(k, at)
  {
    hide UniqueKids, KeyTable;
    KeyTableMeaning(s.agents, purpose, kid);
  }

  lemma AddressedExactly(s: Snapshot, e: Envelope, receiver: string, now: int)
    requires UniqueAudiences(s.audiences)
    ensures var c, k := ContextOf(s, None, Some(receiver), now, {}), e.body.audience;
      (exists a :: Addressed(s, e, receiver, a)) <==>
        && k in c.receiverAudiences && k in c.members && c.members[k] != [] && Distinct(c.members[k])
        && RecipientIds(e.body.recipients) == NameSet(c.members[k])
  {
    hide KeyTable, AudienceTable, UniqueAudiences, Distinct, RecipientIds, NameSet, Reaches;
    AudienceTableMeaning(s.audiences);
    var table, k := AudienceTable(s.audiences), e.body.audience;
    forall a ensures Addressed(s, e, receiver, a) <==>
      && k in table && a == table[k] && !a.status.RevokedAudience? && receiver in a.Recipients()
      && Distinct(a.Recipients()) && RecipientIds(e.body.recipients) == NameSet(a.Recipients())
    {
      RecipientsReached(a);
    }
  }

  lemma RecipientsReached(a: Audience)
    ensures forall id :: id in NameSet(a.Recipients()) <==> Reaches(a, id)
    ensures forall id :: id in a.Recipients() <==> Reaches(a, id)
  {
    assert forall id :: id in NameSet(a.Recipients()) <==> id in a.Recipients();
  }

  /**
   * A receiver opens exactly the well-formed envelopes within their time that a key of their sender in force at issuance signed, for
   * all of an audience it belongs to, with its own wrapped key under one of its keys in force at issuance, and that its keys decrypt.
   */
  lemma OpensExactly(r: Receiver, e: Envelope, now: int)
    requires UniqueKids(r.directory.agents) && UniqueAudiences(r.directory.audiences)
    ensures Decrypt(r, e, now).Some? <==>
      && StructureError(e).None? && e.body.issued - 300_000 <= now < e.body.expires
      && SignedInForce(r.directory, e) && (exists a :: Addressed(r.directory, e, r.agent, a)) && WrappedInForce(r.directory, e, r.agent)
      && r.opens(e).Some?
    ensures Decrypt(r, e, now).Some? ==> Decrypt(r, e, now) == r.opens(e)
  {
    hide StructureError, KeyTable, UniqueKids, UniqueAudiences, Distinct, RecipientIds, NameSet, Addressed, SignedInForce, WrappedInForce, WrappedFor;
    hide EndpointError;
    var c := ContextOf(r.directory, None, Some(r.agent), now, {});
    ReceivesExactly(e, c);
    AddressedExactly(r.directory, e, r.agent, now);
    SignerExactly(r.directory, e);
    WrapExactly(r.directory, e, r.agent, now);
  }

  /** A key of the sender signed it that was in force at issuance and is not revoked. */
  ghost predicate SignedInForce(s: Snapshot, e: Envelope) {
    exists k :: InForce(s, Signing, e.body.senderId, e.body.signingKid, e.body.issued, k) && Verifies(e.value, k.publicKey, e.body)
  }

  /** Its content key is wrapped to such a key of the receiver. */
  ghost predicate WrappedInForce(s: Snapshot, e: Envelope, receiver: string) {
    exists w :: w in e.body.recipients && w.id == receiver && HasKeyInForce(s, receiver, w.encryptionKid, e.body.issued)
  }

  ghost predicate HasKeyInForce(s: Snapshot, agent: string, kid: string, at: int) {
    exists k :: InForce(s, Encryption, agent, kid, at, k)
  }

  lemma SignerExactly(s: Snapshot, e: Envelope)
    requires UniqueKids(s.agents)
    ensures var table, kid := KeyTable(s.agents, Signing), e.body.signingKid;
      SignedInForce(s, e) <==>
        && kid in table && table[kid].owner == e.body.senderId && (table[kid].key.status.Active? || table[kid].key.status.Retired?)
        && InWindow(table[kid].key, e.body.issued) && Verifies(e.value, table[kid].key.publicKey, e.body)
  {
    hide KeyTable, UniqueKids, InForce, InWindow;
    FiledInForce(s, Signing, e.body.senderId, e.body.signingKid, e.body.issued);
    var table, kid := KeyTable(s.agents, Signing), e.body.signingKid;
    if kid in table && table[kid].owner == e.body.senderId {
      assert table[kid] == OwnedKey(e.body.senderId, table[kid].key);
    }
  }

  lemma WrapExactly(s: Snapshot, e: Envelope, receiver: string, now: int)
    requires UniqueKids(s.agents)
    ensures (exists w :: WrappedFor(e, ContextOf(s, None, Some(receiver), now, {}), receiver, w)) <==> WrappedInForce(s, e, receiver)
  {
    hide KeyTable, UniqueKids, AudienceTable, InForce, InWindow;
    forall w ensures WrappedFor(e, ContextOf(s, None, Some(receiver), now, {}), receiver, w) <==>
      w in e.body.recipients && w.id == receiver && HasKeyInForce(s, receiver, w.encryptionKid, e.body.issued)
    {
      FiledInForce(s, Encryption, receiver, w.encryptionKid, e.body.issued);
      var table, kid := KeyTable(s.agents, Encryption), w.encryptionKid;
      if kid in table && table[kid].owner == receiver {
        assert table[kid] == OwnedKey(receiver, table[kid].key);
      }
    }
  }

  // ---- complaints ----

  /** A complaint about the form of an envelope is true of it. */
  predicate FormFault(e: Envelope, code: Code) {
    var b := e.body;
    match code
    case UnsupportedProtocol => b.protocolName != "tribe"
    case UnsupportedVersion => b.protocolName == "tribe" && b.version != 1
    case DowngradeRejected => b.version == 1 && b.suite != "TB1_HPKE_X25519_HKDF_SHA256_CHACHA20POLY1305_ED25519_JCS"
    case InvalidRecipientSet =>
      || b.recipients == [] || 256 < |b.recipients|
      || (exists i, j :: 0 <= i < j < |b.recipients| && b.recipients[i].id == b.recipients[j].id)
      || (b.audience.name.kind.Direct? && forall i :: 0 <= i < |b.recipients| ==> b.recipients[i].id != b.audience.name.id)
    case MalformedEnvelope =>
      || b.expires <= b.issued || b.issued + 172_800_000 < b.expires
      || !b.messageId.HasVersion(7) || b.messageId.Timestamp() < b.issued - 300_000 || b.issued + 300_000 < b.messageId.Timestamp()
      || !IsIdentifier(b.senderId) || !IsIdentifier(b.signingKid) || !IsIdentifier(b.audience.name.id)
      || b.audience.epoch < 1 || MAX_INTEGER < b.audience.epoch || b.issued < -MAX_INTEGER || MAX_INTEGER < b.expires
      || !IsContentType(b.contentType) || |b.nonce| != 12 || |b.ciphertext| < 16
      || (exists r :: r in b.recipients && !(IsIdentifier(r.id) && IsIdentifier(r.encryptionKid) && |r.enc| == 32 && |r.wrappedCek| == 48))
      || e.alg != "Ed25519" || e.kid != b.signingKid || e.value.Malformed?
    case _ => false
  }

  lemma FormComplaint(e: Envelope)
    ensures StructureError(e).Some? ==> FormFault(e, StructureError(e).value)
  {
    hide IsIdentifier, IsContentType, RecipientsError, Uuid.HasVersion, Uuid.Timestamp;
    if RecipientsError(e.body.recipients).Some? {
      RecipientsComplaint(e.body.recipients);
    }
    assert forall id :: id in RecipientIds(e.body.recipients) <==> exists i :: 0 <= i < |e.body.recipients| && e.body.recipients[i].id == id;
  }

  lemma {:induction false} RecipientsComplaint(recipients: seq<Recipient>)
    requires RecipientsError(recipients).Some?
    ensures RecipientsError(recipients) == Some(InvalidRecipientSet) ==>
      exists i, j :: 0 <= i < j < |recipients| && recipients[i].id == recipients[j].id
    ensures RecipientsError(recipients) != Some(InvalidRecipientSet) ==>
      && RecipientsError(recipients) == Some(MalformedEnvelope)
      && exists r :: r in recipients && !RecipientOk(r)
  {
    hide IsIdentifier;
    var front, last := recipients[..|recipients| - 1], recipients[|recipients| - 1];
    if RecipientsError(front).Some? {
      RecipientsComplaint(front);
      if RecipientsError(front) == Some(InvalidRecipientSet) {
        var i, j :| 0 <= i < j < |front| && front[i].id == front[j].id;
        assert recipients[i].id == recipients[j].id;
      }
    } else if last.id in RecipientIds(front) {
      var i :| 0 <= i < |front| && front[i].id == last.id;
      assert recipients[i].id == recipients[|recipients| - 1].id;
    }
  }

  /** What else either validator complains of is true of envelope and context; only the endpoint names readers and receivers. */
  predicate Fault(e: Envelope, c: Context, code: Code) {
    var b := e.body;
    match code
    case UnknownKey => b.signingKid !in c.signingKeys
    case UnauthorizedSender => b.signingKid in c.signingKeys && c.signingKeys[b.signingKid].owner != b.senderId
    case RevokedKey =>
      b.signingKid in c.signingKeys && (c.signingKeys[b.signingKid].key.status.Revoked? || c.signingKeys[b.signingKid].key.status.Compromised?)
    case InvalidSignature => b.signingKid in c.signingKeys && !Verifies(e.value, c.signingKeys[b.signingKid].key.publicKey, b)
    case IssuedInFuture => c.now + 300_000 < b.issued
    case Expired => b.expires <= c.now
    case Replay => (b.senderId, b.messageId) in c.seen
    case UnauthorizedAudience => b.audience !in c.authorized
    case WrongAudience => c.receiver.None? || b.audience !in c.receiverAudiences
    case NotRecipient => c.receiver.Some? && |WrapsFor(b.recipients, c.receiver.value)| != 1
    case KeyNotValid =>
      || (b.signingKid in c.signingKeys && !InWindow(c.signingKeys[b.signingKid].key, b.issued))
      || !KeyIsValid(c.signingKeys, b.signingKid, b.senderId, c.now, false)
      || (c.receiver.Some? && exists w :: w in b.recipients && !KeyIsValid(c.encryptionKeys, w.encryptionKid, c.receiver.value, b.issued, true))
    case InvalidRecipientSet =>
      || b.audience !in c.members || c.members[b.audience] == [] || !Distinct(c.members[b.audience])
      || RecipientIds(b.recipients) != NameSet(c.members[b.audience]) || !WrapsValid(b.recipients, c)
    case _ => false
  }

  lemma BrokerComplaint(e: Envelope, c: Context)
    ensures BrokerError(e, c).Some? ==>
      (StructureError(e) == BrokerError(e, c) && FormFault(e, BrokerError(e, c).value)) || Fault(e, c, BrokerError(e, c).value)
  {
    hide FormFault, StructureError, RecipientIds, NameSet, WrapsValid, KeyIsValid, InWindow, Distinct, WrapsFor;
    FormComplaint(e);
  }

  lemma EndpointComplaint(e: Envelope, c: Context)
    ensures EndpointError(e, c).Some? ==>
      (StructureError(e) == EndpointError(e, c) && FormFault(e, EndpointError(e, c).value)) || Fault(e, c, EndpointError(e, c).value)
  {
    hide FormFault, StructureError, RecipientIds, NameSet, WrapsValid, KeyIsValid, InWindow, Distinct, WrapsFor;
    FormComplaint(e);
    if c.receiver.Some? && |WrapsFor(e.body.recipients, c.receiver.value)| == 1 {
      assert WrapsFor(e.body.recipients, c.receiver.value)[0] in WrapsFor(e.body.recipients, c.receiver.value);
    }
  }

  // ---- contexts ----

  /** What a directory's context says about an audience: who may address it, who may read it, and whom it reaches. */
  lemma ContextSays(s: Snapshot, sender: Option<string>, receiver: Option<string>, now: int, seen: set<(string, Uuid)>, k: AudienceKey)
    requires UniqueAudiences(s.audiences)
    ensures var c := ContextOf(s, sender, receiver, now, seen);
      && c.now == now && c.receiver == receiver && c.seen == seen
      && (k in c.authorized <==> sender.Some? && exists a :: a in s.audiences && a.key == k && a.status.ActiveAudience? && sender.value in a.allowedSenders)
      && (k in c.receiverAudiences <==>
            receiver.Some? && exists a :: a in s.audiences && a.key == k && !a.status.RevokedAudience? && Reaches(a, receiver.value))
      && (k in c.members ==> exists a :: a in s.audiences && a.key == k && c.members[k] == a.members + (if a.observers.Some? then a.observers.value else []))
      && (k in c.members <==> exists a ::
            && a in s.audiences && a.key == k
            && (a.status.ActiveAudience? || (receiver.Some? && a.status.RetiredAudience? && Reaches(a, receiver.value))))
  {
    hide KeyTable, AudienceTable, UniqueAudiences;
    AudienceTableMeaning(s.audiences);
    var table := AudienceTable(s.audiences);
    assert forall a :: a in s.audiences && a.key == k ==> k in table && table[k] == a;
    assert k in table ==> table[k] in s.audiences && table[k].key == k;
  }

  predicate Reaches(a: Audience, id: string) {
    id in a.members || (a.observers.Some? && id in a.observers.value)
  }

  // ---- directories and state ----

  /** Enough distinct governance keys signed the directory, and every signature listed is one of theirs. */
  predicate QuorumSigned(s: Snapshot, roots: Roots) {
    && roots.threshold <= |s.signatures|
    && (forall i, j :: 0 <= i < j < |s.signatures| ==> s.signatures[i].kid != s.signatures[j].kid)
    && (forall g :: g in s.signatures ==>
          && g.kid in roots.keys && IsIdentifier(g.kid) && |roots.keys[g.kid]| == 32 && g.alg == "Ed25519"
          && g.value.Ed25519? && g.value.key == roots.keys[g.kid] && g.value.message == s.(signatures := []))
  }

  /** These are between one and so many different agents of the directory. */
  ghost predicate SomeAgents(s: Snapshot, names: seq<string>, most: nat) {
    && 1 <= |names| <= most
    && (forall i, j :: 0 <= i < j < |names| ==> names[i] != names[j])
    && (forall id :: id in names ==> exists a :: a in s.agents && a.id == id)
  }

  /** A direct audience has its owner as only member; its observers, if any, are neither member nor sender. */
  ghost predicate AudienceFits(s: Snapshot, a: Audience) {
    && IsIdentifier(a.key.name.id) && 1 <= a.key.epoch <= 9_007_199_254_740_991
    && SomeAgents(s, a.members, 256) && SomeAgents(s, a.allowedSenders, 256)
    && (a.key.name.kind.Direct? ==> a.members == [a.key.name.id])
    && (a.observers.Some? ==>
          && a.key.name.kind.Direct? && SomeAgents(s, a.observers.value, 255)
          && (forall id :: id in a.observers.value ==> id !in a.members && id !in a.allowedSenders))
  }

  lemma ListedAgents(s: Snapshot, names: seq<string>)
    requires forall a :: a in s.agents ==> IsIdentifier(a.id)
    ensures NamesOk(names, AgentIds(s.agents)) <==>
      && (forall i, j :: 0 <= i < j < |names| ==> names[i] != names[j])
      && (forall id :: id in names ==> exists a :: a in s.agents && a.id == id)
  {
    hide IsIdentifier;
    forall id
      ensures id in AgentIds(s.agents) <==> exists a :: a in s.agents && a.id == id
      ensures id in AgentIds(s.agents) ==> IsIdentifier(id)
    {
      if id in AgentIds(s.agents) {
        var i :| 0 <= i < |s.agents| && s.agents[i].id == id;
        assert s.agents[i] in s.agents;
      }
    }
    hide AgentIds;
    if NamesOk(names, AgentIds(s.agents)) {
      forall id | id in names ensures exists a :: a in s.agents && a.id == id {
        var i :| 0 <= i < |names| && names[i] == id;
        assert id in AgentIds(s.agents);
      }
    }
    if forall id :: id in names ==> exists a :: a in s.agents && a.id == id {
      forall i | 0 <= i < |names| ensures IsIdentifier(names[i]) && names[i] in AgentIds(s.agents) {
        assert names[i] in names;
      }
    }
  }

  lemma AudienceExactly(s: Snapshot, a: Audience)
    requires forall a :: a in s.agents ==> IsIdentifier(a.id)
    ensures AudienceOk(a, AgentIds(s.agents)) <==> AudienceFits(s, a)
  {
    hide IsIdentifier, AgentIds, NamesOk;
    ListedAgents(s, a.members);
    ListedAgents(s, a.allowedSenders);
    if a.observers.Some? {
      ListedAgents(s, a.observers.value);
    }
  }

  /** A key of the directory: one purpose of one agent, within its window, representable. */
  ghost predicate KeysFit(s: Snapshot) {
    && (forall i, p, j :: HasSlot(s.agents, i, p, j) ==>
          var k := KeyAt(s.agents, i, p, j);
          && IsIdentifier(k.kid) && 1 <= k.epoch <= 9_007_199_254_740_991 && |k.publicKey| == 32
          && 0 <= k.notBefore <= 9_007_199_254_740_991
          && (k.notAfter.Some? ==> k.notBefore < k.notAfter.value <= 9_007_199_254_740_991))
    && (forall i, p, j, j' :: HasSlot(s.agents, i, p, j) && HasSlot(s.agents, i, p, j') && j != j' ==>
          KeyAt(s.agents, i, p, j).epoch != KeyAt(s.agents, i, p, j').epoch)
  }

  lemma KeysExactly(s: Snapshot)
    ensures EachAgentOk(s.agents) <==>
      && KeysFit(s)
      && (forall i :: 0 <= i < |s.agents| ==> IsIdentifier(s.agents[i].id) && s.agents[i].signing != [] && s.agents[i].encryption != [])
  {
    hide IsIdentifier;
    if EachAgentOk(s.agents) {
      forall i, p, j | HasSlot(s.agents, i, p, j) ensures KeyOk(KeyAt(s.agents, i, p, j)) {
        assert AgentOk(s.agents[i]);
      }
      forall i, p, j, j' | HasSlot(s.agents, i, p, j) && HasSlot(s.agents, i, p, j') && j != j'
        ensures KeyAt(s.agents, i, p, j).epoch != KeyAt(s.agents, i, p, j').epoch
      {
        assert AgentOk(s.agents[i]);
      }
    }
    if KeysFit(s) {
      forall i, p: Purpose | 0 <= i < |s.agents| && s.agents[i].Keys(p) != [] ensures KeysOk(s.agents[i].Keys(p)) {
        assert forall j :: 0 <= j < |s.agents[i].Keys(p)| ==>
          HasSlot(s.agents, i, p, j) && KeyAt(s.agents, i, p, j) == s.agents[i].Keys(p)[j];
      }
      hide KeysOk;
      forall i | 0 <= i < |s.agents| && s.agents[i].signing != [] && s.agents[i].encryption != []
        ensures KeysOk(s.agents[i].signing) && KeysOk(s.agents[i].encryption)
      {
        assert KeysOk(s.agents[i].Keys(Signing)) && KeysOk(s.agents[i].Keys(Encryption));
      }
    }
  }

  /**
   * A directory is valid exactly from one skew before its issuance to its expiry, signed by a quorum of its governance, with agents
   * of distinct IDs whose keys all differ in ID and, per purpose, in epoch, and with distinct audiences among its agents.
   */
  lemma DirectoryExactly(s: Snapshot, roots: Roots, now: int)
    ensures ValidDirectory(s, roots, now) <==>
      && 1 <= s.epoch <= 9_007_199_254_740_991 && 0 <= s.issued < s.expires <= 9_007_199_254_740_991
      && s.issued - 300_000 <= now < s.expires
      && (s.previous.Some? ==> s.previous.value.Sha256? || IsHex64(s.previous.value.text))
      && s.threshold == roots.threshold && QuorumSigned(s, roots)
      && s.agents != [] && s.audiences != []
      && (forall i, j :: 0 <= i < j < |s.agents| ==> s.agents[i].id != s.agents[j].id)
      && (forall i :: 0 <= i < |s.agents| ==> IsIdentifier(s.agents[i].id) && s.agents[i].signing != [] && s.agents[i].encryption != [])
      && KeysFit(s)
      && (forall i, p, j, i', p', j' ::
            HasSlot(s.agents, i, p, j) && HasSlot(s.agents, i', p', j') && KeyAt(s.agents, i, p, j).kid == KeyAt(s.agents, i', p', j').kid
            ==> i == i' && p == p' && j == j')
      && (forall i, j :: 0 <= i < j < |s.audiences| ==> s.audiences[i].key != s.audiences[j].key)
      && (forall i :: 0 <= i < |s.audiences| ==> AudienceFits(s, s.audiences[i]))
  {
    hide IsIdentifier, EachAgentOk, KeysFit, AudienceOk, AudienceFits, QuorumSigned, SignaturesOk, IsHex64, AgentIds;
    SignedExactly(s, roots);
    KeysExactly(s);
    if EachAgentOk(s.agents) {
      forall i | 0 <= i < |s.audiences| ensures AudienceOk(s.audiences[i], AgentIds(s.agents)) <==> AudienceFits(s, s.audiences[i]) {
        AudienceExactly(s, s.audiences[i]);
      }
    }
  }

  /** A directory once valid is valid at exactly the other times of its life. */
  lemma ValidWhile(s: Snapshot, roots: Roots, now: int, later: int)
    requires ValidDirectory(s, roots, now)
    ensures ValidDirectory(s, roots, later) <==> s.issued - 300_000 <= later < s.expires
  {
    hide SignaturesOk, AgentsOk, AudiencesOk;
  }

  /** One governance signature belongs to one directory: two valid ones that share it differ at most in their lists of signatures. */
  lemma SignatureFixesDirectory(s: Snapshot, roots: Roots, now: int, s': Snapshot, roots': Roots, now': int, i: nat, j: nat)
    requires ValidDirectory(s, roots, now) && ValidDirectory(s', roots', now')
    requires i < |s.signatures| && j < |s'.signatures| && s.signatures[i].value == s'.signatures[j].value
    ensures s' == s.(signatures := s'.signatures)
  {
    hide AgentsOk, AudiencesOk, HeaderOk, IsIdentifier;
    assert SignatureOk(s, roots, s.signatures[i]) && SignatureOk(s', roots', s'.signatures[j]);
    assert Unsigned(s) == Unsigned(s');
  }

  /** Roots can govern exactly when at least one signature is required and enough well-formed keys are there to give them. */
  lemma RootsExactly(roots: Roots)
    ensures RootsOk(roots) <==>
      && 1 <= roots.threshold <= 9_007_199_254_740_991 && roots.threshold <= |roots.keys|
      && (forall kid :: kid in roots.keys ==> IsIdentifier(kid) && |roots.keys[kid]| == 32)
  {
    hide IsIdentifier;
  }

  /** This key of the agent is active and in its window, and no such key of the agent has a greater epoch. */
  ghost predicate Newest(a: Agent, purpose: Purpose, time: int, k: Key) {
    && k in a.Keys(purpose) && InUse(k, time)
    && (forall other :: other in a.Keys(purpose) && InUse(other, time) ==> other.epoch <= k.epoch)
  }

  predicate InUse(k: Key, time: int) {
    k.status.Active? && k.notBefore <= time && (k.notAfter.Some? ==> time < k.notAfter.value)
  }

  /** The key selected for an agent is exactly its newest one in use, and only active agents have one. */
  lemma SelectsExactly(s: Snapshot, roots: Roots, now: int, i: nat, purpose: Purpose, time: int, k: Key)
    requires ValidDirectory(s, roots, now) && i < |s.agents|
    ensures ActiveKey(s, s.agents[i].id, purpose, time) == Some(k) <==>
      s.agents[i].status.ActiveAgent? && Newest(s.agents[i], purpose, time, k)
  {
    hide ValidDirectory, IsIdentifier, UniqueKids, BestKey, EachAgentOk;
    ValidAgents(s, roots, now);
    FindAgentAt(s.agents, i);
    KeysExactly(s);
    OnlyNewest(s, i, purpose, time, k);
  }

  lemma ValidAgents(s: Snapshot, roots: Roots, now: int)
    requires ValidDirectory(s, roots, now)
    ensures UniqueAgents(s.agents) && EachAgentOk(s.agents)
  {
  }

  lemma OnlyNewest(s: Snapshot, i: nat, purpose: Purpose, time: int, k: Key)
    requires KeysFit(s) && i < |s.agents|
    ensures BestKey(s.agents[i].Keys(purpose), time) == Some(k) <==> Newest(s.agents[i], purpose, time, k)
  {
    hide BestKey, IsIdentifier;
    var keys := s.agents[i].Keys(purpose);
    var best := BestKey(keys, time);
    if Newest(s.agents[i], purpose, time, k) && best.Some? {
      var m :| 0 <= m < |keys| && keys[m] == k;
      var n :| 0 <= n < |keys| && keys[n] == best.value;
      assert HasSlot(s.agents, i, purpose, m) && HasSlot(s.agents, i, purpose, n);
    }
  }

  lemma SignedExactly(s: Snapshot, roots: Roots)
    ensures SignaturesOk(s, roots) && |s.signatures| >= roots.threshold <==> QuorumSigned(s, roots)
  {
    hide IsIdentifier;
    assert forall g :: g in s.signatures <==> exists i :: 0 <= i < |s.signatures| && s.signatures[i] == g;
  }

  /** A client that holds a directory accepts exactly it, and its signed direct successors, while they are valid. */
  lemma LoadsExactly(held: Snapshot, roots: Roots, s: Snapshot, given: Roots, now: int)
    requires IsInteger(held.epoch, 1)
    ensures DirectoryStore.LoadOutcome(Some(DirectoryStore.StateOf(held, roots)), s, given, now).Ok? <==>
      && RootsOk(given) && ValidDirectory(s, given, now) && given == roots
      && (s == held || (s.epoch == held.epoch + 1 && s.previous == Some(Sha256(held))))
    ensures DirectoryStore.LoadOutcome(Some(DirectoryStore.StateOf(held, roots)), s, given, now).Ok? ==>
      DirectoryStore.LoadOutcome(Some(DirectoryStore.StateOf(held, roots)), s, given, now).value == DirectoryStore.StateOf(s, given)
  {
    hide RootsOk, ValidDirectory;
  }

  /** Why it refuses a valid directory: other roots, an older epoch, another directory of the same epoch, or no direct successor. */
  lemma LoadRefusedBecause(held: Snapshot, roots: Roots, s: Snapshot, given: Roots, now: int)
    requires IsInteger(held.epoch, 1) && RootsOk(given) && ValidDirectory(s, given, now)
    ensures var r := DirectoryStore.LoadOutcome(Some(DirectoryStore.StateOf(held, roots)), s, given, now);
      && (r == Err(DirectoryStore.RootsChanged) <==> given != roots)
      && (r == Err(DirectoryStore.Rollback) <==> given == roots && s.epoch < held.epoch)
      && (r == Err(DirectoryStore.SplitView) <==> given == roots && s.epoch == held.epoch && s != held)
      && (r == Err(DirectoryStore.Discontinuity) <==>
            given == roots && held.epoch < s.epoch && !(s.epoch == held.epoch + 1 && s.previous == Some(Sha256(held))))
  {
    hide RootsOk, ValidDirectory;
  }

  /** A client that holds nothing accepts exactly valid first directories. */
  lemma FirstLoadsExactly(s: Snapshot, roots: Roots, now: int)
    ensures var r := DirectoryStore.LoadOutcome(None, s, roots, now);
      && (r.Ok? <==> RootsOk(roots) && ValidDirectory(s, roots, now) && s.previous.None?)
      && (r.Ok? ==> r.value == DirectoryStore.StateOf(s, roots))
  {
    hide RootsOk, ValidDirectory;
  }

  // ---- routes ----

  /** Exactly these requests are routed: an admissible message of the caller's own, a claim for the caller, an acknowledgement by it. */
  lemma RoutedExactly(local: set<string>, s: Snapshot, path: string, w: Wrapper, now: int)
    ensures var agent := w.auth.body.agent;
      Service.RouteError(local, s, path, w, now).None? <==>
        || (&& path == "/v1/messages" && w.body.EnvelopeBody? && w.body.envelope.body.senderId == agent
            && Admits(w.body.envelope, ContextOf(s, Some(agent), None, now, {}))
            && Service.LocalityOk(agent, w.body.envelope.body.recipients, local))
        || (&& path == "/v1/claims" && w.body.ClaimBody? && w.body.recipient == agent
            && 1 <= w.body.limit <= 3 && 1000 <= w.body.leaseMs <= 900_000)
        || (&& path == "/v1/acks" && w.body.AckRequest? && w.body.ack.body.receiver == agent
            && AckError(w.body.ack, KeyTable(s.agents, Signing), now).None?)
  {
    hide BrokerError, AckError, ContextOf, KeyTable, Service.LocalityOk;
  }

  /** Why a request is not routed: what it names is not of its path, not its caller's, not admissible or not local. */
  lemma RouteComplaint(local: set<string>, s: Snapshot, path: string, w: Wrapper, now: int)
    ensures var agent, r := w.auth.body.agent, Service.RouteError(local, s, path, w, now);
      && (r == Some(Service.UnknownEndpoint) <==> path !in ["/v1/messages", "/v1/claims", "/v1/acks"])
      && (r == Some(Service.NotTheSender) <==> path == "/v1/messages" && w.body.EnvelopeBody? && w.body.envelope.body.senderId != agent)
      && (r.Some? && r.value.EnvelopeFailed? ==>
            w.body.EnvelopeBody? && BrokerError(w.body.envelope, ContextOf(s, Some(agent), None, now, {})) == Some(r.value.reason))
      && (r == Some(Service.LocalityViolated) ==> w.body.EnvelopeBody? && !Service.LocalityOk(agent, w.body.envelope.body.recipients, local))
      && (r == Some(Service.NotTheReceiver) ==>
            || (path == "/v1/claims" && w.body.ClaimBody? && w.body.recipient != agent)
            || (path == "/v1/acks" && w.body.AckRequest? && w.body.ack.body.receiver != agent))
      && (r.Some? && r.value.AckFailed? ==> w.body.AckRequest? && AckError(w.body.ack, KeyTable(s.agents, Signing), now) == Some(r.value.complaint))
  {
    hide BrokerError, AckError, ContextOf, KeyTable, Service.LocalityOk;
  }

  /** Only what is sent under a name ending in @localhost is kept on this machine, and then all of it. */
  lemma LocalityExactly(sender: string, recipients: seq<Recipient>, local: set<string>)
    ensures Service.LocalityOk(sender, recipients, local) <==>
      ((exists name :: sender == name + "@localhost") ==>
         sender in local && recipients != [] && forall i :: 0 <= i < |recipients| ==> recipients[i].id in local)
  {
    var suffix := "@localhost";
    if Service.IsLocalhost(sender) {
      assert sender == sender[..|sender| - |suffix|] + suffix;
    }
    assert recipients != [] ==> (RecipientIds(recipients) <= local <==> forall i :: 0 <= i < |recipients| ==> recipients[i].id in local);
  }

  /** The transaction carries the request's own arguments, under the directory's tables. */
  lemma EffectCarries(s: Snapshot, w: Wrapper, now: int, leases: seq<Uuid>)
    requires !w.body.OtherBody?
    ensures var op := Service.EffectOf(s, w, now, leases);
      && op.now == now
      && (w.body.EnvelopeBody? ==> op.EnqueueOp? && op.envelope == w.body.envelope && op.context == ContextOf(s, Some(w.auth.body.agent), None, now, {}))
      && (w.body.ClaimBody? ==>
            op.ClaimOp? && op.recipient == w.body.recipient && op.limit == w.body.limit && op.leaseMs == w.body.leaseMs && op.leases == leases)
      && (w.body.AckRequest? ==> op.AckOp? && op.ack == w.body.ack && op.keys == KeyTable(s.agents, Signing))
  {
    hide ContextOf, KeyTable;
  }

  /** An acknowledgement is genuine exactly when it is well formed, timely, and signed over its body by an active key of its receiver. */
  lemma GenuineExactly(ack: Ack, keys: map<string, OwnedKey>, now: int)
    ensures AckError(ack, keys, now).None? <==>
      && ack.body.schema == "tribe-ack/v1" && IsIdentifier(ack.body.receiver) && IsIdentifier(ack.body.signingKid)
      && ack.body.messageId.HasVersion(7) && ack.body.leaseId.HasVersion(4) && IsDigest(ack.body.envelope)
      && now - 300_000 <= ack.body.issued <= now + 300_000
      && ack.alg == "Ed25519" && ack.kid == ack.body.signingKid && ack.kid in keys
      && keys[ack.kid].owner == ack.body.receiver && keys[ack.kid].key.status.Active?
      && Verifies(ack.value, keys[ack.kid].key.publicKey, ack.body)
  {
    hide IsIdentifier;
  }

  /** A request is authentic exactly when it is for this call, fresh, about this body, and signed by an active key of its agent in force at issuance and now. */
  lemma AuthenticExactly(w: Wrapper, table: map<string, OwnedKey>, verb: string, path: string, now: int)
    ensures var a := w.auth.body;
      RequestError(w, table, verb, path, now).None? <==>
        && a.schema == "tribe-http-auth/v1" && a.verb == verb && a.path == path && a.body == Sha256(w.body)
        && IsIdentifier(a.agent) && IsIdentifier(a.signingKid) && a.request.HasVersion(7)
        && a.issued - 300_000 <= now < a.expires && a.issued < a.expires <= a.issued + 120_000
        && w.auth.alg == "Ed25519" && w.auth.kid == a.signingKid && a.signingKid in table
        && table[a.signingKid].owner == a.agent && table[a.signingKid].key.status.Active?
        && InWindow(table[a.signingKid].key, a.issued) && InWindow(table[a.signingKid].key, now)
        && Verifies(w.auth.value, table[a.signingKid].key.publicKey, a)
  {
    hide IsIdentifier, InWindow;
  }
}
