/** What a rotation does to traffic: nothing admitted before the cut is stranded, nothing signed by or wrapped to
    a replaced key is admitted after it. */
module RotationTraffic {
  import opened Wrappers
  import opened Text
  import opened Sorting
  import opened Directory
  import opened Protocol
  import opened DirectoryContext
  import opened Rotation
  import opened RotationValidity

  /** A key ID some announcement replaces for the given purpose. */
  ghost predicate Replaced(base: Snapshot, verified: map<string, Announcement>, purpose: Purpose, kid: string) {
    exists i :: 0 <= i < |base.agents| && base.agents[i].id in verified && verified[base.agents[i].id].terms.Previous(purpose) == kid
  }

  /** The successor once governance has signed it. */
  ghost function Signed(base: Snapshot, verified: map<string, Announcement>, issued: int, c: Ceremony, signatures: seq<GovernanceSignature>): Snapshot {
    Candidate(base, verified, issued, c.activation).(signatures := signatures)
  }

  /** A replaced key belongs to the agent that announced its replacement. */
  lemma ReplacedOwner(base: Snapshot, roots: Roots, verified: map<string, Announcement>, c: Ceremony, i: nat, purpose: Purpose, j: nat)
    requires Ready(base, roots, verified, c) && HasSlot(base.agents, i, purpose, j)
    ensures var kid := KeyAt(base.agents, i, purpose, j).kid;
      Replaced(base, verified, purpose, kid) <==>
        base.agents[i].id in verified && verified[base.agents[i].id].terms.Previous(purpose) == kid
  {
    hide Ready, AgentOk, IsIdentifier;
    ReadyBase(base, roots, verified, c);
    var kid := KeyAt(base.agents, i, purpose, j).kid;
    if Replaced(base, verified, purpose, kid) {
      var m :| 0 <= m < |base.agents| && base.agents[m].id in verified && verified[base.agents[m].id].terms.Previous(purpose) == kid;
      var n := Announced(base, roots, verified, c, m, purpose);
      assert HasSlot(base.agents, m, purpose, n);
    }
  }

  /** Every base key survives under the same ID and owner; its window is cut exactly when it is replaced. */
  ghost predicate Survives(before: OwnedKey, after: OwnedKey, replaced: bool, activation: int) {
    && after.owner == before.owner
    && after.key.status == before.key.status
    && after.key.publicKey == before.key.publicKey
    && forall time {:trigger InWindow(after.key, time)} ::
        InWindow(after.key, time) <==> InWindow(before.key, time) && (replaced ==> time < activation)
  }

  lemma KeysSurvive(base: Snapshot, roots: Roots, verified: map<string, Announcement>, c: Ceremony, issued: int,
      signatures: seq<GovernanceSignature>, purpose: Purpose, kid: string)
    requires Ready(base, roots, verified, c) && kid in KeyTable(base.agents, purpose)
    ensures kid in KeyTable(Signed(base, verified, issued, c, signatures).agents, purpose)
    ensures Survives(
      KeyTable(base.agents, purpose)[kid],
      KeyTable(Signed(base, verified, issued, c, signatures).agents, purpose)[kid],
      Replaced(base, verified, purpose, kid),
      c.activation)
  {
    hide Ready, AgentOk, IsIdentifier, Replaced, KeyTable, UniqueKids;
    var after := Signed(base, verified, issued, c, signatures).agents;
    var expiry := issued + ROTATION_VALIDITY_DAYS * MS_PER_DAY;
    ReadyBase(base, roots, verified, c);
    RotatedUnique(base, roots, verified, c, expiry);
    KeyTableMeaning(base.agents, purpose, kid);
    KeyTableMeaning(after, purpose, kid);
    var i, j :| HasSlot(base.agents, i, purpose, j) && KeyAt(base.agents, i, purpose, j).kid == kid
      && KeyTable(base.agents, purpose)[kid] == OwnedKey(base.agents[i].id, KeyAt(base.agents, i, purpose, j));
    ReplacedOwner(base, roots, verified, c, i, purpose, j);
    if base.agents[i].id in verified {
      RotatedKeys(base.agents[i], verified, c.activation, expiry, purpose);
      ReadyEnds(base, roots, verified, c, i, purpose);
    }
    assert HasSlot(after, i, purpose, j);
  }

  /** From the activation on, broker admission refuses every envelope signed by or wrapped to a replaced key,
      whatever issuance it claims. */
  lemma ReplacedKeysAreFenced(base: Snapshot, roots: Roots, verified: map<string, Announcement>, c: Ceremony, issued: int,
      signatures: seq<GovernanceSignature>, e: Envelope, sender: Option<string>, now: int, seen: set<(string, Uuid)>)
    requires Ready(base, roots, verified, c) && c.activation <= now
    requires
      || Replaced(base, verified, Signing, e.body.signingKid)
      || exists r :: r in e.body.recipients && Replaced(base, verified, Encryption, r.encryptionKid)
    ensures !Admits(e, ContextOf(Signed(base, verified, issued, c, signatures), sender, None, now, seen))
  {
    hide Ready, StructureError, SignerError, TimeError, Replaced, KeyTable, AuthorizedKeys, ShownMembers;
    if Replaced(base, verified, Signing, e.body.signingKid) {
      ReplacedIsKnown(base, roots, verified, c, Signing, e.body.signingKid);
      KeysSurvive(base, roots, verified, c, issued, signatures, Signing, e.body.signingKid);
    } else {
      var r :| r in e.body.recipients && Replaced(base, verified, Encryption, r.encryptionKid);
      var n :| 0 <= n < |e.body.recipients| && e.body.recipients[n] == r;
      ReplacedIsKnown(base, roots, verified, c, Encryption, r.encryptionKid);
      KeysSurvive(base, roots, verified, c, issued, signatures, Encryption, r.encryptionKid);
    }
  }

  lemma ReplacedIsKnown(base: Snapshot, roots: Roots, verified: map<string, Announcement>, c: Ceremony, purpose: Purpose, kid: string)
    requires Ready(base, roots, verified, c) && Replaced(base, verified, purpose, kid)
    ensures kid in KeyTable(base.agents, purpose)
  {
    hide Ready, AgentOk, IsIdentifier, UniqueKids;
    ReadyBase(base, roots, verified, c);
    var i :| 0 <= i < |base.agents| && base.agents[i].id in verified && verified[base.agents[i].id].terms.Previous(purpose) == kid;
    var j := Announced(base, roots, verified, c, i, purpose);
    assert HasSlot(base.agents, i, purpose, j);
    KeyTableMeaning(base.agents, purpose, kid);
  }

  lemma RecipientsDistinct(a: Audience, ids: set<string>)
    requires AudienceOk(a, ids)
    ensures a.Recipients() != [] && Distinct(a.Recipients())
  {
    var all := a.Recipients();
    forall i, j | 0 <= i < j < |all|
      ensures all[i] != all[j]
    {
      if a.observers.Some? && i < |a.members| <= j {
        assert all[j] == a.observers.value[j - |a.members|] && all[j] in a.observers.value;
      }
    }
  }

  /** The audience facts an admission establishes for each recipient. */
  lemma AdmittedAudience(base: Snapshot, e: Envelope, sender: Option<string>, now: int, seen: set<(string, Uuid)>, receiver: string)
    requires AudiencesOk(base.audiences, AgentIds(base.agents))
    requires Admits(e, ContextOf(base, sender, None, now, seen)) && receiver in RecipientIds(e.body.recipients)
    ensures var table := AudienceTable(base.audiences);
      && e.body.audience in ReadableKeys(table, Some(receiver))
      && e.body.audience in ShownMembers(table, Some(receiver))
      && ShownMembers(table, Some(receiver))[e.body.audience] != []
      && Distinct(ShownMembers(table, Some(receiver))[e.body.audience])
      && RecipientIds(e.body.recipients) == NameSet(ShownMembers(table, Some(receiver))[e.body.audience])
  {
    hide StructureError, SignerError, TimeError, KeyTable, AudienceTable, AudienceOk, KeyIsValid;
    AudienceTableMeaning(base.audiences);
    var a := AudienceTable(base.audiences)[e.body.audience];
    assert a in base.audiences;
    RecipientsDistinct(a, AgentIds(base.agents));
    assert receiver in a.Recipients();
  }

  /** An envelope admitted under the base is received under the successor at every later time before it expires
      exactly when its issuance lies in the wrap key's window and, for each replaced key it uses, before the activation. */
  lemma AdmittedTrafficReceived(base: Snapshot, roots: Roots, verified: map<string, Announcement>, c: Ceremony, issued: int,
      signatures: seq<GovernanceSignature>, e: Envelope, admitted: int, seen: set<(string, Uuid)>,
      n: nat, later: int, seen': set<(string, Uuid)>)
    requires Ready(base, roots, verified, c)
    requires Admits(e, ContextOf(base, Some(e.body.senderId), None, admitted, seen))
    requires n < |e.body.recipients|
    requires admitted <= later < e.body.expires && (e.body.senderId, e.body.messageId) !in seen'
    ensures var wrap := e.body.recipients[n];
      && wrap.encryptionKid in KeyTable(base.agents, Encryption)
      && (Receives(e, ContextOf(Signed(base, verified, issued, c, signatures), None, Some(wrap.id), later, seen')) <==>
          && InWindow(KeyTable(base.agents, Encryption)[wrap.encryptionKid].key, e.body.issued)
          && (Replaced(base, verified, Signing, e.body.signingKid) ==> e.body.issued < c.activation)
          && (Replaced(base, verified, Encryption, wrap.encryptionKid) ==> e.body.issued < c.activation))
  {
    hide Ready, Replaced, KeyTable, AudienceTable, AuthorizedKeys, ReadableKeys, ShownMembers, RecipientIds, NameSet, InWindow, AudiencesOk;
    var wrap := e.body.recipients[n];
    StructureFacts(e);
    ReadyAudiences(base, roots, verified, c);
    IdOf(e.body.recipients, n);
    AdmittedAudience(base, e, Some(e.body.senderId), admitted, seen, wrap.id);
    OneWrap(e.body.recipients, n);
    AdmittedKeys(base, e, Some(e.body.senderId), admitted, seen, n);
    KeysSurvive(base, roots, verified, c, issued, signatures, Signing, e.body.signingKid);
    KeysSurvive(base, roots, verified, c, issued, signatures, Encryption, wrap.encryptionKid);
    ReceivesMeans(e, ContextOf(Signed(base, verified, issued, c, signatures), None, Some(wrap.id), later, seen'), wrap);
  }

  lemma ReadyAudiences(base: Snapshot, roots: Roots, verified: map<string, Announcement>, c: Ceremony)
    requires Ready(base, roots, verified, c)
    ensures AudiencesOk(base.audiences, AgentIds(base.agents))
  {
    hide AnnouncementOk, AllEndAfter, AudienceOk, AgentsOk;
  }

  lemma IdOf(recipients: seq<Recipient>, n: nat)
    requires n < |recipients|
    ensures recipients[n].id in RecipientIds(recipients)
  {
  }

  lemma StructureFacts(e: Envelope)
    ensures StructureError(e).None? ==> UniqueRecipients(e.body.recipients)
  {
  }

  /** What admission says about the keys an envelope uses. */
  lemma AdmittedKeys(base: Snapshot, e: Envelope, sender: Option<string>, now: int, seen: set<(string, Uuid)>, n: nat)
    requires Admits(e, ContextOf(base, sender, None, now, seen)) && n < |e.body.recipients|
    ensures StructureError(e).None?
    ensures e.body.issued <= now + MAX_CLOCK_SKEW_MS
    ensures var keys := KeyTable(base.agents, Signing);
      && e.body.signingKid in keys
      && keys[e.body.signingKid].owner == e.body.senderId
      && keys[e.body.signingKid].key.status.Active?
      && InWindow(keys[e.body.signingKid].key, e.body.issued)
      && Verifies(e.value, keys[e.body.signingKid].key.publicKey, e.body)
    ensures KeyIsValid(KeyTable(base.agents, Encryption), e.body.recipients[n].encryptionKid, e.body.recipients[n].id, now, false)
  {
    hide StructureError, KeyTable, AuthorizedKeys, ShownMembers, InWindow, Verifies, RecipientIds, NameSet;
  }

  /** Endpoint receive, spelled out for an envelope whose audience checks pass. */
  lemma ReceivesMeans(e: Envelope, c: Context, wrap: Recipient)
    requires c.receiver == Some(wrap.id) && WrapsFor(e.body.recipients, wrap.id) == [wrap]
    requires e.body.audience in c.receiverAudiences && e.body.audience in c.members
    requires c.members[e.body.audience] != [] && Distinct(c.members[e.body.audience])
    requires RecipientIds(e.body.recipients) == NameSet(c.members[e.body.audience])
    requires StructureError(e).None? && TimeError(e, c).None?
    ensures Receives(e, c) <==> SignerError(e, c).None? && KeyIsValid(c.encryptionKeys, wrap.encryptionKid, wrap.id, e.body.issued, true)
  {
    hide StructureError, TimeError, SignerError, KeyIsValid, RecipientIds, NameSet;
  }
}
