/** Round trip of an announcement: what an agent prepares, governance verifies. */
module RotationPrepare {
  import opened Wrappers
  import opened Text
  import opened Directory
  import opened Rotation
  import opened RotationValidity

  /** A prepared announcement verifies on the same base at every time of its life, exactly when its two successor key IDs
      are identifiers; preparation itself never checks their length. */
  lemma PreparedVerifies(base: Snapshot, roots: Roots, agentId: string, signingKid: string, c: Ceremony, expires: int, draw: Draw, later: int)
    requires Prepare(base, roots, agentId, signingKid, c, expires, draw).Some?
    requires |draw.signing| == 32 && |draw.encryption| == 32 && |draw.nonce| == 24
    requires ValidDirectory(base, roots, later) && c.now <= later + MAX_CLOCK_SKEW_MS && later < expires
    ensures var a := Prepare(base, roots, agentId, signingKid, c, expires, draw).value;
      AnnouncementOk(base, roots, a, c.(now := later)) <==> IsIdentifier(a.terms.nextSigning.kid) && IsIdentifier(a.terms.nextEncryption.kid)
  {
    hide ValidDirectory, IsIdentifier, AuthorizedByCurrentKeys, SuccessorOk, KnownKid, KeyId, ActiveKey, MaxEpoch;
    PreparedAuthorized(base, roots, agentId, signingKid, c, expires, draw);
    PreparedSuccessors(base, roots, agentId, signingKid, c, expires, draw);
  }

  /**
   * An announcement is prepared exactly while the base is valid and both of the agent's keys are selected, the signing key being
   * the caller's, for representable times at most seven days apart that end before the activation, when the next epochs fit
   * and their key IDs are unused.
   */
  lemma PreparesExactly(base: Snapshot, roots: Roots, agentId: string, signingKid: string, c: Ceremony, expires: int, draw: Draw)
    ensures Prepare(base, roots, agentId, signingKid, c, expires, draw).Some? <==>
      && IsIdentifier(c.id) && 1 <= c.now < expires <= c.activation <= 9_007_199_254_740_991 && expires <= c.now + 7 * 24 * 60 * 60 * 1000
      && ValidDirectory(base, roots, c.now)
      && ActiveKey(base, agentId, Signing, c.now).Some? && ActiveKey(base, agentId, Signing, c.now).value.kid == signingKid
      && ActiveKey(base, agentId, Encryption, c.now).Some?
      && exists i :: 0 <= i < |base.agents| && base.agents[i].id == agentId
                     && RoomFor(base, base.agents[i], Signing) && RoomFor(base, base.agents[i], Encryption)
  {
    hide IsIdentifier, ActiveKey, KnownKid, KeyId, ValidDirectory, MaxEpoch;
    if ValidDirectory(base, roots, c.now) && ActiveKey(base, agentId, Signing, c.now).Some? {
      var i := SelectedAgent(base, roots, agentId, c.now);
    }
  }

  lemma SelectedAgent(base: Snapshot, roots: Roots, agentId: string, now: int) returns (i: nat)
    requires ValidDirectory(base, roots, now) && ActiveKey(base, agentId, Signing, now).Some?
    ensures i < |base.agents| && base.agents[i].id == agentId && FindAgent(base.agents, agentId) == Some(base.agents[i])
    ensures forall j :: 0 <= j < |base.agents| && base.agents[j].id == agentId ==> j == i
    ensures KeysOk(base.agents[i].signing) && 1 <= MaxEpoch(base.agents[i].signing)
    ensures KeysOk(base.agents[i].encryption) && 1 <= MaxEpoch(base.agents[i].encryption)
  {
    hide ValidDirectory, IsIdentifier, UniqueKids, MaxEpoch, BestKey, KeysOk;
    BaseFacts(base, roots, now);
    var agent := FindAgent(base.agents, agentId).value;
    i :| 0 <= i < |base.agents| && base.agents[i] == agent;
    AgentShape(base.agents, i);
    EpochsFrom(agent.signing);
    EpochsFrom(agent.encryption);
  }

  /** The announcement carries what its agent drew and was asked for. */
  lemma PreparedCarries(base: Snapshot, roots: Roots, agentId: string, signingKid: string, c: Ceremony, expires: int, draw: Draw)
    requires Prepare(base, roots, agentId, signingKid, c, expires, draw).Some?
    ensures var t := Prepare(base, roots, agentId, signingKid, c, expires, draw).value.terms;
      && t.agentId == agentId && t.ceremonyId == c.id && t.signerKid == signingKid
      && t.issued == c.now && t.expires == expires && t.activation == c.activation
      && t.nextSigning.publicKey == draw.signing && t.nextEncryption.publicKey == draw.encryption && t.nonce == draw.nonce
  {
    hide IsIdentifier, ActiveKey, KnownKid, KeyId, ValidDirectory, MaxEpoch;
  }

  /** The next epoch of this purpose is representable and its key ID unused. */
  predicate RoomFor(base: Snapshot, agent: Agent, purpose: Purpose) {
    var keys := agent.Keys(purpose);
    && keys != [] && 0 <= MaxEpoch(keys) < 9_007_199_254_740_991
    && !KnownKid(base, KeyId(agent.id, if purpose.Signing? then "sig" else "enc", MaxEpoch(keys) + 1))
  }

  lemma EpochsFrom(keys: seq<Key>)
    requires KeysOk(keys)
    ensures 1 <= MaxEpoch(keys)
  {
    hide IsIdentifier;
    var highest := MaxEpoch(keys);
    var k :| k in keys && k.epoch == highest;
    var m :| 0 <= m < |keys| && keys[m] == k;
  }

  lemma PreparedAuthorized(base: Snapshot, roots: Roots, agentId: string, signingKid: string, c: Ceremony, expires: int, draw: Draw)
    requires Prepare(base, roots, agentId, signingKid, c, expires, draw).Some?
    ensures AuthorizedByCurrentKeys(base, Prepare(base, roots, agentId, signingKid, c, expires, draw).value)
  {
    hide ValidDirectory, IsIdentifier, KnownKid, KeyId, ActiveKey, MaxEpoch, FindAgent;
  }

  /** The announced keys are the next ones; only the length of their IDs is left open. */
  lemma PreparedSuccessors(base: Snapshot, roots: Roots, agentId: string, signingKid: string, c: Ceremony, expires: int, draw: Draw)
    requires Prepare(base, roots, agentId, signingKid, c, expires, draw).Some?
    requires |draw.signing| == 32 && |draw.encryption| == 32
    ensures var t := Prepare(base, roots, agentId, signingKid, c, expires, draw).value.terms;
      var agent := FindAgent(base.agents, agentId);
      && agent.Some? && agent.value.status.ActiveAgent? && IsIdentifier(agentId)
      && (SuccessorOk(base, agent.value, Signing, t.nextSigning) <==> IsIdentifier(t.nextSigning.kid))
      && (SuccessorOk(base, agent.value, Encryption, t.nextEncryption) <==> IsIdentifier(t.nextEncryption.kid))
  {
    hide ValidDirectory, IsIdentifier, KnownKid, KeyId, BestKey, MaxEpoch;
    BaseFacts(base, roots, c.now);
    var agent := FindAgent(base.agents, agentId).value;
    var i :| 0 <= i < |base.agents| && base.agents[i] == agent;
    AgentShape(base.agents, i);
  }

  lemma AgentShape(agents: seq<Agent>, i: nat)
    requires EachAgentOk(agents) && i < |agents|
    ensures IsIdentifier(agents[i].id) && KeysOk(agents[i].signing) && KeysOk(agents[i].encryption)
  {
    assert AgentOk(agents[i]);
  }

  /** An agent with a 128-character ID prepares key IDs that are too long to verify. */
  lemma LongIdKeyIdRejected(agentId: string, tag: string, epoch: nat)
    requires |agentId| == 128
    ensures !IsIdentifier(KeyId(agentId, tag, epoch))
  {
  }
}
