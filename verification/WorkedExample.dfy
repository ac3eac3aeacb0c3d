/** One small directory taken through rotation and through recovery, with success and with each failure the exact conditions name. */
module WorkedExample {
  import opened Wrappers
  import opened Text
  import opened Directory
  import opened DirectoryContext
  import opened Rotation
  import opened RotationValidity
  import opened RotationOrder
  import opened RotationPrepare
  import opened Recovery
  import opened RecoveryProofs
  import Sample

  const NOW := Sample.T0
  const DAY := Sample.DAY
  const ROOTS := Sample.ROOTS

  /** Two signing and two encryption keys, all usable; the second of each survives a compromise of the first. */
  function AgentNamed(id: string): Agent {
    Agent(id, ActiveAgent,
      [Key("s1", 1, Sample.Filled(32, 1), Active, 0, None), Key("s2", 2, Sample.Filled(32, 2), Active, 0, None)],
      [Key("e1", 1, Sample.Filled(32, 3), Active, 0, None), Key("e2", 2, Sample.Filled(32, 4), Active, 0, None)])
  }

  function AudienceOf(id: string): Audience {
    Audience(AudienceKey(AudienceName(Direct, id), 1), ActiveAudience, [id], [id], None)
  }

  function Unsealed(id: string, epoch: int): Snapshot {
    Snapshot(epoch, NOW, NOW + 40 * DAY, None, [AgentNamed(id)], [AudienceOf(id)], 1, [])
  }

  function Base(id: string, epoch: int): Snapshot {
    Unsealed(id, epoch).(signatures := [GovernanceSignature("g", "Ed25519", Ed25519(Sample.ROOT_KEY, Unsealed(id, epoch), 0))])
  }

  /** An agent ID as long as an identifier may be. */
  const LONG := seq(128, i => 'a')

  lemma LongIsIdentifier()
    ensures IsIdentifier(LONG) && |LONG| == 128
  {
  }

  lemma KeysAreFine(id: string)
    requires IsIdentifier(id)
    ensures AgentOk(AgentNamed(id)) && IsIdentifier("g")
  {
    assert IsIdentifier("s1") && IsIdentifier("s2") && IsIdentifier("e1") && IsIdentifier("e2") && IsIdentifier("g");
    hide IsIdentifier;
  }

  lemma KidsAreUnique(id: string)
    ensures UniqueKids([AgentNamed(id)])
  {
    var agents := [AgentNamed(id)];
    assert agents[0].signing[0].kid[0] == 's' && agents[0].encryption[0].kid[0] == 'e';
    assert "s1"[1] == '1' && "s2"[1] == '2' && "e1"[1] == '1' && "e2"[1] == '2';
    assert "s1"[0] == 's' && "s2"[0] == 's' && "e1"[0] == 'e' && "e2"[0] == 'e';
  }

  lemma AudienceIsFine(id: string)
    requires IsIdentifier(id)
    ensures AudienceOk(AudienceOf(id), AgentIds([AgentNamed(id)]))
  {
    var agents := [AgentNamed(id)];
    assert agents[0].id in AgentIds(agents);
    hide IsIdentifier;
  }

  lemma BaseIsValid(id: string, epoch: int, now: int)
    requires IsIdentifier(id) && IsInteger(epoch, 1) && NOW <= now < NOW + 40 * DAY
    ensures ValidDirectory(Base(id, epoch), ROOTS, now)
  {
    KeysAreFine(id);
    KidsAreUnique(id);
    AudienceIsFine(id);
    assert Unsigned(Base(id, epoch)) == Unsealed(id, epoch);
    hide AgentOk, UniqueKids, AudienceOk, IsIdentifier, AgentIds;
  }

  // ---- rotation ----

  const CEREMONY := Ceremony("c", NOW + 7 * DAY, NOW)
  const DRAW := Draw(Sample.Filled(32, 5), Sample.Filled(32, 6), Sample.Filled(24, 7))

  lemma Selected(id: string, epoch: int, purpose: Purpose, time: int)
    requires time >= 0
    ensures ActiveKey(Base(id, epoch), id, purpose, time) == Some(AgentNamed(id).Keys(purpose)[1])
    ensures FindAgent(Base(id, epoch).agents, id) == Some(AgentNamed(id))
  {
    var keys := AgentNamed(id).Keys(purpose);
    assert Base(id, epoch).agents == [AgentNamed(id)];
    assert FindAgent([AgentNamed(id)], id) == Some(AgentNamed(id));
    assert keys[..1][..0] == [];
    assert BestKey(keys[..1], time) == Some(keys[0]);
    assert BestKey(keys, time) == Some(keys[1]);
  }

  lemma NextKidUnknown(id: string, epoch: int, purpose: Purpose)
    ensures !KnownKid(Base(id, epoch), KeyId(id, Tag(purpose), 3))
    ensures MaxEpoch(AgentNamed(id).Keys(purpose)) == 2
  {
    var kid, agents := KeyId(id, Tag(purpose), 3), Base(id, epoch).agents;
    assert |kid| > 2;
    KidsAreUnique(id);
    KeyTableMeaning(agents, Signing, kid);
    KeyTableMeaning(agents, Encryption, kid);
    assert forall k :: k in AgentNamed(id).signing ==> |k.kid| == 2;
    assert forall k :: k in AgentNamed(id).encryption ==> |k.kid| == 2;
    assert forall i, p, j :: HasSlot(agents, i, p, j) ==> KeyAt(agents, i, p, j) in AgentNamed(id).Keys(p);
  }

  lemma ShortKidIsIdentifier(purpose: Purpose)
    ensures IsIdentifier(KeyId("a", Tag(purpose), 3))
  {
    var kid := KeyId("a", Tag(purpose), 3);
    assert Decimal(3) == "3";
    assert |kid| == 7 && kid[0] == 'a' && kid[1] == '/' && kid[5] == '/' && kid[6] == '3';
    assert kid[2..5] == Tag(purpose);
    assert forall i :: 2 <= i < 5 ==> kid[i] == Tag(purpose)[i - 2];
  }

  /** The agent's announcement for the ceremony. */
  ghost function Offer(id: string, epoch: int): Option<Announcement> {
    Prepare(Base(id, epoch), ROOTS, id, "s2", CEREMONY, NOW + 6 * DAY, DRAW)
  }

  lemma OfferIsPrepared(id: string, epoch: int)
    requires IsIdentifier(id) && IsInteger(epoch, 1)
    ensures Offer(id, epoch).Some?
    ensures var t := Offer(id, epoch).value.terms;
      && t.agentId == id && t.issued == NOW
      && t.nextSigning == PublicKey(KeyId(id, "sig", 3), 3, DRAW.signing)
      && t.nextEncryption == PublicKey(KeyId(id, "enc", 3), 3, DRAW.encryption)
  {
    BaseIsValid(id, epoch, NOW);
    Selected(id, epoch, Signing, NOW);
    Selected(id, epoch, Encryption, NOW);
    NextKidUnknown(id, epoch, Signing);
    NextKidUnknown(id, epoch, Encryption);
    hide ValidDirectory, ActiveKey, KnownKid, KeyId, MaxEpoch, FindAgent, IsIdentifier, Prepare, Base;
    Prepares(Base(id, epoch), AgentNamed(id), AgentNamed(id).signing[1], AgentNamed(id).encryption[1]);
  }

  /** Preparation succeeds where the base is valid, both keys are selected and the next key IDs are not taken. */
  lemma Prepares(base: Snapshot, a: Agent, signing: Key, encryption: Key)
    requires ValidDirectory(base, ROOTS, NOW) && FindAgent(base.agents, a.id) == Some(a)
    requires ActiveKey(base, a.id, Signing, NOW) == Some(signing) && signing.kid == "s2"
    requires ActiveKey(base, a.id, Encryption, NOW) == Some(encryption)
    requires a.signing != [] && a.encryption != [] && MaxEpoch(a.signing) == 2 && MaxEpoch(a.encryption) == 2
    requires !KnownKid(base, KeyId(a.id, "sig", 3)) && !KnownKid(base, KeyId(a.id, "enc", 3))
    ensures var r := Prepare(base, ROOTS, a.id, "s2", CEREMONY, NOW + 6 * DAY, DRAW);
      && r.Some? && r.value.terms.agentId == a.id && r.value.terms.issued == NOW
      && r.value.terms.nextSigning == PublicKey(KeyId(a.id, "sig", 3), 3, DRAW.signing)
      && r.value.terms.nextEncryption == PublicKey(KeyId(a.id, "enc", 3), 3, DRAW.encryption)
  {
    CeremonyIsNamed();
    hide ValidDirectory, ActiveKey, KnownKid, KeyId, MaxEpoch, FindAgent, IsIdentifier, ROOTS, DRAW;
  }

  lemma CeremonyIsNamed()
    ensures IsIdentifier(CEREMONY.id)
  {
    assert IsIdentifier("c");
  }

  lemma OfferVerifies(epoch: int)
    requires IsInteger(epoch, 1)
    ensures Offer("a", epoch).Some? && AnnouncementOk(Base("a", epoch), ROOTS, Offer("a", epoch).value, CEREMONY)
    ensures Offer("a", epoch).value.terms.agentId == "a" && Offer("a", epoch).value.terms.issued == NOW
  {
    assert IsIdentifier("a");
    ShortKidIsIdentifier(Signing);
    ShortKidIsIdentifier(Encryption);
    hide ValidDirectory, Prepare, AnnouncementOk, KeyId, IsIdentifier, KnownKid;
    OfferIsPrepared("a", epoch);
    BaseIsValid("a", epoch, NOW);
    PreparedVerifies(Base("a", epoch), ROOTS, "a", "s2", CEREMONY, NOW + 6 * DAY, DRAW, NOW);
  }

  /** An agent with a 128-character ID prepares an announcement that no ceremony of its life accepts. */
  lemma LongNameNeverVerifies(later: int)
    requires NOW <= later < NOW + 6 * DAY
    ensures ValidDirectory(Base(LONG, 1), ROOTS, later)
    ensures Offer(LONG, 1).Some? && !AnnouncementOk(Base(LONG, 1), ROOTS, Offer(LONG, 1).value, CEREMONY.(now := later))
  {
    LongIsIdentifier();
    LongIdKeyIdRejected(LONG, "sig", 3);
    hide ValidDirectory, Prepare, AnnouncementOk, KeyId, IsIdentifier;
    OfferIsPrepared(LONG, 1);
    BaseIsValid(LONG, 1, later);
    PreparedVerifies(Base(LONG, 1), ROOTS, LONG, "s2", CEREMONY, NOW + 6 * DAY, DRAW, later);
  }

  lemma OneAnnouncement(epoch: int, a: Announcement)
    requires a.terms.agentId == "a" && AnnouncementOk(Base("a", epoch), ROOTS, a, CEREMONY)
    ensures AllVerify(Base("a", epoch), ROOTS, [a], CEREMONY) && NoTwice([a]) && Files(map["a" := a], [a])
    ensures Names([a]) == ["a"] == ActiveIds(Base("a", epoch).agents)
  {
    hide AnnouncementOk;
    var anns := [a];
    assert anns[0] in anns;
    assert Base("a", epoch).agents == [AgentNamed("a")];
  }

  /** Every condition of composition but the numbers. */
  lemma AllButNumbers(epoch: int, a: Announcement)
    requires a.terms.agentId == "a" && a.terms.issued == NOW
    ensures AllEndAfter(Base("a", epoch).agents, map["a" := a], CEREMONY.activation) && Latest(map["a" := a], NOW)
    ensures CEREMONY.activation + DEFAULT_DRAIN_MS < NOW + ROTATION_VALIDITY_DAYS * MS_PER_DAY
  {
    hide EndsAfter;
    assert Base("a", epoch).agents == [AgentNamed("a")];
    EndsLater(a.terms.previousSigningKid, a.terms.previousEncryptionKid);
    var verified := map["a" := a];
    assert "a" in verified && verified["a"].terms.issued == NOW;
  }

  lemma EndsLater(signingKid: string, encryptionKid: string)
    ensures EndsAfter(AgentNamed("a").signing, signingKid, CEREMONY.activation)
    ensures EndsAfter(AgentNamed("a").encryption, encryptionKid, CEREMONY.activation)
  {
  }

  /** The agent announces, and composition yields a candidate: every premise of the rotation results holds here. */
  lemma RotationHappens()
    ensures Offer("a", 1).Some?
    ensures Compose(Base("a", 1), ROOTS, [Offer("a", 1).value], CEREMONY).Ok?
    ensures Ready(Base("a", 1), ROOTS, map["a" := Offer("a", 1).value], CEREMONY)
  {
    hide AnnouncementOk, Offer, Compose, Ready, Candidate, AllVerify, NoTwice, Files, Latest, AllEndAfter, Names, ActiveIds;
    OfferVerifies(1);
    var a := Offer("a", 1).value;
    OneAnnouncement(1, a);
    AllButNumbers(1, a);
    ComposeExactly(Base("a", 1), ROOTS, [a], CEREMONY, map["a" := a], NOW);
  }

  /** At the last representable epoch the same ceremony ends at the final validation: the successor's epoch does not fit. */
  lemma RotationRunsOutOfEpochs()
    ensures ValidDirectory(Base("a", MAX_INTEGER), ROOTS, NOW)
    ensures Offer("a", MAX_INTEGER).Some?
    ensures Ready(Base("a", MAX_INTEGER), ROOTS, map["a" := Offer("a", MAX_INTEGER).value], CEREMONY)
    ensures !ValidCandidate(
      Candidate(Base("a", MAX_INTEGER), map["a" := Offer("a", MAX_INTEGER).value], NOW, CEREMONY.activation), ROOTS, NOW)
    ensures Compose(Base("a", MAX_INTEGER), ROOTS, [Offer("a", MAX_INTEGER).value], CEREMONY) == Err(InvalidCandidate)
  {
    assert IsIdentifier("a");
    BaseIsValid("a", MAX_INTEGER, NOW);
    hide AnnouncementOk, Offer, Compose, Ready, Candidate, AllVerify, NoTwice, Files, Latest, AllEndAfter, Names, ActiveIds, SortIds,
      ValidDirectory, ValidCandidate, IsIdentifier;
    OfferVerifies(MAX_INTEGER);
    var base, a := Base("a", MAX_INTEGER), Offer("a", MAX_INTEGER).value;
    OneAnnouncement(MAX_INTEGER, a);
    AllButNumbers(MAX_INTEGER, a);
    ComposeVerdict(base, ROOTS, [a], CEREMONY, map["a" := a], NOW);
    CollectedReady(base, ROOTS, [a], CEREMONY, map["a" := a]);
    CandidateValid(base, ROOTS, map["a" := a], NOW, CEREMONY);
  }

  // ---- recovery ----

  lemma OnlyFirstIsBad(epoch: int, purpose: Purpose)
    ensures Material(Base("a", epoch), {"s1", "e1"}, purpose) == {AgentNamed("a").Keys(purpose)[0].publicKey}
  {
    KidsAreUnique("a");
    var kids, base := {"s1", "e1"}, Base("a", epoch);
    assert base.agents == [AgentNamed("a")];
    assert HasSlot(base.agents, 0, purpose, 0) && KeyAt(base.agents, 0, purpose, 0) == AgentNamed("a").Keys(purpose)[0];
    forall m ensures m in Material(base, kids, purpose) <==> m == AgentNamed("a").Keys(purpose)[0].publicKey {
      MaterialMeaning(base, kids, purpose, m);
      assert "s2"[1] == '2' && "e2"[1] == '2' && "s1"[1] == '1' && "e1"[1] == '1';
    }
  }

  lemma SecondCovers(epoch: int, purpose: Purpose, now: int)
    requires now == NOW + DAY
    ensures var base := Base("a", epoch); var bad := Material(base, {"s1", "e1"}, purpose);
      Covered(RevokeKeys(AgentNamed("a").Keys(purpose), {"s1", "e1"}, bad, now), bad, now, RecoveryExpiry(base, now, 30))
  {
    OnlyFirstIsBad(epoch, purpose);
    var keys, bad := AgentNamed("a").Keys(purpose), Material(Base("a", epoch), {"s1", "e1"}, purpose);
    hide Material;
    assert keys[1].publicKey[0] != keys[0].publicKey[0];
    assert "s2"[1] == '2' && "e2"[1] == '2' && "s1"[1] == '1' && "e1"[1] == '1';
    var r := RevokeKeys(keys, {"s1", "e1"}, bad, now);
    assert r[1] == keys[1];
  }

  lemma BothAreKnown(epoch: int)
    ensures AllKnown(Base("a", epoch), {"s1", "e1"})
  {
    var agents := Base("a", epoch).agents;
    KidsAreUnique("a");
    assert agents == [AgentNamed("a")];
    assert HasSlot(agents, 0, Signing, 0) && KeyAt(agents, 0, Signing, 0).kid == "s1";
    assert HasSlot(agents, 0, Encryption, 0) && KeyAt(agents, 0, Encryption, 0).kid == "e1";
    KeyTableMeaning(agents, Signing, "s1");
    KeyTableMeaning(agents, Encryption, "e1");
  }

  /** Every condition of recovery but the numbers. */
  lemma RecoveryAllButNumbers(epoch: int, now: int)
    requires IsInteger(epoch, 1) && now == NOW + DAY
    ensures var base, kids := Base("a", epoch), {"s1", "e1"};
      && ValidDirectory(base, ROOTS, now) && AllKnown(base, kids) && now < RecoveryExpiry(base, now, 30)
      && AllCovered(RevokeAgents(base.agents, CompromiseOf(base, kids), now), CompromiseOf(base, kids), now, RecoveryExpiry(base, now, 30))
  {
    var base, kids := Base("a", epoch), {"s1", "e1"};
    assert IsIdentifier("a");
    BaseIsValid("a", epoch, now);
    BothAreKnown(epoch);
    SecondCovers(epoch, Signing, now);
    SecondCovers(epoch, Encryption, now);
    hide ValidDirectory, KeyTable, Material, Covered, RevokeKeys, AllKnown, IsIdentifier;
    assert base.agents == [AgentNamed("a")];
    assert RevokeAgents(base.agents, CompromiseOf(base, kids), now) == [RevokeAgent(AgentNamed("a"), CompromiseOf(base, kids), now)];
  }

  /** With both first keys compromised the second ones cover, and recovery succeeds. */
  lemma RecoveryHappens()
    ensures Recover(Base("a", 1), ROOTS, {"s1", "e1"}, NOW + DAY, 30).Ok?
  {
    var kids, now := {"s1", "e1"}, NOW + DAY;
    hide ValidDirectory, AllKnown, AllCovered, RevokeAgents, CompromiseOf, Owners, Recover;
    RecoveryAllButNumbers(1, now);
    assert HighestEpoch(Base("a", 1).audiences, AudienceName(Direct, "a")) <= 1 by {
      assert Base("a", 1).audiences == [AudienceOf("a")];
    }
    RecoverExactly(Base("a", 1), ROOTS, kids, now, 30);
  }

  /** At the last representable epoch the same recovery ends at the final validation. */
  lemma RecoveryRunsOutOfEpochs()
    ensures ValidDirectory(Base("a", MAX_INTEGER), ROOTS, NOW + DAY)
    ensures !ValidCandidate(RecoveryCandidate(Base("a", MAX_INTEGER), {"s1", "e1"}, NOW + DAY, 30), ROOTS, NOW + DAY)
    ensures Recover(Base("a", MAX_INTEGER), ROOTS, {"s1", "e1"}, NOW + DAY, 30) == Err(UnrepresentableCandidate)
  {
    var base, kids, now := Base("a", MAX_INTEGER), {"s1", "e1"}, NOW + DAY;
    hide ValidDirectory, ValidCandidate, AllKnown, AllCovered, RevokeAgents, CompromiseOf, Owners, RecoveredAudiences;
    RecoveryAllButNumbers(MAX_INTEGER, now);
    RecoveryValid(base, ROOTS, kids, now, 30);
  }
}
