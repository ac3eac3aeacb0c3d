/** What a verified announcement commits its agent to, and when a list of them composes. */
module Announcing {
  import opened Wrappers
  import opened Text
  import opened Directory
  import opened Rotation
  import opened RotationValidity
  import opened RotationOrder

  /** An announcement verifies for one base, one set of roots and one ceremony only. */
  lemma BindsOneCeremony(base: Snapshot, roots: Roots, c: Ceremony, base': Snapshot, roots': Roots, c': Ceremony, a: Announcement)
    requires AnnouncementOk(base, roots, a, c) && AnnouncementOk(base', roots', a, c')
    ensures base == base' && roots == roots' && c.id == c'.id && c.activation == c'.activation
  {
    hide ValidDirectory, AuthorizedByCurrentKeys, SuccessorOk, IsIdentifier;
  }

  /** Once verified, it verifies at exactly the other times between its issuance, one skew early, and its expiry at which the base is valid. */
  lemma VerifiesWhile(base: Snapshot, roots: Roots, a: Announcement, c: Ceremony, now: int)
    requires AnnouncementOk(base, roots, a, c)
    ensures AnnouncementOk(base, roots, a, c.(now := now)) <==>
      ValidDirectory(base, roots, now) && a.terms.issued - 300_000 <= now < a.terms.expires
  {
    hide ValidDirectory, AuthorizedByCurrentKeys, SuccessorOk, IsIdentifier;
  }

  /**
   * It is signed, over its own terms, by the signing key its agent had selected at issuance; it names that key and the
   * selected encryption key as replaced; it lives for seven days at most and ends before the activation.
   */
  lemma CommitsItsAgent(base: Snapshot, roots: Roots, a: Announcement, c: Ceremony)
    requires AnnouncementOk(base, roots, a, c)
    ensures var t := a.terms;
      && (exists i :: 0 <= i < |base.agents| && base.agents[i].id == t.agentId && base.agents[i].status.ActiveAgent?)
      && ActiveKey(base, t.agentId, Signing, t.issued).Some? && ActiveKey(base, t.agentId, Encryption, t.issued).Some?
      && a.signature.Ed25519? && a.signature.message == t
      && a.signature.key == ActiveKey(base, t.agentId, Signing, t.issued).value.publicKey
      && t.previousSigningKid == t.signerKid == ActiveKey(base, t.agentId, Signing, t.issued).value.kid
      && t.previousEncryptionKid == ActiveKey(base, t.agentId, Encryption, t.issued).value.kid
      && t.issued < t.expires <= t.issued + 7 * 24 * 60 * 60 * 1000 && t.expires <= c.activation && |t.nonce| == 24
  {
    hide ValidDirectory, SuccessorOk, IsIdentifier, ActiveKey;
    var agent := FindAgent(base.agents, a.terms.agentId).value;
    var i :| 0 <= i < |base.agents| && base.agents[i] == agent;
  }

  /** The announced keys are one epoch above every key of their purpose, under IDs nobody uses. */
  lemma AnnouncesNextEpoch(base: Snapshot, roots: Roots, a: Announcement, c: Ceremony, purpose: Purpose, i: nat)
    requires AnnouncementOk(base, roots, a, c) && i < |base.agents| && base.agents[i].id == a.terms.agentId
    ensures var next, keys := a.terms.Next(purpose), base.agents[i].Keys(purpose);
      && (forall j :: 0 <= j < |keys| ==> keys[j].epoch < next.epoch)
      && (exists j :: 0 <= j < |keys| && keys[j].epoch == next.epoch - 1)
      && |next.publicKey| == 32 && IsIdentifier(next.kid)
      && next.kid == KeyId(a.terms.agentId, if purpose.Signing? then "sig" else "enc", next.epoch)
      && (forall m, p, j :: HasSlot(base.agents, m, p, j) ==> KeyAt(base.agents, m, p, j).kid != next.kid)
  {
    hide ValidDirectory, AuthorizedByCurrentKeys, IsIdentifier, KnownKid, KeyId, UniqueKids;
    BaseFacts(base, roots, c.now);
    FindAgentAt(base.agents, i);
    assert SuccessorOk(base, base.agents[i], purpose, a.terms.Next(purpose));
    KnownIsKidOf(base, a.terms.Next(purpose).kid);
    var keys := base.agents[i].Keys(purpose);
    var k :| k in keys && k.epoch == MaxEpoch(keys);
    var j :| 0 <= j < |keys| && keys[j] == k;
  }

  /** The terms name this base, these roots and this ceremony, and live from issuance to expiry, before the activation. */
  predicate Timely(base: Snapshot, roots: Roots, t: Terms, c: Ceremony) {
    && t.schema == "tribe-key-rotation-announcement/v1" && t.ceremonyId == c.id && t.activation == c.activation
    && t.baseEpoch == base.epoch && t.baseDigest == Sha256(base) && t.rootsDigest == Sha256(roots)
    && 1 <= t.issued < t.expires <= 9_007_199_254_740_991 && t.expires <= t.issued + 7 * 24 * 60 * 60 * 1000
    && t.issued - 300_000 <= c.now < t.expires <= c.activation
    && |t.nonce| == 24
  }

  /** Signed by the key its agent had selected at issuance, which it names together with the selected encryption key. */
  predicate Holds(base: Snapshot, a: Announcement) {
    var t := a.terms;
    && ActiveKey(base, t.agentId, Signing, t.issued).Some? && ActiveKey(base, t.agentId, Encryption, t.issued).Some?
    && t.previousSigningKid == t.signerKid == ActiveKey(base, t.agentId, Signing, t.issued).value.kid
    && t.previousEncryptionKid == ActiveKey(base, t.agentId, Encryption, t.issued).value.kid
    && a.signature.Ed25519? && a.signature.message == t
    && a.signature.key == ActiveKey(base, t.agentId, Signing, t.issued).value.publicKey
  }

  /** A new key one epoch above all of its purpose, under the ID that epoch dictates, which no key of the base has. */
  ghost predicate Succeeds(base: Snapshot, i: nat, purpose: Purpose, next: PublicKey)
    requires i < |base.agents|
  {
    var keys := base.agents[i].Keys(purpose);
    && (forall j :: 0 <= j < |keys| ==> keys[j].epoch < next.epoch)
    && (exists j :: 0 <= j < |keys| && keys[j].epoch == next.epoch - 1)
    && 1 <= next.epoch <= 9_007_199_254_740_991 && |next.publicKey| == 32 && IsIdentifier(next.kid)
    && next.kid == KeyId(base.agents[i].id, if purpose.Signing? then "sig" else "enc", next.epoch)
    && !KidOf(base.agents, next.kid)
  }

  lemma SuccessorExactly(base: Snapshot, roots: Roots, now: int, i: nat, purpose: Purpose, next: PublicKey)
    requires ValidDirectory(base, roots, now) && i < |base.agents|
    ensures SuccessorOk(base, base.agents[i], purpose, next) <==> Succeeds(base, i, purpose, next)
  {
    hide ValidDirectory, IsIdentifier, KnownKid, KeyId, UniqueKids, KidOf, EachAgentOk, MaxEpoch;
    BaseFacts(base, roots, now);
    KnownIsKidOf(base, next.kid);
    EpochsStart(base.agents, i, purpose);
    NextEpochExactly(base.agents[i].Keys(purpose), next.epoch);
  }

  lemma NextEpochExactly(keys: seq<Key>, epoch: int)
    requires keys != []
    ensures epoch == MaxEpoch(keys) + 1 <==>
      (forall j :: 0 <= j < |keys| ==> keys[j].epoch < epoch) && exists j :: 0 <= j < |keys| && keys[j].epoch == epoch - 1
  {
    var highest := MaxEpoch(keys);
    var k :| k in keys && k.epoch == highest;
    var m :| 0 <= m < |keys| && keys[m] == k;
  }

  lemma EpochsStart(agents: seq<Agent>, i: nat, purpose: Purpose)
    requires EachAgentOk(agents) && i < |agents|
    ensures agents[i].Keys(purpose) != [] && forall j :: 0 <= j < |agents[i].Keys(purpose)| ==> 1 <= agents[i].Keys(purpose)[j].epoch
  {
    hide IsIdentifier;
    assert AgentOk(agents[i]);
  }

  /** An announcement verifies exactly when an active agent of the valid base makes it, in time, with its own keys, for its next keys. */
  lemma VerifiesExactly(base: Snapshot, roots: Roots, a: Announcement, c: Ceremony)
    ensures AnnouncementOk(base, roots, a, c) <==>
      && ValidDirectory(base, roots, c.now) && Timely(base, roots, a.terms, c) && Holds(base, a)
      && exists i :: 0 <= i < |base.agents| && base.agents[i].id == a.terms.agentId && base.agents[i].status.ActiveAgent?
                     && Succeeds(base, i, Signing, a.terms.nextSigning) && Succeeds(base, i, Encryption, a.terms.nextEncryption)
  {
    hide ValidDirectory, IsIdentifier, ActiveKey, SuccessorOk, Succeeds, UniqueKids;
    if ValidDirectory(base, roots, c.now) {
      BaseFacts(base, roots, c.now);
      forall i, purpose, next | 0 <= i < |base.agents|
        ensures SuccessorOk(base, base.agents[i], purpose, next) <==> Succeeds(base, i, purpose, next)
        ensures FindAgent(base.agents, base.agents[i].id) == Some(base.agents[i]) && IsIdentifier(base.agents[i].id)
      {
        SuccessorExactly(base, roots, c.now, i, purpose, next);
        FindAgentAt(base.agents, i);
        assert AgentOk(base.agents[i]);
      }
      if FindAgent(base.agents, a.terms.agentId).Some? {
        var agent := FindAgent(base.agents, a.terms.agentId).value;
        var i :| 0 <= i < |base.agents| && base.agents[i] == agent;
      }
    }
  }

  // ---- when composition succeeds, in terms of base and announcements alone ----

  /** No agent announces twice and no nonce comes twice. */
  predicate Unrepeated(anns: seq<Announcement>) {
    forall i, j :: 0 <= i < j < |anns| ==> anns[i].terms.agentId != anns[j].terms.agentId && anns[i].terms.nonce != anns[j].terms.nonce
  }

  ghost predicate EveryoneAnnounced(base: Snapshot, anns: seq<Announcement>) {
    forall i :: 0 <= i < |base.agents| && base.agents[i].status.ActiveAgent? ==> AnnouncedBy(anns, base.agents[i].id)
  }

  ghost predicate AnnouncedBy(anns: seq<Announcement>, id: string) {
    exists a :: a in anns && a.terms.agentId == id
  }

  /** No replaced key ends before the activation. */
  ghost predicate NoneEndsEarly(base: Snapshot, anns: seq<Announcement>, activation: int) {
    forall i, purpose, j, a | HasSlot(base.agents, i, purpose, j) && a in anns && a.terms.agentId == base.agents[i].id ::
      var k := KeyAt(base.agents, i, purpose, j);
      k.kid == (if purpose.Signing? then a.terms.previousSigningKid else a.terms.previousEncryptionKid) && k.notAfter.Some? ==>
        activation <= k.notAfter.value
  }

  /** The latest announcement leaves more than the drain after the activation, within representable time. */
  ghost predicate DrainFits(anns: seq<Announcement>, activation: int) {
    exists a :: a in anns && (forall b :: b in anns ==> b.terms.issued <= a.terms.issued)
      && activation + 72 * 60 * 60 * 1000 < a.terms.issued + 30 * 24 * 60 * 60 * 1000 <= 9_007_199_254_740_991
  }

  lemma ComposesWhen(base: Snapshot, roots: Roots, anns: seq<Announcement>, c: Ceremony)
    ensures Compose(base, roots, anns, c).Ok? <==>
      && anns != [] && (forall a :: a in anns ==> AnnouncementOk(base, roots, a, c)) && Unrepeated(anns)
      && EveryoneAnnounced(base, anns) && NoneEndsEarly(base, anns, c.activation) && DrainFits(anns, c.activation)
      && base.epoch < 9_007_199_254_740_991
  {
    hide Compose, NoTwice, Unrepeated, NoneEndsEarly, EveryoneAnnounced, DrainFits, AnnouncementOk;
    RepeatsAlike(anns);
    assert AllVerify(base, roots, anns, c) <==> forall a :: a in anns ==> AnnouncementOk(base, roots, a, c);
    hide AllVerify;
    if anns == [] {
      NothingComposes(base, roots, c);
    } else if AllVerify(base, roots, anns, c) && NoTwice(anns) {
      GoodListComposes(base, roots, anns, c);
    } else {
      Rejected(base, roots, anns, c);
    }
  }

  lemma GoodListComposes(base: Snapshot, roots: Roots, anns: seq<Announcement>, c: Ceremony)
    requires AllVerify(base, roots, anns, c) && NoTwice(anns) && anns != []
    ensures Compose(base, roots, anns, c).Ok? <==>
      EveryoneAnnounced(base, anns) && NoneEndsEarly(base, anns, c.activation) && DrainFits(anns, c.activation)
      && base.epoch < 9_007_199_254_740_991
  {
    hide Compose, AllVerify, NoTwice, Names, Candidate, ActiveIds, NoneEndsEarly, EveryoneAnnounced, AllEndAfter, DrainFits, Files, Latest, Ready;
    CollectExactly(base, roots, anns, c);
    var verified := Collect(base, roots, anns, c).value.verified;
    hide Collect;
    CollectedAs(base, roots, anns, c, verified);
    var issued := LatestIssued(verified, Names(anns));
    IsLatest(verified, Names(anns));
    hide LatestIssued;
    ComposeExactly(base, roots, anns, c, verified, issued);
    AnnouncedAlike(base, anns, verified);
    EndsAlike(base, anns, verified, c.activation);
    DrainsAlike(anns, verified, issued, c.activation);
  }

  lemma NothingComposes(base: Snapshot, roots: Roots, c: Ceremony)
    ensures Compose(base, roots, [], c).Err?
  {
    ComposeNothing(base, roots, c);
  }

  lemma Rejected(base: Snapshot, roots: Roots, anns: seq<Announcement>, c: Ceremony)
    requires !AllVerify(base, roots, anns, c) || !NoTwice(anns)
    ensures Compose(base, roots, anns, c).Err?
  {
    hide AllVerify, NoTwice;
    CollectExactly(base, roots, anns, c);
  }

  lemma RepeatsAlike(anns: seq<Announcement>)
    ensures NoTwice(anns) <==> Unrepeated(anns)
  {
    var names, nonces := Names(anns), Nonces(anns);
    assert forall i :: 0 <= i < |anns| ==> names[i] == anns[i].terms.agentId && nonces[i] == anns[i].terms.nonce;
    if NoTwice(anns) {
      forall i, j | 0 <= i < j < |anns|
        ensures anns[i].terms.agentId != anns[j].terms.agentId && anns[i].terms.nonce != anns[j].terms.nonce
      {
        assert names[i] != names[j] && nonces[i] != nonces[j];
      }
    }
  }

  lemma AnnouncedAlike(base: Snapshot, anns: seq<Announcement>, verified: map<string, Announcement>)
    requires Files(verified, anns)
    ensures EveryoneAnnounced(base, anns) <==> forall id :: id in ActiveIds(base.agents) ==> id in verified
  {
    forall id ensures AnnouncedBy(anns, id) <==> id in verified {
      if id in verified {
        assert verified[id] in anns && verified[id].terms.agentId == id;
      }
    }
    hide Files, AnnouncedBy;
    if EveryoneAnnounced(base, anns) {
      forall id | id in ActiveIds(base.agents) ensures id in verified {
        var a :| a in base.agents && a.status.ActiveAgent? && a.id == id;
        var i :| 0 <= i < |base.agents| && base.agents[i] == a;
      }
    } else if forall id :: id in ActiveIds(base.agents) ==> id in verified {
      var i :| 0 <= i < |base.agents| && base.agents[i].status.ActiveAgent? && !AnnouncedBy(anns, base.agents[i].id);
      assert base.agents[i] in base.agents;
    }
  }

  lemma EndsAlike(base: Snapshot, anns: seq<Announcement>, verified: map<string, Announcement>, activation: int)
    requires Files(verified, anns)
    ensures NoneEndsEarly(base, anns, activation) <==> AllEndAfter(base.agents, verified, activation)
  {
    if NoneEndsEarly(base, anns, activation) {
      forall i, purpose: Purpose | 0 <= i < |base.agents| && base.agents[i].id in verified
        ensures EndsAfter(base.agents[i].Keys(purpose), verified[base.agents[i].id].terms.Previous(purpose), activation)
      {
        var a := verified[base.agents[i].id];
        assert a in anns && a.terms.agentId == base.agents[i].id;
        assert forall j :: 0 <= j < |base.agents[i].Keys(purpose)| ==>
          HasSlot(base.agents, i, purpose, j) && KeyAt(base.agents, i, purpose, j) == base.agents[i].Keys(purpose)[j];
      }
      assert forall i :: 0 <= i < |base.agents| && base.agents[i].id in verified ==>
        && EndsAfter(base.agents[i].Keys(Signing), verified[base.agents[i].id].terms.Previous(Signing), activation)
        && EndsAfter(base.agents[i].Keys(Encryption), verified[base.agents[i].id].terms.Previous(Encryption), activation);
    }
  }

  lemma DrainsAlike(anns: seq<Announcement>, verified: map<string, Announcement>, issued: int, activation: int)
    requires Files(verified, anns) && Latest(verified, issued)
    ensures DrainFits(anns, activation) <==>
      activation + DEFAULT_DRAIN_MS < issued + ROTATION_VALIDITY_DAYS * MS_PER_DAY <= MAX_INTEGER
  {
    var id :| id in verified && verified[id].terms.issued == issued;
    var a := verified[id];
    assert a in anns;
    forall b | b in anns ensures b.terms.issued <= issued {
      assert verified[b.terms.agentId] == b;
    }
  }
}
