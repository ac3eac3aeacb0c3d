/** What a composed or recovered successor is, in the terms of its base, and that it loads exactly where its base was held. */
module Succession {
  import opened Wrappers
  import opened Text
  import opened Sorting
  import opened Directory
  import DirectoryStore
  import opened Rotation
  import opened RotationValidity
  import opened RotationOrder
  import opened Recovery
  import opened RecoveryProofs

  // ---- the hash link ----

  /** Once signed, the successor is accepted by exactly the clients that hold its base, and becomes their state. */
  ghost predicate LoadsAfter(base: Snapshot, roots: Roots, signed: Snapshot, later: int) {
    forall held: DirectoryStore.StateFile | held.epoch == base.epoch && held.roots == Sha256(roots) && IsDigest(held.directory) ::
      if held.directory == Sha256(base)
      then DirectoryStore.LoadOutcome(Some(held), signed, roots, later) == Ok(DirectoryStore.StateOf(signed, roots))
      else DirectoryStore.LoadOutcome(Some(held), signed, roots, later) == Err(DirectoryStore.Discontinuity)
  }

  lemma LinkLoads(base: Snapshot, roots: Roots, signed: Snapshot, later: int)
    requires RootsOk(roots) && ValidDirectory(signed, roots, later) && IsInteger(base.epoch, 1)
    requires signed.epoch == base.epoch + 1 && signed.previous == Some(Sha256(base))
    ensures LoadsAfter(base, roots, signed, later)
  {
    hide ValidDirectory, RootsOk;
  }

  lemma ComposedLoads(base: Snapshot, roots: Roots, anns: seq<Announcement>, c: Ceremony, signatures: seq<GovernanceSignature>, later: int)
    requires RootsOk(roots) && Compose(base, roots, anns, c).Ok?
    requires ValidDirectory(Compose(base, roots, anns, c).value.candidate.(signatures := signatures), roots, later)
    ensures LoadsAfter(base, roots, Compose(base, roots, anns, c).value.candidate.(signatures := signatures), later)
  {
    var verified, issued := ComposedFrom(base, roots, anns, c);
    ValidEpoch(base, roots, c.now);
    hide ValidDirectory, RootsOk, Compose, RotateAgents, Ready, LoadsAfter;
    LinkLoads(base, roots, Compose(base, roots, anns, c).value.candidate.(signatures := signatures), later);
  }

  lemma RecoveredLoads(base: Snapshot, roots: Roots, kids: set<string>, now: int, validityDays: int, signatures: seq<GovernanceSignature>, later: int)
    requires RootsOk(roots) && Recover(base, roots, kids, now, validityDays).Ok?
    requires ValidDirectory(Recover(base, roots, kids, now, validityDays).value.(signatures := signatures), roots, later)
    ensures LoadsAfter(base, roots, Recover(base, roots, kids, now, validityDays).value.(signatures := signatures), later)
  {
    ValidEpoch(base, roots, now);
    hide ValidDirectory, RootsOk, ValidCandidate, RevokeAgents, RecoveredAudiences, AllCovered, AllKnown, LoadsAfter;
    LinkLoads(base, roots, Recover(base, roots, kids, now, validityDays).value.(signatures := signatures), later);
  }

  lemma ValidEpoch(base: Snapshot, roots: Roots, now: int)
    ensures ValidDirectory(base, roots, now) ==> IsInteger(base.epoch, 1)
  {
  }

  // ---- what composition makes of base and announcements ----

  /** The dictionary and latest issuance behind a successful composition. */
  lemma ComposedFrom(base: Snapshot, roots: Roots, anns: seq<Announcement>, c: Ceremony)
    returns (verified: map<string, Announcement>, issued: int)
    requires Compose(base, roots, anns, c).Ok?
    ensures AllVerify(base, roots, anns, c) && NoTwice(anns) && Files(verified, anns) && Latest(verified, issued)
    ensures Compose(base, roots, anns, c).value.candidate == Candidate(base, verified, issued, c.activation)
    ensures Ready(base, roots, verified, c) && ValidDirectory(base, roots, c.now)
  {
    hide AllVerify, NoTwice, Files, Latest, Candidate, AllEndAfter, SortIds, MakeReceipt, Names, ValidCandidate, ValidDirectory;
    CollectExactly(base, roots, anns, c);
    verified := Collect(base, roots, anns, c).value.verified;
    if anns == [] {
      ComposeNothing(base, roots, c);
    }
    CollectedAs(base, roots, anns, c, verified);
    issued := LatestIssued(verified, Names(anns));
    IsLatest(verified, Names(anns));
    ComposeExactly(base, roots, anns, c, verified, issued);
    ReadyBase(base, roots, verified, c);
  }

  /** The header of a composed successor: next epoch, latest issuance, thirty days, everything else carried over. */
  lemma ComposedHeader(base: Snapshot, roots: Roots, anns: seq<Announcement>, c: Ceremony)
    requires Compose(base, roots, anns, c).Ok?
    ensures var s := Compose(base, roots, anns, c).value.candidate;
      && s.epoch == base.epoch + 1 && s.previous == Some(Sha256(base))
      && (exists a :: a in anns && a.terms.issued == s.issued) && (forall a :: a in anns ==> a.terms.issued <= s.issued)
      && s.expires == s.issued + 30 * 24 * 60 * 60 * 1000
      && s.audiences == base.audiences && s.threshold == base.threshold && s.signatures == []
      && |s.agents| == |base.agents|
  {
    hide ValidDirectory, Compose, Ready, RotateAgent, AnnouncementOk, NoTwice;
    var verified, issued := ComposedFrom(base, roots, anns, c);
    var id :| id in verified && verified[id].terms.issued == issued;
    assert verified[id] in anns;
  }

  /** The entry of an announcing agent: each old key keeps its place, the announced key comes last. */
  ghost predicate HandedOver(before: Agent, after: Agent, t: Terms, activation: int, expiry: int) {
    forall purpose: Purpose ::
      var had, has := before.Keys(purpose), after.Keys(purpose);
      && |has| == |had| + 1
      && has[|had|] == Key(
           if purpose.Signing? then t.nextSigning.kid else t.nextEncryption.kid,
           if purpose.Signing? then t.nextSigning.epoch else t.nextEncryption.epoch,
           if purpose.Signing? then t.nextSigning.publicKey else t.nextEncryption.publicKey,
           Active, activation, Some(expiry))
      && (forall j :: 0 <= j < |had| && had[j].kid != (if purpose.Signing? then t.previousSigningKid else t.previousEncryptionKid) ==>
            has[j] == had[j])
      && (forall j :: 0 <= j < |had| && had[j].kid == (if purpose.Signing? then t.previousSigningKid else t.previousEncryptionKid) ==>
            has[j] == had[j].(notAfter := Some(activation)))
  }

  /** Exactly the active agents are handed over, each by its own announcement; the others stay as they were. */
  lemma ComposedAgents(base: Snapshot, roots: Roots, anns: seq<Announcement>, c: Ceremony, i: nat)
    requires Compose(base, roots, anns, c).Ok? && i < |base.agents|
    ensures var s := Compose(base, roots, anns, c).value.candidate;
      && i < |s.agents| && s.agents[i].id == base.agents[i].id && s.agents[i].status == base.agents[i].status
      && (!base.agents[i].status.ActiveAgent? ==> s.agents[i] == base.agents[i])
      && (base.agents[i].status.ActiveAgent? ==>
            exists a :: a in anns && a.terms.agentId == base.agents[i].id
              && HandedOver(base.agents[i], s.agents[i], a.terms, c.activation, s.expires))
  {
    var verified, issued := ComposedFrom(base, roots, anns, c);
    hide ValidDirectory, Compose, AnnouncementOk, NoTwice, UniqueAgents, UniqueKids, EachAgentOk;
    var before, after := base.agents[i], RotateAgents(base.agents, verified, c.activation, issued + ROTATION_VALIDITY_DAYS * MS_PER_DAY)[i];
    ReadyBase(base, roots, verified, c);
    if before.id in verified {
      AnnouncedIsActive(base, roots, verified, c, i);
      CutAtActivation(base, roots, verified, c, i, after, issued + ROTATION_VALIDITY_DAYS * MS_PER_DAY);
      assert verified[before.id] in anns;
    }
  }

  lemma AnnouncedIsActive(base: Snapshot, roots: Roots, verified: map<string, Announcement>, c: Ceremony, i: nat)
    requires Ready(base, roots, verified, c) && i < |base.agents| && base.agents[i].id in verified
    ensures base.agents[i].status.ActiveAgent?
  {
    hide Ready, ValidDirectory, UniqueKids, EachAgentOk, AuthorizedByCurrentKeys, SuccessorOk, IsIdentifier;
    VerifiedTerms(base, roots, verified, c, base.agents[i].id);
    ReadyBase(base, roots, verified, c);
    FindAgentAt(base.agents, i);
  }

  lemma CutAtActivation(base: Snapshot, roots: Roots, verified: map<string, Announcement>, c: Ceremony, i: nat, after: Agent, expiry: int)
    requires Ready(base, roots, verified, c) && i < |base.agents| && base.agents[i].id in verified
    requires after == RotateAgent(base.agents[i], verified, c.activation, expiry)
    ensures HandedOver(base.agents[i], after, verified[base.agents[i].id].terms, c.activation, expiry)
  {
    hide Ready;
    forall purpose: Purpose
      ensures EndsAfter(base.agents[i].Keys(purpose), verified[base.agents[i].id].terms.Previous(purpose), c.activation)
    {
      ReadyEnds(base, roots, verified, c, i, purpose);
    }
    assert EndsAfter(base.agents[i].Keys(Signing), verified[base.agents[i].id].terms.Previous(Signing), c.activation);
    assert EndsAfter(base.agents[i].Keys(Encryption), verified[base.agents[i].id].terms.Previous(Encryption), c.activation);
  }

  // ---- which key is selected when ----

  /** A selection that ignores a key not yet usable and keeps what is usable is the same selection, up to the cut ends. */
  lemma {:induction false} SelectionUntil(keys: seq<Key>, kid: string, activation: int, time: int)
    requires time < activation && EndsAfter(keys, kid, activation)
    ensures var before, after := BestKey(keys, time), BestKey(CutKeys(keys, kid, activation), time);
      && (before.Some? <==> after.Some?)
      && (before.Some? ==> after.value == CutKey(before.value, kid, activation))
  {
    if keys != [] {
      var front := keys[..|keys| - 1];
      SelectionUntil(front, kid, activation, time);
      assert CutKeys(keys, kid, activation)[..|keys| - 1] == CutKeys(front, kid, activation);
    }
  }

  lemma SelectionKept(base: Snapshot, roots: Roots, verified: map<string, Announcement>, c: Ceremony, issued: int, i: nat,
      purpose: Purpose, time: int)
    requires Ready(base, roots, verified, c) && i < |base.agents| && time < c.activation
    ensures var id := base.agents[i].id;
      var before, after := ActiveKey(base, id, purpose, time), ActiveKey(Candidate(base, verified, issued, c.activation), id, purpose, time);
      && (before.Some? <==> after.Some?)
      && (before.Some? ==> after.value == before.value.(notAfter := after.value.notAfter))
  {
    hide Ready, ValidDirectory, AgentOk, UniqueKids, IsIdentifier, CutKeys, NewKey, BestKey, Announces;
    var s, a := Candidate(base, verified, issued, c.activation), base.agents[i];
    ReadyBase(base, roots, verified, c);
    FindAgentAt(base.agents, i);
    RotatedAgentIds(base.agents, verified, c.activation, s.expires);
    FindAgentAt(s.agents, i);
    if a.id in verified {
      var t := verified[a.id].terms;
      RotatedKeys(a, verified, c.activation, s.expires, purpose);
      ReadyEnds(base, roots, verified, c, i, purpose);
      SelectionUntil(a.Keys(purpose), t.Previous(purpose), c.activation, time);
      StartsLater(t.Next(purpose), c.activation, s.expires, time);
      NotYetUsable(CutKeys(a.Keys(purpose), t.Previous(purpose), c.activation), NewKey(t.Next(purpose), c.activation, s.expires), time);
    }
  }

  lemma StartsLater(next: PublicKey, activation: int, expiry: int, time: int)
    requires time < activation
    ensures !Usable(NewKey(next, activation, expiry), time)
  {
  }

  /** Until the activation every agent's selected keys are those of the base: composition hands over at that instant and no earlier. */
  lemma UntilActivation(base: Snapshot, roots: Roots, anns: seq<Announcement>, c: Ceremony, i: nat, purpose: Purpose, time: int)
    requires Compose(base, roots, anns, c).Ok? && i < |base.agents| && time < c.activation
    ensures var id := base.agents[i].id;
      var before, after := ActiveKey(base, id, purpose, time), ActiveKey(Compose(base, roots, anns, c).value.candidate, id, purpose, time);
      && (before.Some? <==> after.Some?)
      && (before.Some? ==> after.value == before.value.(notAfter := after.value.notAfter))
  {
    hide Compose, ActiveKey, Ready, AllVerify, NoTwice, Files, Latest, Candidate, ValidDirectory;
    var verified, issued := ComposedFrom(base, roots, anns, c);
    SelectionKept(base, roots, verified, c, issued, i, purpose, time);
  }

  lemma NotYetUsable(keys: seq<Key>, added: Key, time: int)
    requires !Usable(added, time)
    ensures BestKey(keys + [added], time) == BestKey(keys, time)
  {
    assert (keys + [added])[..|keys|] == keys;
  }

  // ---- what recovery makes of its base ----

  /** The header of a recovered successor: it lives as long as asked for, but never longer than its base. */
  lemma RecoveredHeader(base: Snapshot, roots: Roots, kids: set<string>, now: int, validityDays: int)
    requires Recover(base, roots, kids, now, validityDays).Ok?
    ensures var s := Recover(base, roots, kids, now, validityDays).value;
      && s.epoch == base.epoch + 1 && s.previous == Some(Sha256(base)) && s.issued == now < s.expires
      && s.expires <= now + validityDays * 24 * 60 * 60 * 1000 && s.expires <= base.expires
      && (s.expires == now + validityDays * 24 * 60 * 60 * 1000 || s.expires == base.expires)
      && s.threshold == base.threshold && s.signatures == [] && |s.agents| == |base.agents|
      && (forall i :: 0 <= i < |base.agents| ==> s.agents[i].id == base.agents[i].id && s.agents[i].status == base.agents[i].status)
  {
    hide ValidDirectory, ValidCandidate, RevokeKeys, RecoveredAudiences, AllCovered, AllKnown;
  }

  /** For this agent and purpose some key of the base is active, of sound material, in force and outlives the successor. */
  ghost predicate CoveredInBase(base: Snapshot, kids: set<string>, i: int, purpose: Purpose, now: int, expires: int) {
    exists j :: HasSlot(base.agents, i, purpose, j)
      && var k := KeyAt(base.agents, i, purpose, j);
      && k.status.Active? && k.publicKey !in Material(base, kids, purpose) && k.notBefore <= now
      && (k.notAfter.Some? ==> expires <= k.notAfter.value)
  }

  ghost predicate EveryoneCovered(base: Snapshot, kids: set<string>, now: int, expires: int) {
    forall i, purpose :: 0 <= i < |base.agents| ==> CoveredInBase(base, kids, i, purpose, now, expires)
  }

  /** The cover check on the revoked directory asks exactly for a sound key of the base. */
  lemma CoverIsInBase(base: Snapshot, roots: Roots, kids: set<string>, now: int, expires: int, i: nat, purpose: Purpose)
    requires ValidDirectory(base, roots, now) && i < |base.agents|
    ensures Covered(RevokeAgents(base.agents, CompromiseOf(base, kids), now)[i].Keys(purpose), Material(base, kids, purpose), now, expires)
      <==> CoveredInBase(base, kids, i, purpose, now, expires)
  {
    hide ValidDirectory, Material;
    BaseFacts(base, roots, now);
    var before, after := base.agents[i].Keys(purpose), RevokeAgents(base.agents, CompromiseOf(base, kids), now)[i].Keys(purpose);
    assert after == RevokeKeys(before, kids, Material(base, kids, purpose), now);
    forall j | 0 <= j < |before|
      ensures before[j].kid in kids ==> before[j].publicKey in Material(base, kids, purpose)
    {
      NamedIsMaterial(base, kids, i, purpose, j);
    }
    if CoveredInBase(base, kids, i, purpose, now, expires) {
      var j :| HasSlot(base.agents, i, purpose, j) && before[j].status.Active? && before[j].publicKey !in Material(base, kids, purpose)
        && before[j].notBefore <= now && (before[j].notAfter.Some? ==> expires <= before[j].notAfter.value);
      assert after[j] == before[j];
    }
    if Covered(after, Material(base, kids, purpose), now, expires) {
      var j :| 0 <= j < |after| && after[j].status.Active? && after[j].publicKey !in Material(base, kids, purpose)
        && after[j].notBefore <= now && (after[j].notAfter.Some? ==> expires <= after[j].notAfter.value);
      assert after[j] == before[j] && HasSlot(base.agents, i, purpose, j);
    }
  }

  /** Recovery succeeds exactly where a caller can see it will: in terms of the base, the named keys and the numbers alone. */
  lemma RecoversWhen(base: Snapshot, roots: Roots, kids: set<string>, now: int, validityDays: int)
    ensures Recover(base, roots, kids, now, validityDays).Ok? <==>
      && ValidDirectory(base, roots, now) && kids != {} && validityDays > 0
      && (forall kid :: kid in kids ==> exists i, p, j :: HasSlot(base.agents, i, p, j) && KeyAt(base.agents, i, p, j).kid == kid)
      && EveryoneCovered(base, kids, now,
           if now + validityDays * 24 * 60 * 60 * 1000 <= base.expires then now + validityDays * 24 * 60 * 60 * 1000 else base.expires)
      && RecoveryHeadroom(base, kids, now)
  {
    hide ValidDirectory, Recover, RevokeAgents, Material, RecoveryHeadroom, KnownKid, EveryoneCovered, AllCovered, AllKnown, UniqueKids;
    RecoverExactly(base, roots, kids, now, validityDays);
    if ValidDirectory(base, roots, now) {
      BaseFacts(base, roots, now);
      LivesBeyond(base, roots, now);
      var expires := RecoveryExpiry(base, now, validityDays);
      KnownInBase(base, kids);
      CoverInBase(base, roots, kids, now, expires);
    }
  }

  lemma LivesBeyond(base: Snapshot, roots: Roots, now: int)
    requires ValidDirectory(base, roots, now)
    ensures now < base.expires
  {
  }

  lemma KnownInBase(base: Snapshot, kids: set<string>)
    requires UniqueKids(base.agents)
    ensures AllKnown(base, kids) <==>
      forall kid :: kid in kids ==> exists i, p, j :: HasSlot(base.agents, i, p, j) && KeyAt(base.agents, i, p, j).kid == kid
  {
    hide UniqueKids, KnownKid;
    forall kid ensures KnownKid(base, kid) <==> KidOf(base.agents, kid) {
      KnownIsKidOf(base, kid);
    }
  }

  lemma CoverInBase(base: Snapshot, roots: Roots, kids: set<string>, now: int, expires: int)
    requires ValidDirectory(base, roots, now)
    ensures AllCovered(RevokeAgents(base.agents, CompromiseOf(base, kids), now), CompromiseOf(base, kids), now, expires) <==>
      EveryoneCovered(base, kids, now, expires)
  {
    hide ValidDirectory, Material, CoveredInBase, Covered;
    forall i: int, purpose: Purpose | 0 <= i < |base.agents|
      ensures Covered(RevokeAgents(base.agents, CompromiseOf(base, kids), now)[i].Keys(purpose), Material(base, kids, purpose), now, expires)
        <==> CoveredInBase(base, kids, i, purpose, now, expires)
    {
      CoverIsInBase(base, roots, kids, now, expires, i, purpose);
    }
    CoveredByPurpose(RevokeAgents(base.agents, CompromiseOf(base, kids), now), CompromiseOf(base, kids), now, expires);
  }

  lemma CoveredByPurpose(agents: seq<Agent>, bad: Compromise, now: int, expires: int)
    ensures AllCovered(agents, bad, now, expires) <==>
      forall i, purpose :: 0 <= i < |agents| ==> Covered(agents[i].Keys(purpose), bad.Of(purpose), now, expires)
  {
    hide Covered;
    if forall i, purpose :: 0 <= i < |agents| ==> Covered(agents[i].Keys(purpose), bad.Of(purpose), now, expires) {
      forall i | 0 <= i < |agents|
        ensures Covered(agents[i].signing, bad.signing, now, expires) && Covered(agents[i].encryption, bad.encryption, now, expires)
      {
        assert Covered(agents[i].Keys(Signing), bad.Of(Signing), now, expires);
        assert Covered(agents[i].Keys(Encryption), bad.Of(Encryption), now, expires);
      }
    }
  }

  // ---- the receipt ----

  /** The digest is that of the agent's announcement. */
  ghost predicate IsOf(anns: seq<Announcement>, id: string, digest: Digest<Announcement>) {
    exists a :: a in anns && a.terms.agentId == id && digest == Sha256(a)
  }

  /** The receipt names what was composed, from what and when. */
  lemma ReceiptMeans(base: Snapshot, roots: Roots, anns: seq<Announcement>, c: Ceremony)
    requires Compose(base, roots, anns, c).Ok?
    ensures var r, s := Compose(base, roots, anns, c).value.receipt, Compose(base, roots, anns, c).value.candidate;
      && r.candidateEpoch == base.epoch + 1 && r.candidateDigest == Sha256(s)
      && r.descriptor.ceremonyId == c.id && r.descriptor.activation == c.activation
      && r.descriptor.baseEpoch == base.epoch && r.descriptor.baseDigest == Sha256(base) && r.descriptor.rootsDigest == Sha256(roots)
      && r.ceremonyDigest == Sha256(r.descriptor)
  {
    hide ValidCandidate, AllEndAfter, Collect, SortIds, Digests, RotateAgents, LatestIssued, ActiveIds;
  }

  /** Its lists name every announcing agent once, in order, each with its announcement. */
  lemma ReceiptLists(base: Snapshot, roots: Roots, anns: seq<Announcement>, c: Ceremony)
    requires Compose(base, roots, anns, c).Ok?
    ensures var r := Compose(base, roots, anns, c).value.receipt;
      && (forall id :: id in r.agentIds <==> exists a :: a in anns && a.terms.agentId == id)
      && Sorted(r.agentIds, (a, b) => Leq(a, b)) && Distinct(r.agentIds)
      && |r.descriptor.announcements| == |r.agentIds|
      && (forall i :: 0 <= i < |r.agentIds| ==>
            IsOf(anns, r.agentIds[i], r.descriptor.announcements[i]))
  {
    hide ValidCandidate, AllEndAfter, Collect, SortIds, Digests, Candidate, LatestIssued, ActiveIds, Names, AllVerify, Sorted;
    CollectExactly(base, roots, anns, c);
    var verified := Collect(base, roots, anns, c).value.verified;
    CollectedAgents(base, roots, anns, c);
    SameIds(Names(anns), Names(anns));
    ListedAnnouncements(verified, anns, SortIds(Names(anns)));
    SortedIds(Names(anns));
    forall id ensures id in SortIds(Names(anns)) <==> exists a :: a in anns && a.terms.agentId == id {
      Named(anns, id);
    }
  }

  lemma ListedAnnouncements(verified: map<string, Announcement>, anns: seq<Announcement>, ids: seq<string>)
    requires Files(verified, anns) && forall id :: id in ids ==> id in verified
    ensures |Digests(verified, ids)| == |ids|
    ensures forall i :: 0 <= i < |ids| ==>
      IsOf(anns, ids[i], Digests(verified, ids)[i])
  {
    forall i | 0 <= i < |ids| ensures IsOf(anns, ids[i], Digests(verified, ids)[i]) {
      assert verified[ids[i]] in anns && Digests(verified, ids)[i] == Sha256(verified[ids[i]]);
    }
  }

  /** Two ceremonies with one digest composed the same candidate with the same receipt. */
  lemma DigestDecides(base: Snapshot, roots: Roots, anns: seq<Announcement>, c: Ceremony,
      base': Snapshot, roots': Roots, anns': seq<Announcement>, c': Ceremony)
    requires Compose(base, roots, anns, c).Ok? && Compose(base', roots', anns', c').Ok?
    requires Compose(base, roots, anns, c).value.receipt.ceremonyDigest == Compose(base', roots', anns', c').value.receipt.ceremonyDigest
    ensures Compose(base, roots, anns, c) == Compose(base', roots', anns', c')
  {
    ReceiptMeans(base, roots, anns, c);
    ReceiptMeans(base', roots', anns', c');
    var lists := Compose(base, roots, anns, c).value.receipt.descriptor.announcements;
    ReceiptHolds(base, roots, anns, c);
    ReceiptHolds(base', roots', anns', c');
    hide Compose, ValidDirectory, AllVerify, NoTwice;
    forall a ensures a in anns <==> a in anns' {
      assert a in anns <==> Sha256(a) in lists;
    }
    SameMembersSameCounts(anns, anns');
    ComposeForgetsOrderAndTime(base, roots, anns, anns', c, c');
  }

  /** The receipt's list holds exactly the announcements. */
  lemma ReceiptHolds(base: Snapshot, roots: Roots, anns: seq<Announcement>, c: Ceremony)
    requires Compose(base, roots, anns, c).Ok?
    ensures var lists := Compose(base, roots, anns, c).value.receipt.descriptor.announcements;
      forall a :: a in anns <==> Sha256(a) in lists
    ensures Distinct(anns) && AllVerify(base, roots, anns, c)
  {
    hide Compose, ValidDirectory, AllVerify, Ready, Latest, Candidate, Sorted, Files, IsOf, NoTwice;
    ReceiptLists(base, roots, anns, c);
    var verified, issued := ComposedFrom(base, roots, anns, c);
    var r := Compose(base, roots, anns, c).value.receipt;
    AnnouncementsDiffer(anns);
    forall a ensures a in anns <==> Sha256(a) in r.descriptor.announcements {
      InReceipt(verified, anns, r.agentIds, r.descriptor.announcements, a);
    }
  }

  lemma InReceipt(verified: map<string, Announcement>, anns: seq<Announcement>, ids: seq<string>, lists: seq<Digest<Announcement>>, a: Announcement)
    requires Files(verified, anns) && |lists| == |ids|
    requires forall id :: id in ids <==> exists b :: b in anns && b.terms.agentId == id
    requires forall i :: 0 <= i < |ids| ==> IsOf(anns, ids[i], lists[i])
    ensures a in anns <==> Sha256(a) in lists
  {
    if a in anns {
      assert a.terms.agentId in ids;
      var i :| 0 <= i < |ids| && ids[i] == a.terms.agentId;
      assert IsOf(anns, ids[i], lists[i]);
    }
    if Sha256(a) in lists {
      var i :| 0 <= i < |lists| && lists[i] == Sha256(a);
      assert IsOf(anns, ids[i], lists[i]);
    }
  }

  lemma AnnouncementsDiffer(anns: seq<Announcement>)
    requires NoTwice(anns)
    ensures Distinct(anns)
  {
    forall i, j | 0 <= i < j < |anns| ensures anns[i] != anns[j] {
      assert Names(anns)[i] == anns[i].terms.agentId && Names(anns)[j] == anns[j].terms.agentId;
    }
  }

  lemma Named(anns: seq<Announcement>, id: string)
    ensures id in Names(anns) <==> exists a :: a in anns && a.terms.agentId == id
  {
    if id in Names(anns) {
      var i :| 0 <= i < |anns| && Names(anns)[i] == id;
      assert anns[i] in anns;
    }
    if a :| a in anns && a.terms.agentId == id {
      var i :| 0 <= i < |anns| && anns[i] == a;
      assert Names(anns)[i] == id;
    }
  }

  lemma SortedIds(ids: seq<string>)
    ensures Sorted(SortIds(ids), (a, b) => Leq(a, b)) && (Distinct(ids) ==> Distinct(SortIds(ids)))
    ensures forall id :: id in SortIds(ids) <==> id in ids
  {
    CodePointOrder(ids);
    SortSorted(ids, (a, b) => Leq(a, b));
    SameIds(ids, ids);
    DistinctForgetsOrder(ids, SortIds(ids));
  }
}
