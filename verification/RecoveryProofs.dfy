/** Forward recovery is complete and stays valid; audiences are re-issued exactly where they were affected. */
module RecoveryProofs {
  import opened Wrappers
  import opened Text
  import opened Directory
  import opened DirectoryContext
  import opened RotationValidity
  import opened Recovery

  /** The numbers a recovery increments or copies stay representable, and its clock is not before the epoch. */
  ghost predicate RecoveryHeadroom(base: Snapshot, kids: set<string>, now: int) {
    && 0 <= now
    && base.epoch + 1 <= MAX_INTEGER
    && EpochsFit(base.audiences, Owners(base, kids))
  }

  ghost predicate EpochsFit(audiences: seq<Audience>, owners: set<string>) {
    forall a :: a in audiences && Hit(a, owners) ==> 1 + HighestEpoch(audiences, a.key.name) <= MAX_INTEGER
  }

  // ---- validity ----

  lemma RevokedKeysOk(keys: seq<Key>, kids: set<string>, material: set<Bytes>, now: int)
    requires KeysOk(keys) && now <= MAX_INTEGER
    ensures KeysOk(RevokeKeys(keys, kids, material, now))
  {
    hide IsIdentifier;
    var r := RevokeKeys(keys, kids, material, now);
    forall j | 0 <= j < |keys|
      ensures KeyOk(r[j]) && r[j].epoch == keys[j].epoch
    {
      assert KeyOk(keys[j]);
    }
  }

  lemma RevokedAgentsOk(agents: seq<Agent>, bad: Compromise, now: int)
    requires AgentsOk(agents) && now <= MAX_INTEGER
    ensures AgentsOk(RevokeAgents(agents, bad, now)) && AgentIds(RevokeAgents(agents, bad, now)) == AgentIds(agents)
    ensures |RevokeAgents(agents, bad, now)| == |agents|
  {
    hide KeysOk, IsIdentifier;
    var r := RevokeAgents(agents, bad, now);
    forall i | 0 <= i < |agents|
      ensures AgentOk(r[i]) && r[i].id == agents[i].id
    {
      assert AgentOk(agents[i]);
      RevokedKeysOk(agents[i].signing, bad.kids, bad.signing, now);
      RevokedKeysOk(agents[i].encryption, bad.kids, bad.encryption, now);
    }
    assert forall i, p, j :: HasSlot(r, i, p, j) ==> HasSlot(agents, i, p, j) && KeyAt(r, i, p, j).kid == KeyAt(agents, i, p, j).kid;
  }

  /** Where each entry of the recovered registry comes from. */
  lemma RecoveredEntry(audiences: seq<Audience>, owners: set<string>, i: nat)
    requires i < |RecoveredAudiences(audiences, owners)|
    ensures |audiences| <= |RecoveredAudiences(audiences, owners)|
    ensures i < |audiences| ==> RecoveredAudiences(audiences, owners)[i] == RetireAudience(audiences[i], Scan(audiences, owners).templates)
    ensures i >= |audiences| ==>
      var name := RecoveredAudiences(audiences, owners)[i].key.name;
      && i - |audiences| < |SortNames(Scan(audiences, owners).order)|
      && SortNames(Scan(audiences, owners).order)[i - |audiences|] == name
      && name in Scan(audiences, owners).templates
      && RecoveredAudiences(audiences, owners)[i] == Successor(audiences, Scan(audiences, owners).templates[name])
  {
    hide Scan, SortNames, RetireAudience;
    ScanMeaning(audiences, owners);
    SortedNamesSame(Scan(audiences, owners).order);
  }

  lemma RecoveredUnique(audiences: seq<Audience>, owners: set<string>)
    requires UniqueAudiences(audiences)
    ensures UniqueAudiences(RecoveredAudiences(audiences, owners))
  {
    hide Scan, SortNames, RecoveredAudiences, Hit, HighestEpoch;
    var r, s := RecoveredAudiences(audiences, owners), Scan(audiences, owners);
    ScanMeaning(audiences, owners);
    SortedNamesSame(s.order);
    forall i, j | 0 <= i < j < |r|
      ensures r[i].key != r[j].key
    {
      RecoveredEntry(audiences, owners, i);
      RecoveredEntry(audiences, owners, j);
      if i < |audiences| <= j {
        assert audiences[i] in audiences;
      }
    }
  }

  lemma RecoveredAudiencesOk(audiences: seq<Audience>, owners: set<string>, ids: set<string>)
    requires AudiencesOk(audiences, ids)
    ensures AudiencesOk(RecoveredAudiences(audiences, owners), ids) <==> EpochsFit(audiences, owners)
  {
    hide Scan, SortNames, RecoveredAudiences, UniqueAudiences, AudienceOk, EpochsFit;
    var r := RecoveredAudiences(audiences, owners);
    RecoveredUnique(audiences, owners);
    RecoveredLength(audiences, owners);
    if EpochsFit(audiences, owners) {
      forall i | 0 <= i < |r|
        ensures AudienceOk(r[i], ids)
      {
        RecoveredEntry(audiences, owners, i);
        EntryOk(audiences, owners, ids, r[i], i);
      }
    } else {
      var i := UnfitEntry(audiences, owners, ids);
    }
  }

  lemma UnfitEntry(audiences: seq<Audience>, owners: set<string>, ids: set<string>) returns (i: nat)
    requires !EpochsFit(audiences, owners)
    ensures i < |RecoveredAudiences(audiences, owners)| && !AudienceOk(RecoveredAudiences(audiences, owners)[i], ids)
  {
    hide Scan, SortNames, RecoveredAudiences, Hit, HighestEpoch, IsIdentifier, ListOk, ObserversOk;
    var s := Scan(audiences, owners);
    ScanMeaning(audiences, owners);
    SortedNamesSame(s.order);
    RecoveredLength(audiences, owners);
    var a :| a in audiences && Hit(a, owners) && 1 + HighestEpoch(audiences, a.key.name) > MAX_INTEGER;
    var m :| 0 <= m < |SortNames(s.order)| && SortNames(s.order)[m] == a.key.name;
    i := |audiences| + m;
    RecoveredEntry(audiences, owners, i);
  }

  lemma RecoveredLength(audiences: seq<Audience>, owners: set<string>)
    ensures |RecoveredAudiences(audiences, owners)| == |audiences| + |SortNames(Scan(audiences, owners).order)|
  {
    hide Scan, SortNames;
  }

  lemma EntryOk(audiences: seq<Audience>, owners: set<string>, ids: set<string>, a: Audience, i: nat)
    requires AudiencesOk(audiences, ids) && EpochsFit(audiences, owners)
    requires
      || (i < |audiences| && a == RetireAudience(audiences[i], Scan(audiences, owners).templates))
      || (a.key.name in Scan(audiences, owners).templates && a == Successor(audiences, Scan(audiences, owners).templates[a.key.name]))
    ensures AudienceOk(a, ids)
  {
    hide Scan, Hit, IsIdentifier, ListOk, ObserversOk, UniqueAudiences, HighestEpoch;
    ScanMeaning(audiences, owners);
    if i < |audiences| && a == RetireAudience(audiences[i], Scan(audiences, owners).templates) {
      SameFieldsOk(audiences[i], a, ids);
    } else {
      var template := Scan(audiences, owners).templates[a.key.name];
      var m :| 0 <= m < |audiences| && audiences[m] == template;
      SameFieldsOk(template, a, ids);
    }
  }

  /** Status and epoch are all that recovery changes in an audience. */
  lemma SameFieldsOk(a: Audience, b: Audience, ids: set<string>)
    requires AudienceOk(a, ids) && b == a.(key := b.key, status := b.status) && b.key.name == a.key.name
    ensures AudienceOk(b, ids) <==> IsInteger(b.key.epoch, 1)
  {
    hide IsIdentifier, NamesOk;
  }

  /** A recovered directory is valid exactly when its numbers are representable. */
  lemma RecoveryValid(base: Snapshot, roots: Roots, kids: set<string>, now: int, validityDays: int)
    requires ValidDirectory(base, roots, now) && now < RecoveryExpiry(base, now, validityDays)
    ensures ValidCandidate(RecoveryCandidate(base, kids, now, validityDays), roots, now) <==> RecoveryHeadroom(base, kids, now)
  {
    hide AgentsOk, AudiencesOk, SignaturesOk, RecoveredAudiences, RevokeAgents, Owners, CompromiseOf, EpochsFit;
    RevokedAgentsOk(base.agents, CompromiseOf(base, kids), now);
    RecoveredAudiencesOk(base.audiences, Owners(base, kids), AgentIds(base.agents));
  }

  /** Recovery succeeds exactly on a valid base with known keys, remaining validity, sound cover for every agent, and numbers that fit. */
  lemma RecoverExactly(base: Snapshot, roots: Roots, kids: set<string>, now: int, validityDays: int)
    ensures Recover(base, roots, kids, now, validityDays).Ok? <==>
      && ValidDirectory(base, roots, now)
      && kids != {}
      && AllKnown(base, kids)
      && now < RecoveryExpiry(base, now, validityDays)
      && AllCovered(RevokeAgents(base.agents, CompromiseOf(base, kids), now), CompromiseOf(base, kids), now, RecoveryExpiry(base, now, validityDays))
      && RecoveryHeadroom(base, kids, now)
  {
    hide ValidDirectory, ValidCandidate, RecoveryHeadroom, AllCovered, AllKnown, RevokeAgents, RecoveredAudiences;
    if ValidDirectory(base, roots, now) && now < RecoveryExpiry(base, now, validityDays) {
      RecoveryValid(base, roots, kids, now, validityDays);
    }
  }

  // ---- completeness ----

  /** Revocation keeps ID, epoch and material, and ends a window that had begun; a sound key is untouched. */
  ghost predicate Revocation(k: Key, after: Key, hit: bool, now: int) {
    && after.kid == k.kid && after.epoch == k.epoch && after.publicKey == k.publicKey
    && (hit ==> after.status.Revoked?)
    && (!hit ==> after == k)
    && (forall time {:trigger InWindow(after, time)} ::
          InWindow(after, time) <==> InWindow(k, time) && (hit && k.notBefore < now ==> time < now))
  }

  lemma RevokeKeyExactly(k: Key, kids: set<string>, material: set<Bytes>, now: int)
    requires k.kid in kids ==> k.publicKey in material
    ensures Revocation(k, RevokeKey(k, kids, material, now), k.publicKey in material, now)
  {
  }

  lemma RevokedSlot(base: Snapshot, kids: set<string>, now: int, validityDays: int, i: int, purpose: Purpose, j: int)
    requires HasSlot(base.agents, i, purpose, j)
    ensures var candidate := RecoveryCandidate(base, kids, now, validityDays);
      && HasSlot(candidate.agents, i, purpose, j)
      && KeyAt(candidate.agents, i, purpose, j) == RevokeKey(KeyAt(base.agents, i, purpose, j), kids, Material(base, kids, purpose), now)
  {
    hide Material, RevokeKey, RecoveredAudiences, Owners;
  }

  /** Every key of compromised material, under whatever ID, is revoked with a window cut at now where it had begun;
      every other key is untouched, and no window grows. */
  lemma RevokedExactly(base: Snapshot, roots: Roots, kids: set<string>, now: int, validityDays: int, i: int, purpose: Purpose, j: int)
    requires ValidDirectory(base, roots, now) && HasSlot(base.agents, i, purpose, j)
    ensures var candidate := RecoveryCandidate(base, kids, now, validityDays);
      && HasSlot(candidate.agents, i, purpose, j)
      && Revocation(KeyAt(base.agents, i, purpose, j), KeyAt(candidate.agents, i, purpose, j),
           KeyAt(base.agents, i, purpose, j).publicKey in Material(base, kids, purpose), now)
    ensures KeyAt(base.agents, i, purpose, j).kid in kids ==>
      KeyAt(base.agents, i, purpose, j).publicKey in Material(base, kids, purpose)
  {
    hide ValidDirectory, Material, UniqueKids, RecoveryCandidate, Revocation, RevokeKey;
    BaseFacts(base, roots, now);
    NamedIsMaterial(base, kids, i, purpose, j);
    RevokedSlot(base, kids, now, validityDays, i, purpose, j);
    RevokeKeyExactly(KeyAt(base.agents, i, purpose, j), kids, Material(base, kids, purpose), now);
  }

  /** Compromised material of a purpose is what the named keys of that purpose hold; equal bytes of the other purpose do not count. */
  lemma MaterialMeaning(base: Snapshot, kids: set<string>, purpose: Purpose, material: Bytes)
    requires UniqueKids(base.agents)
    ensures material in Material(base, kids, purpose) <==>
      exists i, j :: HasSlot(base.agents, i, purpose, j)
        && KeyAt(base.agents, i, purpose, j).kid in kids && KeyAt(base.agents, i, purpose, j).publicKey == material
  {
    hide UniqueKids, KeyTable;
    if material in Material(base, kids, purpose) {
      var kid :| kid in kids && kid in KeyTable(base.agents, purpose) && KeyTable(base.agents, purpose)[kid].key.publicKey == material;
      KeyTableMeaning(base.agents, purpose, kid);
    }
    if i, j :| (HasSlot(base.agents, i, purpose, j)
        && KeyAt(base.agents, i, purpose, j).kid in kids && KeyAt(base.agents, i, purpose, j).publicKey == material) {
      KeyTableMeaning(base.agents, purpose, KeyAt(base.agents, i, purpose, j).kid);
    }
  }

  lemma NamedIsMaterial(base: Snapshot, kids: set<string>, i: int, purpose: Purpose, j: int)
    requires UniqueKids(base.agents) && HasSlot(base.agents, i, purpose, j)
    ensures KeyAt(base.agents, i, purpose, j).kid in kids ==> KeyAt(base.agents, i, purpose, j).publicKey in Material(base, kids, purpose)
  {
    hide UniqueKids, KeyTable;
    KeyTableMeaning(base.agents, purpose, KeyAt(base.agents, i, purpose, j).kid);
  }

  lemma BestIsUsable(keys: seq<Key>, time: int, j: nat)
    requires j < |keys| && Usable(keys[j], time)
    ensures BestKey(keys, time).Some? && Usable(BestKey(keys, time).value, time)
    ensures exists m :: 0 <= m < |keys| && keys[m] == BestKey(keys, time).value
  {
    assert keys[j] in keys;
  }

  lemma CoverIsUsable(keys: seq<Key>, material: set<Bytes>, now: int, expires: int, time: int)
    requires Covered(keys, material, now, expires) && now <= time < expires
    ensures BestKey(keys, time).Some? && Usable(BestKey(keys, time).value, time)
    ensures exists m :: 0 <= m < |keys| && keys[m] == BestKey(keys, time).value
  {
    var j :| 0 <= j < |keys| && keys[j].status.Active? && keys[j].publicKey !in material && keys[j].notBefore <= now
      && (keys[j].notAfter.Some? ==> expires <= keys[j].notAfter.value);
    BestIsUsable(keys, time, j);
  }

  lemma ActiveIsSound(k: Key, after: Key, hit: bool, now: int, time: int)
    requires Revocation(k, after, hit, now) && Usable(after, time)
    ensures !hit && after.publicKey == k.publicKey
  {
  }

  lemma CandidateAgent(base: Snapshot, kids: set<string>, now: int, validityDays: int, i: nat)
    requires UniqueAgents(base.agents) && i < |base.agents|
    ensures var agents := RecoveryCandidate(base, kids, now, validityDays).agents;
      && |agents| == |base.agents| && agents[i].id == base.agents[i].id && agents[i].status == base.agents[i].status
      && FindAgent(agents, base.agents[i].id) == Some(agents[i])
  {
    var agents := RecoveryCandidate(base, kids, now, validityDays).agents;
    assert forall m :: 0 <= m < |base.agents| ==> agents[m].id == base.agents[m].id;
    FindAgentAt(agents, i);
  }

  /** For every active agent, purpose and instant of the candidate's life a key is selected, and its material is not compromised. */
  lemma SoundKeyAlways(base: Snapshot, roots: Roots, kids: set<string>, now: int, validityDays: int, i: nat, purpose: Purpose, time: int)
    requires Recover(base, roots, kids, now, validityDays).Ok?
    requires i < |base.agents| && base.agents[i].status.ActiveAgent?
    requires now <= time < RecoveryExpiry(base, now, validityDays)
    ensures var key := ActiveKey(Recover(base, roots, kids, now, validityDays).value, base.agents[i].id, purpose, time);
      key.Some? && key.value.publicKey !in Material(base, kids, purpose)
  {
    hide ValidDirectory, AllKnown, Material, UniqueKids, KeyTable, BestKey, Usable, ValidCandidate, Covered, RecoveredAudiences;
    var candidate := RecoveryCandidate(base, kids, now, validityDays);
    BaseFacts(base, roots, now);
    CandidateAgent(base, kids, now, validityDays, i);
    var keys := candidate.agents[i].Keys(purpose);
    assert Covered(keys, CompromiseOf(base, kids).Of(purpose), now, candidate.expires);
    hide RecoveryCandidate, Recover;
    CoverIsUsable(keys, Material(base, kids, purpose), now, candidate.expires, time);
    var m :| 0 <= m < |keys| && keys[m] == BestKey(keys, time).value;
    RevokedExactly(base, roots, kids, now, validityDays, i, purpose, m);
    assert KeyAt(candidate.agents, i, purpose, m) == keys[m];
    ActiveIsSound(KeyAt(base.agents, i, purpose, m), keys[m], KeyAt(base.agents, i, purpose, m).publicKey in Material(base, kids, purpose), now, time);
  }

  // ---- audiences ----

  /** The highest epoch of a logical audience among those a compromised owner can actively read. */
  ghost predicate Template(audiences: seq<Audience>, owners: set<string>, a: Audience) {
    && a in audiences && Hit(a, owners)
    && forall b :: b in audiences && Hit(b, owners) && b.key.name == a.key.name ==> b.key.epoch <= a.key.epoch
  }

  /** An affected logical audience: all old epochs inactive, one active successor above them all with the template's policy. */
  lemma AffectedAudience(audiences: seq<Audience>, owners: set<string>, a: Audience)
    requires UniqueAudiences(audiences) && Template(audiences, owners, a)
    ensures var r := RecoveredAudiences(audiences, owners);
      var successor := FindAudience(r, a.key.name);
      && successor == Some(a.(key := AudienceKey(a.key.name, 1 + HighestEpoch(audiences, a.key.name)), status := ActiveAudience))
      && (forall b :: b in audiences && b.key.name == a.key.name ==> b.key.epoch < successor.value.key.epoch)
      && (forall b :: b in r && b.key.name == a.key.name && b.status.ActiveAudience? ==> b == successor.value)
      && (forall i :: 0 <= i < |audiences| && audiences[i].key.name == a.key.name ==>
          !r[i].status.ActiveAudience? && r[i] == audiences[i].(status := r[i].status) && (!audiences[i].status.ActiveAudience? ==> r[i] == audiences[i]))
  {
    hide Scan, SortNames, RecoveredAudiences, Hit, UniqueAudiences, HighestEpoch, FindAudience, Successor, Template;
    var r, name := RecoveredAudiences(audiences, owners), a.key.name;
    AffectedSuccessor(audiences, owners, a);
    forall i | 0 <= i < |r| && r[i].key.name == name
      ensures i < |audiences| ==> !r[i].status.ActiveAudience? && r[i] == audiences[i].(status := r[i].status)
      ensures i < |audiences| && !audiences[i].status.ActiveAudience? ==> r[i] == audiences[i]
      ensures i >= |audiences| ==> r[i] == Successor(audiences, a)
    {
      AffectedEntry(audiences, owners, a, i);
    }
    forall b | b in r && b.key.name == name && b.status.ActiveAudience?
      ensures b == Successor(audiences, a)
    {
      var i :| 0 <= i < |r| && r[i] == b;
    }
    SuccessorShape(audiences, a);
    NamesKept(audiences, owners);
  }

  lemma SuccessorShape(audiences: seq<Audience>, a: Audience)
    ensures Successor(audiences, a)
      == a.(key := AudienceKey(a.key.name, 1 + HighestEpoch(audiences, a.key.name)), status := ActiveAudience)
  {
  }

  lemma NamesKept(audiences: seq<Audience>, owners: set<string>)
    ensures |audiences| <= |RecoveredAudiences(audiences, owners)|
    ensures forall i :: 0 <= i < |audiences| ==> RecoveredAudiences(audiences, owners)[i].key == audiences[i].key
  {
    hide Scan, SortNames, RecoveredAudiences;
    RecoveredLength(audiences, owners);
    forall i | 0 <= i < |audiences| ensures RecoveredAudiences(audiences, owners)[i].key == audiences[i].key {
      RecoveredEntry(audiences, owners, i);
    }
  }

  /** An entry of an affected name is an old epoch, now inactive, or the successor. */
  lemma AffectedEntry(audiences: seq<Audience>, owners: set<string>, a: Audience, i: nat)
    requires UniqueAudiences(audiences) && Template(audiences, owners, a)
    requires i < |RecoveredAudiences(audiences, owners)| && RecoveredAudiences(audiences, owners)[i].key.name == a.key.name
    ensures var e := RecoveredAudiences(audiences, owners)[i];
      && (i < |audiences| ==> !e.status.ActiveAudience? && e == audiences[i].(status := e.status))
      && (i < |audiences| && !audiences[i].status.ActiveAudience? ==> e == audiences[i])
      && (i >= |audiences| ==> e == Successor(audiences, a))
  {
    hide Scan, SortNames, RecoveredAudiences, UniqueAudiences, Successor, Template;
    RecoveredEntry(audiences, owners, i);
    TemplateUnique(audiences, owners, a);
  }

  lemma AffectedSuccessor(audiences: seq<Audience>, owners: set<string>, a: Audience)
    requires UniqueAudiences(audiences) && Template(audiences, owners, a)
    ensures Successor(audiences, a) in RecoveredAudiences(audiences, owners)
  {
    hide SortNames, RecoveredAudiences, UniqueAudiences, Template, Scan, Successor;
    var r, s := RecoveredAudiences(audiences, owners), Scan(audiences, owners);
    TemplateUnique(audiences, owners, a);
    ScanMeaning(audiences, owners);
    SortedNamesSame(s.order);
    RecoveredLength(audiences, owners);
    var m :| 0 <= m < |SortNames(s.order)| && SortNames(s.order)[m] == a.key.name;
    NamedEntry(audiences, owners, m);
    assert r[|audiences| + m] in r;
  }

  lemma NamedEntry(audiences: seq<Audience>, owners: set<string>, m: nat)
    requires m < |SortNames(Scan(audiences, owners).order)|
    ensures |audiences| + m < |RecoveredAudiences(audiences, owners)|
    ensures var name := SortNames(Scan(audiences, owners).order)[m];
      && name in Scan(audiences, owners).templates
      && RecoveredAudiences(audiences, owners)[|audiences| + m] == Successor(audiences, Scan(audiences, owners).templates[name])
  {
    hide Scan, SortNames, RecoveredAudiences, Successor;
    RecoveredLength(audiences, owners);
    RecoveredEntry(audiences, owners, |audiences| + m);
  }

  lemma TemplateUnique(audiences: seq<Audience>, owners: set<string>, a: Audience)
    requires UniqueAudiences(audiences) && Template(audiences, owners, a)
    ensures a.key.name in Scan(audiences, owners).templates && Scan(audiences, owners).templates[a.key.name] == a
  {
    hide Scan, Hit;
    ScanMeaning(audiences, owners);
    var b := Scan(audiences, owners).templates[a.key.name];
    assert a.key == b.key;
    var i :| 0 <= i < |audiences| && audiences[i] == a;
    var j :| 0 <= j < |audiences| && audiences[j] == b;
  }

  /** An audience no compromised owner can actively read keeps every epoch as it was, in place, and gains none. */
  lemma UnaffectedAudience(audiences: seq<Audience>, owners: set<string>, name: AudienceName)
    requires forall b :: b in audiences && b.key.name == name ==> !Hit(b, owners)
    ensures var r := RecoveredAudiences(audiences, owners);
      && |audiences| <= |r|
      && (forall i :: 0 <= i < |audiences| && audiences[i].key.name == name ==> r[i] == audiences[i])
      && (forall b :: b in r && b.key.name == name ==> b in audiences)
  {
    hide Scan, SortNames, RecoveredAudiences, Hit, HighestEpoch;
    var r := RecoveredAudiences(audiences, owners);
    ScanMeaning(audiences, owners);
    RecoveredLength(audiences, owners);
    forall i | 0 <= i < |r| {
      RecoveredEntry(audiences, owners, i);
    }
  }

  /** Owners are the agents holding compromised encryption material under any key ID. */
  lemma OwnersMeaning(base: Snapshot, kids: set<string>, owner: string)
    requires UniqueKids(base.agents)
    ensures owner in Owners(base, kids) <==>
      exists i, j :: HasSlot(base.agents, i, Encryption, j) && base.agents[i].id == owner
        && KeyAt(base.agents, i, Encryption, j).publicKey in Material(base, kids, Encryption)
  {
    hide UniqueKids, KeyTable, Material;
    if owner in Owners(base, kids) {
      var kid :| kid in KeyTable(base.agents, Encryption)
        && KeyTable(base.agents, Encryption)[kid].key.publicKey in Material(base, kids, Encryption)
        && KeyTable(base.agents, Encryption)[kid].owner == owner;
      KeyTableMeaning(base.agents, Encryption, kid);
    }
    if i, j :| (HasSlot(base.agents, i, Encryption, j) && base.agents[i].id == owner
        && KeyAt(base.agents, i, Encryption, j).publicKey in Material(base, kids, Encryption)) {
      KeyTableMeaning(base.agents, Encryption, KeyAt(base.agents, i, Encryption, j).kid);
    }
  }
}
