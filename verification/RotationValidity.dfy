/** A composed rotation is always a valid directory, and hands every agent over without a gap. */
module RotationValidity {
  import opened Wrappers
  import opened Text
  import opened Directory
  import opened DirectoryContext
  import opened Rotation

  /** The situation after collection: a valid base, exactly its active agents announced, no end extended. */
  ghost predicate Ready(base: Snapshot, roots: Roots, verified: map<string, Announcement>, c: Ceremony) {
    && ValidDirectory(base, roots, c.now)
    && (forall id :: id in verified ==> AnnouncementOk(base, roots, verified[id], c) && verified[id].terms.agentId == id)
    && (forall i :: 0 <= i < |base.agents| && base.agents[i].status.ActiveAgent? ==> base.agents[i].id in verified)
    && AllEndAfter(base.agents, verified, c.activation)
  }

  /** The numbers composition makes larger stay representable: directory epoch and expiry. */
  ghost predicate Headroom(base: Snapshot, issued: int) {
    base.epoch + 1 <= MAX_INTEGER && issued + ROTATION_VALIDITY_DAYS * MS_PER_DAY <= MAX_INTEGER
  }

  /** issued is the latest issuance among the announcements. */
  ghost predicate Latest(verified: map<string, Announcement>, issued: int) {
    && (exists id :: id in verified && verified[id].terms.issued == issued)
    && (forall id :: id in verified ==> verified[id].terms.issued <= issued)
  }

  lemma BaseFacts(base: Snapshot, roots: Roots, now: int)
    requires ValidDirectory(base, roots, now)
    ensures EachAgentOk(base.agents) && UniqueAgents(base.agents) && UniqueKids(base.agents)
  {
  }

  lemma ReadyBase(base: Snapshot, roots: Roots, verified: map<string, Announcement>, c: Ceremony)
    requires Ready(base, roots, verified, c)
    ensures ValidDirectory(base, roots, c.now)
    ensures EachAgentOk(base.agents) && UniqueAgents(base.agents) && UniqueKids(base.agents)
  {
    hide AnnouncementOk, AllEndAfter;
  }

  lemma ReadyEnds(base: Snapshot, roots: Roots, verified: map<string, Announcement>, c: Ceremony, i: nat, purpose: Purpose)
    requires Ready(base, roots, verified, c) && i < |base.agents| && base.agents[i].id in verified
    ensures EndsAfter(base.agents[i].Keys(purpose), verified[base.agents[i].id].terms.Previous(purpose), c.activation)
  {
    hide AnnouncementOk, ValidDirectory;
  }

  lemma VerifiedTerms(base: Snapshot, roots: Roots, verified: map<string, Announcement>, c: Ceremony, id: string)
    requires Ready(base, roots, verified, c) && id in verified
    ensures TermsOk(base, roots, verified[id], c) && verified[id].terms.agentId == id
  {
    hide TermsOk, ValidDirectory, AllEndAfter;
  }

  // ---- what a verified announcement says about its agent's keys ----

  ghost predicate Announces(base: Snapshot, i: nat, purpose: Purpose, t: Terms, activation: int, j: nat)
    requires i < |base.agents|
  {
    var keys := base.agents[i].Keys(purpose);
    && j < |keys|
    && keys[j].kid == t.Previous(purpose)
    && Usable(keys[j], t.issued)
    && t.issued < activation
    && (forall m :: 0 <= m < |keys| ==> keys[m].epoch < t.Next(purpose).epoch)
    && IsInteger(t.Next(purpose).epoch, 1)
    && t.Next(purpose).kid == KeyId(base.agents[i].id, Tag(purpose), t.Next(purpose).epoch)
    && IsIdentifier(t.Next(purpose).kid)
    && |t.Next(purpose).publicKey| == 32
    && !KidOf(base.agents, t.Next(purpose).kid)
  }

  lemma KnownIsKidOf(s: Snapshot, kid: string)
    requires UniqueKids(s.agents)
    ensures KnownKid(s, kid) <==> KidOf(s.agents, kid)
  {
    KeyTableMeaning(s.agents, Signing, kid);
    KeyTableMeaning(s.agents, Encryption, kid);
    if KidOf(s.agents, kid) {
      var i, p, j :| HasSlot(s.agents, i, p, j) && KeyAt(s.agents, i, p, j).kid == kid;
      assert p == Signing || p == Encryption;
    }
  }

  lemma Announced(base: Snapshot, roots: Roots, verified: map<string, Announcement>, c: Ceremony, i: nat, purpose: Purpose)
    returns (j: nat)
    requires Ready(base, roots, verified, c) && i < |base.agents| && base.agents[i].id in verified
    ensures Announces(base, i, purpose, verified[base.agents[i].id].terms, c.activation, j)
  {
    hide Ready, ValidDirectory, UniqueKids, UniqueAgents, EachAgentOk, KidOf, KnownKid, IsIdentifier, Verifies, KeyId, FindAgent, BestKey, Usable, MaxEpoch, AllEndAfter;
    var a := base.agents[i];
    var t := verified[a.id].terms;
    VerifiedTerms(base, roots, verified, c, a.id);
    ReadyBase(base, roots, verified, c);
    FindAgentAt(base.agents, i);
    KnownIsKidOf(base, t.Next(purpose).kid);
    assert SuccessorOk(base, a, purpose, t.Next(purpose));
    var current := ActiveKey(base, a.id, purpose, t.issued).value;
    j :| 0 <= j < |a.Keys(purpose)| && a.Keys(purpose)[j] == current;
  }

  // ---- the shape of the rotated key lists ----

  lemma RotatedKeys(a: Agent, verified: map<string, Announcement>, activation: int, expiry: int, purpose: Purpose)
    requires a.id in verified
    ensures var t := verified[a.id].terms;
      RotateAgent(a, verified, activation, expiry).Keys(purpose) ==
        CutKeys(a.Keys(purpose), t.Previous(purpose), activation) + [NewKey(t.Next(purpose), activation, expiry)]
  {
  }

  /** Each key of the rotated directory is a base key, possibly cut, or the announced key of its agent. */
  ghost predicate Carried(base: seq<Agent>, rotated: seq<Agent>, i: int, purpose: Purpose, j: int)
    requires HasSlot(rotated, i, purpose, j)
  {
    HasSlot(base, i, purpose, j) && KeyAt(rotated, i, purpose, j).kid == KeyAt(base, i, purpose, j).kid
  }

  ghost predicate Introduced(base: seq<Agent>, verified: map<string, Announcement>, rotated: seq<Agent>, i: int, purpose: Purpose, j: int)
    requires HasSlot(rotated, i, purpose, j)
  {
    && 0 <= i < |base|
    && base[i].id in verified
    && j == |base[i].Keys(purpose)|
    && KeyAt(rotated, i, purpose, j).kid == verified[base[i].id].terms.Next(purpose).kid
  }

  lemma SlotOrigin(base: seq<Agent>, verified: map<string, Announcement>, activation: int, expiry: int, i: int, purpose: Purpose, j: int)
    requires HasSlot(RotateAgents(base, verified, activation, expiry), i, purpose, j)
    ensures var rotated := RotateAgents(base, verified, activation, expiry);
      Carried(base, rotated, i, purpose, j) || Introduced(base, verified, rotated, i, purpose, j)
  {
    if base[i].id in verified {
      RotatedKeys(base[i], verified, activation, expiry, purpose);
    }
  }

  lemma TagsHaveNoSlash(purpose: Purpose)
    ensures '/' !in Tag(purpose)
    ensures forall other :: Tag(other) == Tag(purpose) ==> other == purpose
  {
    assert Tag(Signing)[0] == 's' && Tag(Encryption)[0] == 'e';
  }

  /** Two keys of the rotated directory with one ID are one key. */
  lemma PairDistinct(base: Snapshot, roots: Roots, verified: map<string, Announcement>, c: Ceremony, expiry: int,
      i: int, p: Purpose, j: int, i': int, p': Purpose, j': int)
    requires Ready(base, roots, verified, c)
    requires var rotated := RotateAgents(base.agents, verified, c.activation, expiry);
      && HasSlot(rotated, i, p, j) && HasSlot(rotated, i', p', j')
      && KeyAt(rotated, i, p, j).kid == KeyAt(rotated, i', p', j').kid
    ensures i == i' && p == p' && j == j'
  {
    hide AnnouncementOk, ValidDirectory;
    var rotated := RotateAgents(base.agents, verified, c.activation, expiry);
    SlotOrigin(base.agents, verified, c.activation, expiry, i, p, j);
    SlotOrigin(base.agents, verified, c.activation, expiry, i', p', j');
    BaseFacts(base, roots, c.now);
    var added, added' := Introduced(base.agents, verified, rotated, i, p, j), Introduced(base.agents, verified, rotated, i', p', j');
    if added {
      var _ := Announced(base, roots, verified, c, i, p);
    }
    if added' {
      var _ := Announced(base, roots, verified, c, i', p');
    }
    if added && added' {
      var next, next' := verified[base.agents[i].id].terms.Next(p), verified[base.agents[i'].id].terms.Next(p');
      TagsHaveNoSlash(p);
      TagsHaveNoSlash(p');
      KeyIdInjective(base.agents[i].id, Tag(p), next.epoch, base.agents[i'].id, Tag(p'), next'.epoch);
    }
  }

  lemma RotatedUnique(base: Snapshot, roots: Roots, verified: map<string, Announcement>, c: Ceremony, expiry: int)
    requires Ready(base, roots, verified, c)
    ensures UniqueKids(RotateAgents(base.agents, verified, c.activation, expiry))
  {
    hide Ready;
    var rotated := RotateAgents(base.agents, verified, c.activation, expiry);
    forall i, p, j, i', p', j' | HasSlot(rotated, i, p, j) && HasSlot(rotated, i', p', j')
        && KeyAt(rotated, i, p, j).kid == KeyAt(rotated, i', p', j').kid
      ensures i == i' && p == p' && j == j'
    {
      PairDistinct(base, roots, verified, c, expiry, i, p, j, i', p', j');
    }
  }

  lemma RotatedAgentIds(agents: seq<Agent>, verified: map<string, Announcement>, activation: int, expiry: int)
    ensures UniqueAgents(agents) ==> UniqueAgents(RotateAgents(agents, verified, activation, expiry))
    ensures AgentIds(RotateAgents(agents, verified, activation, expiry)) == AgentIds(agents)
  {
    var rotated := RotateAgents(agents, verified, activation, expiry);
    assert forall i :: 0 <= i < |agents| ==> rotated[i].id == agents[i].id;
  }

  /** The rotated list of one purpose is well formed exactly when the new expiry is representable. */
  lemma RotatedListOk(keys: seq<Key>, kid: string, next: PublicKey, issued: int, activation: int, expiry: int, j: nat)
    requires KeysOk(keys)
    requires j < |keys| && keys[j].kid == kid && Usable(keys[j], issued) && issued < activation < expiry
    requires forall m, n :: 0 <= m < n < |keys| ==> keys[m].kid != keys[n].kid
    requires EndsAfter(keys, kid, activation)
    requires forall m :: 0 <= m < |keys| ==> keys[m].epoch < next.epoch
    requires IsIdentifier(next.kid) && IsInteger(next.epoch, 1) && |next.publicKey| == 32
    ensures KeysOk(CutKeys(keys, kid, activation) + [NewKey(next, activation, expiry)]) <==> expiry <= MAX_INTEGER
  {
    hide IsIdentifier;
    var cut := CutKeys(keys, kid, activation);
    var r := cut + [NewKey(next, activation, expiry)];
    assert r[|keys|] == NewKey(next, activation, expiry);
    assert KeyOk(keys[j]);
    if expiry <= MAX_INTEGER {
      forall m | 0 <= m < |keys|
        ensures KeyOk(r[m])
      {
        assert r[m] == CutKey(keys[m], kid, activation);
        assert KeyOk(keys[m]);
        assert keys[m].kid == kid ==> m == j;
      }
      assert forall m :: 0 <= m < |keys| ==> r[m].epoch == keys[m].epoch;
    } else {
      assert !KeyOk(r[|keys|]);
    }
  }

  lemma RotatedAgentOk(base: Snapshot, roots: Roots, verified: map<string, Announcement>, c: Ceremony, expiry: int, i: nat)
    requires Ready(base, roots, verified, c) && i < |base.agents| && c.activation < expiry
    ensures base.agents[i].id !in verified ==> AgentOk(RotateAgent(base.agents[i], verified, c.activation, expiry))
    ensures base.agents[i].id in verified ==>
      (AgentOk(RotateAgent(base.agents[i], verified, c.activation, expiry)) <==> expiry <= MAX_INTEGER)
  {
    hide AnnouncementOk, ValidDirectory, KeysOk;
    BaseFacts(base, roots, c.now);
    var a := base.agents[i];
    assert AgentOk(a);
    if a.id in verified {
      var t := verified[a.id].terms;
      var j := Announced(base, roots, verified, c, i, Signing);
      UniqueWithin(base.agents, i, Signing);
      RotatedListOk(a.signing, t.previousSigningKid, t.nextSigning, t.issued, c.activation, expiry, j);
      var m := Announced(base, roots, verified, c, i, Encryption);
      UniqueWithin(base.agents, i, Encryption);
      RotatedListOk(a.encryption, t.previousEncryptionKid, t.nextEncryption, t.issued, c.activation, expiry, m);
    }
  }

  /** Composition never produces an invalid directory while its numbers are representable, so the final check cannot fire. */
  lemma CandidateValid(base: Snapshot, roots: Roots, verified: map<string, Announcement>, issued: int, c: Ceremony)
    requires Ready(base, roots, verified, c) && Latest(verified, issued)
    requires c.activation + DEFAULT_DRAIN_MS < issued + ROTATION_VALIDITY_DAYS * MS_PER_DAY
    ensures ValidCandidate(Candidate(base, verified, issued, c.activation), roots, c.now) <==> Headroom(base, issued)
  {
    hide Ready, HeaderOk, AgentsOk, UniqueAgents, UniqueKids, EachAgentOk, AudiencesOk, SignaturesOk, RotateAgents, AgentIds;
    var candidate := Candidate(base, verified, issued, c.activation);
    CandidateTimes(base, roots, verified, issued, c);
    assert verified != map[] && c.activation < candidate.expires;
    CandidateAgents(base, roots, verified, c, candidate.expires);
    RotatedAgentIds(base.agents, verified, c.activation, candidate.expires);
    ReadyBase(base, roots, verified, c);
  }

  /** The rotated agents are well formed exactly when their common expiry is representable. */
  lemma CandidateAgents(base: Snapshot, roots: Roots, verified: map<string, Announcement>, c: Ceremony, expiry: int)
    requires Ready(base, roots, verified, c) && c.activation < expiry && verified != map[]
    ensures RotateAgents(base.agents, verified, c.activation, expiry) != []
    ensures AgentsOk(RotateAgents(base.agents, verified, c.activation, expiry)) <==> expiry <= MAX_INTEGER
  {
    hide Ready, AgentOk, UniqueKids, RotateAgent;
    var rotated := RotateAgents(base.agents, verified, c.activation, expiry);
    ReadyBase(base, roots, verified, c);
    RotatedUnique(base, roots, verified, c, expiry);
    RotatedAgentIds(base.agents, verified, c.activation, expiry);
    assert forall i :: 0 <= i < |base.agents| ==> rotated[i] == RotateAgent(base.agents[i], verified, c.activation, expiry);
    forall i | 0 <= i < |base.agents| {
      RotatedAgentOk(base, roots, verified, c, expiry, i);
    }
    forall id | id in verified && EachAgentOk(rotated)
      ensures expiry <= MAX_INTEGER
    {
      var i := AgentOf(base, roots, verified, c, id);
      assert AgentOk(rotated[i]);
    }
    assert exists id :: id in verified;
  }

  lemma AgentOf(base: Snapshot, roots: Roots, verified: map<string, Announcement>, c: Ceremony, id: string) returns (i: nat)
    requires Ready(base, roots, verified, c) && id in verified
    ensures i < |base.agents| && base.agents[i].id == id && base.agents[i].status.ActiveAgent?
  {
    VerifiedTerms(base, roots, verified, c, id);
    var agent := FindAgent(base.agents, id).value;
    i :| 0 <= i < |base.agents| && base.agents[i] == agent;
  }

  lemma CandidateTimes(base: Snapshot, roots: Roots, verified: map<string, Announcement>, issued: int, c: Ceremony)
    requires Ready(base, roots, verified, c) && Latest(verified, issued)
    requires c.activation + DEFAULT_DRAIN_MS < issued + ROTATION_VALIDITY_DAYS * MS_PER_DAY
    ensures HeaderOk(Candidate(base, verified, issued, c.activation), roots, c.now) <==>
      base.epoch + 1 <= MAX_INTEGER && issued + ROTATION_VALIDITY_DAYS * MS_PER_DAY <= MAX_INTEGER
  {
    hide Ready, AgentsOk, AudiencesOk, SignaturesOk, AuthorizedByCurrentKeys, SuccessorOk, RotateAgents;
    var id :| id in verified && verified[id].terms.issued == issued;
    VerifiedTerms(base, roots, verified, c, id);
    ReadyBase(base, roots, verified, c);
  }

  // ---- hand-over ----

  /** One window lies inside another. */
  ghost predicate Narrower(k: Key, k': Key) {
    && k'.kid == k.kid && k'.epoch == k.epoch && k'.publicKey == k.publicKey && k'.status == k.status
    && forall time {:trigger InWindow(k', time)} :: InWindow(k', time) ==> InWindow(k, time)
  }

  /** Rotation never revives or extends an existing key: same ID, epoch, material and status, no longer window. */
  lemma NothingWidened(base: Snapshot, roots: Roots, verified: map<string, Announcement>, c: Ceremony, issued: int, i: int, purpose: Purpose, j: int)
    requires Ready(base, roots, verified, c) && HasSlot(base.agents, i, purpose, j)
    ensures HasSlot(Candidate(base, verified, issued, c.activation).agents, i, purpose, j)
    ensures Narrower(KeyAt(base.agents, i, purpose, j), KeyAt(Candidate(base, verified, issued, c.activation).agents, i, purpose, j))
    ensures |Candidate(base, verified, issued, c.activation).agents| == |base.agents|
  {
    hide AnnouncementOk, ValidDirectory;
    var expiry := issued + ROTATION_VALIDITY_DAYS * MS_PER_DAY;
    if base.agents[i].id in verified {
      RotatedKeys(base.agents[i], verified, c.activation, expiry, purpose);
    }
  }

  lemma BestAfterCut(keys: seq<Key>, kid: string, next: PublicKey, issued: int, activation: int, expiry: int, j: nat, time: int)
    requires j < |keys| && keys[j].kid == kid && Usable(keys[j], issued) && EndsAfter(keys, kid, activation)
    requires forall m :: 0 <= m < |keys| ==> keys[m].epoch < next.epoch
    requires issued <= time < expiry && issued < activation
    ensures var best := BestKey(CutKeys(keys, kid, activation) + [NewKey(next, activation, expiry)], time);
      best.Some? && (activation <= time ==> best == Some(NewKey(next, activation, expiry)))
  {
    var r, added := CutKeys(keys, kid, activation) + [NewKey(next, activation, expiry)], NewKey(next, activation, expiry);
    assert r[|keys|] == added && r[j] == CutKey(keys[j], kid, activation);
    if time < activation {
      assert Usable(r[j], time) && r[j] in r;
    } else {
      assert Usable(added, time) && added in r;
      forall k | k in r && Usable(k, time)
        ensures k == added || k.epoch < added.epoch
      {
        var m :| 0 <= m < |r| && r[m] == k;
        assert m < |keys| ==> k == CutKey(keys[m], kid, activation);
      }
    }
  }

  /** For each active agent and purpose a key is usable from its announcement's issuance until the candidate expires;
      from the activation on it is exactly the announced key, never the replaced one. */
  lemma NoGap(base: Snapshot, roots: Roots, verified: map<string, Announcement>, c: Ceremony, issued: int, i: nat, purpose: Purpose, time: int)
    requires Ready(base, roots, verified, c)
    requires i < |base.agents| && base.agents[i].status.ActiveAgent?
    requires base.agents[i].id in verified && verified[base.agents[i].id].terms.issued <= time < Candidate(base, verified, issued, c.activation).expires
    ensures var t := verified[base.agents[i].id].terms;
      var candidate := Candidate(base, verified, issued, c.activation);
      var key := ActiveKey(candidate, base.agents[i].id, purpose, time);
      && key.Some?
      && (c.activation <= time ==> key == Some(NewKey(t.Next(purpose), c.activation, candidate.expires)) && key.value.kid != t.Previous(purpose))
  {
    hide Ready, ValidDirectory, AgentOk, UniqueKids, IsIdentifier, CutKeys, NewKey, BestKey;
    var candidate, a := Candidate(base, verified, issued, c.activation), base.agents[i];
    var t := verified[a.id].terms;
    ReadyBase(base, roots, verified, c);
    RotatedAgentIds(base.agents, verified, c.activation, candidate.expires);
    FindAgentAt(candidate.agents, i);
    RotatedKeys(a, verified, c.activation, candidate.expires, purpose);
    var j := Announced(base, roots, verified, c, i, purpose);
    ReadyEnds(base, roots, verified, c, i, purpose);
    BestAfterCut(a.Keys(purpose), t.Previous(purpose), t.Next(purpose), t.issued, c.activation, candidate.expires, j, time);
    NewKid(base, t, i, purpose, j, c.activation, candidate.expires);
  }

  lemma NewKid(base: Snapshot, t: Terms, i: nat, purpose: Purpose, j: nat, activation: int, expiry: int)
    requires i < |base.agents| && Announces(base, i, purpose, t, activation, j)
    ensures NewKey(t.Next(purpose), activation, expiry).kid != t.Previous(purpose)
  {
    assert HasSlot(base.agents, i, purpose, j);
  }
}
