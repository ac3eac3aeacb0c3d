/** The key rotation ceremony: announcements, their verification, and the composition of the next directory. */
module Rotation {
  import opened Wrappers
  import opened Text
  import opened Sorting
  import opened Directory
  import opened DirectoryContext

  const ANNOUNCEMENT_SCHEMA := "tribe-key-rotation-announcement/v1"
  const MS_PER_DAY := 86_400_000
  const MAX_ANNOUNCEMENT_LIFETIME_MS := 7 * MS_PER_DAY
  const DEFAULT_DRAIN_MS := 72 * 60 * 60 * 1000
  const ROTATION_VALIDITY_DAYS := 30

  datatype PublicKey = PublicKey(kid: string, epoch: int, publicKey: Bytes)

  /** The signed part of an announcement. */
  datatype Terms = Terms(
    schema: string,
    ceremonyId: string,
    agentId: string,
    baseEpoch: int,
    baseDigest: Digest<Snapshot>,
    rootsDigest: Digest<Roots>,
    previousSigningKid: string,
    previousEncryptionKid: string,
    nextSigning: PublicKey,
    nextEncryption: PublicKey,
    activation: int,
    issued: int,
    expires: int,
    nonce: Bytes,
    signerKid: string)
  {
    function Previous(purpose: Purpose): string {
      if purpose.Signing? then previousSigningKid else previousEncryptionKid
    }

    function Next(purpose: Purpose): PublicKey {
      if purpose.Signing? then nextSigning else nextEncryption
    }
  }

  datatype Announcement = Announcement(terms: Terms, signature: Signature<Terms>)

  /** The arguments every check of one ceremony shares. */
  datatype Ceremony = Ceremony(id: string, activation: int, now: int)

  function Tag(purpose: Purpose): string {
    if purpose.Signing? then "sig" else "enc"
  }

  function MaxEpoch(keys: seq<Key>): (r: int)
    requires keys != []
    ensures forall k :: k in keys ==> k.epoch <= r
    ensures exists k :: k in keys && k.epoch == r
  {
    var last := keys[|keys| - 1];
    if |keys| == 1 then last.epoch
    else
      var rest := MaxEpoch(keys[..|keys| - 1]);
      assert forall k :: k in keys <==> k in keys[..|keys| - 1] || k == last;
      if rest < last.epoch then last.epoch else rest
  }

  predicate KnownKid(s: Snapshot, kid: string) {
    kid in KeyTable(s.agents, Signing) || kid in KeyTable(s.agents, Encryption)
  }

  /** The announced key must be the next epoch of its purpose, small enough to sign, under the ID that epoch dictates, and unused. */
  predicate SuccessorOk(base: Snapshot, agent: Agent, purpose: Purpose, next: PublicKey) {
    && IsIdentifier(next.kid)
    && agent.Keys(purpose) != []
    && next.epoch == MaxEpoch(agent.Keys(purpose)) + 1
    && IsInteger(next.epoch, 1)
    && next.kid == KeyId(agent.id, Tag(purpose), next.epoch)
    && !KnownKid(base, next.kid)
    && |next.publicKey| == 32
  }

  predicate AuthorizedByCurrentKeys(base: Snapshot, a: Announcement) {
    var t := a.terms;
    var signing := ActiveKey(base, t.agentId, Signing, t.issued);
    var encryption := ActiveKey(base, t.agentId, Encryption, t.issued);
    && signing.Some?
    && encryption.Some?
    && t.previousSigningKid == signing.value.kid
    && t.previousEncryptionKid == encryption.value.kid
    && t.signerKid == signing.value.kid
    && Verifies(a.signature, signing.value.publicKey, t)
  }

  predicate TermsOk(base: Snapshot, roots: Roots, a: Announcement, c: Ceremony) {
    var t := a.terms;
    && t.schema == ANNOUNCEMENT_SCHEMA
    && t.ceremonyId == c.id
    && t.baseEpoch == base.epoch
    && t.baseDigest == Sha256(base)
    && t.rootsDigest == Sha256(roots)
    && IsInteger(t.issued, 1)
    && IsInteger(t.expires, 1)
    && t.issued < t.expires
    && t.issued <= c.now + MAX_CLOCK_SKEW_MS
    && c.now < t.expires
    && t.expires - t.issued <= MAX_ANNOUNCEMENT_LIFETIME_MS
    && t.activation == c.activation
    && t.expires <= c.activation
    && IsIdentifier(t.agentId)
    && var agent := FindAgent(base.agents, t.agentId);
    && agent.Some?
    && agent.value.status.ActiveAgent?
    && AuthorizedByCurrentKeys(base, a)
    && SuccessorOk(base, agent.value, Signing, t.nextSigning)
    && SuccessorOk(base, agent.value, Encryption, t.nextEncryption)
    && |t.nonce| == 24
  }

  ghost predicate AnnouncementOk(base: Snapshot, roots: Roots, a: Announcement, c: Ceremony) {
    ValidDirectory(base, roots, c.now) && TermsOk(base, roots, a, c)
  }

  method VerifyAnnouncement(base: Snapshot, roots: Roots, a: Announcement, c: Ceremony) returns (ok: bool)
    ensures ok <==> AnnouncementOk(base, roots, a, c)
  {
    ok := Validate(base, roots, c.now, true);
    ok := ok && TermsOk(base, roots, a, c);
  }

  // ---- preparing an announcement ----

  /** Fresh randomness for one announcement: two public keys and a nonce. */
  datatype Draw = Draw(signing: Bytes, encryption: Bytes, nonce: Bytes)

  /** The announcement an agent publishes when it generates its successor keys, if its keys and times allow. */
  ghost function Prepare(base: Snapshot, roots: Roots, agentId: string, signingKid: string, c: Ceremony, expires: int, draw: Draw): Option<Announcement> {
    var signing := ActiveKey(base, agentId, Signing, c.now);
    var encryption := ActiveKey(base, agentId, Encryption, c.now);
    if !IsInteger(c.activation, 1) || !IsInteger(c.now, 1) || !IsInteger(expires, 1) then None
    else if !IsIdentifier(c.id) then None
    else if !(c.now < expires <= c.activation) || expires - c.now > MAX_ANNOUNCEMENT_LIFETIME_MS then None
    else if !ValidDirectory(base, roots, c.now) then None
    else if signing.None? || encryption.None? || signing.value.kid != signingKid then None
    else
      var agent := FindAgent(base.agents, agentId).value;
      var signingEpoch, encryptionEpoch := MaxEpoch(agent.signing) + 1, MaxEpoch(agent.encryption) + 1;
      if !IsInteger(signingEpoch, 1) || !IsInteger(encryptionEpoch, 1) then None
      else if KnownKid(base, KeyId(agentId, "sig", signingEpoch)) || KnownKid(base, KeyId(agentId, "enc", encryptionEpoch)) then None
      else
        var t := Terms(
          ANNOUNCEMENT_SCHEMA, c.id, agentId, base.epoch, Sha256(base), Sha256(roots), signing.value.kid, encryption.value.kid,
          PublicKey(KeyId(agentId, "sig", signingEpoch), signingEpoch, draw.signing),
          PublicKey(KeyId(agentId, "enc", encryptionEpoch), encryptionEpoch, draw.encryption),
          c.activation, c.now, expires, draw.nonce, signingKid);
        Some(Announcement(t, Ed25519(signing.value.publicKey, t, 0)))
  }

  // ---- composing the next directory ----

  datatype Failure =
    | RejectedAnnouncement
    | WrongAgentSet
    | ActivationTooLate
    | NoActiveAgent
    | DrainTooShort
    | InvalidCandidate

  /** The dictionary the collection loop builds: agents in insertion order, their announcements, the nonces seen. */
  datatype Collected = Collected(agents: seq<string>, verified: map<string, Announcement>, nonces: set<Bytes>)

  ghost function Collect(base: Snapshot, roots: Roots, anns: seq<Announcement>, c: Ceremony): Option<Collected> {
    if anns == [] then Some(Collected([], map[], {}))
    else
      var before, last := Collect(base, roots, anns[..|anns| - 1], c), anns[|anns| - 1];
      if before.None? || !AnnouncementOk(base, roots, last, c) then None
      else
        var b := before.value;
        if last.terms.agentId in b.verified || last.terms.nonce in b.nonces then None
        else Some(Collected(b.agents + [last.terms.agentId], b.verified[last.terms.agentId := last], b.nonces + {last.terms.nonce}))
  }

  function ActiveIds(agents: seq<Agent>): (r: seq<string>)
    ensures forall id :: id in r <==> exists a :: a in agents && a.status.ActiveAgent? && a.id == id
  {
    if agents == [] then []
    else
      var front, last := agents[..|agents| - 1], agents[|agents| - 1];
      assert forall a :: a in agents <==> a in front || a == last;
      ActiveIds(front) + (if last.status.ActiveAgent? then [last.id] else [])
  }

  function SortIds(ids: seq<string>): seq<string> {
    Sort(ids, (a, b) => Leq(a, b))
  }

  /** No replaced key would have its window extended by moving its end to the activation. */
  predicate EndsAfter(keys: seq<Key>, kid: string, activation: int) {
    forall j :: 0 <= j < |keys| && keys[j].kid == kid && keys[j].notAfter.Some? ==> activation <= keys[j].notAfter.value
  }

  predicate AllEndAfter(agents: seq<Agent>, verified: map<string, Announcement>, activation: int) {
    forall i :: 0 <= i < |agents| && agents[i].id in verified ==>
      && EndsAfter(agents[i].signing, verified[agents[i].id].terms.previousSigningKid, activation)
      && EndsAfter(agents[i].encryption, verified[agents[i].id].terms.previousEncryptionKid, activation)
  }

  function LatestIssued(verified: map<string, Announcement>, agents: seq<string>): (r: int)
    requires agents != [] && forall id :: id in agents ==> id in verified
    ensures exists id :: id in agents && verified[id].terms.issued == r
    ensures forall id :: id in agents ==> verified[id].terms.issued <= r
  {
    var last := agents[|agents| - 1];
    if |agents| == 1 then verified[last].terms.issued
    else
      var rest := LatestIssued(verified, agents[..|agents| - 1]);
      assert forall id :: id in agents <==> id in agents[..|agents| - 1] || id == last;
      if rest < verified[last].terms.issued then verified[last].terms.issued else rest
  }

  function Min(a: int, b: int): int {
    if a <= b then a else b
  }

  /** A replaced key keeps everything but its end, which moves to the activation at the latest. */
  function CutKey(k: Key, kid: string, activation: int): Key {
    if k.kid != kid then k
    else k.(notAfter := Some(if k.notAfter.None? then activation else Min(activation, k.notAfter.value)))
  }

  function CutKeys(keys: seq<Key>, kid: string, activation: int): seq<Key> {
    seq(|keys|, j requires 0 <= j < |keys| => CutKey(keys[j], kid, activation))
  }

  function NewKey(next: PublicKey, activation: int, expiry: int): Key {
    Key(next.kid, next.epoch, next.publicKey, Active, activation, Some(expiry))
  }

  function RotateAgent(a: Agent, verified: map<string, Announcement>, activation: int, expiry: int): Agent {
    if a.id !in verified then a
    else
      var t := verified[a.id].terms;
      a.(
        signing := CutKeys(a.signing, t.previousSigningKid, activation) + [NewKey(t.nextSigning, activation, expiry)],
        encryption := CutKeys(a.encryption, t.previousEncryptionKid, activation) + [NewKey(t.nextEncryption, activation, expiry)])
  }

  function RotateAgents(agents: seq<Agent>, verified: map<string, Announcement>, activation: int, expiry: int): seq<Agent> {
    seq(|agents|, i requires 0 <= i < |agents| => RotateAgent(agents[i], verified, activation, expiry))
  }

  /** The unsigned successor: issued with the latest announcement, valid thirty days, audiences untouched. */
  function Candidate(base: Snapshot, verified: map<string, Announcement>, issued: int, activation: int): Snapshot {
    var expires := issued + ROTATION_VALIDITY_DAYS * MS_PER_DAY;
    Snapshot(base.epoch + 1, issued, expires, Some(Sha256(base)), RotateAgents(base.agents, verified, activation, expires), base.audiences, base.threshold, [])
  }

  datatype Descriptor = Descriptor(
    ceremonyId: string,
    baseEpoch: int,
    baseDigest: Digest<Snapshot>,
    rootsDigest: Digest<Roots>,
    activation: int,
    announcements: seq<Digest<Announcement>>)

  datatype Receipt = Receipt(
    descriptor: Descriptor,
    candidateEpoch: int,
    candidateDigest: Digest<Snapshot>,
    ceremonyDigest: Digest<Descriptor>,
    agentIds: seq<string>)

  datatype Composition = Composition(candidate: Snapshot, receipt: Receipt)

  function Digests(verified: map<string, Announcement>, ids: seq<string>): seq<Digest<Announcement>>
    requires forall id :: id in ids ==> id in verified
  {
    seq(|ids|, i requires 0 <= i < |ids| => Sha256(verified[ids[i]]))
  }

  function MakeReceipt(base: Snapshot, roots: Roots, candidate: Snapshot, verified: map<string, Announcement>, ids: seq<string>, c: Ceremony): Receipt
    requires forall id :: id in ids ==> id in verified
  {
    var d := Descriptor(c.id, base.epoch, Sha256(base), Sha256(roots), c.activation, Digests(verified, ids));
    Receipt(d, candidate.epoch, Sha256(candidate), Sha256(d), ids)
  }

  lemma SameIds(ids: seq<string>, ids': seq<string>)
    requires SortIds(ids) == SortIds(ids')
    ensures forall id :: id in ids <==> id in ids'
    ensures forall id :: id in SortIds(ids) <==> id in ids
    ensures |ids| == |ids'|
  {
    forall id
      ensures id in ids <==> id in SortIds(ids)
      ensures id in ids' <==> id in SortIds(ids')
    {
      InMultiset(id, ids, SortIds(ids));
      InMultiset(id, ids', SortIds(ids'));
    }
    SameLength(ids, SortIds(ids));
    SameLength(ids', SortIds(ids'));
  }

  lemma {:induction false} CollectedAgents(base: Snapshot, roots: Roots, anns: seq<Announcement>, c: Ceremony)
    requires Collect(base, roots, anns, c).Some?
    ensures var d := Collect(base, roots, anns, c).value; forall id :: id in d.verified <==> id in d.agents
  {
    if anns != [] {
      CollectedAgents(base, roots, anns[..|anns| - 1], c);
    }
  }

  /** The whole composition, in the order the checks are made. */
  ghost function Compose(base: Snapshot, roots: Roots, anns: seq<Announcement>, c: Ceremony): Result<Composition, Failure> {
    var collected := Collect(base, roots, anns, c);
    if collected.None? then Err(RejectedAnnouncement)
    else
      var d := collected.value;
      CollectedAgents(base, roots, anns, c);
      if SortIds(d.agents) != SortIds(ActiveIds(base.agents)) then Err(WrongAgentSet)
      else if !AllEndAfter(base.agents, d.verified, c.activation) then Err(ActivationTooLate)
      else if d.agents == [] then Err(NoActiveAgent)
      else
        var issued := LatestIssued(d.verified, d.agents);
        var candidate := Candidate(base, d.verified, issued, c.activation);
        if candidate.expires <= c.activation + DEFAULT_DRAIN_MS then Err(DrainTooShort)
        else if !ValidCandidate(candidate, roots, c.now) then Err(InvalidCandidate)
        else
          SameIds(d.agents, ActiveIds(base.agents));
          Ok(Composition(candidate, MakeReceipt(base, roots, candidate, d.verified, SortIds(d.agents), c)))
  }

  // ---- the composition as it runs ----

  method CollectAnnouncements(base: Snapshot, roots: Roots, anns: seq<Announcement>, c: Ceremony) returns (r: Option<Collected>)
    ensures r == Collect(base, roots, anns, c)
  {
    hide AnnouncementOk;
    var agents: seq<string>, verified: map<string, Announcement>, nonces: set<Bytes> := [], map[], {};
    for n := 0 to |anns|
      invariant Collect(base, roots, anns[..n], c) == Some(Collected(agents, verified, nonces))
    {
      var a := anns[n];
      assert anns[..n + 1][..n] == anns[..n];
      var ok := VerifyAnnouncement(base, roots, a, c);
      if !ok || a.terms.agentId in verified || a.terms.nonce in nonces {
        CollectStaysNone(base, roots, anns, c, n + 1);
        return None;
      }
      agents, verified, nonces := agents + [a.terms.agentId], verified[a.terms.agentId := a], nonces + {a.terms.nonce};
    }
    assert anns[..|anns|] == anns;
    r := Some(Collected(agents, verified, nonces));
  }

  lemma {:induction false} CollectStaysNone(base: Snapshot, roots: Roots, anns: seq<Announcement>, c: Ceremony, n: nat)
    requires n <= |anns| && Collect(base, roots, anns[..n], c).None?
    ensures Collect(base, roots, anns, c).None?
  {
    if n == |anns| {
      assert anns[..n] == anns;
    } else {
      assert anns[..|anns| - 1][..n] == anns[..n];
      CollectStaysNone(base, roots, anns[..|anns| - 1], c, n);
    }
  }

  /** Rewrites one key list in place and appends the announced key. */
  method RotateKeys(keys: seq<Key>, kid: string, next: PublicKey, activation: int, expiry: int) returns (r: seq<Key>)
    ensures r == CutKeys(keys, kid, activation) + [NewKey(next, activation, expiry)]
  {
    r := keys;
    for j := 0 to |keys|
      invariant |r| == |keys|
      invariant forall m :: 0 <= m < |keys| ==> r[m] == if m < j then CutKey(keys[m], kid, activation) else keys[m]
    {
      if r[j].kid == kid {
        var original := r[j].notAfter;
        r := r[j := r[j].(notAfter := Some(if original.None? then activation else Min(activation, original.value)))];
      }
    }
    assert r == CutKeys(keys, kid, activation);
    r := r + [NewKey(next, activation, expiry)];
  }

  method RotateEveryAgent(agents: seq<Agent>, verified: map<string, Announcement>, activation: int, expiry: int) returns (r: seq<Agent>)
    ensures r == RotateAgents(agents, verified, activation, expiry)
  {
    r := agents;
    for i := 0 to |agents|
      invariant |r| == |agents|
      invariant forall m :: 0 <= m < |agents| ==> r[m] == if m < i then RotateAgent(agents[m], verified, activation, expiry) else agents[m]
    {
      if r[i].id in verified {
        var t := verified[r[i].id].terms;
        var signing := RotateKeys(r[i].signing, t.previousSigningKid, t.nextSigning, activation, expiry);
        var encryption := RotateKeys(r[i].encryption, t.previousEncryptionKid, t.nextEncryption, activation, expiry);
        r := r[i := r[i].(signing := signing, encryption := encryption)];
      }
    }
    assert r == RotateAgents(agents, verified, activation, expiry);
  }

  method ComposeRotation(base: Snapshot, roots: Roots, anns: seq<Announcement>, c: Ceremony) returns (r: Result<Composition, Failure>)
    ensures r == Compose(base, roots, anns, c)
  {
    hide SortIds, ActiveIds, AllEndAfter, RotateAgents, ValidCandidate, ValidDirectory, Collect, MakeReceipt;
    var active := SortIds(ActiveIds(base.agents));
    var collected := CollectAnnouncements(base, roots, anns, c);
    if collected.None? {
      return Err(RejectedAnnouncement);
    }
    CollectedAgents(base, roots, anns, c);
    var d := collected.value;
    if SortIds(d.agents) != active {
      return Err(WrongAgentSet);
    }
    if !AllEndAfter(base.agents, d.verified, c.activation) {
      return Err(ActivationTooLate);
    }
    if d.agents == [] {
      return Err(NoActiveAgent);
    }
    var issued := LatestIssued(d.verified, d.agents);
    var expires := issued + ROTATION_VALIDITY_DAYS * MS_PER_DAY;
    if expires <= c.activation + DEFAULT_DRAIN_MS {
      return Err(DrainTooShort);
    }
    var agents := RotateEveryAgent(base.agents, d.verified, c.activation, expires);
    var candidate := Snapshot(base.epoch + 1, issued, expires, Some(Sha256(base)), agents, base.audiences, base.threshold, []);
    var valid := Validate(candidate, roots, c.now, false);
    if !valid {
      return Err(InvalidCandidate);
    }
    SameIds(d.agents, ActiveIds(base.agents));
    r := Ok(Composition(candidate, MakeReceipt(base, roots, candidate, d.verified, active, c)));
  }
}
