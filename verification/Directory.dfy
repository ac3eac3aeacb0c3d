/** The signed directory: its data, its validator, key and audience selection. */
module Directory {
  import opened Wrappers
  import opened Text
  import opened Sorting

  const MAX_INTEGER := 9_007_199_254_740_991
  const MAX_CLOCK_SKEW_MS := 300_000
  const MAX_RECIPIENTS := 256

  /** Decoded binary material: keys, nonces, ciphertext. */
  type Bytes = seq<int>

  /** A hash is the document it was computed from; Foreign is a text no known document hashes to. */
  datatype Digest<T> = Sha256(of: T) | Foreign(text: string)

  /** A signature names the key and the message; variant tells apart several valid encodings. */
  datatype Signature<T> = Ed25519(key: Bytes, message: T, variant: nat) | Malformed

  predicate Verifies<T(==)>(signature: Signature<T>, key: Bytes, message: T) {
    signature.Ed25519? && signature.key == key && signature.message == message
  }

  predicate IsDigest<T>(digest: Digest<T>) {
    digest.Sha256? || IsHex64(digest.text)
  }

  predicate IsInteger(value: int, minimum: int) {
    minimum <= value <= MAX_INTEGER
  }

  datatype KeyStatus = Active | Retired | Revoked | Compromised

  datatype Key = Key(kid: string, epoch: int, publicKey: Bytes, status: KeyStatus, notBefore: int, notAfter: Option<int>)

  datatype Purpose = Signing | Encryption

  datatype AgentStatus = ActiveAgent | SuspendedAgent | RetiredAgent

  datatype Agent = Agent(id: string, status: AgentStatus, signing: seq<Key>, encryption: seq<Key>) {
    function Keys(purpose: Purpose): seq<Key> {
      if purpose.Signing? then signing else encryption
    }
  }

  datatype AudienceKind = Direct | Group

  datatype AudienceStatus = ActiveAudience | RetiredAudience | RevokedAudience

  datatype AudienceName = AudienceName(kind: AudienceKind, id: string)

  datatype AudienceKey = AudienceKey(name: AudienceName, epoch: int)

  datatype Audience = Audience(
    key: AudienceKey,
    status: AudienceStatus,
    members: seq<string>,
    allowedSenders: seq<string>,
    observers: Option<seq<string>>)
  {
    function Recipients(): seq<string> {
      if observers.Some? then members + observers.value else members
    }
  }

  datatype GovernanceSignature = GovernanceSignature(kid: string, alg: string, value: Signature<Snapshot>)

  datatype Snapshot = Snapshot(
    epoch: int,
    issued: int,
    expires: int,
    previous: Option<Digest<Snapshot>>,
    agents: seq<Agent>,
    audiences: seq<Audience>,
    threshold: int,
    signatures: seq<GovernanceSignature>)

  datatype Roots = Roots(threshold: int, keys: map<string, Bytes>)

  /** What governance signs: the directory without its signatures. */
  function Unsigned(s: Snapshot): Snapshot {
    s.(signatures := [])
  }

  predicate RootsOk(roots: Roots) {
    && IsInteger(roots.threshold, 1)
    && roots.threshold <= |roots.keys|
    && forall kid :: kid in roots.keys ==> IsIdentifier(kid) && |roots.keys[kid]| == 32
  }

  // ---- what the validator accepts, rule by rule ----

  predicate HeaderOk(s: Snapshot, roots: Roots, now: int) {
    && IsInteger(s.epoch, 1)
    && IsInteger(s.issued, 0)
    && IsInteger(s.expires, 1)
    && s.issued <= now + MAX_CLOCK_SKEW_MS
    && now < s.expires
    && s.issued < s.expires
    && (s.previous.Some? ==> IsDigest(s.previous.value))
    && s.threshold == roots.threshold
  }

  predicate SignatureOk(s: Snapshot, roots: Roots, signature: GovernanceSignature) {
    && IsIdentifier(signature.kid)
    && signature.alg == "Ed25519"
    && signature.kid in roots.keys
    && |roots.keys[signature.kid]| == 32
    && Verifies(signature.value, roots.keys[signature.kid], Unsigned(s))
  }

  predicate SignaturesOk(s: Snapshot, roots: Roots) {
    && (forall i :: 0 <= i < |s.signatures| ==> SignatureOk(s, roots, s.signatures[i]))
    && (forall i, j :: 0 <= i < j < |s.signatures| ==> s.signatures[i].kid != s.signatures[j].kid)
  }

  predicate KeyOk(k: Key) {
    && IsIdentifier(k.kid)
    && IsInteger(k.epoch, 1)
    && |k.publicKey| == 32
    && IsInteger(k.notBefore, 0)
    && (k.notAfter.Some? ==> IsInteger(k.notAfter.value, 1) && k.notBefore < k.notAfter.value)
  }

  predicate KeysOk(keys: seq<Key>) {
    && keys != []
    && (forall i :: 0 <= i < |keys| ==> KeyOk(keys[i]))
    && (forall i, j :: 0 <= i < j < |keys| ==> keys[i].epoch != keys[j].epoch)
  }

  predicate AgentOk(a: Agent) {
    IsIdentifier(a.id) && KeysOk(a.signing) && KeysOk(a.encryption)
  }

  /** A key's place in a directory: which agent, which purpose, which entry. */
  predicate HasSlot(agents: seq<Agent>, i: int, purpose: Purpose, j: int) {
    0 <= i < |agents| && 0 <= j < |agents[i].Keys(purpose)|
  }

  function KeyAt(agents: seq<Agent>, i: int, purpose: Purpose, j: int): Key
    requires HasSlot(agents, i, purpose, j)
  {
    agents[i].Keys(purpose)[j]
  }

  /** One key ID names one key: across agents, purposes and entries. */
  ghost predicate UniqueKids(agents: seq<Agent>) {
    forall i, purpose, j, i', purpose', j' ::
      && HasSlot(agents, i, purpose, j) && HasSlot(agents, i', purpose', j')
      && KeyAt(agents, i, purpose, j).kid == KeyAt(agents, i', purpose', j').kid
      ==> i == i' && purpose == purpose' && j == j'
  }

  predicate UniqueAgents(agents: seq<Agent>) {
    forall i, j :: 0 <= i < j < |agents| ==> agents[i].id != agents[j].id
  }

  ghost predicate EachAgentOk(agents: seq<Agent>) {
    forall i :: 0 <= i < |agents| ==> AgentOk(agents[i])
  }

  ghost predicate AgentsOk(agents: seq<Agent>) {
    && EachAgentOk(agents)
    && UniqueAgents(agents)
    && UniqueKids(agents)
  }

  function AgentIds(agents: seq<Agent>): set<string> {
    set i | 0 <= i < |agents| :: agents[i].id
  }

  predicate NamesOk(names: seq<string>, ids: set<string>) {
    && Distinct(names)
    && forall i :: 0 <= i < |names| ==> IsIdentifier(names[i]) && names[i] in ids
  }

  predicate ListOk(names: seq<string>, ids: set<string>) {
    1 <= |names| <= MAX_RECIPIENTS && NamesOk(names, ids)
  }

  predicate ObserversOk(a: Audience, ids: set<string>) {
    a.observers.Some? ==>
      && a.key.name.kind.Direct?
      && 1 <= |a.observers.value| < MAX_RECIPIENTS
      && NamesOk(a.observers.value, ids)
      && (forall x :: x in a.observers.value ==> x !in a.members && x !in a.allowedSenders)
      && |a.Recipients()| <= MAX_RECIPIENTS
  }

  predicate AudienceOk(a: Audience, ids: set<string>) {
    && IsIdentifier(a.key.name.id)
    && IsInteger(a.key.epoch, 1)
    && ListOk(a.members, ids)
    && ListOk(a.allowedSenders, ids)
    && (a.key.name.kind.Direct? ==> a.members == [a.key.name.id])
    && ObserversOk(a, ids)
  }

  predicate UniqueAudiences(audiences: seq<Audience>) {
    forall i, j :: 0 <= i < j < |audiences| ==> audiences[i].key != audiences[j].key
  }

  predicate AudiencesOk(audiences: seq<Audience>, ids: set<string>) {
    && audiences != []
    && (forall i :: 0 <= i < |audiences| ==> AudienceOk(audiences[i], ids))
    && UniqueAudiences(audiences)
  }

  /** Every rule that does not concern governance signatures. */
  ghost predicate SemanticsOk(s: Snapshot, roots: Roots, now: int) {
    && HeaderOk(s, roots, now)
    && s.agents != []
    && AgentsOk(s.agents)
    && AudiencesOk(s.audiences, AgentIds(s.agents))
  }

  /** A directory that is runtime authority at the given time. */
  ghost predicate ValidDirectory(s: Snapshot, roots: Roots, now: int) {
    SemanticsOk(s, roots, now) && SignaturesOk(s, roots) && |s.signatures| >= roots.threshold
  }

  /** A keyless candidate: same semantics, no signatures. */
  ghost predicate ValidCandidate(s: Snapshot, roots: Roots, now: int) {
    SemanticsOk(s, roots, now) && s.signatures == []
  }

  // ---- the validator as it runs: loops that grow the sets of names seen ----

  function KidSet(keys: seq<Key>): set<string> {
    set i | 0 <= i < |keys| :: keys[i].kid
  }

  ghost predicate KidOf(agents: seq<Agent>, kid: string) {
    exists i, purpose, j :: HasSlot(agents, i, purpose, j) && KeyAt(agents, i, purpose, j).kid == kid
  }

  /** The kids of one more agent are new and distinct. */
  ghost predicate FreshAgent(agents: seq<Agent>, a: Agent) {
    UniqueKids([a]) && forall purpose, j :: HasSlot([a], 0, purpose, j) ==> !KidOf(agents, KeyAt([a], 0, purpose, j).kid)
  }

  lemma UniqueKidsExtend(agents: seq<Agent>, a: Agent)
    ensures UniqueKids(agents + [a]) <==> UniqueKids(agents) && FreshAgent(agents, a)
  {
    var all, n := agents + [a], |agents|;
    assert forall i, p, j :: HasSlot(agents, i, p, j) ==> HasSlot(all, i, p, j) && KeyAt(all, i, p, j) == KeyAt(agents, i, p, j);
    assert forall p, j :: HasSlot([a], 0, p, j) ==> HasSlot(all, n, p, j) && KeyAt(all, n, p, j) == KeyAt([a], 0, p, j);
    assert forall i, p, j :: HasSlot(all, i, p, j) && i < n ==> HasSlot(agents, i, p, j);
    assert forall i, p, j :: HasSlot(all, i, p, j) && i >= n ==> i == n && HasSlot([a], 0, p, j);
  }

  predicate Fresh(keys: seq<Key>, seen: set<string>) {
    && (forall i :: 0 <= i < |keys| ==> keys[i].kid !in seen)
    && (forall i, j :: 0 <= i < j < |keys| ==> keys[i].kid != keys[j].kid)
  }

  ghost predicate Covers(seen: set<string>, agents: seq<Agent>) {
    forall kid :: kid in seen <==> KidOf(agents, kid)
  }

  /** Seeing the signing keys first and the encryption keys second is enough to detect every clash. */
  lemma FreshIff(agents: seq<Agent>, a: Agent, seen: set<string>)
    requires Covers(seen, agents)
    ensures FreshAgent(agents, a) <==> Fresh(a.signing, seen) && Fresh(a.encryption, seen + KidSet(a.signing))
    ensures Covers(seen + KidSet(a.signing) + KidSet(a.encryption), agents + [a])
  {
    assert forall j :: HasSlot([a], 0, Signing, j) <==> 0 <= j < |a.signing|;
    assert forall j :: HasSlot([a], 0, Encryption, j) <==> 0 <= j < |a.encryption|;
    FreshMeans(agents, a, seen);
    forall kid
      ensures KidOf(agents + [a], kid) <==> KidOf(agents, kid) || kid in KidSet(a.signing) || kid in KidSet(a.encryption)
    {
      KidOfExtend(agents, a, kid);
    }
  }

  lemma FreshMeans(agents: seq<Agent>, a: Agent, seen: set<string>)
    requires Covers(seen, agents)
    ensures FreshAgent(agents, a) <==> Fresh(a.signing, seen) && Fresh(a.encryption, seen + KidSet(a.signing))
  {
    if FreshAgent(agents, a) {
      forall j | 0 <= j < |a.signing|
        ensures a.signing[j].kid !in seen
      {
        assert HasSlot([a], 0, Signing, j);
      }
      forall j | 0 <= j < |a.encryption|
        ensures a.encryption[j].kid !in seen
      {
        assert HasSlot([a], 0, Encryption, j);
      }
      forall i, j | 0 <= i < |a.signing| && 0 <= j < |a.encryption|
        ensures a.signing[i].kid != a.encryption[j].kid
      {
        assert HasSlot([a], 0, Signing, i) && HasSlot([a], 0, Encryption, j);
      }
      assert forall i, p :: 0 <= i < |a.Keys(p)| ==> HasSlot([a], 0, p, i);
      assert Fresh(a.signing, seen) by {
        assert forall i :: 0 <= i < |a.signing| ==> KeyAt([a], 0, Signing, i) == a.signing[i];
      }
      assert Fresh(a.encryption, seen + KidSet(a.signing)) by {
        assert forall i :: 0 <= i < |a.encryption| ==> KeyAt([a], 0, Encryption, i) == a.encryption[i];
      }
    }
  }

  lemma KidOfExtend(agents: seq<Agent>, a: Agent, kid: string)
    ensures KidOf(agents + [a], kid) <==> KidOf(agents, kid) || kid in KidSet(a.signing) || kid in KidSet(a.encryption)
  {
    var all, n := agents + [a], |agents|;
    if KidOf(all, kid) {
      var i, p, j :| HasSlot(all, i, p, j) && KeyAt(all, i, p, j).kid == kid;
      assert i < n ==> HasSlot(agents, i, p, j);
    }
    if KidOf(agents, kid) {
      var i, p, j :| HasSlot(agents, i, p, j) && KeyAt(agents, i, p, j).kid == kid;
      assert HasSlot(all, i, p, j);
    }
    if kid in KidSet(a.signing) {
      var j :| 0 <= j < |a.signing| && a.signing[j].kid == kid;
      assert HasSlot(all, n, Signing, j);
    }
    if kid in KidSet(a.encryption) {
      var j :| 0 <= j < |a.encryption| && a.encryption[j].kid == kid;
      assert HasSlot(all, n, Encryption, j);
    }
  }

  /** One purpose's key list: shape, distinct epochs, and key IDs not seen before. */
  method ValidateKeys(keys: seq<Key>, seen: set<string>) returns (ok: bool, all: set<string>)
    ensures ok <==> KeysOk(keys) && Fresh(keys, seen)
    ensures ok ==> all == seen + KidSet(keys)
  {
    all := seen;
    if keys == [] {
      return false, all;
    }
    var epochs: set<int> := {};
    for n := 0 to |keys|
      invariant all == seen + KidSet(keys[..n])
      invariant epochs == set i | 0 <= i < n :: keys[i].epoch
      invariant forall i :: 0 <= i < n ==> KeyOk(keys[i]) && keys[i].kid !in seen
      invariant forall i, j :: 0 <= i < j < n ==> keys[i].kid != keys[j].kid && keys[i].epoch != keys[j].epoch
    {
      if !KeyOk(keys[n]) || keys[n].kid in all || keys[n].epoch in epochs {
        return false, all;
      }
      all, epochs := all + {keys[n].kid}, epochs + {keys[n].epoch};
    }
    assert keys[..|keys|] == keys;
    ok := true;
  }

  lemma UniqueKidsPrefix(agents: seq<Agent>, n: nat)
    requires n <= |agents| && UniqueKids(agents)
    ensures UniqueKids(agents[..n])
  {
    assert forall i, p, j :: HasSlot(agents[..n], i, p, j) ==>
        HasSlot(agents, i, p, j) && KeyAt(agents, i, p, j) == KeyAt(agents[..n], i, p, j);
  }

  lemma AgentsPrefix(agents: seq<Agent>, n: nat)
    requires n < |agents|
    ensures AgentsOk(agents) ==> AgentsOk(agents[..n + 1])
    ensures AgentsOk(agents[..n + 1]) <==>
      && AgentsOk(agents[..n])
      && AgentOk(agents[n])
      && agents[n].id !in AgentIds(agents[..n])
      && FreshAgent(agents[..n], agents[n])
  {
    hide UniqueKids, FreshAgent, AgentOk;
    assert agents[..n + 1] == agents[..n] + [agents[n]];
    UniqueKidsExtend(agents[..n], agents[n]);
    if UniqueKids(agents) {
      UniqueKidsPrefix(agents, n + 1);
    }
    assert UniqueAgents(agents[..n + 1]) <==> UniqueAgents(agents[..n]) && agents[n].id !in AgentIds(agents[..n]);
    assert EachAgentOk(agents[..n + 1]) <==> EachAgentOk(agents[..n]) && AgentOk(agents[n]);
  }

  lemma NoAgents()
    ensures AgentsOk([]) && Covers({}, [])
  {
    assert forall i, p, j :: !HasSlot([], i, p, j);
  }

  method ValidateAgents(agents: seq<Agent>) returns (ok: bool, ids: set<string>)
    ensures ok <==> agents != [] && AgentsOk(agents)
    ensures ok ==> ids == AgentIds(agents)
  {
    hide AgentsOk, FreshAgent, Covers, KeysOk, Fresh;
    ids := {};
    var kids: set<string> := {};
    if agents == [] {
      return false, ids;
    }
    NoAgents();
    assert agents[..0] == [];
    for n := 0 to |agents|
      invariant AgentsOk(agents[..n])
      invariant ids == AgentIds(agents[..n])
      invariant Covers(kids, agents[..n])
    {
      AgentsPrefix(agents, n);
      var a := agents[n];
      FreshIff(agents[..n], a, kids);
      assert agents[..n + 1] == agents[..n] + [a];
      if !IsIdentifier(a.id) || a.id in ids {
        return false, ids;
      }
      ids := ids + {a.id};
      var ok', all := ValidateKeys(a.signing, kids);
      if !ok' {
        return false, ids;
      }
      ok', all := ValidateKeys(a.encryption, all);
      if !ok' {
        return false, ids;
      }
      kids := all;
    }
    assert agents[..|agents|] == agents;
    ok := true;
  }

  method ValidateAudiences(audiences: seq<Audience>, ids: set<string>) returns (ok: bool)
    ensures ok <==> AudiencesOk(audiences, ids)
  {
    hide AudienceOk;
    if audiences == [] {
      return false;
    }
    var keys: set<AudienceKey> := {};
    for n := 0 to |audiences|
      invariant forall i :: 0 <= i < n ==> AudienceOk(audiences[i], ids)
      invariant UniqueAudiences(audiences[..n])
      invariant keys == set i | 0 <= i < n :: audiences[i].key
    {
      if audiences[n].key in keys || !AudienceOk(audiences[n], ids) {
        return false;
      }
      keys := keys + {audiences[n].key};
    }
    assert audiences[..|audiences|] == audiences;
    ok := true;
  }

  /** Every signature listed must verify; the number of signers is counted afterwards. */
  method ValidateSignatures(s: Snapshot, roots: Roots) returns (ok: bool, signers: set<string>)
    ensures ok <==> SignaturesOk(s, roots)
    ensures ok ==> |signers| == |s.signatures|
  {
    hide SignatureOk;
    signers := {};
    for n := 0 to |s.signatures|
      invariant |signers| == n
      invariant forall kid :: kid in signers <==> exists i :: 0 <= i < n && s.signatures[i].kid == kid
      invariant forall i :: 0 <= i < n ==> SignatureOk(s, roots, s.signatures[i])
      invariant forall i, j :: 0 <= i < j < n ==> s.signatures[i].kid != s.signatures[j].kid
    {
      var signature := s.signatures[n];
      if signature.kid in signers {
        assert exists i :: 0 <= i < n && s.signatures[i].kid == s.signatures[n].kid;
        return false, signers;
      }
      if !SignatureOk(s, roots, signature) {
        return false, signers;
      }
      signers := signers + {signature.kid};
    }
    ok := true;
  }

  /** The shared validator behind the signed and the unsigned entry point. */
  method Validate(s: Snapshot, roots: Roots, now: int, requireSignatures: bool) returns (ok: bool)
    ensures requireSignatures ==> (ok <==> ValidDirectory(s, roots, now))
    ensures !requireSignatures ==> (ok <==> ValidCandidate(s, roots, now))
  {
    if !HeaderOk(s, roots, now) || (!requireSignatures && s.signatures != []) {
      return false;
    }
    var signed, signers := ValidateSignatures(s, roots);
    if !signed || (requireSignatures && |signers| < roots.threshold) {
      return false;
    }
    var agentsOk, ids := ValidateAgents(s.agents);
    if !agentsOk {
      return false;
    }
    ok := ValidateAudiences(s.audiences, ids);
  }

  // ---- selection ----

  /** The agent filed under an ID; a dictionary built in order keeps the last one. */
  function FindAgent(agents: seq<Agent>, id: string): (r: Option<Agent>)
    ensures r.Some? ==> r.value in agents && r.value.id == id
    ensures r.None? ==> forall a :: a in agents ==> a.id != id
  {
    if agents == [] then None
    else if agents[|agents| - 1].id == id then Some(agents[|agents| - 1])
    else FindAgent(agents[..|agents| - 1], id)
  }

  lemma {:induction false} FindAgentAt(agents: seq<Agent>, i: nat)
    requires i < |agents| && UniqueAgents(agents)
    ensures FindAgent(agents, agents[i].id) == Some(agents[i])
  {
    if i < |agents| - 1 {
      FindAgentAt(agents[..|agents| - 1], i);
    }
  }

  predicate InWindow(k: Key, time: int) {
    k.notBefore <= time && (k.notAfter.Some? ==> time < k.notAfter.value)
  }

  predicate Usable(k: Key, time: int) {
    k.status.Active? && InWindow(k, time)
  }

  /** The usable key of the greatest epoch, if any key is usable. */
  function BestKey(keys: seq<Key>, time: int): (r: Option<Key>)
    ensures r.None? <==> forall k :: k in keys ==> !Usable(k, time)
    ensures r.Some? ==> r.value in keys && Usable(r.value, time)
    ensures r.Some? ==> forall k :: k in keys && Usable(k, time) ==> k.epoch <= r.value.epoch
  {
    if keys == [] then None
    else
      var last, best := keys[|keys| - 1], BestKey(keys[..|keys| - 1], time);
      assert forall k :: k in keys <==> k in keys[..|keys| - 1] || k == last;
      if Usable(last, time) && (best.None? || best.value.epoch < last.epoch) then Some(last) else best
  }

  function ActiveKey(s: Snapshot, agentId: string, purpose: Purpose, time: int): (r: Option<Key>) {
    var agent := FindAgent(s.agents, agentId);
    if agent.None? || !agent.value.status.ActiveAgent? then None
    else BestKey(agent.value.Keys(purpose), time)
  }

  /** The active audience of the greatest epoch under a name. */
  function FindAudience(audiences: seq<Audience>, name: AudienceName): (r: Option<Audience>)
    ensures r.None? <==> forall a :: a in audiences ==> a.key.name != name || !a.status.ActiveAudience?
    ensures r.Some? ==> r.value in audiences && r.value.key.name == name && r.value.status.ActiveAudience?
    ensures r.Some? ==> forall a :: a in audiences && a.key.name == name && a.status.ActiveAudience? ==> a.key.epoch <= r.value.key.epoch
  {
    if audiences == [] then None
    else
      var last, best := audiences[|audiences| - 1], FindAudience(audiences[..|audiences| - 1], name);
      assert forall a :: a in audiences <==> a in audiences[..|audiences| - 1] || a == last;
      if last.key.name == name && last.status.ActiveAudience? && (best.None? || best.value.key.epoch < last.key.epoch)
      then Some(last) else best
  }
}
