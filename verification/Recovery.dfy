/** Forward recovery: the successor directory that revokes compromised keys and re-issues the audiences they read. */
module Recovery {
  import opened Wrappers
  import opened Text
  import opened Sorting
  import opened Directory
  import opened DirectoryContext
  import opened Rotation

  datatype RecoveryFailure =
    | InvalidBase
    | NothingNamed
    | UnknownKid
    | NoValidity
    | NoCover
    | UnrepresentableCandidate

  /** The public material behind the named keys of one purpose. */
  function Material(base: Snapshot, kids: set<string>, purpose: Purpose): set<Bytes> {
    set kid | kid in kids && kid in KeyTable(base.agents, purpose) :: KeyTable(base.agents, purpose)[kid].key.publicKey
  }

  /** The agents owning an encryption key of that material, under whatever key ID. */
  function Owners(base: Snapshot, kids: set<string>): set<string> {
    set kid | kid in KeyTable(base.agents, Encryption)
      && KeyTable(base.agents, Encryption)[kid].key.publicKey in Material(base, kids, Encryption)
      :: KeyTable(base.agents, Encryption)[kid].owner
  }

  function RevokeKey(k: Key, kids: set<string>, material: set<Bytes>, now: int): Key {
    if k.kid !in kids && k.publicKey !in material then k
    else if now <= k.notBefore then k.(status := Revoked)
    else k.(status := Revoked, notAfter := Some(if k.notAfter.None? then now else Min(k.notAfter.value, now)))
  }

  function RevokeKeys(keys: seq<Key>, kids: set<string>, material: set<Bytes>, now: int): seq<Key> {
    seq(|keys|, j requires 0 <= j < |keys| => RevokeKey(keys[j], kids, material, now))
  }

  /** One set of compromised material per purpose. */
  datatype Compromise = Compromise(kids: set<string>, signing: set<Bytes>, encryption: set<Bytes>) {
    function Of(purpose: Purpose): set<Bytes> {
      if purpose.Signing? then signing else encryption
    }
  }

  function CompromiseOf(base: Snapshot, kids: set<string>): Compromise {
    Compromise(kids, Material(base, kids, Signing), Material(base, kids, Encryption))
  }

  function RevokeAgent(a: Agent, bad: Compromise, now: int): Agent {
    a.(signing := RevokeKeys(a.signing, bad.kids, bad.signing, now), encryption := RevokeKeys(a.encryption, bad.kids, bad.encryption, now))
  }

  function RevokeAgents(agents: seq<Agent>, bad: Compromise, now: int): seq<Agent> {
    seq(|agents|, i requires 0 <= i < |agents| => RevokeAgent(agents[i], bad, now))
  }

  /** An active audience that a compromised owner can read. */
  predicate Hit(a: Audience, owners: set<string>) {
    a.status.ActiveAudience? && exists i :: 0 <= i < |a.Recipients()| && a.Recipients()[i] in owners
  }

  /** The affected logical audiences in the order found, each with its highest affected epoch. */
  datatype Affected = Affected(order: seq<AudienceName>, templates: map<AudienceName, Audience>)

  function Scan(audiences: seq<Audience>, owners: set<string>): Affected {
    if audiences == [] then Affected([], map[])
    else
      var before, last := Scan(audiences[..|audiences| - 1], owners), audiences[|audiences| - 1];
      var name := last.key.name;
      if !Hit(last, owners) then before
      else if name !in before.templates then Affected(before.order + [name], before.templates[name := last])
      else if before.templates[name].key.epoch < last.key.epoch then before.(templates := before.templates[name := last])
      else before
  }

  function RetireAudience(a: Audience, affected: map<AudienceName, Audience>): Audience {
    if a.key.name in affected && a.status.ActiveAudience? then a.(status := RetiredAudience) else a
  }

  function RetireAudiences(audiences: seq<Audience>, affected: map<AudienceName, Audience>): seq<Audience> {
    seq(|audiences|, i requires 0 <= i < |audiences| => RetireAudience(audiences[i], affected))
  }

  /** The greatest epoch filed under a name, or 0 where there is none. */
  function HighestEpoch(audiences: seq<Audience>, name: AudienceName): (r: int)
    ensures r >= 0
    ensures forall a :: a in audiences && a.key.name == name ==> a.key.epoch <= r
    ensures r > 0 ==> exists a :: a in audiences && a.key.name == name && a.key.epoch == r
  {
    if audiences == [] then 0
    else
      var rest, last := HighestEpoch(audiences[..|audiences| - 1], name), audiences[|audiences| - 1];
      assert forall a :: a in audiences <==> a in audiences[..|audiences| - 1] || a == last;
      if last.key.name == name && rest < last.key.epoch then last.key.epoch else rest
  }

  function Successor(audiences: seq<Audience>, template: Audience): Audience {
    template.(key := AudienceKey(template.key.name, 1 + HighestEpoch(audiences, template.key.name)), status := ActiveAudience)
  }

  predicate NameLeq(a: AudienceName, b: AudienceName) {
    if a.kind == b.kind then Leq(a.id, b.id) else a.kind.Direct?
  }

  function SortNames(names: seq<AudienceName>): seq<AudienceName> {
    Sort(names, (a, b) => NameLeq(a, b))
  }

  function Successors(audiences: seq<Audience>, names: seq<AudienceName>, templates: map<AudienceName, Audience>): seq<Audience>
    requires forall n :: n in names ==> n in templates
  {
    seq(|names|, i requires 0 <= i < |names| => Successor(audiences, templates[names[i]]))
  }

  lemma {:induction false} ScanMeaning(audiences: seq<Audience>, owners: set<string>)
    ensures var s := Scan(audiences, owners);
      && Distinct(s.order)
      && (forall n :: n in s.order <==> n in s.templates)
      && (forall n :: n in s.templates ==> s.templates[n] in audiences && Hit(s.templates[n], owners) && s.templates[n].key.name == n)
      && (forall a :: a in audiences && Hit(a, owners) ==> a.key.name in s.templates && a.key.epoch <= s.templates[a.key.name].key.epoch)
  {
    hide Hit;
    if audiences != [] {
      var front, last := audiences[..|audiences| - 1], audiences[|audiences| - 1];
      ScanMeaning(front, owners);
      assert forall a :: a in audiences <==> a in front || a == last;
      DistinctExtend(Scan(front, owners).order, last.key.name);
    }
  }

  lemma SortedNamesSame(names: seq<AudienceName>)
    ensures forall n :: n in SortNames(names) <==> n in names
    ensures Distinct(SortNames(names)) <==> Distinct(names)
  {
    DistinctForgetsOrder(names, SortNames(names));
    forall n ensures n in SortNames(names) <==> n in names {
      InMultiset(n, names, SortNames(names));
    }
  }

  function RecoveredAudiences(audiences: seq<Audience>, owners: set<string>): seq<Audience> {
    var s := Scan(audiences, owners);
    ScanMeaning(audiences, owners);
    SortedNamesSame(s.order);
    RetireAudiences(audiences, s.templates) + Successors(audiences, SortNames(s.order), s.templates)
  }

  /** Another active key of sound material covers the whole life of the candidate. */
  predicate Covered(keys: seq<Key>, material: set<Bytes>, now: int, expires: int) {
    exists j :: 0 <= j < |keys|
      && keys[j].status.Active?
      && keys[j].publicKey !in material
      && keys[j].notBefore <= now
      && (keys[j].notAfter.Some? ==> expires <= keys[j].notAfter.value)
  }

  predicate AllCovered(agents: seq<Agent>, bad: Compromise, now: int, expires: int) {
    forall i :: 0 <= i < |agents| ==>
      Covered(agents[i].signing, bad.signing, now, expires) && Covered(agents[i].encryption, bad.encryption, now, expires)
  }

  function RecoveryExpiry(base: Snapshot, now: int, validityDays: int): int {
    Min(now + validityDays * MS_PER_DAY, base.expires)
  }

  function RecoveryCandidate(base: Snapshot, kids: set<string>, now: int, validityDays: int): Snapshot {
    Snapshot(
      base.epoch + 1,
      now,
      RecoveryExpiry(base, now, validityDays),
      Some(Sha256(base)),
      RevokeAgents(base.agents, CompromiseOf(base, kids), now),
      RecoveredAudiences(base.audiences, Owners(base, kids)),
      base.threshold,
      [])
  }

  predicate AllKnown(base: Snapshot, kids: set<string>) {
    forall kid :: kid in kids ==> KnownKid(base, kid)
  }

  ghost function Recover(base: Snapshot, roots: Roots, kids: set<string>, now: int, validityDays: int): Result<Snapshot, RecoveryFailure> {
    var candidate := RecoveryCandidate(base, kids, now, validityDays);
    if !ValidDirectory(base, roots, now) then Err(InvalidBase)
    else if kids == {} then Err(NothingNamed)
    else if !AllKnown(base, kids) then Err(UnknownKid)
    else if candidate.expires <= now then Err(NoValidity)
    else if !AllCovered(candidate.agents, CompromiseOf(base, kids), now, candidate.expires) then Err(NoCover)
    else if !ValidCandidate(candidate, roots, now) then Err(UnrepresentableCandidate)
    else Ok(candidate)
  }

  // ---- the recovery as it runs ----

  method RevokeInPlace(keys: seq<Key>, kids: set<string>, material: set<Bytes>, now: int) returns (r: seq<Key>)
    ensures r == RevokeKeys(keys, kids, material, now)
  {
    r := keys;
    for j := 0 to |keys|
      invariant |r| == |keys|
      invariant forall m :: 0 <= m < |keys| ==> r[m] == if m < j then RevokeKey(keys[m], kids, material, now) else keys[m]
    {
      if r[j].kid in kids || r[j].publicKey in material {
        r := r[j := r[j].(status := Revoked)];
        if now > r[j].notBefore {
          r := r[j := r[j].(notAfter := Some(Min(if r[j].notAfter.None? then now else r[j].notAfter.value, now)))];
        }
      }
    }
    assert r == RevokeKeys(keys, kids, material, now);
  }

  method RevokeEveryAgent(agents: seq<Agent>, bad: Compromise, now: int) returns (r: seq<Agent>)
    ensures r == RevokeAgents(agents, bad, now)
  {
    r := agents;
    for i := 0 to |agents|
      invariant |r| == |agents|
      invariant forall m :: 0 <= m < |agents| ==> r[m] == if m < i then RevokeAgent(agents[m], bad, now) else agents[m]
    {
      var signing := RevokeInPlace(r[i].signing, bad.kids, bad.signing, now);
      var encryption := RevokeInPlace(r[i].encryption, bad.kids, bad.encryption, now);
      r := r[i := r[i].(signing := signing, encryption := encryption)];
    }
    assert r == RevokeAgents(agents, bad, now);
  }

  method ScanAffected(audiences: seq<Audience>, owners: set<string>) returns (s: Affected)
    ensures s == Scan(audiences, owners)
  {
    var order: seq<AudienceName>, templates: map<AudienceName, Audience> := [], map[];
    for i := 0 to |audiences|
      invariant Affected(order, templates) == Scan(audiences[..i], owners)
    {
      var a := audiences[i];
      assert audiences[..i + 1][..i] == audiences[..i];
      if Hit(a, owners) {
        if a.key.name !in templates {
          order, templates := order + [a.key.name], templates[a.key.name := a];
        } else if a.key.epoch > templates[a.key.name].key.epoch {
          templates := templates[a.key.name := a];
        }
      }
    }
    assert audiences[..|audiences|] == audiences;
    s := Affected(order, templates);
  }

  lemma {:induction false} HighestEpochAppend(audiences: seq<Audience>, more: seq<Audience>, name: AudienceName)
    requires forall a :: a in more ==> a.key.name != name
    ensures HighestEpoch(audiences + more, name) == HighestEpoch(audiences, name)
  {
    if more == [] {
      assert audiences + more == audiences;
    } else {
      var all := audiences + more;
      assert all[..|all| - 1] == audiences + more[..|more| - 1];
      HighestEpochAppend(audiences, more[..|more| - 1], name);
    }
  }

  lemma {:induction false} HighestEpochRetired(audiences: seq<Audience>, affected: map<AudienceName, Audience>, name: AudienceName)
    ensures HighestEpoch(RetireAudiences(audiences, affected), name) == HighestEpoch(audiences, name)
  {
    if audiences != [] {
      var front := audiences[..|audiences| - 1];
      HighestEpochRetired(front, affected, name);
      var r := RetireAudiences(audiences, affected);
      assert r[..|r| - 1] == RetireAudiences(front, affected);
      assert r[|r| - 1].key == audiences[|audiences| - 1].key;
      hide RetireAudiences;
    }
  }

  method RetireInPlace(audiences: seq<Audience>, affected: map<AudienceName, Audience>) returns (r: seq<Audience>)
    ensures r == RetireAudiences(audiences, affected)
  {
    r := audiences;
    for i := 0 to |audiences|
      invariant |r| == |audiences|
      invariant forall m :: 0 <= m < |audiences| ==> r[m] == if m < i then RetireAudience(audiences[m], affected) else audiences[m]
    {
      if r[i].key.name in affected && r[i].status.ActiveAudience? {
        r := r[i := r[i].(status := RetiredAudience)];
      }
    }
    assert r == RetireAudiences(audiences, affected);
  }

  /** Each successor is numbered above the epochs present when it is appended, which the earlier successors do not move. */
  lemma NextSuccessor(audiences: seq<Audience>, names: seq<AudienceName>, templates: map<AudienceName, Audience>, i: nat)
    requires i < |names| && Distinct(names) && forall n :: n in names ==> n in templates && templates[n].key.name == n
    ensures HighestEpoch(RetireAudiences(audiences, templates) + Successors(audiences, names[..i], templates), names[i]) == HighestEpoch(audiences, names[i])
    ensures Successors(audiences, names[..i + 1], templates) == Successors(audiences, names[..i], templates) + [Successor(audiences, templates[names[i]])]
  {
    hide HighestEpoch, RetireAudiences, RetireAudience;
    var added := Successors(audiences, names[..i], templates);
    forall m | 0 <= m < i ensures added[m].key.name != names[i] {
      assert added[m].key.name == names[m];
    }
    HighestEpochAppend(RetireAudiences(audiences, templates), added, names[i]);
    HighestEpochRetired(audiences, templates, names[i]);
  }

  /** Retires in place, then appends one successor per affected name in sorted order. */
  method RecoverAudiences(audiences: seq<Audience>, owners: set<string>) returns (r: seq<Audience>)
    ensures r == RecoveredAudiences(audiences, owners)
  {
    hide Hit, RetireAudiences, HighestEpoch, Successors, SortNames, Scan;
    var s := ScanAffected(audiences, owners);
    ScanMeaning(audiences, owners);
    SortedNamesSame(s.order);
    r := RetireInPlace(audiences, s.templates);
    var names := SortNames(s.order);
    NoSuccessors(audiences, s.templates);
    for i := 0 to |names|
      invariant r == RetireAudiences(audiences, s.templates) + Successors(audiences, names[..i], s.templates)
    {
      NextSuccessor(audiences, names, s.templates, i);
      var template := s.templates[names[i]];
      r := r + [template.(key := AudienceKey(names[i], 1 + HighestEpoch(r, names[i])), status := ActiveAudience)];
    }
    assert names[..|names|] == names;
  }

  lemma NoSuccessors(audiences: seq<Audience>, templates: map<AudienceName, Audience>)
    ensures Successors(audiences, [], templates) == []
  {
  }

  method BuildForwardRecovery(base: Snapshot, roots: Roots, kids: set<string>, now: int, validityDays: int)
    returns (r: Result<Snapshot, RecoveryFailure>)
    ensures r == Recover(base, roots, kids, now, validityDays)
  {
    hide ValidDirectory, ValidCandidate, AllCovered, AllKnown;
    var valid := Validate(base, roots, now, true);
    if !valid {
      return Err(InvalidBase);
    }
    if kids == {} {
      return Err(NothingNamed);
    }
    if !AllKnown(base, kids) {
      return Err(UnknownKid);
    }
    var bad := CompromiseOf(base, kids);
    var expires := Min(now + validityDays * MS_PER_DAY, base.expires);
    if expires <= now {
      return Err(NoValidity);
    }
    var agents := RevokeEveryAgent(base.agents, bad, now);
    var audiences := RecoverAudiences(base.audiences, Owners(base, kids));
    if !AllCovered(agents, bad, now, expires) {
      return Err(NoCover);
    }
    var candidate := Snapshot(base.epoch + 1, now, expires, Some(Sha256(base)), agents, audiences, base.threshold, []);
    valid := Validate(candidate, roots, now, false);
    r := if valid then Ok(candidate) else Err(UnrepresentableCandidate);
  }
}
