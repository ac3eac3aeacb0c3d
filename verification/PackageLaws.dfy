/** What an installed package leaves behind, and which packages a target accepts next. */
module PackageLaws {
  import opened Wrappers
  import opened Text
  import opened Directory
  import opened Protocol
  import opened DirectoryContext
  import opened DirectoryStore
  import opened Provisioning
  import opened ProvisioningRuns

  /** Every file of a completed installation, in terms of the package and of what this machine holds. */
  lemma InstalledMeans(setup: Setup, base: Files, p: Package, journal: Journal)
    requires Base(base) && Verdict(setup, base, p, journal.authorizedAt) == Ok(journal)
    ensures var f := Writes(setup, p, journal, base, WRITES);
      && f.journal.None? && f.roots == Some(p.roots) && f.directory == Some(p.directory)
      && f.state.Some? && f.state.value.epoch == p.directory.epoch
      && f.state.value.directory == Sha256(p.directory) && f.state.value.roots == Sha256(p.roots)
      && f.highWater.Some? && f.highWater.value.agent == setup.bundle.agent && f.highWater.value.epoch == p.directory.epoch
      && f.highWater.value.directory == Sha256(p.directory) && f.highWater.value.roots == Sha256(p.roots)
      && f.highWater.value.package == Sha256(p.signed)
      && f.environment.Some? && f.environment.value.Parsed? && EnvironmentHolds(setup, p, f.environment.value.values)
  {
    hide PackageOk, EnvironmentOk, FilesRefusal, BundleOk, Writes, Verdict;
    AcceptedFits(setup, base, p, journal);
    ReachedNothing(setup, base, p, journal);
    WritesFinish(setup, base, p, journal, 0, base);
  }

  /** The client environment: this agent and these local agents, the package's endpoints, routes and build, this machine's paths. */
  predicate EnvironmentHolds(setup: Setup, p: Package, e: Environment) {
    var m := p.signed.manifest;
    && e.client == setup.bundle.agent && NameSet(e.localAgents) == setup.authorizedLocal
    && e.endpoints == m.endpoints && e.routes == m.routes && e.buildCommit == m.buildCommit
    && e.keysPath == setup.keysPath && e.destination == setup.destination
  }

  lemma AcceptedFits(setup: Setup, base: Files, p: Package, journal: Journal)
    requires Accepted(setup, base, p, journal)
    ensures p.signed.manifest.agent == setup.bundle.agent && NameSet(p.signed.manifest.localAgents) == setup.authorizedLocal
    ensures Binds(p.signed.manifest, p)
  {
    hide PackageOk, EnvironmentOk, FilesRefusal, BundleOk, NameSet;
    AcceptedMeans(setup, base, p, journal);
  }

  /** The journal of an interrupted installation names the package, its agent and directory, and the time its checks used. */
  lemma JournalMeans(setup: Setup, base: Files, p: Package, journal: Journal, n: nat)
    requires Base(base) && Verdict(setup, base, p, journal.authorizedAt) == Ok(journal) && 1 <= n < WRITES
    ensures Writes(setup, p, journal, base, n).journal == Some(journal)
    ensures journal.package == Sha256(p.signed) && journal.agent == setup.bundle.agent && journal.directory == Sha256(p.directory)
  {
    hide PackageOk, EnvironmentOk, FilesRefusal, BundleOk, Writes, Verdict, LocalInputsOk;
    AcceptedFits(setup, base, p, journal);
    AcceptedMeans(setup, base, p, journal);
    ReachedNothing(setup, base, p, journal);
    WritesReach(setup, base, p, journal, 0, base, n);
  }

  /** The machine's private keys are those the directory selects for its agent at the time of the checks. */
  lemma LocalKeysFit(setup: Setup, p: Package, time: int)
    requires LocalInputsOk(setup, p, time) && UniqueKids(p.directory.agents)
    ensures var m, b := p.signed.manifest, setup.bundle;
      var signing, encryption := ActiveKey(p.directory, m.agent, Signing, time), ActiveKey(p.directory, m.agent, Encryption, time);
      && signing.Some? && signing.value.kid == m.signingKid && signing.value.publicKey == b.signing
      && encryption.Some? && encryption.value.kid in b.encryption && b.encryption[encryption.value.kid] == encryption.value.publicKey
      && (forall i :: 0 <= i < |m.encryptionKids| ==> m.encryptionKids[i] in b.encryption)
  {
    hide UniqueKids, KeyTable, ActiveKey;
    SelectedIsFiled(p.directory, setup.bundle.agent, Signing, time);
    SelectedIsFiled(p.directory, setup.bundle.agent, Encryption, time);
  }

  lemma SelectedIsFiled(s: Snapshot, agent: string, purpose: Purpose, time: int)
    requires UniqueKids(s.agents) && ActiveKey(s, agent, purpose, time).Some?
    ensures var k := ActiveKey(s, agent, purpose, time).value;
      k.kid in KeyTable(s.agents, purpose) && KeyTable(s.agents, purpose)[k.kid] == OwnedKey(agent, k)
  {
    hide UniqueKids, KeyTable;
    var a := FindAgent(s.agents, agent).value;
    var i :| 0 <= i < |s.agents| && s.agents[i] == a;
    var k := BestKey(a.Keys(purpose), time).value;
    var j :| 0 <= j < |a.Keys(purpose)| && a.Keys(purpose)[j] == k;
    assert HasSlot(s.agents, i, purpose, j) && KeyAt(s.agents, i, purpose, j) == k;
    KeyTableMeaning(s.agents, purpose, k.kid);
  }

  /** The agent holds this key under this ID, still active or retired. */
  ghost predicate HoldsKey(s: Snapshot, agent: string, kid: string, publicKey: Bytes) {
    exists i, j ::
      && HasSlot(s.agents, i, Encryption, j) && s.agents[i].id == agent && KeyAt(s.agents, i, Encryption, j).kid == kid
      && KeyAt(s.agents, i, Encryption, j).publicKey == publicKey
      && (KeyAt(s.agents, i, Encryption, j).status.Active? || KeyAt(s.agents, i, Encryption, j).status.Retired?)
  }

  /** The machine fits the package exactly when agents, local principals and keys are those of the manifest and the directory. */
  lemma LocalInputsExactly(setup: Setup, p: Package, time: int)
    requires UniqueKids(p.directory.agents)
    ensures var m, b, s := p.signed.manifest, setup.bundle, p.directory;
      LocalInputsOk(setup, p, time) <==>
        && b.agent == m.agent && (forall id :: id in setup.authorizedLocal <==> id in m.localAgents)
        && ActiveKey(s, m.agent, Signing, time).Some?
        && ActiveKey(s, m.agent, Signing, time).value.kid == b.signingKid == m.signingKid
        && ActiveKey(s, m.agent, Signing, time).value.publicKey == b.signing
        && ActiveKey(s, m.agent, Encryption, time).Some? && ActiveKey(s, m.agent, Encryption, time).value.kid in b.encryption
        && (forall kid :: kid in b.encryption ==> HoldsKey(s, m.agent, kid, b.encryption[kid]))
        && (forall i :: 0 <= i < |m.encryptionKids| ==> m.encryptionKids[i] in b.encryption)
  {
    hide UniqueKids, KeyTable, ActiveKey, HoldsKey, BundleOk;
    assert NameSet(p.signed.manifest.localAgents) == setup.authorizedLocal <==>
      forall id :: id in setup.authorizedLocal <==> id in p.signed.manifest.localAgents;
    BundleExactly(setup.bundle, p.directory, time);
  }

  lemma BundleExactly(b: Bundle, s: Snapshot, time: int)
    requires UniqueKids(s.agents)
    ensures BundleOk(b, s, time) <==>
      && ActiveKey(s, b.agent, Signing, time).Some?
      && ActiveKey(s, b.agent, Signing, time).value.kid == b.signingKid
      && ActiveKey(s, b.agent, Signing, time).value.publicKey == b.signing
      && ActiveKey(s, b.agent, Encryption, time).Some? && ActiveKey(s, b.agent, Encryption, time).value.kid in b.encryption
      && (forall kid :: kid in b.encryption ==> HoldsKey(s, b.agent, kid, b.encryption[kid]))
  {
    hide UniqueKids, KeyTable, ActiveKey, HoldsKey;
    if ActiveKey(s, b.agent, Signing, time).Some? {
      SelectedIsFiled(s, b.agent, Signing, time);
      SelectedIsActive(s, b.agent, Signing, time);
    }
    forall kid | kid in b.encryption
      ensures HoldsKey(s, b.agent, kid, b.encryption[kid]) <==>
        && kid in KeyTable(s.agents, Encryption)
        && KeyTable(s.agents, Encryption)[kid].owner == b.agent
        && (KeyTable(s.agents, Encryption)[kid].key.status.Active? || KeyTable(s.agents, Encryption)[kid].key.status.Retired?)
        && KeyTable(s.agents, Encryption)[kid].key.publicKey == b.encryption[kid]
    {
      FiledIsHeld(s, b.agent, kid, b.encryption[kid]);
    }
  }

  lemma SelectedIsActive(s: Snapshot, agent: string, purpose: Purpose, time: int)
    requires ActiveKey(s, agent, purpose, time).Some?
    ensures ActiveKey(s, agent, purpose, time).value.status.Active?
  {
  }

  lemma FiledIsHeld(s: Snapshot, agent: string, kid: string, publicKey: Bytes)
    requires UniqueKids(s.agents)
    ensures var table := KeyTable(s.agents, Encryption);
      HoldsKey(s, agent, kid, publicKey) <==>
        && kid in table && table[kid].owner == agent && table[kid].key.publicKey == publicKey
        && (table[kid].key.status.Active? || table[kid].key.status.Retired?)
  {
    hide UniqueKids, KeyTable;
    KeyTableMeaning(s.agents, Encryption, kid);
  }

  // ---- when a package is authentic ----

  /** An active agent, or an active audience with this member, of the directory. */
  ghost predicate ActiveIn(s: Snapshot, id: string) {
    exists a :: a in s.agents && a.id == id && a.status.ActiveAgent?
  }

  ghost predicate MemberOf(s: Snapshot, id: string, k: AudienceKey) {
    exists a :: a in s.audiences && a.key == k && a.status.ActiveAudience? && id in a.members
  }

  lemma AuthorizedExactly(m: Manifest, s: Snapshot)
    requires UniqueAgents(s.agents) && UniqueAudiences(s.audiences)
    ensures AuthorizedIn(m, s) <==>
      && (forall id :: id in m.localAgents ==> ActiveIn(s, id))
      && (forall k :: k in m.audiences ==> MemberOf(s, m.agent, k))
  {
    hide AudienceTable, FindAgent, UniqueAgents, UniqueAudiences;
    AudienceTableMeaning(s.audiences);
    forall id ensures ActiveIn(s, id) <==> FindAgent(s.agents, id).Some? && FindAgent(s.agents, id).value.status.ActiveAgent? {
      if a :| a in s.agents && a.id == id && a.status.ActiveAgent? {
        var i :| 0 <= i < |s.agents| && s.agents[i] == a;
        FindAgentAt(s.agents, i);
      }
    }
    forall k ensures MemberOf(s, m.agent, k) <==>
      && k in AudienceTable(s.audiences) && AudienceTable(s.audiences)[k].status.ActiveAudience?
      && m.agent in AudienceTable(s.audiences)[k].members
    {
      if a :| a in s.audiences && a.key == k && a.status.ActiveAudience? && m.agent in a.members {
        assert AudienceTable(s.audiences)[k] == a;
      }
    }
    hide ActiveIn, MemberOf;
    assert forall id :: id in m.localAgents <==> exists i :: 0 <= i < |m.localAgents| && m.localAgents[i] == id;
    assert forall k :: k in m.audiences <==> exists i :: 0 <= i < |m.audiences| && m.audiences[i] == k;
  }

  /**
   * A package is accepted exactly under its authority's signature, from one skew before its creation to its expiry seven days later
   * at most, with its valid directory and roots, for active local principals, its own agent among them, and its agent's audiences.
   */
  lemma PackageExactly(p: Package, authority: Authority, now: int)
    ensures var m := p.signed.manifest;
      PackageOk(p, authority, now) <==>
        && authority.kid == m.signerKid
        && p.signed.signature.Ed25519? && p.signed.signature.key == authority.publicKey && p.signed.signature.message == m
        && 1 <= m.created < m.expires <= 9_007_199_254_740_991 && m.expires <= m.created + 7 * 24 * 60 * 60 * 1000
        && m.created - 300_000 <= now < m.expires
        && IsIdentifier(m.provisioningId) && IsIdentifier(m.agent) && IsIdentifier(m.signingKid) && IsCommit(m.buildCommit)
        && m.encryptionKids != [] && (forall kid :: kid in m.encryptionKids ==> IsIdentifier(kid))
        && m.endpoints != [] && m.agent in m.localAgents
        && (forall i, j :: 0 <= i < j < |m.localAgents| ==> m.localAgents[i] != m.localAgents[j] && Leq(m.localAgents[i], m.localAgents[j]))
        && m.audiences != [] && (forall i, j :: 0 <= i < j < |m.audiences| ==> m.audiences[i] != m.audiences[j])
        && RootsOk(p.roots) && ValidDirectory(p.directory, p.roots, now)
        && m.epoch == p.directory.epoch && m.directory == Sha256(p.directory) && m.roots == Sha256(p.roots)
        && (forall id :: id in m.localAgents ==> ActiveIn(p.directory, id))
        && (forall k :: k in m.audiences ==> MemberOf(p.directory, m.agent, k))
  {
    hide IsIdentifier, RootsOk, ValidDirectory, Leq, IsCommit, AuthorizedIn, ActiveIn, MemberOf;
    if ValidDirectory(p.directory, p.roots, now) {
      ValidNames(p.directory, p.roots, now);
      AuthorizedExactly(p.signed.manifest, p.directory);
      forall id | ActiveIn(p.directory, id) ensures IsIdentifier(id) {
        ActiveIsNamed(p.directory, id);
      }
      forall k | MemberOf(p.directory, p.signed.manifest.agent, k) ensures IsIdentifier(k.name.id) && IsInteger(k.epoch, 1) {
        MemberIsNamed(p.directory, p.signed.manifest.agent, k);
      }
    }
  }

  lemma ValidNames(s: Snapshot, roots: Roots, now: int)
    requires ValidDirectory(s, roots, now)
    ensures UniqueAgents(s.agents) && UniqueAudiences(s.audiences) && IsInteger(s.epoch, 1)
    ensures forall i :: 0 <= i < |s.agents| ==> IsIdentifier(s.agents[i].id)
    ensures forall i :: 0 <= i < |s.audiences| ==> IsIdentifier(s.audiences[i].key.name.id) && IsInteger(s.audiences[i].key.epoch, 1)
  {
    hide IsIdentifier, UniqueKids;
    assert forall i :: 0 <= i < |s.agents| ==> AgentOk(s.agents[i]);
  }

  lemma ActiveIsNamed(s: Snapshot, id: string)
    requires ActiveIn(s, id) && forall i :: 0 <= i < |s.agents| ==> IsIdentifier(s.agents[i].id)
    ensures IsIdentifier(id)
  {
    hide IsIdentifier;
  }

  lemma MemberIsNamed(s: Snapshot, id: string, k: AudienceKey)
    requires MemberOf(s, id, k)
    requires forall i :: 0 <= i < |s.audiences| ==> IsIdentifier(s.audiences[i].key.name.id) && IsInteger(s.audiences[i].key.epoch, 1)
    ensures IsIdentifier(k.name.id) && IsInteger(k.epoch, 1)
  {
    hide IsIdentifier;
  }

  // ---- environments ----

  predicate Value(e: Environment, s: string) {
    s == e.client || s == e.buildCommit || s == e.destination || s == e.keysPath || s == e.routes || s in e.endpoints || s in e.localAgents
  }

  /** No control character, no backquote, no start of a substitution. */
  ghost predicate Harmless(s: string) {
    && (forall c :: c in s ==> 32 <= c as int && c as int != 127 && c != '`')
    && !Contains(s, "$(") && !Contains(s, "${")
  }

  ghost predicate Contains(s: string, part: string) {
    exists before, after :: s == before + part + after
  }

  lemma EnvironmentExactly(e: Environment)
    ensures EnvironmentOk(e) <==> forall s :: Value(e, s) ==> Harmless(s)
  {
    forall s ensures SafeText(s) <==> Harmless(s) {
      SafeExactly(s);
    }
    hide SafeText, Harmless;
    assert EnvironmentOk(e) <==> forall s :: Value(e, s) ==> SafeText(s);
  }

  lemma SafeExactly(s: string)
    ensures SafeText(s) <==> Harmless(s)
  {
    ContainsPair(s, '(');
    ContainsPair(s, '{');
    assert "$(" == ['$', '('] && "${" == ['$', '{'];
    hide Contains;
    assert (forall i :: 1 <= i < |s| ==> !(s[i - 1] == '$' && (s[i] == '(' || s[i] == '{'))) <==> !Contains(s, "$(") && !Contains(s, "${");
    forall i | 0 <= i < |s| ensures s[i] in s {
    }
  }

  lemma ContainsPair(s: string, second: char)
    ensures Contains(s, ['$', second]) <==> exists i :: 1 <= i < |s| && s[i - 1] == '$' && s[i] == second
  {
    if before, after :| s == before + ['$', second] + after {
      assert s[|before|] == '$' && s[|before| + 1] == second;
    }
    if i :| 1 <= i < |s| && s[i - 1] == '$' && s[i] == second {
      assert s == s[..i - 1] + ['$', second] + s[i + 1..];
    }
  }

  // ---- which package comes next ----

  /**
   * Which files a package may find: each file is missing or its own, or its predecessor's, and none is there on a first
   * installation but what an interrupted one left.
   */
  lemma FilesFitExactly(setup: Setup, f: Files, p: Package)
    requires Binds(p.signed.manifest, p)
    ensures FilesRefusal(setup, f, p).None? <==>
      && (if f.highWater.Some? then
            && f.highWater.value.agent == p.signed.manifest.agent && 1 <= f.highWater.value.epoch <= 9_007_199_254_740_991
            && (|| f.highWater.value == HighWater(p.signed.manifest.agent, p.directory.epoch, Sha256(p.directory), Sha256(p.roots), Sha256(p.signed))
                || (&& p.directory.epoch == f.highWater.value.epoch + 1 && f.highWater.value.roots == Sha256(p.roots)
                    && p.directory.previous == Some(f.highWater.value.directory)))
          else f.journal.Some? || (f.directory.None? && f.roots.None? && f.state.None? && f.environment.None?))
      && (f.roots.Some? ==> f.roots.value == p.roots)
      && (f.state.Some? ==>
            && f.state.value.roots == Sha256(p.roots)
            && (f.state.value == StateFile(p.directory.epoch, Sha256(p.directory), Sha256(p.roots)) || f.state.value.epoch == p.directory.epoch - 1))
      && (f.directory.Some? && f.directory.value != p.directory ==>
            && f.state.Some? && f.state.value.directory == Sha256(f.directory.value)
            && p.directory.previous == Some(Sha256(f.directory.value)) && p.directory.epoch == f.directory.value.epoch + 1)
      && (f.environment.None? ==> f.highWater.None?)
      && (f.environment.Some? ==>
            && f.environment.value.Parsed?
            && (f.highWater.None? || f.highWater.value.epoch == p.directory.epoch ==> f.environment.value.values == Render(setup, p.signed.manifest)))
  {
    hide Render;
  }

  /** On an empty target nothing but the package and this machine decides. */
  lemma FirstAccepted(setup: Setup, p: Package, now: int)
    ensures Verdict(setup, NOTHING, p, now).Ok? <==>
      PackageOk(p, setup.authority, now) && EnvironmentOk(Render(setup, p.signed.manifest)) && LocalInputsOk(setup, p, now)
  {
    hide PackageOk, EnvironmentOk, LocalInputsOk, Render;
  }

  /** After a completed installation exactly two kinds of package pass the file checks: the same one, and a direct successor. */
  lemma NextAccepted(setup: Setup, installed: Package, p: Package)
    requires Binds(installed.signed.manifest, installed) && IsInteger(installed.directory.epoch, 1)
    requires Binds(p.signed.manifest, p) && installed.signed.manifest.agent == p.signed.manifest.agent
    ensures FilesRefusal(setup, InstalledBy(setup, installed), p).None? <==>
      || p == installed
      || (p.directory.epoch == installed.directory.epoch + 1 && p.directory.previous == Some(Sha256(installed.directory)) && p.roots == installed.roots)
  {
    hide Render;
  }

  /** A package for another agent never passes. */
  lemma OtherAgentRefused(setup: Setup, installed: Package, p: Package)
    requires installed.signed.manifest.agent != p.signed.manifest.agent
    ensures FilesRefusal(setup, InstalledBy(setup, installed), p) == Some(TargetChanged)
  {
    hide Render;
  }

  /** Why the others are refused: an older epoch, another package of the same epoch, a gap, other roots, or another predecessor. */
  lemma RefusedBecause(setup: Setup, installed: Package, p: Package)
    requires Binds(installed.signed.manifest, installed) && IsInteger(installed.directory.epoch, 1)
    requires Binds(p.signed.manifest, p) && installed.signed.manifest.agent == p.signed.manifest.agent
    ensures var refusal, before, next := FilesRefusal(setup, InstalledBy(setup, installed), p), installed.directory.epoch, p.directory.epoch;
      && (refusal == Some(PackageRollback) <==> next < before)
      && (refusal == Some(HighWaterConflict) <==> next == before && p.signed != installed.signed)
      && (refusal == Some(HighWaterGap) <==> before + 1 < next)
      && (refusal == Some(RootsChange) <==> next == before + 1 && p.roots != installed.roots)
      && (refusal == Some(NotDescendant) <==>
            next == before + 1 && p.roots == installed.roots && p.directory.previous != Some(Sha256(installed.directory)))
  {
    hide Render;
  }
}
