/** Installing one signed package into a target directory: the checks, the ordered atomic writes, the journal. */
module Provisioning {
  import opened Wrappers
  import opened Text
  import opened Directory
  import opened Protocol
  import opened DirectoryContext
  import opened DirectoryStore

  const MAX_MANIFEST_LIFETIME_MS := 7 * 86_400_000

  datatype Manifest = Manifest(
    provisioningId: string,
    agent: string,
    created: int,
    expires: int,
    epoch: int,
    directory: Digest<Snapshot>,
    roots: Digest<Roots>,
    signingKid: string,
    encryptionKids: seq<string>,
    audiences: seq<AudienceKey>,
    routes: string,
    endpoints: seq<string>,
    localAgents: seq<string>,
    buildCommit: string,
    signerKid: string)

  /** The manifest file as hashed into journal and high-water: its signature included. */
  datatype SignedManifest = SignedManifest(manifest: Manifest, signature: Signature<Manifest>)

  datatype Package = Package(signed: SignedManifest, directory: Snapshot, roots: Roots)

  datatype Authority = Authority(kid: string, publicKey: Bytes)

  /** A private key bundle, seen through the public halves of its keys. */
  datatype Bundle = Bundle(agent: string, signingKid: string, signing: Bytes, encryption: map<string, Bytes>)

  /** What belongs to the machine, not to the package. */
  datatype Setup = Setup(authority: Authority, bundle: Bundle, authorizedLocal: set<string>, keysPath: string, destination: string)

  datatype Journal = Journal(package: Digest<SignedManifest>, agent: string, directory: Digest<Snapshot>, authorizedAt: int)

  datatype HighWater = HighWater(
    agent: string,
    epoch: int,
    directory: Digest<Snapshot>,
    roots: Digest<Roots>,
    package: Digest<SignedManifest>)

  /** The client environment, value by value. */
  datatype Environment = Environment(
    client: string,
    buildCommit: string,
    destination: string,
    endpoints: seq<string>,
    keysPath: string,
    localAgents: seq<string>,
    routes: string)

  /** The installed environment file, which an operator may edit: its values, or text that does not parse to the expected keys. */
  datatype InstalledEnvironment = Parsed(values: Environment) | Unreadable

  datatype Files = Files(
    journal: Option<Journal>,
    highWater: Option<HighWater>,
    roots: Option<Roots>,
    directory: Option<Snapshot>,
    state: Option<StateFile>,
    environment: Option<InstalledEnvironment>)

  const NOTHING := Files(None, None, None, None, None, None)

  datatype Refusal =
    | InvalidPackage
    | Unfinished
    | LocalInputs
    | UnsafeEnvironment
    | TargetChanged
    | PackageRollback
    | HighWaterConflict
    | HighWaterGap
    | RootsChange
    | NotDescendant
    | ExistingTarget
    | IncompatibleState
    | StateRollback
    | StateSplit
    | StateGap
    | NotPredecessor
    | EnvironmentUnreadable
    | EnvironmentConflict
    | EnvironmentMissing

  // ---- the package by itself ----

  predicate IsCommit(s: string) {
    |s| == 40 && forall i :: 0 <= i < 40 ==> '0' <= s[i] <= '9' || 'a' <= s[i] <= 'f'
  }

  predicate ManifestTimesOk(m: Manifest, now: int) {
    && IsInteger(m.created, 1)
    && IsInteger(m.expires, 1)
    && m.created < m.expires
    && m.created <= now + MAX_CLOCK_SKEW_MS
    && now < m.expires
    && m.expires - m.created <= MAX_MANIFEST_LIFETIME_MS
  }

  predicate AudienceListOk(audiences: seq<AudienceKey>) {
    && audiences != []
    && (forall i :: 0 <= i < |audiences| ==> IsIdentifier(audiences[i].name.id) && IsInteger(audiences[i].epoch, 1))
    && (forall i, j :: 0 <= i < j < |audiences| ==> audiences[i] != audiences[j])
  }

  predicate LocalListOk(ids: seq<string>, agent: string) {
    && (forall i :: 0 <= i < |ids| ==> IsIdentifier(ids[i]))
    && (forall i, j :: 0 <= i < j < |ids| ==> ids[i] != ids[j] && Leq(ids[i], ids[j]))
    && agent in ids
  }

  predicate ManifestFieldsOk(m: Manifest) {
    && IsIdentifier(m.provisioningId)
    && IsIdentifier(m.agent)
    && IsCommit(m.buildCommit)
    && IsInteger(m.epoch, 1)
    && IsDigest(m.directory)
    && IsDigest(m.roots)
    && IsIdentifier(m.signingKid)
    && m.encryptionKids != []
    && (forall i :: 0 <= i < |m.encryptionKids| ==> IsIdentifier(m.encryptionKids[i]))
    && AudienceListOk(m.audiences)
    && m.endpoints != []
    && LocalListOk(m.localAgents, m.agent)
  }

  /** Every local principal is active, and the agent is a member of every required audience. */
  predicate AuthorizedIn(m: Manifest, s: Snapshot) {
    && (forall i :: 0 <= i < |m.localAgents| ==>
          var a := FindAgent(s.agents, m.localAgents[i]);
          a.Some? && a.value.status.ActiveAgent?)
    && (forall i :: 0 <= i < |m.audiences| ==>
          && m.audiences[i] in AudienceTable(s.audiences)
          && AudienceTable(s.audiences)[m.audiences[i]].status.ActiveAudience?
          && m.agent in AudienceTable(s.audiences)[m.audiences[i]].members)
  }

  /** The manifest binds exactly this directory and these roots. */
  predicate Binds(m: Manifest, p: Package) {
    m.epoch == p.directory.epoch && m.directory == Sha256(p.directory) && m.roots == Sha256(p.roots)
  }

  predicate SealOk(p: Package, authority: Authority) {
    authority.kid == p.signed.manifest.signerKid && Verifies(p.signed.signature, authority.publicKey, p.signed.manifest)
  }

  ghost predicate PackageOk(p: Package, authority: Authority, now: int) {
    var m := p.signed.manifest;
    && SealOk(p, authority)
    && ManifestTimesOk(m, now)
    && ManifestFieldsOk(m)
    && RootsOk(p.roots)
    && ValidDirectory(p.directory, p.roots, now)
    && Binds(m, p)
    && AuthorizedIn(m, p.directory)
  }

  method VerifyPackage(p: Package, authority: Authority, now: int) returns (ok: bool)
    ensures ok <==> PackageOk(p, authority, now)
  {
    var m := p.signed.manifest;
    if !SealOk(p, authority) || !ManifestTimesOk(m, now) || !ManifestFieldsOk(m) || !RootsOk(p.roots) {
      return false;
    }
    var valid := Validate(p.directory, p.roots, now, true);
    ok := valid && Binds(m, p) && AuthorizedIn(m, p.directory);
  }

  // ---- the package on this machine ----

  /** The bundle's keys are the directory's, and it holds the keys selected at this time. */
  predicate BundleOk(b: Bundle, s: Snapshot, time: int) {
    var signing, encryption := KeyTable(s.agents, Signing), KeyTable(s.agents, Encryption);
    var activeSigning, activeEncryption := ActiveKey(s, b.agent, Signing, time), ActiveKey(s, b.agent, Encryption, time);
    && b.signingKid in signing
    && signing[b.signingKid].owner == b.agent
    && signing[b.signingKid].key.status.Active?
    && signing[b.signingKid].key.publicKey == b.signing
    && (forall kid :: kid in b.encryption ==>
          && kid in encryption
          && encryption[kid].owner == b.agent
          && (encryption[kid].key.status.Active? || encryption[kid].key.status.Retired?)
          && encryption[kid].key.publicKey == b.encryption[kid])
    && activeSigning.Some? && activeSigning.value.kid == b.signingKid
    && activeEncryption.Some? && activeEncryption.value.kid in b.encryption
  }

  predicate LocalInputsOk(setup: Setup, p: Package, time: int) {
    var m := p.signed.manifest;
    && NameSet(m.localAgents) == setup.authorizedLocal
    && setup.bundle.agent == m.agent
    && BundleOk(setup.bundle, p.directory, time)
    && setup.bundle.signingKid == m.signingKid
    && (forall i :: 0 <= i < |m.encryptionKids| ==> m.encryptionKids[i] in setup.bundle.encryption)
  }

  predicate SafeText(s: string) {
    && (forall i :: 0 <= i < |s| ==> 32 <= s[i] as int && s[i] as int != 127 && s[i] != '`')
    && (forall i :: 1 <= i < |s| ==> !(s[i - 1] == '$' && (s[i] == '(' || s[i] == '{')))
  }

  predicate EnvironmentOk(e: Environment) {
    && SafeText(e.client) && SafeText(e.buildCommit) && SafeText(e.destination) && SafeText(e.keysPath) && SafeText(e.routes)
    && (forall i :: 0 <= i < |e.endpoints| ==> SafeText(e.endpoints[i]))
    && (forall i :: 0 <= i < |e.localAgents| ==> SafeText(e.localAgents[i]))
  }

  function Render(setup: Setup, m: Manifest): Environment {
    Environment(m.agent, m.buildCommit, setup.destination, m.endpoints, setup.keysPath, m.localAgents, m.routes)
  }

  function TargetHighWater(p: Package): HighWater {
    var m := p.signed.manifest;
    HighWater(m.agent, m.epoch, m.directory, m.roots, Sha256(p.signed))
  }

  function JournalFor(p: Package, time: int): Journal {
    Journal(Sha256(p.signed), p.signed.manifest.agent, p.signed.manifest.directory, time)
  }

  // ---- the package against the installed files ----

  function HighWaterRefusal(f: Files, p: Package): Option<Refusal> {
    var m := p.signed.manifest;
    if f.highWater.Some? then
      var h := f.highWater.value;
      if h.agent != m.agent then Some(TargetChanged)
      else if !IsInteger(h.epoch, 1) then Some(HighWaterConflict)
      else if h.epoch > m.epoch then Some(PackageRollback)
      else if h.epoch == m.epoch then if h != TargetHighWater(p) then Some(HighWaterConflict) else None
      else if h.epoch + 1 != m.epoch then Some(HighWaterGap)
      else if m.roots != h.roots then Some(RootsChange)
      else if p.directory.previous != Some(h.directory) then Some(NotDescendant)
      else None
    else if f.journal.None? && (f.directory.Some? || f.roots.Some? || f.state.Some? || f.environment.Some?) then Some(ExistingTarget)
    else None
  }

  function RootsRefusal(f: Files, p: Package): Option<Refusal> {
    if f.roots.Some? && f.roots.value != p.roots then Some(RootsChange) else None
  }

  function StateRefusal(f: Files, p: Package): Option<Refusal> {
    var target := StateOf(p.directory, p.roots);
    if f.state.None? then None
    else
      var s := f.state.value;
      if s.roots != target.roots then Some(IncompatibleState)
      else if s.epoch > target.epoch then Some(StateRollback)
      else if s.epoch == target.epoch && s != target then Some(StateSplit)
      else if s.epoch + 1 < target.epoch then Some(StateGap)
      else None
  }

  function DirectoryRefusal(f: Files, p: Package): Option<Refusal> {
    if f.directory.None? || Sha256(f.directory.value) == Sha256(p.directory) then None
    else
      var installed := f.directory.value;
      if f.state.None? || Sha256(installed) != f.state.value.directory
        || p.directory.previous != Some(Sha256(installed)) || p.directory.epoch != installed.epoch + 1
      then Some(NotPredecessor)
      else None
  }

  function EnvironmentRefusal(setup: Setup, f: Files, p: Package): Option<Refusal> {
    if f.environment.Some? then
      if f.environment.value.Unreadable? then Some(EnvironmentUnreadable)
      else if (f.highWater == Some(TargetHighWater(p)) || f.highWater.None?) && f.environment.value.values != Render(setup, p.signed.manifest)
      then Some(EnvironmentConflict)
      else None
    else if f.highWater.Some? then Some(EnvironmentMissing)
    else None
  }

  function FilesRefusal(setup: Setup, f: Files, p: Package): Option<Refusal> {
    if HighWaterRefusal(f, p).Some? then HighWaterRefusal(f, p)
    else if RootsRefusal(f, p).Some? then RootsRefusal(f, p)
    else if StateRefusal(f, p).Some? then StateRefusal(f, p)
    else if DirectoryRefusal(f, p).Some? then DirectoryRefusal(f, p)
    else EnvironmentRefusal(setup, f, p)
  }

  /** Everything decided before the first write: the journal to continue under, or a refusal. */
  ghost function Verdict(setup: Setup, f: Files, p: Package, now: int): Result<Journal, Refusal> {
    var time := if f.journal.Some? then f.journal.value.authorizedAt else now;
    if f.journal.Some? && f.journal.value.package != Sha256(p.signed) then Err(Unfinished)
    else if !PackageOk(p, setup.authority, time) then Err(InvalidPackage)
    else if !EnvironmentOk(Render(setup, p.signed.manifest)) then Err(UnsafeEnvironment)
    else if !LocalInputsOk(setup, p, time) then Err(LocalInputs)
    else if f.journal.Some? && f.journal.value != JournalFor(p, time) then Err(Unfinished)
    else if FilesRefusal(setup, f, p).Some? then Err(FilesRefusal(setup, f, p).value)
    else Ok(JournalFor(p, time))
  }

  // ---- the ordered writes ----

  const WRITES := 7

  /** The k-th write of a transaction, given the files its checks read and the files as they are now. */
  function Write(setup: Setup, p: Package, journal: Journal, start: Files, k: nat, f: Files): Files {
    var target := StateOf(p.directory, p.roots);
    match k
    case 0 => if f.journal.None? then f.(journal := Some(journal)) else f
    case 1 => if f.roots.None? then f.(roots := Some(p.roots)) else f
    case 2 => if f.directory != Some(p.directory) then f.(directory := Some(p.directory)) else f
    case 3 => if f.state != Some(target) then f.(state := Some(target)) else f
    case 4 =>
      if start.environment.None? || start.highWater != Some(TargetHighWater(p))
      then f.(environment := Some(Parsed(Render(setup, p.signed.manifest)))) else f
    case 5 =>
      if start.highWater != Some(TargetHighWater(p)) || f.highWater.None?
      then f.(highWater := Some(TargetHighWater(p))) else f
    case 6 => f.(journal := None)
    case _ => f
  }

  /** The first n writes, with nothing in between. */
  function Writes(setup: Setup, p: Package, journal: Journal, start: Files, n: nat): Files {
    if n == 0 then start else Write(setup, p, journal, start, n - 1, Writes(setup, p, journal, start, n - 1))
  }

  lemma WritesNext(setup: Setup, p: Package, journal: Journal, start: Files, n: nat)
    ensures Writes(setup, p, journal, start, 0) == start
    ensures Writes(setup, p, journal, start, n + 1) == Write(setup, p, journal, start, n, Writes(setup, p, journal, start, n))
  {
  }

  /** What the next write does to whichever files are there. */
  lemma NextWrite(setup: Setup, p: Package, journal: Journal, start: Files, n: nat)
    ensures var f := Writes(setup, p, journal, start, n); var g := Writes(setup, p, journal, start, n + 1);
      match n
      case 0 => g == f.(journal := if f.journal.None? then Some(journal) else f.journal)
      case 1 => g == f.(roots := if f.roots.None? then Some(p.roots) else f.roots)
      case 2 => g == f.(directory := Some(p.directory))
      case 3 => g == f.(state := Some(StateOf(p.directory, p.roots)))
      case 4 => g == f.(environment :=
        if start.environment.None? || start.highWater != Some(TargetHighWater(p)) then Some(Parsed(Render(setup, p.signed.manifest)))
        else f.environment)
      case 5 => g == f.(highWater :=
        if start.highWater != Some(TargetHighWater(p)) || f.highWater.None? then Some(TargetHighWater(p)) else f.highWater)
      case 6 => g == f.(journal := None)
      case _ => g == f
  {
    WritesNext(setup, p, journal, start, n);
    hide StateOf, Render, TargetHighWater;
  }

  datatype Outcome = Installed | Interrupted

  class Target {
    const setup: Setup
    var journal: Option<Journal>
    var highWater: Option<HighWater>
    var roots: Option<Roots>
    var directory: Option<Snapshot>
    var state: Option<StateFile>
    var environment: Option<InstalledEnvironment>

    constructor (setup: Setup)
      ensures this.setup == setup && Contents() == NOTHING
    {
      this.setup := setup;
      journal, highWater, roots, directory, state, environment := None, None, None, None, None, None;
    }

    function Contents(): Files
      reads this
    {
      Files(journal, highWater, roots, directory, state, environment)
    }

    method Decide(p: Package, now: int) returns (r: Result<Journal, Refusal>)
      ensures r == Verdict(setup, Contents(), p, now)
    {
      var time := now;
      if journal.Some? {
        time := journal.value.authorizedAt;
        if journal.value.package != Sha256(p.signed) {
          return Err(Unfinished);
        }
      }
      var ok := VerifyPackage(p, setup.authority, time);
      if !ok {
        return Err(InvalidPackage);
      }
      if !EnvironmentOk(Render(setup, p.signed.manifest)) {
        return Err(UnsafeEnvironment);
      }
      if !LocalInputsOk(setup, p, time) {
        return Err(LocalInputs);
      }
      if journal.Some? && journal.value != JournalFor(p, time) {
        return Err(Unfinished);
      }
      var refusal := FilesRefusal(setup, Contents(), p);
      if refusal.Some? {
        return Err(refusal.value);
      }
      r := Ok(JournalFor(p, time));
    }

    /** The ordered writes, cut off after the given number of them. */
    method Install(p: Package, granted: Journal, cut: nat)
      modifies this
      ensures Contents() == Writes(setup, p, granted, old(Contents()), if cut < WRITES then cut else WRITES)
    {
      hide Writes, Write, StateOf, Render, TargetHighWater;
      ghost var start := Contents();
      var target := StateOf(p.directory, p.roots);
      var previousHighWater, environmentExisted := highWater, environment.Some?;
      WritesNext(setup, p, granted, start, 0);
      NextWrite(setup, p, granted, start, 0);
      if cut > 0 && journal.None? {
        journal := Some(granted);
      }
      assert Contents() == Writes(setup, p, granted, start, if cut < 1 then cut else 1);
      NextWrite(setup, p, granted, start, 1);
      if cut > 1 && roots.None? {
        roots := Some(p.roots);
      }
      assert Contents() == Writes(setup, p, granted, start, if cut < 2 then cut else 2);
      NextWrite(setup, p, granted, start, 2);
      if cut > 2 && directory != Some(p.directory) {
        directory := Some(p.directory);
      }
      assert Contents() == Writes(setup, p, granted, start, if cut < 3 then cut else 3);
      NextWrite(setup, p, granted, start, 3);
      if cut > 3 && state != Some(target) {
        state := Some(target);
      }
      assert Contents() == Writes(setup, p, granted, start, if cut < 4 then cut else 4);
      NextWrite(setup, p, granted, start, 4);
      if cut > 4 && (!environmentExisted || previousHighWater != Some(TargetHighWater(p))) {
        environment := Some(Parsed(Render(setup, p.signed.manifest)));
      }
      assert Contents() == Writes(setup, p, granted, start, if cut < 5 then cut else 5);
      NextWrite(setup, p, granted, start, 5);
      if cut > 5 && (previousHighWater != Some(TargetHighWater(p)) || highWater.None?) {
        highWater := Some(TargetHighWater(p));
      }
      assert Contents() == Writes(setup, p, granted, start, if cut < 6 then cut else 6);
      NextWrite(setup, p, granted, start, 6);
      if cut > 6 {
        journal := None;
      }
    }

    /** Checks, then writes one file after the other; the process may be cut off after any number of writes. */
    method ApplyPackage(p: Package, now: int, cut: nat) returns (r: Result<Outcome, Refusal>)
      modifies this
      ensures var verdict := Verdict(setup, old(Contents()), p, now);
        if verdict.Err? then r == Err(verdict.error) && Contents() == old(Contents())
        else
          && r == Ok(if cut < WRITES then Interrupted else Installed)
          && Contents() == Writes(setup, p, verdict.value, old(Contents()), if cut < WRITES then cut else WRITES)
    {
      hide Verdict, Writes;
      var verdict := Decide(p, now);
      if verdict.Err? {
        return Err(verdict.error);
      }
      Install(p, verdict.value, cut);
      r := Ok(if cut < WRITES then Interrupted else Installed);
    }
  }
}
