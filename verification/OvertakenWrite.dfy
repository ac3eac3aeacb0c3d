/** A concrete run in which a stalled client takes the state file back behind two completed installations. */
module OvertakenWrite {
  import opened Wrappers
  import opened Text
  import opened Directory
  import opened Protocol
  import opened DirectoryContext
  import opened Provisioning
  import opened ProvisioningRuns
  import opened Sample

  const FIRST := Sealed(0)

  const UNSEALED := Unsealed(0).(epoch := 2, previous := Some(Sha256(FIRST)))
  const SECOND := UNSEALED.(signatures := [GovernanceSignature("g", "Ed25519", Ed25519(ROOT_KEY, UNSEALED, 0))])

  const AUTHORITY := Authority("k", Filled(32, 7))
  const BUNDLE := Bundle("b", "bs", Filled(32, 3), map["be" := Filled(32, 4)])
  const SETUP := Setup(AUTHORITY, BUNDLE, {"b"}, "/keys", "/tribe")

  function ManifestFor(s: Snapshot): Manifest {
    Manifest("p", "b", T0, T0 + DAY, s.epoch, Sha256(s), Sha256(ROOTS), "bs", ["be"], [AUDIENCE.key], "{}", ["http://b"], ["b"],
      seq(40, i => '0'), "k")
  }

  function PackageFor(s: Snapshot): Package {
    Package(SignedManifest(ManifestFor(s), Ed25519(Filled(32, 7), ManifestFor(s), 0)), s, ROOTS)
  }

  const OLDER := PackageFor(FIRST)
  const NEWER := PackageFor(SECOND)
  const OLDER_STATE := DirectoryStore.StateOf(FIRST, ROOTS)

  lemma SecondIsValid()
    ensures ValidDirectory(SECOND, ROOTS, T0)
  {
    NamesAreFine();
    AgentsAreFine(0);
    KidsAreUnique(0);
    assert Unsigned(SECOND) == UNSEALED;
    hide EachAgentOk, UniqueAgents, UniqueKids, AudienceOk, IsIdentifier, AgentIds;
  }

  lemma ManifestIsFine(s: Snapshot)
    requires IsInteger(s.epoch, 1)
    ensures ManifestFieldsOk(ManifestFor(s)) && ManifestTimesOk(ManifestFor(s), T0) && SealOk(PackageFor(s), AUTHORITY)
  {
    NamesAreFine();
    assert IsIdentifier("p");
    hide IsIdentifier;
  }

  lemma TextsAreSafe(s: Snapshot)
    ensures EnvironmentOk(Render(SETUP, ManifestFor(s)))
  {
    assert SafeText("b") && SafeText("/keys") && SafeText("/tribe") && SafeText("{}") && SafeText("http://b");
    assert SafeText(seq(40, i => '0'));
    hide SafeText;
  }

  lemma IsAuthorized(s: Snapshot)
    requires s.agents == FIRST.agents && s.audiences == FIRST.audiences
    ensures AuthorizedIn(ManifestFor(s), s)
  {
    AudienceIsFiled(0);
    hide AudienceTable;
    assert FindAgent(s.agents, "b") == Some(Sample.Receiver(0));
  }

  /** Both packages are accepted as such, and fit this machine. */
  lemma PackageIsAccepted(s: Snapshot)
    requires s.agents == FIRST.agents && s.audiences == FIRST.audiences && IsInteger(s.epoch, 1) && ValidDirectory(s, ROOTS, T0)
    ensures PackageOk(PackageFor(s), AUTHORITY, T0) && LocalInputsOk(SETUP, PackageFor(s), T0)
    ensures EnvironmentOk(Render(SETUP, ManifestFor(s)))
  {
    ManifestIsFine(s);
    TextsAreSafe(s);
    IsAuthorized(s);
    RootsAreFine();
    FitsMachine(s);
    hide ValidDirectory, ManifestFieldsOk, ManifestTimesOk, EnvironmentOk, SealOk, LocalInputsOk, AuthorizedIn, RootsOk, Render;
  }

  lemma FitsMachine(s: Snapshot)
    requires s.agents == FIRST.agents
    ensures LocalInputsOk(SETUP, PackageFor(s), T0)
  {
    BundleIsFine(s);
    OneName();
    hide BundleOk, NameSet;
  }

  lemma RootsAreFine()
    ensures RootsOk(ROOTS)
  {
    NamesAreFine();
    hide IsIdentifier;
  }

  lemma BundleIsFine(s: Snapshot)
    requires s.agents == FIRST.agents
    ensures BundleOk(BUNDLE, s, T0)
  {
    KeysAreFiled(0);
    var b := Sample.Receiver(0);
    assert FindAgent(s.agents, "b") == Some(b);
    assert b.signing == [b.signing[0]] && b.encryption == [b.encryption[0]];
    assert Usable(b.signing[0], T0) && Usable(b.encryption[0], T0);
    hide KeyTable;
  }

  lemma OlderIsAccepted()
    ensures Verdict(SETUP, NOTHING, OLDER, T0) == Ok(JournalFor(OLDER, T0))
  {
    SealedIsValid(0, T0);
    PackageIsAccepted(FIRST);
    hide PackageOk, LocalInputsOk, EnvironmentOk, ValidDirectory, Render, TargetHighWater;
  }

  lemma NewerIsAccepted()
    ensures Verdict(SETUP, InstalledBy(SETUP, OLDER), NEWER, T0) == Ok(JournalFor(NEWER, T0))
  {
    SecondIsValid();
    PackageIsAccepted(SECOND);
    NewerFollows();
    hide PackageOk, LocalInputsOk, EnvironmentOk, ValidDirectory, Render, FilesRefusal, InstalledBy, PackageFor;
  }

  lemma NewerFollows()
    ensures FilesRefusal(SETUP, InstalledBy(SETUP, OLDER), NEWER).None? && InstalledBy(SETUP, OLDER).journal.None?
    ensures NEWER == PackageFor(SECOND) && NEWER.signed.manifest == ManifestFor(SECOND)
  {
    hide Render;
  }

  // ---- runs in stretches ----

  function Writing(n: nat): (r: seq<Event>)
    ensures |r| == n
  {
    if n == 0 then [] else Writing(n - 1) + [WriteNext]
  }

  lemma {:induction false} RunInStretches(setup: Setup, m: Machine, first: seq<Event>, second: seq<Event>)
    ensures Run(setup, m, first + second) == Run(setup, Run(setup, m, first), second)
  {
    hide Next;
    if second == [] {
      assert first + [] == first;
    } else {
      var all, front := first + second, second[..|second| - 1];
      assert all[..|all| - 1] == first + front;
      RunInStretches(setup, m, first, front);
    }
  }

  /** A stretch of writes by one process; clients stand where they stood. */
  lemma {:induction false} WritingRuns(setup: Setup, m: Machine, n: nat)
    requires n > 0 && m.process.Some? && m.process.value.next + n <= WRITES
    requires var x := m.process.value; m.files == Writes(setup, x.p, x.journal, x.start, x.next)
    ensures var x := m.process.value;
      Run(setup, m, Writing(n)) == Machine(Writes(setup, x.p, x.journal, x.start, x.next + n),
        if x.next + n == WRITES then None else Some(x.(next := x.next + n)), m.clients)
  {
    hide Write;
    var x := m.process.value;
    var events := Writing(n);
    assert events[..|events| - 1] == Writing(n - 1);
    WritesNext(setup, x.p, x.journal, x.start, x.next + n - 1);
    if n > 1 {
      WritingRuns(setup, m, n - 1);
    } else {
      assert Writing(0) == [] && Run(setup, m, []) == m;
    }
  }

  // ---- the run ----

  /** The first package is installed; between its third and fourth write a client reads, locks and decides, then stalls. */
  const INSTALL_FIRST := [Begin(OLDER, T0)] + Writing(3) + [ClientRead(0, T0), ClientLock(0)] + Writing(4)

  const INSTALL_SECOND := [Begin(NEWER, T0)] + Writing(7)

  /** What the first three writes on an empty target leave. */
  lemma ThreeWrites(p: Package, journal: Journal)
    ensures Writes(SETUP, p, journal, NOTHING, 3) == Files(Some(journal), None, Some(p.roots), Some(p.directory), None, None)
  {
    WritesNext(SETUP, p, journal, NOTHING, 0);
    WritesNext(SETUP, p, journal, NOTHING, 1);
    WritesNext(SETUP, p, journal, NOTHING, 2);
    hide Writes;
  }

  lemma ClientDecides(m: Machine)
    requires m.files.directory == Some(FIRST) && m.files.roots == Some(ROOTS) && m.files.state.None? && m.clients == map[]
    ensures Run(SETUP, m, [ClientRead(0, T0), ClientLock(0)]) == m.(clients := map[0 := MustWrite(OLDER_STATE)])
  {
    SealedIsValid(0, T0);
    RootsAreFine();
    hide ValidDirectory, RootsOk;
    var events := [ClientRead(0, T0), ClientLock(0)];
    assert events[..1] == [ClientRead(0, T0)] && events[..1][..0] == [];
    var read := m.(clients := map[0 := HasRead(FIRST, ROOTS, T0)]);
    assert Run(SETUP, m, events[..1]) == Next(SETUP, m, ClientRead(0, T0)) == read;
    assert Run(SETUP, m, events) == Next(SETUP, read, ClientLock(0));
    assert Decided(m.files, read.clients, 0) == map[0 := MustWrite(OLDER_STATE)];
  }

  lemma Begins(m: Machine, p: Package)
    requires m.process.None? && Verdict(SETUP, m.files, p, T0) == Ok(JournalFor(p, T0))
    ensures Run(SETUP, m, [Begin(p, T0)]) == m.(process := Some(Process(p, JournalFor(p, T0), m.files, 0)))
  {
    hide Verdict;
    assert [Begin(p, T0)][..0] == [];
  }

  /** All seven writes of an accepted package. */
  lemma InstallsWholly(base: Files, p: Package)
    requires Base(base) && Verdict(SETUP, base, p, T0) == Ok(JournalFor(p, T0))
    ensures Writes(SETUP, p, JournalFor(p, T0), base, WRITES) == InstalledBy(SETUP, p)
  {
    hide Verdict;
    ReachedNothing(SETUP, base, p, JournalFor(p, T0));
    WritesFinish(SETUP, base, p, JournalFor(p, T0), 0, base);
  }

  lemma FirstInstalled()
    ensures Run(SETUP, Idle(NOTHING), INSTALL_FIRST)
      == Machine(InstalledBy(SETUP, OLDER), None, map[0 := MustWrite(OLDER_STATE)])
  {
    hide Verdict, Writes, Run, Next, InstalledBy, Writing;
    OlderIsAccepted();
    var j := JournalFor(OLDER, T0);
    var m := Idle(NOTHING);
    var begun := m.(process := Some(Process(OLDER, j, NOTHING, 0)));
    Begins(m, OLDER);
    WritesNext(SETUP, OLDER, j, NOTHING, 0);
    WritingRuns(SETUP, begun, 3);
    ThreeWrites(OLDER, j);
    var third := Machine(Writes(SETUP, OLDER, j, NOTHING, 3), Some(Process(OLDER, j, NOTHING, 3)), map[]);
    ClientDecides(third);
    var decided := third.(clients := map[0 := MustWrite(OLDER_STATE)]);
    WritingRuns(SETUP, decided, 4);
    InstallsWholly(NOTHING, OLDER);
    var a, b, c, d := [Begin(OLDER, T0)], Writing(3), [ClientRead(0, T0), ClientLock(0)], Writing(4);
    RunInStretches(SETUP, m, a, b);
    RunInStretches(SETUP, m, a + b, c);
    RunInStretches(SETUP, m, a + b + c, d);
  }

  lemma SecondInstalled(m: Machine)
    requires m.files == InstalledBy(SETUP, OLDER) && m.process.None?
    ensures Run(SETUP, m, INSTALL_SECOND) == m.(files := InstalledBy(SETUP, NEWER))
  {
    NewerIsAccepted();
    FirstRests();
    hide Verdict, Writes, Run, Next, InstalledBy, Writing, Settled;
    var j := JournalFor(NEWER, T0);
    Begins(m, NEWER);
    var begun := m.(process := Some(Process(NEWER, j, m.files, 0)));
    WritesNext(SETUP, NEWER, j, m.files, 0);
    WritingRuns(SETUP, begun, 7);
    InstallsWholly(m.files, NEWER);
    RunInStretches(SETUP, m, [Begin(NEWER, T0)], Writing(7));
  }

  lemma FirstRests()
    ensures Settled(InstalledBy(SETUP, OLDER))
  {
  }

  /**
   * Two packages are installed without a crash, then the stalled client writes what it decided: directory and
   * high-water stand at epoch 2, the anti-rollback state is back at epoch 1.
   */
  lemma StateFallsBack()
    ensures var run := INSTALL_FIRST + INSTALL_SECOND;
      && EpochsOf(Run(SETUP, Idle(NOTHING), run).files) == Epochs(Some(2), Some(2), Some(2))
      && EpochsOf(Run(SETUP, Idle(NOTHING), run + [ClientWrite(0)]).files) == Epochs(Some(2), Some(1), Some(2))
      && !Timely(SETUP, NOTHING, run + [ClientWrite(0)])
  {
    hide Writing;
    FirstInstalled();
    var first := Run(SETUP, Idle(NOTHING), INSTALL_FIRST);
    SecondInstalled(first);
    RunInStretches(SETUP, Idle(NOTHING), INSTALL_FIRST, INSTALL_SECOND);
    var run := INSTALL_FIRST + INSTALL_SECOND;
    hide Run, Timely, INSTALL_FIRST, INSTALL_SECOND;
    LastStep(run, first.(files := InstalledBy(SETUP, NEWER)));
  }

  lemma LastStep(run: seq<Event>, m: Machine)
    requires Run(SETUP, Idle(NOTHING), run) == m
    requires m.files == InstalledBy(SETUP, NEWER) && m.clients == map[0 := MustWrite(OLDER_STATE)]
    ensures Run(SETUP, Idle(NOTHING), run + [ClientWrite(0)]).files == m.files.(state := Some(OLDER_STATE))
    ensures !Timely(SETUP, NOTHING, run + [ClientWrite(0)])
  {
    var all := run + [ClientWrite(0)];
    assert all[..|all| - 1] == run && all[|all| - 1] == ClientWrite(0);
    assert !ProvisioningRuns.Fresh(m, ClientWrite(0));
    assert Run(SETUP, Idle(NOTHING), all) == Next(SETUP, m, ClientWrite(0));
  }
}
