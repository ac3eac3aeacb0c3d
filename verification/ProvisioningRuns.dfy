/** Provisioning under crashes: any interleaving of attempts, single writes, crashes and the steps of loading clients. */
module ProvisioningRuns {
  import opened Wrappers
  import opened Directory
  import opened DirectoryStore
  import opened Provisioning

  /** The process holding the lock: its package, the files its checks read, and its next write. */
  datatype Process = Process(p: Package, journal: Journal, start: Files, next: nat)

  /** A loading client: the files it has read, or, holding the lock of the state file, the state it decided to write. */
  datatype Client = HasRead(s: Snapshot, roots: Roots, now: int) | MustWrite(state: StateFile)

  datatype Machine = Machine(files: Files, process: Option<Process>, clients: map<nat, Client>)

  datatype Event =
    | Begin(p: Package, now: int)
    | WriteNext
    | Crash
    | ClientRead(c: nat, now: int)
    | ClientLock(c: nat)
    | ClientWrite(c: nat)
    | ClientQuit(c: nat)

  function Idle(f: Files): Machine {
    Machine(f, None, map[])
  }

  predicate LockFree(clients: map<nat, Client>) {
    forall c :: c in clients ==> clients[c].HasRead?
  }

  /** With the lock, a client compares what it read with the state it finds now. */
  ghost function Decided(f: Files, clients: map<nat, Client>, c: nat): map<nat, Client>
    requires c in clients && clients[c].HasRead?
  {
    var r := LoadOutcome(f.state, clients[c].s, clients[c].roots, clients[c].now);
    if r.Ok? && f.state != Some(r.value) then clients[c := MustWrite(r.value)] else clients - {c}
  }

  /** Provisioning has a lock of its own; it does not take the lock of the state file. */
  ghost function Next(setup: Setup, m: Machine, event: Event): Machine {
    match event
    case Begin(p, now) =>
      if m.process.Some? || Verdict(setup, m.files, p, now).Err? then m
      else m.(process := Some(Process(p, Verdict(setup, m.files, p, now).value, m.files, 0)))
    case WriteNext =>
      if m.process.None? then m
      else
        var x := m.process.value;
        m.(files := Write(setup, x.p, x.journal, x.start, x.next, m.files),
           process := if x.next + 1 == WRITES then None else Some(x.(next := x.next + 1)))
    case Crash => m.(process := None)
    case ClientRead(c, now) =>
      if c in m.clients || m.files.directory.None? || m.files.roots.None? then m
      else m.(clients := m.clients[c := HasRead(m.files.directory.value, m.files.roots.value, now)])
    case ClientLock(c) =>
      if c !in m.clients || !LockFree(m.clients) then m else m.(clients := Decided(m.files, m.clients, c))
    case ClientWrite(c) =>
      if c !in m.clients || m.clients[c].HasRead? then m
      else m.(files := m.files.(state := Some(m.clients[c].state)), clients := m.clients - {c})
    case ClientQuit(c) => m.(clients := m.clients - {c})
  }

  ghost function Run(setup: Setup, m: Machine, events: seq<Event>): Machine {
    if events == [] then m else Next(setup, Run(setup, m, events[..|events| - 1]), events[|events| - 1])
  }

  // ---- where a target can stand ----

  /** A completed installation; the environment may hold anything the operator put there. */
  predicate Settled(f: Files) {
    && f.journal.None?
    && f.highWater.Some? && f.roots.Some? && f.directory.Some? && f.state.Some? && f.environment.Some?
    && IsInteger(f.directory.value.epoch, 1)
    && f.state.value == StateOf(f.directory.value, f.roots.value)
    && f.highWater.value.epoch == f.directory.value.epoch
    && f.highWater.value.directory == Sha256(f.directory.value)
    && f.highWater.value.roots == Sha256(f.roots.value)
  }

  predicate Base(f: Files) {
    f == NOTHING || Settled(f)
  }

  /** The files once a package is completely installed. */
  function InstalledBy(setup: Setup, p: Package): Files {
    Files(None, Some(TargetHighWater(p)), Some(p.roots), Some(p.directory), Some(StateOf(p.directory, p.roots)),
      Some(Parsed(Render(setup, p.signed.manifest))))
  }

  /** Base and package with the first k writes done; a client may have run ahead with the state file after the third. */
  predicate Reached(setup: Setup, base: Files, p: Package, journal: Journal, k: nat, f: Files) {
    var done := InstalledBy(setup, p);
    && f.journal == (if k >= 1 then Some(journal) else None)
    && f.roots == (if k >= 2 then done.roots else base.roots)
    && f.directory == (if k >= 3 then done.directory else base.directory)
    && (f.state == (if k >= 4 then done.state else base.state) || (k == 3 && f.state == done.state))
    && f.environment == (if k >= 5 then done.environment else base.environment)
    && f.highWater == (if k >= 6 then done.highWater else base.highWater)
  }

  /** How far the target's transaction is: none, or the package, the journal and the writes done since the base. */
  datatype Progress =
    | Quiet(base: Files)
    | Busy(base: Files, p: Package, journal: Journal, done: nat)

  ghost predicate Accepted(setup: Setup, base: Files, p: Package, journal: Journal) {
    Base(base) && Verdict(setup, base, p, journal.authorizedAt) == Ok(journal)
  }

  ghost predicate ProcessOk(setup: Setup, x: Process, progress: Progress)
    requires progress.Busy?
  {
    && x.p == progress.p
    && x.journal == progress.journal
    && x.next <= progress.done
    && exists k :: StartedAt(setup, x, progress, k)
  }

  predicate StartedAt(setup: Setup, x: Process, progress: Progress, k: nat)
    requires progress.Busy?
  {
    k <= progress.done && Reached(setup, progress.base, progress.p, progress.journal, k, x.start)
  }

  ghost predicate Inv(setup: Setup, m: Machine, progress: Progress) {
    match progress
    case Quiet(base) => Base(base) && m.files == base && m.process.None?
    case Busy(base, p, journal, done) =>
      && Accepted(setup, base, p, journal)
      && done < WRITES
      && (done == 0 ==> m.process.Some?)
      && Reached(setup, base, p, journal, done, m.files)
      && (m.process.Some? ==> ProcessOk(setup, m.process.value, progress))
  }

  ghost function NextProgress(setup: Setup, m: Machine, progress: Progress, event: Event): Progress {
    match event
    case Begin(p, now) =>
      if progress.Quiet? && Verdict(setup, m.files, p, now).Ok? then Busy(m.files, p, Verdict(setup, m.files, p, now).value, 0) else progress
    case WriteNext =>
      if m.process.None? || progress.Quiet? then progress
      else if m.process.value.next < progress.done then progress
      else if progress.done + 1 == WRITES then Quiet(InstalledBy(setup, progress.p))
      else progress.(done := progress.done + 1)
    case Crash => if progress.Busy? && progress.done == 0 then Quiet(progress.base) else progress
    case _ => progress
  }

  ghost function RunProgress(setup: Setup, base: Files, events: seq<Event>): Progress {
    if events == [] then Quiet(base)
    else
      var front := events[..|events| - 1];
      NextProgress(setup, Run(setup, Idle(base), front), RunProgress(setup, base, front), events[|events| - 1])
  }

  // ---- where a client can stand ----

  /**
   * What a client read is still installed, or the state has reached it; what it decided is the state of the installed
   * directory, or the held state, or one the state has gone past.
   */
  predicate ClientOk(f: Files, client: Client) {
    && f.directory.Some? && f.roots.Some?
    && match client
       case HasRead(s, roots, _) =>
         roots == f.roots.value && (s == f.directory.value || (f.state.Some? && s.epoch <= f.state.value.epoch))
       case MustWrite(v) =>
         v == StateOf(f.directory.value, f.roots.value) || (f.state.Some? && (v == f.state.value || v.epoch < f.state.value.epoch))
  }

  predicate ClientsOk(m: Machine) {
    forall c :: c in m.clients ==> ClientOk(m.files, m.clients[c])
  }

  /** The state file stays or moves to a higher epoch. */
  predicate StateRises(f: Files, g: Files) {
    g.state == f.state || (g.state.Some? && (f.state.Some? ==> f.state.value.epoch < g.state.value.epoch))
  }

  /** How one step may move the files clients look at: the directory is replaced only once the state has reached it. */
  predicate Moves(f: Files, g: Files) {
    && (f.directory.Some? && f.roots.Some? ==> g.directory.Some? && g.roots == f.roots)
    && (g.directory != f.directory && f.directory.Some? && f.roots.Some? ==>
          g.state == f.state == Some(StateOf(f.directory.value, f.roots.value)))
    && StateRises(f, g)
  }

  /** A client's decided write is not overtaken: the state has not gone past it meanwhile. */
  predicate Fresh(m: Machine, event: Event) {
    event.ClientWrite? && event.c in m.clients && m.clients[event.c].MustWrite? && m.files.state.Some? ==>
      m.files.state.value.epoch <= m.clients[event.c].state.epoch
  }

  /** No client's decided write is overtaken in this run. */
  ghost predicate Timely(setup: Setup, base: Files, events: seq<Event>) {
    events != [] ==>
      var front := events[..|events| - 1];
      Timely(setup, base, front) && Fresh(Run(setup, Idle(base), front), events[|events| - 1])
  }

  // ---- what the checks on the base say ----

  lemma AcceptedMeans(setup: Setup, base: Files, p: Package, journal: Journal)
    requires Accepted(setup, base, p, journal)
    ensures journal == JournalFor(p, journal.authorizedAt)
    ensures PackageOk(p, setup.authority, journal.authorizedAt) && LocalInputsOk(setup, p, journal.authorizedAt)
    ensures EnvironmentOk(Render(setup, p.signed.manifest))
    ensures FilesRefusal(setup, base, p).None?
    ensures Binds(p.signed.manifest, p) && IsInteger(p.directory.epoch, 1)
  {
    hide FilesRefusal, ValidDirectory, BundleOk, AuthorizedIn, EnvironmentOk;
  }

  /** The base agrees with the package on roots, and its directory is the package's or its predecessor. */
  lemma BaseFits(setup: Setup, base: Files, p: Package)
    requires Base(base) && FilesRefusal(setup, base, p).None? && Binds(p.signed.manifest, p) && IsInteger(p.directory.epoch, 1)
    ensures Settled(base) ==> base.roots == Some(p.roots)
    ensures Settled(base) ==>
      || (base.directory == Some(p.directory) && base.highWater == Some(TargetHighWater(p))
          && base.environment == Some(Parsed(Render(setup, p.signed.manifest))))
      || (base.directory.value.epoch + 1 == p.directory.epoch && p.directory.previous == Some(Sha256(base.directory.value)))
    ensures base.highWater == Some(TargetHighWater(p)) ==> base.environment == Some(Parsed(Render(setup, p.signed.manifest)))
  {
    if Settled(base) {
      assert StateRefusal(base, p).None? && HighWaterRefusal(base, p).None? && DirectoryRefusal(base, p).None?;
    }
  }

  /** Every file check still passes on every partly written target. */
  lemma ChecksPassAgain(setup: Setup, base: Files, p: Package, journal: Journal, k: nat, f: Files)
    requires Base(base) && FilesRefusal(setup, base, p).None? && Binds(p.signed.manifest, p) && IsInteger(p.directory.epoch, 1)
    requires 1 <= k < WRITES && Reached(setup, base, p, journal, k, f)
    ensures FilesRefusal(setup, f, p).None?
  {
    BaseFits(setup, base, p);
    HighWaterAgain(setup, base, p, journal, k, f);
    assert RootsRefusal(f, p).None?;
    StateAgain(setup, base, p, journal, k, f);
    assert DirectoryRefusal(base, p).None?;
    assert DirectoryRefusal(f, p).None?;
    assert EnvironmentRefusal(setup, base, p).None?;
    assert EnvironmentRefusal(setup, f, p).None?;
  }

  lemma HighWaterAgain(setup: Setup, base: Files, p: Package, journal: Journal, k: nat, f: Files)
    requires HighWaterRefusal(base, p).None? && Binds(p.signed.manifest, p) && IsInteger(p.directory.epoch, 1)
    requires 1 <= k < WRITES && Reached(setup, base, p, journal, k, f)
    ensures HighWaterRefusal(f, p).None?
  {
  }

  lemma StateAgain(setup: Setup, base: Files, p: Package, journal: Journal, k: nat, f: Files)
    requires StateRefusal(base, p).None?
    requires 1 <= k < WRITES && Reached(setup, base, p, journal, k, f)
    ensures StateRefusal(f, p).None?
  {
  }

  /** While a journal stands, its package is accepted at any time, even long after it expired. */
  lemma JournaledAccepted(setup: Setup, base: Files, p: Package, journal: Journal, k: nat, f: Files, now: int)
    requires Accepted(setup, base, p, journal) && 1 <= k < WRITES && Reached(setup, base, p, journal, k, f)
    ensures Verdict(setup, f, p, now) == Ok(journal)
  {
    hide FilesRefusal, PackageOk, LocalInputsOk, EnvironmentOk;
    AcceptedMeans(setup, base, p, journal);
    ChecksPassAgain(setup, base, p, journal, k, f);
  }

  /** While a journal stands, every other package is refused. */
  lemma OthersRefused(setup: Setup, f: Files, p: Package, journal: Journal, other: Package, now: int)
    requires f.journal == Some(journal) && journal == JournalFor(p, journal.authorizedAt) && Binds(p.signed.manifest, p)
    requires other != p
    ensures Verdict(setup, f, other, now).Err?
  {
    hide FilesRefusal, ValidDirectory, LocalInputsOk, EnvironmentOk, AuthorizedIn;
  }

  // ---- single steps ----

  lemma WriteKeeps(setup: Setup, m: Machine, progress: Progress)
    requires Inv(setup, m, progress) && progress.Busy? && m.process.Some?
    ensures Inv(setup, Next(setup, m, WriteNext), NextProgress(setup, m, progress, WriteNext))
  {
    hide FilesRefusal, Verdict, Write, Reached, Settled, Binds, PackageOk, LocalInputsOk, EnvironmentOk, Render, TargetHighWater, InstalledBy;
    var x := m.process.value;
    var k :| StartedAt(setup, x, progress, k);
    AcceptedMeans(setup, progress.base, progress.p, progress.journal);
    BaseFits(setup, progress.base, progress.p);
    SettledByPackage(setup, progress.p);
    WriteReaches(setup, x, progress, k, m.files);
    var progress' := NextProgress(setup, m, progress, WriteNext);
    if progress'.Busy? {
      assert StartedAt(setup, x.(next := x.next + 1), progress', k);
    }
  }

  /** A write that a previous attempt already made changes nothing; the first missing one advances the target. */
  lemma WriteReaches(setup: Setup, x: Process, progress: Progress, k: nat, f: Files)
    requires progress.Busy? && progress.done < WRITES && StartedAt(setup, x, progress, k)
    requires x.p == progress.p && x.journal == progress.journal && x.next <= progress.done
    requires Reached(setup, progress.base, progress.p, progress.journal, progress.done, f)
    requires progress.base == NOTHING || Settled(progress.base)
    requires Settled(progress.base) ==> progress.base.roots == Some(progress.p.roots)
    requires progress.base.highWater == Some(TargetHighWater(progress.p)) ==>
      progress.base.environment == Some(Parsed(Render(setup, progress.p.signed.manifest)))
    ensures x.next < progress.done ==> Write(setup, x.p, x.journal, x.start, x.next, f) == f
    ensures x.next == progress.done && x.next + 1 < WRITES ==>
      Reached(setup, progress.base, progress.p, progress.journal, progress.done + 1, Write(setup, x.p, x.journal, x.start, x.next, f))
    ensures x.next == progress.done && x.next + 1 == WRITES ==>
      Write(setup, x.p, x.journal, x.start, x.next, f) == InstalledBy(setup, progress.p)
  {
    hide Render;
  }

  /** A write moves the files only as clients may see them move. */
  lemma WriteMoves(setup: Setup, x: Process, progress: Progress, k: nat, f: Files)
    requires progress.Busy? && progress.done < WRITES && StartedAt(setup, x, progress, k)
    requires x.p == progress.p && x.journal == progress.journal && x.next <= progress.done
    requires Reached(setup, progress.base, progress.p, progress.journal, progress.done, f)
    requires Base(progress.base) && FilesRefusal(setup, progress.base, progress.p).None?
    requires Binds(progress.p.signed.manifest, progress.p) && IsInteger(progress.p.directory.epoch, 1)
    ensures Moves(f, Write(setup, x.p, x.journal, x.start, x.next, f))
  {
    BaseFits(setup, progress.base, progress.p);
    hide Render, FilesRefusal;
    if x.next < progress.done {
      WriteReaches(setup, x, progress, k, f);
    }
  }

  /** A client's write that is not overtaken changes nothing, or takes the state file to the new directory early. */
  lemma ClientWriteKeepsReached(setup: Setup, base: Files, p: Package, journal: Journal, k: nat, f: Files, v: StateFile)
    requires Base(base) && FilesRefusal(setup, base, p).None? && Binds(p.signed.manifest, p) && IsInteger(p.directory.epoch, 1)
    requires k < WRITES && Reached(setup, base, p, journal, k, f)
    requires ClientOk(f, MustWrite(v)) && (f.state.Some? ==> f.state.value.epoch <= v.epoch)
    ensures var g := f.(state := Some(v));
      && Reached(setup, base, p, journal, k, g) && Moves(f, g)
      && (g != f ==> k == 3 && v == StateOf(p.directory, p.roots))
  {
    BaseFits(setup, base, p);
    hide FilesRefusal, Render;
  }

  lemma ClientWriteAtRest(f: Files, v: StateFile)
    requires Base(f) && ClientOk(f, MustWrite(v)) && (f.state.Some? ==> f.state.value.epoch <= v.epoch)
    ensures f.(state := Some(v)) == f
  {
  }

  lemma MovesNot(f: Files)
    ensures Moves(f, f)
  {
  }

  lemma ClientStays(f: Files, g: Files, client: Client)
    requires ClientOk(f, client) && Moves(f, g)
    ensures ClientOk(g, client)
  {
  }

  /** A decision is to write the state of the installed directory, or nothing. */
  lemma DecidedOk(f: Files, clients: map<nat, Client>, c: nat)
    requires forall x :: x in clients ==> ClientOk(f, clients[x])
    requires c in clients && clients[c].HasRead?
    ensures forall x :: x in Decided(f, clients, c) ==> ClientOk(f, Decided(f, clients, c)[x])
  {
    hide ValidDirectory, RootsOk;
    assert ClientOk(f, clients[c]);
  }

  lemma SettledByPackage(setup: Setup, p: Package)
    requires Binds(p.signed.manifest, p) && IsInteger(p.directory.epoch, 1)
    ensures Settled(InstalledBy(setup, p))
  {
  }

  lemma BeginKeeps(setup: Setup, m: Machine, progress: Progress, p: Package, now: int)
    requires Inv(setup, m, progress)
    ensures Inv(setup, Next(setup, m, Begin(p, now)), NextProgress(setup, m, progress, Begin(p, now)))
  {
    hide FilesRefusal, PackageOk, LocalInputsOk, EnvironmentOk, Reached;
    var m', progress' := Next(setup, m, Begin(p, now)), NextProgress(setup, m, progress, Begin(p, now));
    if m.process.None? && Verdict(setup, m.files, p, now).Ok? {
      if progress.Quiet? {
        ReachedNothing(setup, m.files, p, Verdict(setup, m.files, p, now).value);
        assert StartedAt(setup, m'.process.value, progress', 0);
      } else {
        if p != progress.p {
          AcceptedMeans(setup, progress.base, progress.p, progress.journal);
          ReachedJournal(setup, progress.base, progress.p, progress.journal, progress.done, m.files);
          OthersRefused(setup, m.files, progress.p, progress.journal, p, now);
        } else {
          JournaledAccepted(setup, progress.base, p, progress.journal, progress.done, m.files, now);
          assert StartedAt(setup, m'.process.value, progress', progress.done);
        }
      }
    }
  }

  lemma ReachedJournal(setup: Setup, base: Files, p: Package, journal: Journal, k: nat, f: Files)
    requires k >= 1 && Reached(setup, base, p, journal, k, f)
    ensures f.journal == Some(journal)
  {
  }

  lemma ReachedNothing(setup: Setup, base: Files, p: Package, journal: Journal)
    requires Base(base)
    ensures Reached(setup, base, p, journal, 0, base)
  {
  }

  lemma NextKeeps(setup: Setup, m: Machine, progress: Progress, event: Event)
    requires Inv(setup, m, progress) && ClientsOk(m) && Fresh(m, event)
    ensures Inv(setup, Next(setup, m, event), NextProgress(setup, m, progress, event))
    ensures ClientsOk(Next(setup, m, event)) && Moves(m.files, Next(setup, m, event).files)
  {
    match event
    case Begin(p, now) =>
      BeginKeeps(setup, m, progress, p, now);
      hide Inv, Verdict, ClientOk;
    case WriteNext =>
      WriteNextKeeps(setup, m, progress);
    case ClientWrite(c) =>
      ClientWriteKeeps(setup, m, progress, c);
    case Crash =>
      hide Verdict, Reached, Settled, ClientOk;
    case _ =>
      ClientTurnKeeps(setup, m, progress, event);
  }

  /** Reading, deciding and quitting change no file. */
  lemma ClientTurnKeeps(setup: Setup, m: Machine, progress: Progress, event: Event)
    requires Inv(setup, m, progress) && ClientsOk(m)
    requires event.ClientRead? || event.ClientLock? || event.ClientQuit?
    ensures Inv(setup, Next(setup, m, event), NextProgress(setup, m, progress, event))
    ensures ClientsOk(Next(setup, m, event)) && Moves(m.files, Next(setup, m, event).files)
  {
    hide Verdict, Reached, Settled, Decided, ProcessOk;
    if event.ClientLock? && event.c in m.clients && LockFree(m.clients) {
      DecidedOk(m.files, m.clients, event.c);
    }
  }

  lemma WriteNextKeeps(setup: Setup, m: Machine, progress: Progress)
    requires Inv(setup, m, progress) && ClientsOk(m)
    ensures Inv(setup, Next(setup, m, WriteNext), NextProgress(setup, m, progress, WriteNext))
    ensures ClientsOk(Next(setup, m, WriteNext)) && Moves(m.files, Next(setup, m, WriteNext).files)
  {
    hide FilesRefusal, Verdict, Write, Reached, Settled, Binds, PackageOk, LocalInputsOk, EnvironmentOk, ClientOk, Moves;
    if progress.Busy? && m.process.Some? {
      WriteKeeps(setup, m, progress);
      AcceptedMeans(setup, progress.base, progress.p, progress.journal);
      var x := m.process.value;
      var k :| StartedAt(setup, x, progress, k);
      WriteMoves(setup, x, progress, k, m.files);
      forall c | c in m.clients ensures ClientOk(Next(setup, m, WriteNext).files, m.clients[c]) {
        ClientStays(m.files, Next(setup, m, WriteNext).files, m.clients[c]);
      }
    } else {
      MovesNot(m.files);
    }
  }

  lemma ClientWriteKeeps(setup: Setup, m: Machine, progress: Progress, c: nat)
    requires Inv(setup, m, progress) && ClientsOk(m) && Fresh(m, ClientWrite(c))
    ensures Inv(setup, Next(setup, m, ClientWrite(c)), progress)
    ensures ClientsOk(Next(setup, m, ClientWrite(c))) && Moves(m.files, Next(setup, m, ClientWrite(c)).files)
  {
    hide FilesRefusal, Verdict, Reached, Settled, Binds, PackageOk, LocalInputsOk, EnvironmentOk;
    if c in m.clients && m.clients[c].MustWrite? {
      var v := m.clients[c].state;
      var m' := Next(setup, m, ClientWrite(c));
      assert ClientOk(m.files, MustWrite(v));
      if progress.Busy? {
        AcceptedMeans(setup, progress.base, progress.p, progress.journal);
        ClientWriteKeepsReached(setup, progress.base, progress.p, progress.journal, progress.done, m.files, v);
      } else {
        ClientWriteAtRest(m.files, v);
      }
      forall other | other in m'.clients ensures ClientOk(m'.files, m'.clients[other]) {
        ClientStays(m.files, m'.files, m.clients[other]);
      }
    }
  }

  // ---- whole runs ----

  /**
   * From a fresh or installed target, every run in which no client's write is overtaken stays at some stage of one
   * accepted package, or at rest.
   */
  lemma {:induction false} RunKeeps(setup: Setup, base: Files, events: seq<Event>)
    requires Base(base) && Timely(setup, base, events)
    ensures Inv(setup, Run(setup, Idle(base), events), RunProgress(setup, base, events))
    ensures ClientsOk(Run(setup, Idle(base), events))
  {
    if events != [] {
      var front := events[..|events| - 1];
      hide Inv, Next, NextProgress, ClientOk, Moves;
      RunKeeps(setup, base, front);
      NextKeeps(setup, Run(setup, Idle(base), front), RunProgress(setup, base, front), events[|events| - 1]);
    } else {
      hide Reached;
    }
  }

  /** Every step of the run leaves the state file alone or moves it to a higher epoch. */
  ghost predicate Rising(setup: Setup, base: Files, events: seq<Event>) {
    events != [] ==>
      var front := events[..|events| - 1];
      Rising(setup, base, front) && StateRises(Run(setup, Idle(base), front).files, Run(setup, Idle(base), events).files)
  }

  /** The anti-rollback state never falls if and only if no client's decided write is overtaken. */
  lemma {:induction false} StateNeverFalls(setup: Setup, base: Files, events: seq<Event>)
    requires Base(base)
    ensures Rising(setup, base, events) <==> Timely(setup, base, events)
  {
    if events != [] {
      hide Inv, Next, NextProgress, ClientOk;
      var front, last := events[..|events| - 1], events[|events| - 1];
      StateNeverFalls(setup, base, front);
      var m := Run(setup, Idle(base), front);
      if Timely(setup, base, events) {
        RunKeeps(setup, base, front);
        NextKeeps(setup, m, RunProgress(setup, base, front), last);
      } else if !Fresh(m, last) {
        OvertakenFalls(setup, m, last);
      }
    }
  }

  lemma OvertakenFalls(setup: Setup, m: Machine, event: Event)
    requires !Fresh(m, event)
    ensures !StateRises(m.files, Next(setup, m, event).files)
  {
  }

  // ---- a sufficient discipline: provisioning writes the state under the clients' lock ----

  /** Provisioning is about to write the state file. */
  predicate WritesState(m: Machine, event: Event) {
    event.WriteNext? && m.process.Some? && m.process.value.next == 3
  }

  /** Runs in which provisioning writes the state file only while no client holds its lock. */
  ghost predicate Locking(setup: Setup, base: Files, events: seq<Event>) {
    events != [] ==>
      var front := events[..|events| - 1];
      && Locking(setup, base, front)
      && (WritesState(Run(setup, Idle(base), front), events[|events| - 1]) ==> LockFree(Run(setup, Idle(base), front).clients))
  }

  /** One client at most has decided, and the state has not gone past its decision. */
  ghost predicate Undisturbed(m: Machine) {
    && (forall c, d :: c in m.clients && d in m.clients && m.clients[c].MustWrite? && m.clients[d].MustWrite? ==> c == d)
    && (forall c :: c in m.clients && m.clients[c].MustWrite? && m.files.state.Some? ==>
          m.files.state.value.epoch <= m.clients[c].state.epoch)
  }

  lemma UndisturbedStep(setup: Setup, m: Machine, event: Event)
    requires Undisturbed(m) && (WritesState(m, event) ==> LockFree(m.clients))
    ensures Undisturbed(Next(setup, m, event)) && Fresh(m, event)
  {
    hide Verdict, ValidDirectory, RootsOk, Render, TargetHighWater;
    if event.ClientLock? && event.c in m.clients && LockFree(m.clients) {
      var r := LoadOutcome(m.files.state, m.clients[event.c].s, m.clients[event.c].roots, m.clients[event.c].now);
      assert r.Ok? && m.files.state.Some? ==> m.files.state.value.epoch <= r.value.epoch;
      hide LoadOutcome;
    }
  }

  /** With the lock taken on both sides no client's decided write is overtaken, so everything proved of such runs holds. */
  lemma {:induction false} LockingIsTimely(setup: Setup, base: Files, events: seq<Event>)
    requires Locking(setup, base, events)
    ensures Timely(setup, base, events) && Undisturbed(Run(setup, Idle(base), events))
  {
    if events != [] {
      hide Next, Fresh, Undisturbed, WritesState, LockFree;
      var front, last := events[..|events| - 1], events[|events| - 1];
      LockingIsTimely(setup, base, front);
      UndisturbedStep(setup, Run(setup, Idle(base), front), last);
    } else {
      NobodyDisturbs(base);
    }
  }

  lemma NobodyDisturbs(base: Files)
    ensures Undisturbed(Idle(base))
  {
  }

  /** Epochs of high-water, state and directory, where present. */
  datatype Epochs = Epochs(highWater: Option<int>, state: Option<int>, directory: Option<int>)

  function EpochsOf(f: Files): Epochs {
    Epochs(
      if f.highWater.Some? then Some(f.highWater.value.epoch) else None,
      if f.state.Some? then Some(f.state.value.epoch) else None,
      if f.directory.Some? then Some(f.directory.value.epoch) else None)
  }

  /** The four stages between two epochs, oldest first: directory, then state, then high-water move on. */
  predicate Staged(e: Epochs, before: Option<int>, target: int) {
    || e == Epochs(before, before, before)
    || e == Epochs(before, before, Some(target))
    || e == Epochs(before, Some(target), Some(target))
    || e == Epochs(Some(target), Some(target), Some(target))
  }

  function BaseEpoch(base: Files): Option<int> {
    if base.directory.Some? then Some(base.directory.value.epoch) else None
  }

  /** After any events the three epochs agree, or are one stage on the way to the same or the next epoch. */
  lemma EpochsStaged(setup: Setup, base: Files, events: seq<Event>)
    requires Base(base) && Timely(setup, base, events)
    ensures var progress, e := RunProgress(setup, base, events), EpochsOf(Run(setup, Idle(base), events).files);
      var before := BaseEpoch(progress.base);
      if progress.Quiet? then e == Epochs(before, before, before)
      else
        && Staged(e, before, progress.p.directory.epoch)
        && (before.Some? ==> before.value <= progress.p.directory.epoch <= before.value + 1)
  {
    hide Run, RunProgress, FilesRefusal, Verdict, Render;
    RunKeeps(setup, base, events);
    var progress := RunProgress(setup, base, events);
    if progress.Busy? {
      AcceptedMeans(setup, progress.base, progress.p, progress.journal);
      BaseFits(setup, progress.base, progress.p);
    }
  }

  // ---- re-running ----

  lemma {:induction false} WritesReach(setup: Setup, base: Files, p: Package, journal: Journal, k: nat, start: Files, n: nat)
    requires Accepted(setup, base, p, journal) && k < WRITES && n < WRITES
    requires Reached(setup, base, p, journal, k, start)
    ensures Reached(setup, base, p, journal, if n < k then k else n, Writes(setup, p, journal, start, n))
  {
    hide FilesRefusal, Verdict, Write, Reached, Settled, Binds, PackageOk, LocalInputsOk, EnvironmentOk, Render, TargetHighWater, InstalledBy;
    if n > 0 {
      WritesReach(setup, base, p, journal, k, start, n - 1);
      AcceptedMeans(setup, base, p, journal);
      BaseFits(setup, base, p);
      var done := if n - 1 < k then k else n - 1;
      WriteReaches(setup, Process(p, journal, start, n - 1), Busy(base, p, journal, done), k, Writes(setup, p, journal, start, n - 1));
    }
  }

  /** From any stage the remaining writes end in one and the same set of files. */
  lemma WritesFinish(setup: Setup, base: Files, p: Package, journal: Journal, k: nat, start: Files)
    requires Accepted(setup, base, p, journal) && k < WRITES && Reached(setup, base, p, journal, k, start)
    ensures Writes(setup, p, journal, start, WRITES) == InstalledBy(setup, p)
  {
    hide FilesRefusal, Verdict, Write, Reached;
    WritesReach(setup, base, p, journal, k, start, WRITES - 1);
    AcceptedMeans(setup, base, p, journal);
    BaseFits(setup, base, p);
    WriteReaches(setup, Process(p, journal, start, WRITES - 1), Busy(base, p, journal, WRITES - 1), k,
      Writes(setup, p, journal, start, WRITES - 1));
  }

  /**
   * Wherever a run was cut off with a journal standing, re-running its package at any time, expired or not,
   * is accepted and ends in exactly the files an uninterrupted installation gives.
   */
  lemma RerunCompletes(setup: Setup, base: Files, events: seq<Event>, now: int)
    requires Base(base) && Timely(setup, base, events)
    requires var progress := RunProgress(setup, base, events); progress.Busy? && progress.done > 0
    ensures var progress, f := RunProgress(setup, base, events), Run(setup, Idle(base), events).files;
      && Verdict(setup, f, progress.p, now) == Ok(progress.journal)
      && Writes(setup, progress.p, progress.journal, f, WRITES)
           == Writes(setup, progress.p, progress.journal, progress.base, WRITES)
           == InstalledBy(setup, progress.p)
  {
    hide Run, RunProgress, FilesRefusal, Verdict, Write, Reached, InstalledBy;
    RunKeeps(setup, base, events);
    var progress, f := RunProgress(setup, base, events), Run(setup, Idle(base), events).files;
    JournaledAccepted(setup, progress.base, progress.p, progress.journal, progress.done, f, now);
    WritesFinish(setup, progress.base, progress.p, progress.journal, progress.done, f);
    ReachedNothing(setup, progress.base, progress.p, progress.journal);
    WritesFinish(setup, progress.base, progress.p, progress.journal, 0, progress.base);
  }

  // ---- what holds even where a client's write was overtaken ----

  /** The journal is the running transaction's, and so is a process. */
  ghost predicate Journaled(m: Machine, progress: Progress) {
    match progress
    case Quiet(_) => m.files.journal.None? && m.process.None?
    case Busy(_, p, journal, done) =>
      && done < WRITES
      && journal == JournalFor(p, journal.authorizedAt)
      && Binds(p.signed.manifest, p)
      && m.files.journal == (if done >= 1 then Some(journal) else None)
      && (done == 0 ==> m.process.Some?)
      && (m.process.Some? ==> m.process.value.p == p && m.process.value.journal == journal && m.process.value.next <= done)
  }

  lemma NextJournaled(setup: Setup, m: Machine, progress: Progress, event: Event)
    requires Journaled(m, progress)
    ensures Journaled(Next(setup, m, event), NextProgress(setup, m, progress, event))
  {
    hide FilesRefusal, ValidDirectory, LocalInputsOk, EnvironmentOk, AuthorizedIn, Decided;
    match event
    case Begin(p, now) =>
      if m.process.None? && progress.Busy? && p != progress.p {
        OthersRefused(setup, m.files, progress.p, progress.journal, p, now);
      }
    case _ =>
  }

  lemma {:induction false} RunJournaled(setup: Setup, base: Files, events: seq<Event>)
    requires Base(base)
    ensures Journaled(Run(setup, Idle(base), events), RunProgress(setup, base, events))
  {
    if events != [] {
      hide Journaled, Next, NextProgress;
      var front := events[..|events| - 1];
      RunJournaled(setup, base, front);
      NextJournaled(setup, Run(setup, Idle(base), front), RunProgress(setup, base, front), events[|events| - 1]);
    }
  }

  /** While a transaction is unfinished, every other package is refused and no file changes. */
  lemma OthersChangeNothing(setup: Setup, base: Files, events: seq<Event>, other: Package, now: int)
    requires Base(base)
    requires var progress := RunProgress(setup, base, events); progress.Busy? && progress.done > 0 && other != progress.p
    ensures var m := Run(setup, Idle(base), events); Next(setup, m, Begin(other, now)) == m
  {
    hide Run, RunProgress, Verdict;
    RunJournaled(setup, base, events);
    var progress, m := RunProgress(setup, base, events), Run(setup, Idle(base), events);
    OthersRefused(setup, m.files, progress.p, progress.journal, other, now);
  }

  /** The journal file itself says which of the two cases holds: it stands exactly while a begun transaction is unfinished. */
  lemma JournalTells(setup: Setup, base: Files, events: seq<Event>)
    requires Base(base)
    ensures var progress, f := RunProgress(setup, base, events), Run(setup, Idle(base), events).files;
      f.journal.Some? <==> progress.Busy? && progress.done > 0
  {
    hide Run, RunProgress, Verdict;
    RunJournaled(setup, base, events);
  }
}
