/** The service with many requests in flight: their steps interleave at every point where they touch shared state. */
module ServiceThreads {
  import opened Wrappers
  import opened Sorting
  import opened Directory
  import opened DirectoryContext
  import opened Broker
  import opened BrokerRuns
  import opened Transport
  import opened Service

  /** How far a request is: time observed, directory loaded, the shared directory picked up, or recorded. */
  datatype Stage = Timed | Loaded | Chosen(directory: Snapshot) | Granted(authority: Snapshot)

  datatype Thread = Thread(call: Call, stage: Stage) {
    function Auth(): AuthBody {
      call.wrapper.auth.body
    }
  }

  /** Durable state, the directory field all threads share, the threads, and what was recorded and acted upon so far. */
  datatype Server = Server(
    world: World,
    shared: Option<Snapshot>,
    threads: map<nat, Thread>,
    granted: seq<AuthBody>,
    acted: seq<AuthBody>)

  datatype Step =
    | Arrive(thread: nat, call: Call)
    | Load(thread: nat)
    | Choose(thread: nat)
    | Grant(thread: nat)
    | Act(thread: nat)
    | Drop(thread: nat)
    | Meanwhile(op: Op)

  function Without(server: Server, t: nat): Server {
    server.(threads := server.threads - {t})
  }

  function Advance(server: Server, t: nat, stage: Stage): Server
    requires t in server.threads
  {
    server.(threads := server.threads[t := server.threads[t].(stage := stage)])
  }

  /** The request is authentic and routed under the directory its thread picked up. */
  predicate Passes(local: set<string>, call: Call, directory: Snapshot) {
    && RequestError(call.wrapper, KeyTable(directory.agents, Signing), "POST", call.path, call.clock).None?
    && RouteError(local, directory, call.path, call.wrapper, call.clock).None?
  }

  ghost function Arrived(server: Server, t: nat, call: Call): Server {
    var observed := Observe(server.world.db, call.clock);
    if t in server.threads || observed.Err? then server
    else server.(world := server.world.(db := observed.value), threads := server.threads[t := Thread(call, Timed)])
  }

  ghost function DirectoryLoaded(server: Server, t: nat): Server {
    if t !in server.threads || !server.threads[t].stage.Timed? then server
    else
      var call := server.threads[t].call;
      var r := DirectoryStore.LoadOutcome(server.world.state, call.file, call.roots, call.clock);
      if r.Err? then Without(server, t)
      else Advance(server.(world := server.world.(state := Some(r.value)), shared := Some(call.file)), t, Loaded)
  }

  ghost function DirectoryChosen(server: Server, t: nat): Server {
    if t !in server.threads || !server.threads[t].stage.Loaded? || server.shared.None? then server
    else Advance(server, t, Chosen(server.shared.value))
  }

  ghost function Recorded(cfg: Config, local: set<string>, server: Server, t: nat): Server {
    if t !in server.threads || !server.threads[t].stage.Chosen? then server
    else
      var call, directory := server.threads[t].call, server.threads[t].stage.directory;
      if !Passes(local, call, directory) || !Requests.Records(server.world.db, RecordOf(call)) then Without(server, t)
      else
        Advance(server, t, Granted(directory)).(
          world := server.world.(db := BrokerRuns.Step(cfg, server.world.db, RecordOf(call))),
          granted := server.granted + [server.threads[t].Auth()])
  }

  ghost function Performed(cfg: Config, server: Server, t: nat): Server {
    if t !in server.threads || !server.threads[t].stage.Granted? || server.threads[t].call.wrapper.body.OtherBody? then server
    else
      var call := server.threads[t].call;
      Without(server, t).(
        world := server.world.(
          db := BrokerRuns.Step(cfg, server.world.db, EffectOf(server.threads[t].stage.authority, call.wrapper, call.clock, call.leases))),
        acted := server.acted + [server.threads[t].Auth()])
  }

  ghost function Next(cfg: Config, local: set<string>, server: Server, step: Step): Server {
    match step
    case Arrive(t, call) => Arrived(server, t, call)
    case Load(t) => DirectoryLoaded(server, t)
    case Choose(t) => DirectoryChosen(server, t)
    case Grant(t) => Recorded(cfg, local, server, t)
    case Act(t) => Performed(cfg, server, t)
    case Drop(t) => Without(server, t)
    case Meanwhile(op) => server.(world := server.world.(db := BrokerRuns.Step(cfg, server.world.db, op)))
  }

  ghost function Run(cfg: Config, local: set<string>, server: Server, steps: seq<Step>): Server {
    if steps == [] then server
    else Next(cfg, local, Run(cfg, local, server, steps[..|steps| - 1]), steps[|steps| - 1])
  }

  ghost predicate Idle(server: Server) {
    server.threads == map[] && server.granted == [] && server.acted == []
  }

  // ---- the invariant ----

  /** Every recorded request can never be recorded again while it is unexpired. */
  ghost predicate GrantsBurned(db: Db, granted: seq<AuthBody>) {
    forall a :: a in granted ==> Requests.Burned(db, a.agent, a.request, a.expires)
  }

  predicate Holds(threads: map<nat, Thread>, t: nat) {
    t in threads && threads[t].stage.Granted?
  }

  /** A thread about to act holds a recorded request of its own that nobody has acted upon. */
  ghost predicate HoldersOk(threads: map<nat, Thread>, granted: seq<AuthBody>, acted: seq<AuthBody>) {
    && (forall t :: Holds(threads, t) ==> threads[t].Auth() in granted && threads[t].Auth() !in acted)
    && (forall t, u :: Holds(threads, t) && Holds(threads, u) && t != u ==> threads[t].Auth() != threads[u].Auth())
  }

  ghost predicate Inv(server: Server) {
    && GrantsBurned(server.world.db, server.granted)
    && Distinct(server.granted)
    && Distinct(server.acted)
    && (forall a :: a in server.acted ==> a in server.granted)
    && HoldersOk(server.threads, server.granted, server.acted)
  }

  lemma StaysBurned(cfg: Config, db: Db, op: Op, granted: seq<AuthBody>)
    requires GrantsBurned(db, granted)
    ensures GrantsBurned(BrokerRuns.Step(cfg, db, op), granted)
  {
    hide BrokerRuns.Step, Requests.Burned;
    forall a | a in granted ensures Requests.Burned(BrokerRuns.Step(cfg, db, op), a.agent, a.request, a.expires) {
      Requests.BurnedStep(cfg, db, op, a.agent, a.request, a.expires);
    }
  }

  lemma ObservedStaysBurned(cfg: Config, db: Db, now: int, granted: seq<AuthBody>)
    requires GrantsBurned(db, granted) && Observe(db, now).Ok?
    ensures GrantsBurned(Observe(db, now).value, granted)
  {
    hide BrokerRuns.Step, Requests.Burned, Observe;
    ObserveStep(cfg, db, now);
    StaysBurned(cfg, db, ObserveOp(now), granted);
  }

  /** A burned request that is unexpired for its thread is not recorded, even if time has moved on since. */
  lemma BurnedNotRecorded(local: set<string>, db: Db, call: Call, directory: Snapshot)
    requires Passes(local, call, directory)
    requires var a := call.wrapper.auth.body; Requests.Burned(db, a.agent, a.request, a.expires)
    ensures !Requests.Records(db, RecordOf(call))
  {
    hide RouteError, KeyTable;
  }

  lemma ArriveKeeps(cfg: Config, server: Server, t: nat, call: Call)
    requires Inv(server)
    ensures Inv(Arrived(server, t, call))
  {
    hide GrantsBurned, Observe, Distinct;
    if t !in server.threads && Observe(server.world.db, call.clock).Ok? {
      ObservedStaysBurned(cfg, server.world.db, call.clock, server.granted);
      HoldersShrink(server.threads, Arrived(server, t, call).threads, server.granted, server.acted);
    }
  }

  /** Threads that were holders before, or are none now, keep the holders in order. */
  lemma HoldersShrink(threads: map<nat, Thread>, after: map<nat, Thread>, granted: seq<AuthBody>, acted: seq<AuthBody>)
    requires HoldersOk(threads, granted, acted)
    requires forall t :: Holds(after, t) ==> Holds(threads, t) && after[t] == threads[t]
    ensures HoldersOk(after, granted, acted)
  {
  }

  lemma LoadKeeps(server: Server, t: nat)
    requires Inv(server)
    ensures Inv(DirectoryLoaded(server, t)) && Inv(DirectoryChosen(server, t)) && Inv(Without(server, t))
  {
    hide GrantsBurned, Distinct, DirectoryStore.LoadOutcome;
    HoldersShrink(server.threads, DirectoryLoaded(server, t).threads, server.granted, server.acted);
    HoldersShrink(server.threads, DirectoryChosen(server, t).threads, server.granted, server.acted);
    HoldersShrink(server.threads, Without(server, t).threads, server.granted, server.acted);
  }

  lemma GrantKeeps(cfg: Config, local: set<string>, server: Server, t: nat)
    requires Inv(server)
    ensures Inv(Recorded(cfg, local, server, t))
  {
    hide Passes, Requests.Records, BrokerRuns.Step, Requests.Burned, Distinct;
    var after := Recorded(cfg, local, server, t);
    if t in server.threads && server.threads[t].stage.Chosen? {
      var thread := server.threads[t];
      var call, directory, a := thread.call, thread.stage.directory, thread.Auth();
      HoldersShrink(server.threads, Without(server, t).threads, server.granted, server.acted);
      if Passes(local, call, directory) && Requests.Records(server.world.db, RecordOf(call)) {
        if a in server.granted {
          BurnedNotRecorded(local, server.world.db, call, directory);
        }
        DistinctExtend(server.granted, a);
        StaysBurned(cfg, server.world.db, RecordOf(call), server.granted);
        RecordBurns(cfg, server.world.db, RecordOf(call));
        NewHolder(server.threads, server.granted, server.acted, t, directory);
      }
    }
  }

  lemma NewHolder(threads: map<nat, Thread>, granted: seq<AuthBody>, acted: seq<AuthBody>, t: nat, directory: Snapshot)
    requires HoldersOk(threads, granted, acted) && t in threads && threads[t].Auth() !in granted
    requires forall a :: a in acted ==> a in granted
    ensures HoldersOk(threads[t := threads[t].(stage := Granted(directory))], granted + [threads[t].Auth()], acted)
  {
  }

  lemma ActKeeps(cfg: Config, server: Server, t: nat)
    requires Inv(server)
    ensures Inv(Performed(cfg, server, t))
  {
    hide BrokerRuns.Step, Requests.Burned, Distinct, EffectOf, GrantsBurned;
    if Holds(server.threads, t) && !server.threads[t].call.wrapper.body.OtherBody? {
      var call, a := server.threads[t].call, server.threads[t].Auth();
      StaysBurned(cfg, server.world.db, EffectOf(server.threads[t].stage.authority, call.wrapper, call.clock, call.leases), server.granted);
      DistinctExtend(server.acted, a);
      HolderGone(server.threads, server.granted, server.acted, t);
    }
  }

  lemma HolderGone(threads: map<nat, Thread>, granted: seq<AuthBody>, acted: seq<AuthBody>, t: nat)
    requires HoldersOk(threads, granted, acted) && Holds(threads, t)
    ensures HoldersOk(threads - {t}, granted, acted + [threads[t].Auth()])
  {
    forall u | Holds(threads - {t}, u) ensures threads[u].Auth() in granted && threads[u].Auth() !in acted + [threads[t].Auth()] {
      assert Holds(threads, u) && u != t;
    }
    assert forall u :: Holds(threads - {t}, u) ==> Holds(threads, u);
  }

  lemma NextKeeps(cfg: Config, local: set<string>, server: Server, step: Step)
    requires Inv(server)
    ensures Inv(Next(cfg, local, server, step))
  {
    hide Inv, Arrived, DirectoryLoaded, DirectoryChosen, Recorded, Performed, Without;
    match step
    case Arrive(t, call) => ArriveKeeps(cfg, server, t, call);
    case Load(t) => LoadKeeps(server, t);
    case Choose(t) => LoadKeeps(server, t);
    case Grant(t) => GrantKeeps(cfg, local, server, t);
    case Act(t) => ActKeeps(cfg, server, t);
    case Drop(t) => LoadKeeps(server, t);
    case Meanwhile(op) => MeanwhileKeeps(cfg, server, op);
  }

  lemma MeanwhileKeeps(cfg: Config, server: Server, op: Op)
    requires Inv(server)
    ensures Inv(server.(world := server.world.(db := BrokerRuns.Step(cfg, server.world.db, op))))
  {
    hide BrokerRuns.Step, GrantsBurned, HoldersOk, Distinct;
    StaysBurned(cfg, server.world.db, op, server.granted);
  }

  lemma {:induction false} RunKeeps(cfg: Config, local: set<string>, server: Server, steps: seq<Step>)
    requires Idle(server)
    ensures Inv(Run(cfg, local, server, steps))
  {
    if steps != [] {
      hide Inv, Next, Idle;
      RunKeeps(cfg, local, server, steps[..|steps| - 1]);
      NextKeeps(cfg, local, Run(cfg, local, server, steps[..|steps| - 1]), steps[|steps| - 1]);
    }
  }

  // ---- results ----

  /** However the steps of any number of requests interleave, with each other and with anything else done to the broker,
      no signed request is acted upon twice, and only recorded requests are acted upon. */
  lemma ActedOnce(cfg: Config, local: set<string>, server: Server, steps: seq<Step>, i: nat, j: nat)
    requires Idle(server) && i < j < |Run(cfg, local, server, steps).acted|
    ensures var after := Run(cfg, local, server, steps);
      after.acted[i] != after.acted[j] && after.acted[i] in after.granted
  {
    hide Run, GrantsBurned, HoldersOk;
    RunKeeps(cfg, local, server, steps);
  }

  /** A request whose steps are not interrupted does to broker and directory state what one call of post does. */
  lemma UninterruptedIsPost(cfg: Config, local: set<string>, server: Server, t: nat, call: Call)
    requires t !in server.threads
    ensures var after := Run(cfg, local, server, [Arrive(t, call), Load(t), Choose(t), Grant(t), Act(t)]);
      && after.world == WorldAfter(cfg, local, server.world, call)
      && after.acted == server.acted + (if TakesEffect(local, server.world, call) then [call.wrapper.auth.body] else [])
      && (TimeOk(server.world, call) ==> after.threads == server.threads)
  {
    hide BrokerRuns.Step, RouteError, RequestError, KeyTable, DirectoryStore.LoadOutcome, EffectOf, Next, OpsOf, Requests.Records, Observe;
    var s1, s2 := Arrived(server, t, call), DirectoryLoaded(Arrived(server, t, call), t);
    var s3 := DirectoryChosen(s2, t);
    var s4 := Recorded(cfg, local, s3, t);
    FiveSteps(cfg, local, server, t, call);
    OpsShape(local, server.world, call);
    ObserveStep(cfg, server.world.db, call.clock);
    OneOp(cfg, server.world.db, ObserveOp(call.clock));
    if TimeOk(server.world, call) && DirectoryOk(server.world, call) {
      var timed := Observe(server.world.db, call.clock).value;
      RecordStep(cfg, timed, RecordOf(call));
      TwoOps(cfg, server.world.db, ObserveOp(call.clock), RecordOf(call));
      if TakesEffect(local, server.world, call) {
        RoutedHasEffect(local, call.file, call.path, call.wrapper, call.clock);
        ThreeOps(cfg, server.world.db, ObserveOp(call.clock), RecordOf(call), EffectOf(call.file, call.wrapper, call.clock, call.leases));
      }
    }
  }

  lemma FiveSteps(cfg: Config, local: set<string>, server: Server, t: nat, call: Call)
    ensures Run(cfg, local, server, [Arrive(t, call), Load(t), Choose(t), Grant(t), Act(t)])
      == Performed(cfg, Recorded(cfg, local, DirectoryChosen(DirectoryLoaded(Arrived(server, t, call), t), t), t), t)
  {
    hide Arrived, DirectoryLoaded, DirectoryChosen, Recorded, Performed;
    var steps := [Arrive(t, call), Load(t), Choose(t), Grant(t), Act(t)];
    assert steps[..5] == steps && steps[..5][..4] == steps[..4] && steps[..4][..3] == steps[..3];
    assert steps[..3][..2] == steps[..2] && steps[..2][..1] == steps[..1] && steps[..1][..0] == [];
    assert Run(cfg, local, server, steps[..1]) == Arrived(server, t, call);
    assert Run(cfg, local, server, steps[..2]) == DirectoryLoaded(Arrived(server, t, call), t);
    assert Run(cfg, local, server, steps[..3]) == DirectoryChosen(DirectoryLoaded(Arrived(server, t, call), t), t);
    assert Run(cfg, local, server, steps[..4]) == Recorded(cfg, local, DirectoryChosen(DirectoryLoaded(Arrived(server, t, call), t), t), t);
  }
}
