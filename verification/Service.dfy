/** The HTTP service: trusted time, directory, authentication, route rules, replay record, effect, in that order. */
module Service {
  import opened Wrappers
  import opened Directory
  import opened Protocol
  import opened Broker
  import opened BrokerRuns
  import opened BrokerStore
  import opened DirectoryContext
  import opened Transport
  import Requests
  import DirectoryStore

  const LOCALHOST_SUFFIX := "@localhost"

  datatype ServiceFailure =
    | BrokerFailed(failure: Broker.Failure)
    | DirectoryFailed(cause: DirectoryStore.Failure)
    | RequestFailed(code: RequestCode)
    | EnvelopeFailed(reason: Code)
    | AckFailed(complaint: AckCode)
    | MalformedBody
    | NotTheSender
    | NotTheReceiver
    | LocalityViolated
    | UnknownEndpoint

  datatype Reply =
    | Enqueued(receipt: Receipt)
    | ClaimedBatch(claims: seq<Claim>)
    | Settled(reply: AckReply)

  // ---- route rules ----

  predicate IsLocalhost(id: string) {
    |id| >= |LOCALHOST_SUFFIX| && id[|id| - |LOCALHOST_SUFFIX|..] == LOCALHOST_SUFFIX
  }

  /** A localhost principal addresses only principals of this machine. */
  predicate LocalityOk(sender: string, recipients: seq<Recipient>, local: set<string>) {
    IsLocalhost(sender) ==> sender in local && recipients != [] && RecipientIds(recipients) <= local
  }

  function RouteError(local: set<string>, s: Snapshot, path: string, w: Wrapper, now: int): (r: Option<ServiceFailure>)
    ensures r.None? ==> !w.body.OtherBody?
  {
    var agent := w.auth.body.agent;
    if path == "/v1/messages" then
      if !w.body.EnvelopeBody? then Some(MalformedBody)
      else if w.body.envelope.body.senderId != agent then Some(NotTheSender)
      else
        var code := BrokerError(w.body.envelope, ContextOf(s, Some(agent), None, now, {}));
        if code.Some? then Some(EnvelopeFailed(code.value))
        else if !LocalityOk(agent, w.body.envelope.body.recipients, local) then Some(LocalityViolated)
        else None
    else if path == "/v1/claims" then
      if !w.body.ClaimBody? then Some(MalformedBody)
      else if w.body.recipient != agent then Some(NotTheReceiver)
      else if !(1 <= w.body.limit <= 3) || !(1_000 <= w.body.leaseMs <= 15 * 60 * 1000) then Some(MalformedBody)
      else None
    else if path == "/v1/acks" then
      if !w.body.AckRequest? then Some(MalformedBody)
      else
        var code := AckError(w.body.ack, KeyTable(s.agents, Signing), now);
        if code.Some? then Some(AckFailed(code.value))
        else if w.body.ack.body.receiver != agent then Some(NotTheReceiver)
        else None
    else Some(UnknownEndpoint)
  }

  /** The broker transaction a routed request asks for. */
  function EffectOf(s: Snapshot, w: Wrapper, now: int, leases: seq<Uuid>): (op: Op)
    requires !w.body.OtherBody?
    ensures op.EnqueueOp? || op.ClaimOp? || op.AckOp?
  {
    var agent := w.auth.body.agent;
    match w.body
    case EnvelopeBody(e) => EnqueueOp(e, ContextOf(s, Some(agent), None, now, {}), now)
    case ClaimBody(recipient, limit, leaseMs) => ClaimOp(recipient, limit, leaseMs, leases, now)
    case AckRequest(ack) => AckOp(ack, KeyTable(s.agents, Signing), now)
  }

  /** A routed request acts for its caller only: it sends as, claims for and acknowledges as the authenticated agent. */
  lemma EffectIsOwn(local: set<string>, s: Snapshot, path: string, w: Wrapper, now: int, leases: seq<Uuid>)
    requires RouteError(local, s, path, w, now).None?
    ensures var op, agent := EffectOf(s, w, now, leases), w.auth.body.agent;
      && op.now == now
      && (op.EnqueueOp? ==> path == "/v1/messages" && op.envelope.body.senderId == agent && Admits(op.envelope, op.context))
      && (op.EnqueueOp? ==> LocalityOk(agent, op.envelope.body.recipients, local))
      && (op.ClaimOp? ==> path == "/v1/claims" && op.recipient == agent && 1 <= op.limit <= 3)
      && (op.AckOp? ==> path == "/v1/acks" && op.ack.body.receiver == agent && AckError(op.ack, op.keys, now).None?)
  {
    hide BrokerError, AckError, ContextOf, KeyTable;
  }

  function Answer<T>(before: Db, r: Result<(Db, T), Broker.Failure>, wrap: T -> Reply): Result<(Db, Reply), Broker.Failure> {
    if r.Ok? then Ok((r.value.0, wrap(r.value.1))) else Err(r.error)
  }

  function Effect(cfg: Config, db: Db, op: Op): Result<(Db, Reply), Broker.Failure>
    requires op.EnqueueOp? || op.ClaimOp? || op.AckOp?
  {
    match op
    case EnqueueOp(e, c, now) => Answer(db, Enqueue(db, e, c, now), x => Enqueued(x))
    case ClaimOp(recipient, limit, leaseMs, leases, now) =>
      Answer(db, ClaimDeliveries(cfg, db, recipient, limit, leaseMs, now, leases), x => ClaimedBatch(x))
    case AckOp(ack, keys, now) => Answer(db, Acknowledge(cfg, db, ack, keys, now), x => Settled(x))
  }

  // ---- one request ----

  /** What arrives with a request from outside: the clock, the files on disk, the request and fresh lease IDs. */
  datatype Call = Call(clock: int, file: Snapshot, roots: Roots, path: string, wrapper: Wrapper, leases: seq<Uuid>)

  /** The durable state behind the service. */
  datatype World = World(db: Db, state: Option<DirectoryStore.StateFile>)

  ghost predicate TimeOk(world: World, call: Call) {
    Observe(world.db, call.clock).Ok?
  }

  ghost predicate DirectoryOk(world: World, call: Call) {
    DirectoryStore.LoadOutcome(world.state, call.file, call.roots, call.clock).Ok?
  }

  ghost predicate RequestOk(local: set<string>, call: Call) {
    && RequestError(call.wrapper, KeyTable(call.file.agents, Signing), "POST", call.path, call.clock).None?
    && RouteError(local, call.file, call.path, call.wrapper, call.clock).None?
  }

  ghost function RecordOf(call: Call): Op {
    var a := call.wrapper.auth.body;
    RecordOp(a.agent, a.request, a.expires, call.clock)
  }

  /** The broker transactions a request runs, in order; a refusal on the way cuts the list short. */
  ghost function OpsOf(local: set<string>, world: World, call: Call): seq<Op> {
    var time := [ObserveOp(call.clock)];
    if !TimeOk(world, call) || !DirectoryOk(world, call) || !RequestOk(local, call) then time
    else if !Requests.Records(Observe(world.db, call.clock).value, RecordOf(call)) then time + [RecordOf(call)]
    else time + [RecordOf(call), EffectOf(call.file, call.wrapper, call.clock, call.leases)]
  }

  /** The request reached its effect. */
  ghost predicate TakesEffect(local: set<string>, world: World, call: Call) {
    && TimeOk(world, call) && DirectoryOk(world, call) && RequestOk(local, call)
    && Requests.Records(Observe(world.db, call.clock).value, RecordOf(call))
  }

  lemma OpsShape(local: set<string>, world: World, call: Call)
    ensures !TimeOk(world, call) || !DirectoryOk(world, call) || !RequestOk(local, call) ==>
      OpsOf(local, world, call) == [ObserveOp(call.clock)]
    ensures TimeOk(world, call) && DirectoryOk(world, call) && RequestOk(local, call) && !TakesEffect(local, world, call) ==>
      OpsOf(local, world, call) == [ObserveOp(call.clock), RecordOf(call)]
    ensures TakesEffect(local, world, call) ==> !call.wrapper.body.OtherBody?
    ensures TakesEffect(local, world, call) ==>
      OpsOf(local, world, call) == [ObserveOp(call.clock), RecordOf(call), EffectOf(call.file, call.wrapper, call.clock, call.leases)]
  {
    hide RequestError, BrokerError, KeyTable, DirectoryStore.LoadOutcome, EffectOf, Requests.Records, Observe;
  }

  function RunFrom(cfg: Config, db: Db, ops: seq<Op>): Db {
    if ops == [] then db else Step(cfg, RunFrom(cfg, db, ops[..|ops| - 1]), ops[|ops| - 1])
  }

  ghost function WorldAfter(cfg: Config, local: set<string>, world: World, call: Call): World {
    World(
      RunFrom(cfg, world.db, OpsOf(local, world, call)),
      if TimeOk(world, call) && DirectoryOk(world, call)
      then Some(DirectoryStore.LoadOutcome(world.state, call.file, call.roots, call.clock).value)
      else world.state)
  }

  ghost function ReplyTo(cfg: Config, local: set<string>, world: World, call: Call): Result<Reply, ServiceFailure> {
    if !TimeOk(world, call) then Err(BrokerFailed(Observe(world.db, call.clock).error))
    else if !DirectoryOk(world, call) then
      Err(DirectoryFailed(DirectoryStore.LoadOutcome(world.state, call.file, call.roots, call.clock).error))
    else
      var code := RequestError(call.wrapper, KeyTable(call.file.agents, Signing), "POST", call.path, call.clock);
      var route := RouteError(local, call.file, call.path, call.wrapper, call.clock);
      if code.Some? then Err(RequestFailed(code.value))
      else if route.Some? then Err(route.value)
      else if !TakesEffect(local, world, call) then Err(BrokerFailed(RequestReplay))
      else
        var recorded := RunFrom(cfg, world.db, [ObserveOp(call.clock), RecordOf(call)]);
        var r := Effect(cfg, recorded, EffectOf(call.file, call.wrapper, call.clock, call.leases));
        if r.Ok? then Ok(r.value.1) else Err(BrokerFailed(r.error))
  }

  class TribeV1Service {
    const broker: SQLiteBroker
    const store: DirectoryStore.Store
    const local: set<string>
    var directory: Snapshot

    constructor (broker: SQLiteBroker, store: DirectoryStore.Store, directory: Snapshot, local: set<string>)
      ensures this.broker == broker && this.store == store && this.directory == directory && this.local == local
    {
      this.broker := broker;
      this.store := store;
      this.directory := directory;
      this.local := local;
    }

    function Durable(): World
      reads broker, store
    {
      World(broker.State(), store.state)
    }

    method CheckRoute(path: string, w: Wrapper, now: int) returns (r: Option<ServiceFailure>)
      requires UniqueAudiences(directory.audiences)
      ensures r == RouteError(local, directory, path, w, now)
    {
      hide BrokerError, AckError, ContextOf;
      var agent := w.auth.body.agent;
      if path == "/v1/messages" {
        if !w.body.EnvelopeBody? {
          return Some(MalformedBody);
        }
        if w.body.envelope.body.senderId != agent {
          return Some(NotTheSender);
        }
        var c := BuildContext(directory, Some(agent), None, now, {});
        var code := BrokerError(w.body.envelope, c);
        if code.Some? {
          return Some(EnvelopeFailed(code.value));
        }
        if !LocalityOk(agent, w.body.envelope.body.recipients, local) {
          return Some(LocalityViolated);
        }
        return None;
      }
      if path == "/v1/claims" {
        if !w.body.ClaimBody? {
          return Some(MalformedBody);
        }
        if w.body.recipient != agent {
          return Some(NotTheReceiver);
        }
        if !(1 <= w.body.limit <= 3) || !(1_000 <= w.body.leaseMs <= 15 * 60 * 1000) {
          return Some(MalformedBody);
        }
        return None;
      }
      if path == "/v1/acks" {
        if !w.body.AckRequest? {
          return Some(MalformedBody);
        }
        var code := AckError(w.body.ack, KeyTable(directory.agents, Signing), now);
        if code.Some? {
          return Some(AckFailed(code.value));
        }
        if w.body.ack.body.receiver != agent {
          return Some(NotTheReceiver);
        }
        return None;
      }
      r := Some(UnknownEndpoint);
    }

    /** The effect of a routed request on the broker. */
    method Dispatch(w: Wrapper, now: int, leases: seq<Uuid>) returns (r: Result<Reply, Broker.Failure>)
      requires !w.body.OtherBody? && UniqueAudiences(directory.audiences)
      modifies broker
      ensures broker.Did(old(broker.State()), Effect(broker.cfg, old(broker.State()), EffectOf(directory, w, now, leases)), r)
    {
      hide Enqueue, ClaimDeliveries, Acknowledge, ContextOf, KeyTable;
      match w.body
      case EnvelopeBody(e) =>
        var c := BuildContext(directory, Some(w.auth.body.agent), None, now, {});
        var x := broker.EnqueueEnvelope(e, c, now);
        r := if x.Ok? then Ok(Enqueued(x.value)) else Err(x.error);
      case ClaimBody(recipient, limit, leaseMs) =>
        var x := broker.ClaimBatch(recipient, limit, leaseMs, now, leases);
        r := if x.Ok? then Ok(ClaimedBatch(x.value)) else Err(x.error);
      case AckRequest(ack) =>
        var x := broker.AcknowledgeDelivery(ack, KeyTable(directory.agents, Signing), now);
        r := if x.Ok? then Ok(Settled(x.value)) else Err(x.error);
    }

    method Post(call: Call) returns (r: Result<Reply, ServiceFailure>)
      modifies this, broker, store
      ensures Durable() == WorldAfter(broker.cfg, local, old(Durable()), call)
      ensures r == ReplyTo(broker.cfg, local, old(Durable()), call)
    {
      hide Step, RouteError, RequestError, KeyTable, DirectoryStore.LoadOutcome, EffectOf, Effect;
      hide OpsOf;
      ghost var before := Durable();
      OpsShape(local, before, call);
      var now := call.clock;
      var late := broker.ObserveTrustedTime(now);
      OneOp(broker.cfg, before.db, ObserveOp(now));
      ObserveStep(broker.cfg, before.db, now);
      if late.Some? {
        return Err(BrokerFailed(late.value));
      }
      var loaded := store.Load(call.file, call.roots, now);
      if loaded.Err? {
        return Err(DirectoryFailed(loaded.error));
      }
      directory := loaded.value;
      LoadedIsUnique(before.state, call.file, call.roots, now);
      var code := RequestError(call.wrapper, KeyTable(directory.agents, Signing), "POST", call.path, now);
      if code.Some? {
        return Err(RequestFailed(code.value));
      }
      var route := CheckRoute(call.path, call.wrapper, now);
      if route.Some? {
        return Err(route.value);
      }
      var a := call.wrapper.auth.body;
      ghost var timed := broker.State();
      var replay := broker.RecordAuthenticatedRequest(a.agent, a.request, now, a.expires);
      TwoOps(broker.cfg, before.db, ObserveOp(now), RecordOf(call));
      RecordStep(broker.cfg, timed, RecordOf(call));
      if replay.Some? {
        RefusedIsReplay(before.db, local, call);
        return Err(BrokerFailed(replay.value));
      }
      RoutedHasEffect(local, call.file, call.path, call.wrapper, now);
      ghost var recorded := broker.State();
      var done := Dispatch(call.wrapper, now, call.leases);
      EffectIsStep(broker.cfg, recorded, EffectOf(call.file, call.wrapper, now, call.leases));
      ThreeOps(broker.cfg, before.db, ObserveOp(now), RecordOf(call), EffectOf(call.file, call.wrapper, now, call.leases));
      r := if done.Ok? then Ok(done.value) else Err(BrokerFailed(done.error));
    }
  }

  lemma OneOp(cfg: Config, db: Db, a: Op)
    ensures RunFrom(cfg, db, [a]) == Step(cfg, db, a)
  {
    hide Step;
    assert [a][..0] == [];
  }

  lemma TwoOps(cfg: Config, db: Db, a: Op, b: Op)
    ensures RunFrom(cfg, db, [a, b]) == Step(cfg, Step(cfg, db, a), b)
  {
    hide Step;
    OneOp(cfg, db, a);
    assert [a, b][..1] == [a];
  }

  lemma ThreeOps(cfg: Config, db: Db, a: Op, b: Op, c: Op)
    ensures RunFrom(cfg, db, [a, b, c]) == Step(cfg, Step(cfg, Step(cfg, db, a), b), c)
  {
    hide Step;
    TwoOps(cfg, db, a, b);
    assert [a, b, c][..2] == [a, b];
  }

  lemma ObserveStep(cfg: Config, db: Db, now: int)
    ensures Observe(db, now).Ok? ==> Step(cfg, db, ObserveOp(now)) == Observe(db, now).value
    ensures Observe(db, now).Err? ==> Step(cfg, db, ObserveOp(now)) == db
  {}

  lemma RecordStep(cfg: Config, db: Db, op: Op)
    requires op.RecordOp?
    ensures Requests.Records(db, op) ==> Step(cfg, db, op) == Record(db, op.agent, op.request, op.now, op.expires).value
    ensures !Requests.Records(db, op) ==> Step(cfg, db, op) == db
  {}

  lemma RefusedIsReplay(db: Db, local: set<string>, call: Call)
    requires Observe(db, call.clock).Ok? && RequestOk(local, call)
    ensures var a := call.wrapper.auth.body; var r := Record(Observe(db, call.clock).value, a.agent, a.request, call.clock, a.expires);
      r.Err? ==> r.error == RequestReplay
  {
    hide RouteError, KeyTable, Prune;
  }

  lemma LoadedIsUnique(state: Option<DirectoryStore.StateFile>, file: Snapshot, roots: Roots, now: int)
    requires DirectoryStore.LoadOutcome(state, file, roots, now).Ok?
    ensures UniqueAudiences(file.audiences)
  {}

  lemma RoutedHasEffect(local: set<string>, s: Snapshot, path: string, w: Wrapper, now: int)
    requires RouteError(local, s, path, w, now).None?
    ensures !w.body.OtherBody?
  {}

  lemma EffectIsStep(cfg: Config, db: Db, op: Op)
    requires op.EnqueueOp? || op.ClaimOp? || op.AckOp?
    ensures Effect(cfg, db, op).Ok? ==> Step(cfg, db, op) == Effect(cfg, db, op).value.0
    ensures Effect(cfg, db, op).Err? ==> Step(cfg, db, op) == db
  {
    hide Enqueue, ClaimDeliveries, Acknowledge;
  }

  // ---- what a caller may conclude from the reply ----

  /** A request that does not reach its effect leaves every table alone but the trusted time and the replay records. */
  lemma RefusedLeavesTables(cfg: Config, local: set<string>, world: World, call: Call)
    requires !TakesEffect(local, world, call)
    ensures var after := WorldAfter(cfg, local, world, call).db;
      after == world.db.(highWater := after.highWater, replays := after.replays)
  {
    hide Step, TakesEffect, OpsOf, RunFrom;
    OpsShape(local, world, call);
    OneOp(cfg, world.db, ObserveOp(call.clock));
    TwoOps(cfg, world.db, ObserveOp(call.clock), RecordOf(call));
    TimeOnly(cfg, world.db, ObserveOp(call.clock));
    TimeOnly(cfg, Step(cfg, world.db, ObserveOp(call.clock)), RecordOf(call));
  }

  /** An unexpired record of this very request stands. */
  ghost predicate SeenBefore(db: Db, call: Call) {
    var a := call.wrapper.auth.body;
    (a.agent, a.request) in db.replays && call.clock < db.replays[(a.agent, a.request)]
  }

  /** The effect is reached exactly by timely, authentic, routed requests under a directory that loads, not seen before. */
  lemma TakesEffectExactly(local: set<string>, world: World, call: Call)
    ensures TakesEffect(local, world, call) <==>
      && 0 <= call.clock <= MAX_INTEGER && (world.db.highWater.Some? ==> world.db.highWater.value <= call.clock)
      && DirectoryStore.LoadOutcome(world.state, call.file, call.roots, call.clock).Ok?
      && RequestError(call.wrapper, KeyTable(call.file.agents, Signing), "POST", call.path, call.clock).None?
      && RouteError(local, call.file, call.path, call.wrapper, call.clock).None?
      && !SeenBefore(world.db, call)
  {
    hide RouteError, KeyTable, DirectoryStore.LoadOutcome, RequestError;
    RequestIsFormed(call);
  }

  lemma RequestIsFormed(call: Call)
    ensures RequestError(call.wrapper, KeyTable(call.file.agents, Signing), "POST", call.path, call.clock).None? ==>
      Text.IsIdentifier(call.wrapper.auth.body.agent) && call.wrapper.auth.body.request.HasVersion(7)
  {
    hide KeyTable;
  }

  /**
   * The reply: the broker's answer where the effect is reached and commits, else what stopped it; a rollback of the clock
   * and a replay are reported as such, and the directory state moves exactly when time and directory pass.
   */
  lemma PostAnswers(cfg: Config, local: set<string>, world: World, call: Call)
    ensures var r, after := ReplyTo(cfg, local, world, call), WorldAfter(cfg, local, world, call);
      && (r.Ok? ==> TakesEffect(local, world, call))
      && (0 <= call.clock <= MAX_INTEGER && world.db.highWater.Some? && call.clock < world.db.highWater.value ==>
            r == Err(BrokerFailed(ClockRollback)) && after.db == world.db)
      && (TimeOk(world, call) && DirectoryOk(world, call) && RequestOk(local, call) && SeenBefore(world.db, call) ==>
            r == Err(BrokerFailed(RequestReplay)))
      && (TimeOk(world, call) && DirectoryOk(world, call) ==> after.state == Some(DirectoryStore.StateOf(call.file, call.roots)))
      && (!TimeOk(world, call) || !DirectoryOk(world, call) ==> after.state == world.state)
  {
    hide RouteError, RequestError, KeyTable, EffectOf, Effect, TakesEffect, RunFrom, RequestOk;
    TakesEffectExactly(local, world, call);
    StateOfLoaded(world.state, call);
    OneOp(cfg, world.db, ObserveOp(call.clock));
    ObserveStep(cfg, world.db, call.clock);
    OpsShape(local, world, call);
    RequestOkMeans(local, call);
    hide DirectoryStore.LoadOutcome;
  }

  /** Each check is answered as itself, the earlier one first: time, directory, authentication, route. */
  lemma RefusalsInOrder(cfg: Config, local: set<string>, world: World, call: Call)
    ensures var r := ReplyTo(cfg, local, world, call);
      var loaded := DirectoryStore.LoadOutcome(world.state, call.file, call.roots, call.clock);
      var code := RequestError(call.wrapper, KeyTable(call.file.agents, Signing), "POST", call.path, call.clock);
      var route := RouteError(local, call.file, call.path, call.wrapper, call.clock);
      && (TimeOk(world, call) && loaded.Err? ==> r == Err(DirectoryFailed(loaded.error)))
      && (TimeOk(world, call) && loaded.Ok? && code.Some? ==> r == Err(RequestFailed(code.value)))
      && (TimeOk(world, call) && loaded.Ok? && code.None? && route.Some? ==> r == Err(route.value))
  {
    hide RouteError, RequestError, KeyTable, EffectOf, Effect, TakesEffect, RunFrom, DirectoryStore.LoadOutcome;
  }

  /** Where the effect is reached, the request is recorded at its clock, and the effect's own answer and tables are the outcome. */
  lemma EffectAnswers(cfg: Config, local: set<string>, world: World, call: Call)
    requires TakesEffect(local, world, call)
    ensures Record(world.db, call.wrapper.auth.body.agent, call.wrapper.auth.body.request, call.clock, call.wrapper.auth.body.expires).Ok?
    ensures !call.wrapper.body.OtherBody?
    ensures var a := call.wrapper.auth.body;
      var recorded := Record(world.db, a.agent, a.request, call.clock, a.expires).value;
      var done := Effect(cfg, recorded, EffectOf(call.file, call.wrapper, call.clock, call.leases));
      && ReplyTo(cfg, local, world, call) == (if done.Ok? then Ok(done.value.1) else Err(BrokerFailed(done.error)))
      && WorldAfter(cfg, local, world, call).db == (if done.Ok? then done.value.0 else recorded)
  {
    hide RouteError, RequestError, KeyTable, EffectOf, Effect, OpsOf, RunFrom, Step, DirectoryStore.LoadOutcome;
    OpsShape(local, world, call);
    var effect := EffectOf(call.file, call.wrapper, call.clock, call.leases);
    TwoOps(cfg, world.db, ObserveOp(call.clock), RecordOf(call));
    ThreeOps(cfg, world.db, ObserveOp(call.clock), RecordOf(call), effect);
    ObserveStep(cfg, world.db, call.clock);
    RecordStep(cfg, Observe(world.db, call.clock).value, RecordOf(call));
    EffectIsStep(cfg, Record(world.db, call.wrapper.auth.body.agent, call.wrapper.auth.body.request, call.clock, call.wrapper.auth.body.expires).value, effect);
    RequestOkMeans(local, call);
  }

  lemma RequestOkMeans(local: set<string>, call: Call)
    ensures RequestOk(local, call) ==>
      && RequestError(call.wrapper, KeyTable(call.file.agents, Signing), "POST", call.path, call.clock).None?
      && RouteError(local, call.file, call.path, call.wrapper, call.clock).None?
  {
    hide RequestError, RouteError, KeyTable;
  }

  lemma StateOfLoaded(state: Option<DirectoryStore.StateFile>, call: Call)
    ensures var r := DirectoryStore.LoadOutcome(state, call.file, call.roots, call.clock);
      r.Ok? ==> r.value == DirectoryStore.StateOf(call.file, call.roots)
  {
    hide RootsOk, ValidDirectory;
  }

  // ---- runs of the service ----

  /** Between requests anything else may happen to the broker, at any clock: maintenance, outbox work, other processes. */
  datatype Event = Request(call: Call) | Elsewhere(op: Op)

  ghost function Next(cfg: Config, local: set<string>, world: World, event: Event): World {
    match event
    case Request(call) => WorldAfter(cfg, local, world, call)
    case Elsewhere(op) => world.(db := Step(cfg, world.db, op))
  }

  ghost function History(cfg: Config, local: set<string>, world: World, events: seq<Event>): World {
    if events == [] then world
    else Next(cfg, local, History(cfg, local, world, events[..|events| - 1]), events[|events| - 1])
  }

  ghost predicate Effective(cfg: Config, local: set<string>, world: World, events: seq<Event>, i: nat) {
    i < |events| && events[i].Request? && TakesEffect(local, History(cfg, local, world, events[..i]), events[i].call)
  }

  lemma {:induction false} BurnedFrom(cfg: Config, db: Db, ops: seq<Op>, agent: string, request: Uuid, expires: int)
    requires Requests.Burned(db, agent, request, expires)
    ensures Requests.Burned(RunFrom(cfg, db, ops), agent, request, expires)
  {
    if ops != [] {
      hide Step, Requests.Burned;
      BurnedFrom(cfg, db, ops[..|ops| - 1], agent, request, expires);
      Requests.BurnedStep(cfg, RunFrom(cfg, db, ops[..|ops| - 1]), ops[|ops| - 1], agent, request, expires);
    }
  }

  lemma BurnedNext(cfg: Config, local: set<string>, world: World, event: Event, agent: string, request: Uuid, expires: int)
    requires Requests.Burned(world.db, agent, request, expires)
    ensures Requests.Burned(Next(cfg, local, world, event).db, agent, request, expires)
  {
    hide Step, Requests.Burned, OpsOf;
    match event
    case Request(call) => BurnedFrom(cfg, world.db, OpsOf(local, world, call), agent, request, expires);
    case Elsewhere(op) => Requests.BurnedStep(cfg, world.db, op, agent, request, expires);
  }

  lemma EffectBurns(cfg: Config, local: set<string>, world: World, call: Call)
    requires TakesEffect(local, world, call)
    ensures var a := call.wrapper.auth.body; Requests.Burned(WorldAfter(cfg, local, world, call).db, a.agent, a.request, a.expires)
  {
    hide Step, RouteError, RequestError, KeyTable, DirectoryStore.LoadOutcome, EffectOf, Requests.Burned, OpsOf;
    OpsShape(local, world, call);
    var a := call.wrapper.auth.body;
    RoutedHasEffect(local, call.file, call.path, call.wrapper, call.clock);
    var effect := EffectOf(call.file, call.wrapper, call.clock, call.leases);
    ThreeOps(cfg, world.db, ObserveOp(call.clock), RecordOf(call), effect);
    ObserveStep(cfg, world.db, call.clock);
    var timed := Observe(world.db, call.clock).value;
    RecordBurns(cfg, timed, RecordOf(call));
    Requests.BurnedStep(cfg, Step(cfg, timed, RecordOf(call)), effect, a.agent, a.request, a.expires);
  }

  lemma RecordBurns(cfg: Config, db: Db, op: Op)
    requires op.RecordOp? && Requests.Records(db, op)
    ensures Requests.Burned(Step(cfg, db, op), op.agent, op.request, op.expires)
  {}

  lemma {:induction false} BurnedAfter(cfg: Config, local: set<string>, world: World, events: seq<Event>, i: nat, n: nat)
    requires i < n <= |events| && Effective(cfg, local, world, events, i)
    ensures var a := events[i].call.wrapper.auth.body;
      Requests.Burned(History(cfg, local, world, events[..n]).db, a.agent, a.request, a.expires)
    decreases n
  {
    hide Requests.Burned, TakesEffect, WorldAfter;
    assert events[..n][..n - 1] == events[..n - 1];
    if n == i + 1 {
      EffectBurns(cfg, local, History(cfg, local, world, events[..i]), events[i].call);
    } else {
      BurnedAfter(cfg, local, world, events, i, n - 1);
      var a := events[i].call.wrapper.auth.body;
      BurnedNext(cfg, local, History(cfg, local, world, events[..n - 1]), events[n - 1], a.agent, a.request, a.expires);
    }
  }

  /**
   * A signed request takes effect at most once: sent again with the same authentication, at any clock,
   * after any directory changes, prunings and other transactions, it is refused before it reaches the broker's queues.
   */
  lemma TakesEffectOnce(cfg: Config, local: set<string>, world: World, events: seq<Event>, i: nat, j: nat)
    requires i < j && Effective(cfg, local, world, events, i)
    requires j < |events| && events[j].Request? && events[j].call.wrapper.auth.body == events[i].call.wrapper.auth.body
    ensures !Effective(cfg, local, world, events, j)
  {
    hide History, RouteError, KeyTable, DirectoryStore.LoadOutcome;
    BurnedAfter(cfg, local, world, events, i, j);
    BurnedIsRefused(local, History(cfg, local, world, events[..j]), events[j].call);
  }

  lemma BurnedIsRefused(local: set<string>, world: World, call: Call)
    requires var a := call.wrapper.auth.body; Requests.Burned(world.db, a.agent, a.request, a.expires)
    ensures !TakesEffect(local, world, call)
  {
    hide RouteError, KeyTable, DirectoryStore.LoadOutcome;
  }

  /**
   * A request signed with a key whose window ended at or before a trusted time already observed never takes effect,
   * whatever the wall clock shows.
   */
  lemma CutKeyNeverReturns(local: set<string>, world: World, call: Call)
    requires world.db.highWater.Some?
    requires var table := KeyTable(call.file.agents, Signing); var kid := call.wrapper.auth.body.signingKid;
      kid in table && table[kid].key.notAfter.Some? && table[kid].key.notAfter.value <= world.db.highWater.value
    ensures !TakesEffect(local, world, call)
  {
    hide RouteError, KeyTable, DirectoryStore.LoadOutcome;
  }
}
