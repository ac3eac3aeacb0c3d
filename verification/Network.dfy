/**
 * One sender's outbox, any number of brokers and one receiver's inbox, joined by a network that may lose, delay and
 * repeat everything: requests, responses and acknowledgements, all of which stay available for ever once produced.
 */
module Network {
  import opened Wrappers
  import opened Directory
  import opened Protocol
  import opened Broker
  import opened BrokerRuns
  import opened OutboxMeasure
  import opened Inbox
  import opened Sorting

  /** A worker that was told to run the effect of this claim and has not finished. */
  datatype Worker = Worker(claim: Claim)

  datatype World = World(
    brokers: map<nat, Db>,
    outbox: Db,
    rows: Rows,
    workers: map<nat, Worker>,
    owners: map<MessageKey, nat>,
    claims: set<Claim>,
    made: set<AckBody>,
    answers: set<(nat, Envelope, Receipt)>,
    yielded: seq<MessageKey>)

  datatype Event =
    | AtBroker(broker: nat, op: Op)
    | AtOutbox(op: Op)
    | BeginClaim(worker: nat, claim: Claim, receiver: Receiver, now: int)
    | FinishClaim(worker: nat, receiver: Receiver, stored: bool, now: int)
    | FinishAndDie(worker: nat, receiver: Receiver, stored: bool, signed: bool, now: int)
    | CrashWorker(worker: nat)

  /** The claims a broker hands to the receiver in one transaction. */
  function ClaimsFor(cfg: Config, me: string, db: Db, op: Op): set<Claim> {
    if ClaimAccepted(cfg, db, op) && op.recipient == me then
      var claims := ClaimDeliveries(cfg, db, op.recipient, op.limit, op.leaseMs, op.now, op.leases).value.1;
      set c | c in claims
    else {}
  }

  function AnswersOf(b: nat, db: Db, op: Op): set<(nat, Envelope, Receipt)> {
    if op.EnqueueOp? && Enqueue(db, op.envelope, op.context, op.now).Ok?
    then {(b, op.envelope, Enqueue(db, op.envelope, op.context, op.now).value.1)} else {}
  }

  function BeginResult(world: World, claim: Claim, now: int): Result<(Rows, Prior), InboxFailure> {
    BeginRow(world.rows, claim.key, Sha256(claim.envelope), now)
  }

  function AfterBegin(world: World, w: nat, claim: Claim, r: Receiver, now: int): World {
    var begun := BeginResult(world, claim, now);
    if begun.Err? then world
    else
      var next := world.(rows := begun.value.0);
      match begun.value.1
      case New => next.(workers := world.workers[w := Worker(claim)], owners := world.owners[claim.key := w])
      case WasProcessing => next
      case WasDone => next.(made := world.made + {AckFor(r, claim, Processed, now)})
      case WasFailed => next.(made := world.made + {AckFor(r, claim, TerminalFailed, now)})
  }

  /** What a finishing worker has opened and stored. */
  function Opened(world: World, w: nat, r: Receiver, stored: bool, now: int): Option<Bytes>
    requires w in world.workers
  {
    if stored then Decrypt(r, world.workers[w].claim.envelope, now) else None
  }

  function AfterFinish(world: World, w: nat, r: Receiver, stored: bool, now: int): World
    requires w in world.workers
  {
    var claim := world.workers[w].claim;
    var payload := Opened(world, w, r, stored, now);
    var finished := FinishRow(world.rows, claim.key, payload, now);
    if finished.Err? then world.(workers := world.workers - {w})
    else
      world.(
        rows := finished.value,
        workers := world.workers - {w},
        made := world.made + {AckFor(r, claim, if payload.Some? then Processed else TerminalFailed, now)},
        yielded := if payload.Some? then world.yielded + [claim.key] else world.yielded)
  }

  /** The worker's process ends after the commit of its finish: its payload is lost, its acknowledgement perhaps unsigned. */
  function AfterDeath(world: World, w: nat, r: Receiver, stored: bool, signed: bool, now: int): World
    requires w in world.workers
  {
    var finished := AfterFinish(world, w, r, stored, now);
    finished.(made := if signed then finished.made else world.made, yielded := world.yielded)
  }

  function Next(cfg: Config, me: string, world: World, event: Event): World {
    match event
    case AtBroker(b, op) =>
      if b !in world.brokers then world
      else
        var db := world.brokers[b];
        world.(
          brokers := world.brokers[b := Step(cfg, db, op)],
          claims := world.claims + ClaimsFor(cfg, me, db, op),
          answers := world.answers + AnswersOf(b, db, op))
    case AtOutbox(op) => world.(outbox := Step(cfg, world.outbox, op))
    case BeginClaim(w, claim, r, now) => AfterBegin(world, w, claim, r, now)
    case FinishClaim(w, r, stored, now) => if w in world.workers then AfterFinish(world, w, r, stored, now) else world
    case FinishAndDie(w, r, stored, signed, now) => if w in world.workers then AfterDeath(world, w, r, stored, signed, now) else world
    case CrashWorker(w) => world.(workers := world.workers - {w})
  }

  // ---- what the network and the keys guarantee ----

  /** Nobody else holds the receiver's signing keys: an acknowledgement that verifies for it was made by it. */
  predicate Unforged(me: string, world: World, op: Op) {
    op.AckOp? && AckError(op.ack, op.keys, op.now).None? && op.ack.body.receiver == me ==> op.ack.body in world.made
  }

  /** A receipt completes an outbox row only if some broker answered the row's own envelope with it. */
  ghost predicate Answered(world: World, op: Op) {
    op.CompleteOp? && op.receipt.Some? && op.row < |world.outbox.outbox| ==>
      exists b :: (b, world.outbox.outbox[op.row].envelope, op.receipt.value) in world.answers
  }

  /** The check finishing omits: the row the worker is about to overwrite is not processed yet. */
  predicate Guarded(world: World, w: nat) {
    && w in world.workers
    && world.workers[w].claim.key in world.rows
    && !world.rows[world.workers[w].claim.key].state.Done?
  }

  /** No other worker has been granted this worker's effect since. */
  predicate Timely(world: World, w: nat) {
    w in world.workers && world.workers[w].claim.key in world.owners && world.owners[world.workers[w].claim.key] == w
  }

  /** How finishing treats rows that are already processed: as the source does, opening them again, or not touching them. */
  datatype Discipline = AnyFinish | Reopening | Sparing

  predicate FinishOk(d: Discipline, world: World, w: nat, r: Receiver, stored: bool, now: int) {
    && w in world.workers
    && match d
       case AnyFinish => true
       case Reopening => !Guarded(world, w) ==> Opened(world, w, r, stored, now).Some?
       case Sparing => Guarded(world, w)
  }

  ghost predicate Enabled(me: string, d: Discipline, world: World, event: Event) {
    match event
    case AtBroker(b, op) => Unforged(me, world, op)
    case AtOutbox(op) => Answered(world, op)
    case BeginClaim(w, claim, r, now) => claim in world.claims && w !in world.workers && r.agent == me
    case FinishClaim(w, r, stored, now) => FinishOk(d, world, w, r, stored, now) && r.agent == me
    case FinishAndDie(w, r, stored, signed, now) => FinishOk(d, world, w, r, stored, now) && r.agent == me
    case CrashWorker(w) => true
  }

  ghost predicate Start(world: World) {
    && (forall b :: b in world.brokers ==> world.brokers[b] == EMPTY)
    && world == World(world.brokers, EMPTY, map[], map[], map[], {}, {}, {}, [])
  }

  ghost function Run(cfg: Config, me: string, world: World, events: seq<Event>): World {
    if events == [] then world
    else Next(cfg, me, Run(cfg, me, world, events[..|events| - 1]), events[|events| - 1])
  }

  ghost predicate Runs(cfg: Config, me: string, d: Discipline, world: World, events: seq<Event>) {
    events == [] ||
    (Runs(cfg, me, d, world, events[..|events| - 1])
     && Enabled(me, d, Run(cfg, me, world, events[..|events| - 1]), events[|events| - 1]))
  }

  /** A stricter discipline allows fewer runs. */
  lemma {:induction false} SparingReopens(cfg: Config, me: string, world: World, events: seq<Event>)
    ensures Runs(cfg, me, Sparing, world, events) ==> Runs(cfg, me, Reopening, world, events)
    ensures Runs(cfg, me, Reopening, world, events) ==> Runs(cfg, me, AnyFinish, world, events)
  {
    if events != [] {
      hide Run, Unforged, Answered, Guarded, Opened;
      SparingReopens(cfg, me, world, events[..|events| - 1]);
    }
  }

  // ---- the invariant ----

  predicate DoneWith(rows: Rows, key: MessageKey, digest: Digest<Envelope>) {
    key in rows && rows[key].state.Done? && rows[key].envelope == digest
  }

  ghost predicate BrokersGood(cfg: Config, brokers: map<nat, Db>) {
    forall b :: b in brokers ==> Good(cfg, brokers[b])
  }

  predicate ClaimsHonest(claims: set<Claim>) {
    forall c :: c in claims ==> KeyOf(c.envelope) == c.key
  }

  /** Every acknowledgement of success the receiver ever signed is backed by a processed row for the same envelope. */
  predicate MadeBacked(rows: Rows, made: set<AckBody>) {
    forall a :: a in made && a.outcome.Processed? ==> a.envelope.Sha256? && DoneWith(rows, KeyOf(a.envelope.of), a.envelope)
  }

  predicate DeliveredTo(me: string, db: Db, s: nat) {
    s in db.deliveries && db.deliveries[s].recipient == me && db.deliveries[s].state.Acknowledged?
  }

  /** Every acknowledged delivery of this broker is backed by a processed inbox row for the same envelope. */
  ghost predicate DeliveredBacked(me: string, db: Db, rows: Rows) {
    forall s :: DeliveredTo(me, db, s) ==>
      && db.deliveries[s].message in db.messages
      && DoneWith(rows, db.deliveries[s].message, Sha256(db.messages[db.deliveries[s].message].envelope))
  }

  ghost predicate AllDelivered(me: string, brokers: map<nat, Db>, rows: Rows) {
    forall b :: b in brokers ==> DeliveredBacked(me, brokers[b], rows)
  }

  /** A pending worker's row is there, for its own envelope. */
  predicate WorkerOk(rows: Rows, claim: Claim) {
    KeyOf(claim.envelope) == claim.key && claim.key in rows && rows[claim.key].envelope == Sha256(claim.envelope)
  }

  predicate WorkersOk(rows: Rows, workers: map<nat, Worker>) {
    forall w :: w in workers ==> WorkerOk(rows, workers[w].claim)
  }

  /** Every yielded message has a processed row, and no message is yielded twice. */
  predicate YieldsOk(rows: Rows, yielded: seq<MessageKey>) {
    && (forall i :: 0 <= i < |yielded| ==> yielded[i] in rows && rows[yielded[i]].state.Done?)
    && Distinct(yielded)
  }

  ghost predicate SentAnswered(outbox: seq<OutRow>, answers: set<(nat, Envelope, Receipt)>) {
    forall i :: 0 <= i < |outbox| && outbox[i].state.Sent? ==>
      outbox[i].receipt.Some? && HasAnswer(answers, outbox[i].envelope, outbox[i].receipt.value)
  }

  ghost predicate HasAnswer(answers: set<(nat, Envelope, Receipt)>, e: Envelope, r: Receipt) {
    exists b :: (b, e, r) in answers
  }

  /** What every run keeps. */
  ghost predicate Sound(cfg: Config, world: World) {
    && BrokersGood(cfg, world.brokers)
    && ClaimsHonest(world.claims)
    && WorkersOk(world.rows, world.workers)
    && OutboxOk(cfg, world.outbox)
    && SentAnswered(world.outbox.outbox, world.answers)
  }

  /** Successes, signed or accepted, are backed by processed rows. */
  ghost predicate Backed(me: string, world: World) {
    MadeBacked(world.rows, world.made) && AllDelivered(me, world.brokers, world.rows)
  }

  ghost predicate Inv(cfg: Config, me: string, d: Discipline, world: World) {
    && Sound(cfg, world)
    && (!d.AnyFinish? ==> Backed(me, world))
    && (d.Sparing? ==> YieldsOk(world.rows, world.yielded))
  }

  // ---- a broker's step ----

  /** A delivery becomes acknowledged only through a genuine acknowledgement of success for its own envelope. */
  lemma AcknowledgedBy(cfg: Config, db: Db, op: Op, s: nat)
    requires Good(cfg, db) && s in db.deliveries && RowAfter(cfg, db, op, s).state.Acknowledged?
    ensures db.deliveries[s].state.Acknowledged? || (
      && Settles(db, op, s)
      && op.ack.body.outcome.Processed?
      && op.ack.body.receiver == db.deliveries[s].recipient
      && op.ack.body.envelope == Sha256(db.messages[db.deliveries[s].message].envelope))
    ensures RowAfter(cfg, db, op, s).recipient == db.deliveries[s].recipient
    ensures RowAfter(cfg, db, op, s).message == db.deliveries[s].message
  {
    hide AckError, ClaimDeliveries, RetryDelay, Selected, Good, FindLeased, LeaseGiven;
    if Settles(db, op, s) {
      hide ExpireRow, ClaimRow;
    } else {
      hide SettleRow, Settles;
    }
  }

  lemma DeliveredStep(cfg: Config, me: string, world: World, b: nat, op: Op, s: nat)
    requires cfg.maxAttempts >= 1 && b in world.brokers && BrokersGood(cfg, world.brokers) && Backed(me, world) && Unforged(me, world, op)
    requires DeliveredTo(me, Step(cfg, world.brokers[b], op), s)
    ensures var after := Step(cfg, world.brokers[b], op);
      && after.deliveries[s].message in after.messages
      && DoneWith(world.rows, after.deliveries[s].message, Sha256(after.messages[after.deliveries[s].message].envelope))
  {
    hide Step, RowAfter, HasDelivery, AckError, DoneWith, FindLeased;
    var db := world.brokers[b];
    var after := Step(cfg, db, op);
    if s in db.deliveries {
      RowOf(cfg, db, op, s);
      AcknowledgedBy(cfg, db, op, s);
      var key := db.deliveries[s].message;
      RowKeepsMessage(cfg, db, op, s);
      MessageOf(cfg, db, op, key);
      if !db.deliveries[s].state.Acknowledged? {
        assert op.ack.body in world.made;
        assert KeyOf(db.messages[key].envelope) == key;
      } else {
        assert DeliveredTo(me, db, s);
      }
    } else {
      NewRow(cfg, db, op, s);
    }
  }

  lemma ClaimsStayHonest(cfg: Config, me: string, db: Db, op: Op)
    requires Good(cfg, db)
    ensures ClaimsHonest(ClaimsFor(cfg, me, db, op))
  {
    hide ClaimRows, HasDelivery, Selected, ReadyBelow;
    if ClaimAccepted(cfg, db, op) && op.recipient == me {
      var expired := Expire(cfg, db, op.now);
      var rows := Selected(cfg, db, op.recipient, op.limit, op.now);
      assert forall i :: 0 <= i < |rows| ==> Ready(expired, rows[i], op.recipient, op.now);
      ExpiredMessages(cfg, db, op.now);
    }
  }

  lemma ExpiredMessages(cfg: Config, db: Db, now: int)
    ensures Expire(cfg, db, now).messages == db.messages
    ensures forall s :: s in db.deliveries ==> Expire(cfg, db, now).deliveries[s].message == db.deliveries[s].message
  {
  }

  lemma BrokerKeeps(cfg: Config, me: string, d: Discipline, world: World, b: nat, op: Op)
    requires cfg.maxAttempts >= 1 && b in world.brokers && Inv(cfg, me, d, world) && Unforged(me, world, op)
    ensures Inv(cfg, me, d, Next(cfg, me, world, AtBroker(b, op)))
  {
    var db, after := world.brokers[b], Step(cfg, world.brokers[b], op);
    StepKeepsGood(cfg, db, op);
    ClaimsStayHonest(cfg, me, db, op);
    BrokerSound(cfg, me, world, b, op);
    if !d.AnyFinish? {
      forall s | DeliveredTo(me, after, s)
        ensures after.deliveries[s].message in after.messages
          && DoneWith(world.rows, after.deliveries[s].message, Sha256(after.messages[after.deliveries[s].message].envelope))
      {
        DeliveredStep(cfg, me, world, b, op, s);
      }
      hide Step, DoneWith, DeliveredTo, Sound, YieldsOk, MadeBacked;
      assert DeliveredBacked(me, after, world.rows);
    }
  }

  lemma BrokerSound(cfg: Config, me: string, world: World, b: nat, op: Op)
    requires b in world.brokers && Sound(cfg, world)
    requires Good(cfg, Step(cfg, world.brokers[b], op)) && ClaimsHonest(ClaimsFor(cfg, me, world.brokers[b], op))
    ensures Sound(cfg, Next(cfg, me, world, AtBroker(b, op)))
  {
    hide Step, Good, ClaimsFor, AnswersOf, OutRowOk;
    var next := Next(cfg, me, world, AtBroker(b, op));
    forall e, r | HasAnswer(world.answers, e, r) ensures HasAnswer(next.answers, e, r) {
      var b' :| (b', e, r) in world.answers;
      assert (b', e, r) in next.answers;
    }
  }

  // ---- the outbox's step ----

  lemma OutboxKeeps(cfg: Config, me: string, d: Discipline, world: World, op: Op)
    requires cfg.maxAttempts >= 1 && Inv(cfg, me, d, world) && Answered(world, op)
    ensures Inv(cfg, me, d, Next(cfg, me, world, AtOutbox(op)))
  {
    var next := Next(cfg, me, world, AtOutbox(op));
    hide Step, BrokersGood, MadeBacked, AllDelivered, HasAnswer, OutAfter;
    forall i | 0 <= i < |next.outbox.outbox|
      ensures OutRowOk(cfg, next.outbox.outbox[i])
      ensures next.outbox.outbox[i].state.Sent? ==> next.outbox.outbox[i].receipt.Some?
      ensures next.outbox.outbox[i].state.Sent? ==>
        HasAnswer(world.answers, next.outbox.outbox[i].envelope, next.outbox.outbox[i].receipt.value)
    {
      OutStepWeight(cfg, world.outbox, op, i);
      if i < |world.outbox.outbox| {
        SentStep(cfg, world, op, i);
      } else {
        NewOutRow(cfg, world.outbox, op, i);
      }
    }
  }

  lemma SentStep(cfg: Config, world: World, op: Op, i: nat)
    requires i < |world.outbox.outbox| && SentAnswered(world.outbox.outbox, world.answers) && Answered(world, op)
    requires i < |Step(cfg, world.outbox, op).outbox|
    ensures var row := Step(cfg, world.outbox, op).outbox[i];
      row.state.Sent? ==> row.receipt.Some? && HasAnswer(world.answers, row.envelope, row.receipt.value)
  {
    hide Step, ClaimOutbox, RetryDelay, OutLeaseGiven;
    OutRowOf(cfg, world.outbox, op, i);
  }

  // ---- the receiver's steps ----

  /** What beginning does to the rows: at most one row changes, and only into or within processing. */
  lemma BegunRows(rows: Rows, key: MessageKey, digest: Digest<Envelope>, now: int)
    requires BeginRow(rows, key, digest, now).Ok?
    ensures var (after, prior) := BeginRow(rows, key, digest, now).value;
      && (forall k :: k in rows ==> k in after && after[k].envelope == rows[k].envelope && after[k].state == rows[k].state)
      && (forall k :: k in after && k != key ==> k in rows)
      && (key !in rows ==> after[key].state.Processing?)
      && key in after && after[key].envelope == digest
      && (prior.New? ==> after[key].state.Processing?)
      && (prior.WasDone? ==> after[key].state.Done?)
  {
    hide ClaimFieldsOk;
  }

  /** What beginning does apart from the workers; a success is signed again only over a processed row. */
  lemma BegunWorld(world: World, w: nat, claim: Claim, r: Receiver, now: int)
    requires BeginResult(world, claim, now).Ok?
    ensures var next := AfterBegin(world, w, claim, r, now);
      && next.rows == BeginResult(world, claim, now).value.0
      && next.yielded == world.yielded && next.brokers == world.brokers
      && (next.made == world.made || next.made == world.made + {AckFor(r, claim, TerminalFailed, now)}
          || (next.made == world.made + {AckFor(r, claim, Processed, now)} && DoneWith(next.rows, claim.key, Sha256(claim.envelope))))
    ensures forall k, digest :: DoneWith(world.rows, k, digest) <==> DoneWith(AfterBegin(world, w, claim, r, now).rows, k, digest)
  {
    hide BeginRow, AckFor;
    BegunRows(world.rows, claim.key, Sha256(claim.envelope), now);
  }

  lemma BeginKeeps(cfg: Config, me: string, d: Discipline, world: World, w: nat, claim: Claim, r: Receiver, now: int)
    requires Inv(cfg, me, d, world) && claim in world.claims && w !in world.workers
    ensures Inv(cfg, me, d, Next(cfg, me, world, BeginClaim(w, claim, r, now)))
  {
    BeginIsNext(cfg, me, world, w, claim, r, now);
    BeginSound(cfg, world, w, claim, r, now);
    hide Next, AfterBegin, BeginResult, Backed, Sound, YieldsOk;
    if BeginResult(world, claim, now).Err? {
      NotBegun(world, w, claim, r, now);
    } else {
      if !d.AnyFinish? {
        BeginBacked(me, world, w, claim, r, now);
      }
      if d.Sparing? {
        BeginYields(world, w, claim, r, now);
      }
    }
  }

  lemma NotBegun(world: World, w: nat, claim: Claim, r: Receiver, now: int)
    requires BeginResult(world, claim, now).Err?
    ensures AfterBegin(world, w, claim, r, now) == world
  {
  }

  lemma BeginBacked(me: string, world: World, w: nat, claim: Claim, r: Receiver, now: int)
    requires BeginResult(world, claim, now).Ok? && Backed(me, world) && KeyOf(claim.envelope) == claim.key
    ensures Backed(me, AfterBegin(world, w, claim, r, now))
  {
    BegunWorld(world, w, claim, r, now);
    hide AfterBegin, BeginResult, AllDelivered, MadeBacked, DoneWith;
    var next := AfterBegin(world, w, claim, r, now);
    BackedStays(me, world, next.rows);
    MadeGrows(next.rows, world.made, next.made, AckFor(r, claim, Processed, now), AckFor(r, claim, TerminalFailed, now));
  }

  lemma BeginYields(world: World, w: nat, claim: Claim, r: Receiver, now: int)
    requires BeginResult(world, claim, now).Ok? && YieldsOk(world.rows, world.yielded)
    ensures var next := AfterBegin(world, w, claim, r, now); YieldsOk(next.rows, next.yielded)
  {
    BegunWorld(world, w, claim, r, now);
    hide AfterBegin, BeginResult, Distinct;
    forall i | 0 <= i < |world.yielded|
      ensures DoneWith(AfterBegin(world, w, claim, r, now).rows, world.yielded[i], world.rows[world.yielded[i]].envelope)
    {
      assert DoneWith(world.rows, world.yielded[i], world.rows[world.yielded[i]].envelope);
    }
  }

  lemma BeginSound(cfg: Config, world: World, w: nat, claim: Claim, r: Receiver, now: int)
    requires Sound(cfg, world) && claim in world.claims && w !in world.workers
    ensures Sound(cfg, AfterBegin(world, w, claim, r, now))
    ensures KeyOf(claim.envelope) == claim.key
  {
    hide BrokersGood, OutboxOk, SentAnswered, WorkersOk, BeginRow;
    BeginKeepsWorkers(world, w, claim, r, now);
  }

  lemma MadeGrows(rows: Rows, made: set<AckBody>, grown: set<AckBody>, success: AckBody, failure: AckBody)
    requires MadeBacked(rows, made) && success.envelope.Sha256? && !failure.outcome.Processed?
    requires grown == made || grown == made + {failure}
      || (grown == made + {success} && DoneWith(rows, KeyOf(success.envelope.of), success.envelope))
    ensures MadeBacked(rows, grown)
  {
    hide DoneWith;
  }

  lemma BeginKeepsWorkers(world: World, w: nat, claim: Claim, r: Receiver, now: int)
    requires WorkersOk(world.rows, world.workers) && KeyOf(claim.envelope) == claim.key && w !in world.workers
    ensures var next := AfterBegin(world, w, claim, r, now); WorkersOk(next.rows, next.workers)
  {
    hide BeginRow, WorkerOk;
    var next := AfterBegin(world, w, claim, r, now);
    if BeginResult(world, claim, now).Ok? {
      BegunRows(world.rows, claim.key, Sha256(claim.envelope), now);
      forall v | v in next.workers ensures WorkerOk(next.rows, next.workers[v].claim) {
        var c := next.workers[v].claim;
        if v in world.workers {
          WorkerStays(world.rows, next.rows, c);
        } else {
          NewWorkerOk(next.rows, c);
        }
      }
    }
  }

  lemma NewWorkerOk(rows: Rows, claim: Claim)
    requires KeyOf(claim.envelope) == claim.key && claim.key in rows && rows[claim.key].envelope == Sha256(claim.envelope)
    ensures WorkerOk(rows, claim)
  {
  }

  lemma WorkerStays(rows: Rows, after: Rows, claim: Claim)
    requires WorkerOk(rows, claim) && forall k :: k in rows ==> k in after && after[k].envelope == rows[k].envelope
    ensures WorkerOk(after, claim)
  {
  }

  lemma BackedStays(me: string, world: World, rows: Rows)
    requires AllDelivered(me, world.brokers, world.rows) && MadeBacked(world.rows, world.made)
    requires forall key, digest :: DoneWith(world.rows, key, digest) ==> DoneWith(rows, key, digest)
    ensures AllDelivered(me, world.brokers, rows) && MadeBacked(rows, world.made)
  {
    hide DoneWith;
  }

  /** What a finish, followed by a crash or not, does to everything but the reports. */
  lemma FinishedRows(world: World, w: nat, r: Receiver, stored: bool, signed: bool, now: int)
    requires WorkersOk(world.rows, world.workers) && w in world.workers
    ensures var claim, payload := world.workers[w].claim, Opened(world, w, r, stored, now);
      var finish, death := AfterFinish(world, w, r, stored, now), AfterDeath(world, w, r, stored, signed, now);
      && WorkerOk(world.rows, claim)
      && finish.rows == death.rows
           == world.rows[claim.key := world.rows[claim.key].(state := if payload.Some? then Done else Failed, payload := payload, updatedAt := now)]
      && finish.workers == death.workers == world.workers - {w}
      && finish.made == world.made + {AckFor(r, claim, if payload.Some? then Processed else TerminalFailed, now)}
      && death.made == (if signed then finish.made else world.made)
      && finish.yielded == (if payload.Some? then world.yielded + [claim.key] else world.yielded)
      && death.yielded == world.yielded
      && finish.(rows := world.rows, workers := world.workers, made := world.made, yielded := world.yielded) == world
      && death.(rows := world.rows, workers := world.workers, made := world.made, yielded := world.yielded) == world
      && (Guarded(world, w) <==> !world.rows[claim.key].state.Done?)
  {
    hide Decrypt, AckFor;
    WorkerRow(world, w);
  }

  lemma FinishKeeps(cfg: Config, me: string, d: Discipline, world: World, w: nat, r: Receiver, stored: bool, signed: bool, now: int)
    requires Inv(cfg, me, d, world) && FinishOk(d, world, w, r, stored, now)
    ensures Inv(cfg, me, d, AfterFinish(world, w, r, stored, now))
    ensures Inv(cfg, me, d, AfterDeath(world, w, r, stored, signed, now))
  {
    hide BrokersGood, OutboxOk, SentAnswered, Opened, AllDelivered, WorkersOk, YieldsOk, MadeBacked, AfterFinish, AfterDeath, Guarded;
    var claim := world.workers[w].claim;
    var finish, death := AfterFinish(world, w, r, stored, now), AfterDeath(world, w, r, stored, signed, now);
    FinishedRows(world, w, r, stored, signed, now);
    WorkersRemain(world.rows, finish.rows, world.workers, w);
    if !d.AnyFinish? {
      forall key, digest | DoneWith(world.rows, key, digest) ensures DoneWith(finish.rows, key, digest) {}
      BackedStays(me, world, finish.rows);
      MadeGrows(finish.rows, world.made, finish.made, AckFor(r, claim, Processed, now), AckFor(r, claim, TerminalFailed, now));
    }
    if d.Sparing? {
      YieldsAdvance(world.rows, claim.key, finish.rows[claim.key], world.yielded);
    }
  }

  lemma WorkerRow(world: World, w: nat)
    requires WorkersOk(world.rows, world.workers) && w in world.workers
    ensures WorkerOk(world.rows, world.workers[w].claim)
  {
  }

  lemma YieldsAdvance(rows: Rows, key: MessageKey, row: Row, yielded: seq<MessageKey>)
    requires YieldsOk(rows, yielded) && key in rows && !rows[key].state.Done?
    ensures YieldsOk(rows[key := row], yielded) && YieldsOk(rows[key := row], if row.state.Done? then yielded + [key] else yielded)
  {
    hide Distinct;
    DistinctExtend(yielded, key);
  }

  lemma WorkersRemain(rows: Rows, after: Rows, workers: map<nat, Worker>, w: nat)
    requires WorkersOk(rows, workers) && forall k :: k in rows ==> k in after && after[k].envelope == rows[k].envelope
    ensures WorkersOk(after, workers - {w})
  {
    hide WorkerOk;
    forall v | v in workers && v != w ensures WorkerOk(after, workers[v].claim) {
      WorkerStays(rows, after, workers[v].claim);
    }
  }

  lemma CrashKeeps(cfg: Config, me: string, d: Discipline, world: World, w: nat)
    requires Inv(cfg, me, d, world)
    ensures Inv(cfg, me, d, Next(cfg, me, world, CrashWorker(w)))
  {
    hide BrokersGood, OutboxOk, SentAnswered, MadeBacked, AllDelivered, YieldsOk;
  }

  lemma NextKeeps(cfg: Config, me: string, d: Discipline, world: World, event: Event)
    requires cfg.maxAttempts >= 1 && Inv(cfg, me, d, world) && Enabled(me, d, world, event)
    ensures Inv(cfg, me, d, Next(cfg, me, world, event))
  {
    hide Inv, Unforged, Answered, AfterFinish, AfterDeath, AfterBegin, Step, ClaimsFor, AnswersOf;
    match event
    case AtBroker(b, op) =>
      if b in world.brokers {
        BrokerKeeps(cfg, me, d, world, b, op);
      }
    case AtOutbox(op) => OutboxKeeps(cfg, me, d, world, op);
    case BeginClaim(w, claim, r, now) => BeginKeeps(cfg, me, d, world, w, claim, r, now);
    case FinishClaim(w, r, stored, now) => FinishKeeps(cfg, me, d, world, w, r, stored, false, now);
    case FinishAndDie(w, r, stored, signed, now) => FinishKeeps(cfg, me, d, world, w, r, stored, signed, now);
    case CrashWorker(w) => CrashKeeps(cfg, me, d, world, w);
  }

  // ---- the processing loop is these steps ----

  /** Handling one claim in the receiver's loop is beginning it and, when it is new, finishing it. */
  lemma HandleIsSteps(cfg: Config, me: string, world: World, w: nat, claim: Claim, r: Receiver, now: int)
    requires w !in world.workers && Handle(r, world.rows, claim, now).Ok?
    ensures var handled := Handle(r, world.rows, claim, now).value;
      var begun := Next(cfg, me, world, BeginClaim(w, claim, r, now));
      var done := if w in begun.workers then Next(cfg, me, begun, FinishClaim(w, r, true, now)) else begun;
      && done.rows == handled.rows
      && done.workers == world.workers
      && done.yielded == world.yielded + (if handled.yielded == [] then [] else [claim.key])
      && done.made == world.made + (if handled.outcome.Some? then {AckFor(r, claim, handled.outcome.value, now)} else {})
      && (w in begun.workers ==> Timely(begun, w))
  {
    hide Decrypt, BeginRow, AckFor, FinishRow, BeginResult, AfterBegin, AfterFinish, Next, Handle;
    BeginIsNext(cfg, me, world, w, claim, r, now);
    BeginsAs(world, claim, now);
    Handles(r, world.rows, claim, now);
    if BeginRow(world.rows, claim.key, Sha256(claim.envelope), now).value.1.New? {
      BeginsGranted(world, w, claim, r, now);
      var begun := AfterBegin(world, w, claim, r, now);
      FinishIsNext(cfg, me, begun, w, r, now);
      FinishesAs(begun, w, r, now);
      assert begun.workers - {w} == world.workers;
    } else {
      BeginsRefused(world, w, claim, r, now);
    }
  }

  /** The loop's handling of one claim, in terms of begin and finish. */
  lemma Handles(r: Receiver, rows: Rows, claim: Claim, now: int)
    requires Handle(r, rows, claim, now).Ok?
    ensures BeginRow(rows, claim.key, Sha256(claim.envelope), now).Ok?
    ensures var (begun, prior) := BeginRow(rows, claim.key, Sha256(claim.envelope), now).value;
      var handled, payload := Handle(r, rows, claim, now).value, Decrypt(r, claim.envelope, now);
      if prior.New? then
        && claim.key in begun
        && handled.rows == FinishRow(begun, claim.key, payload, now).value
        && (handled.yielded == [] <==> payload.None?)
        && handled.outcome == Some(if payload.Some? then Processed else TerminalFailed)
      else
        && handled.rows == begun && handled.yielded == []
        && handled.outcome == (if prior.WasProcessing? then None else Some(if prior.WasDone? then Processed else TerminalFailed))
  {
    hide Decrypt, BeginRow;
    BegunRows(rows, claim.key, Sha256(claim.envelope), now);
  }

  lemma BeginsGranted(world: World, w: nat, claim: Claim, r: Receiver, now: int)
    requires BeginResult(world, claim, now).Ok? && BeginResult(world, claim, now).value.1.New?
    ensures var begun := AfterBegin(world, w, claim, r, now);
      && begun == world.(rows := BeginResult(world, claim, now).value.0, workers := world.workers[w := Worker(claim)],
                         owners := world.owners[claim.key := w])
      && Timely(begun, w)
  {
    hide BeginResult;
  }

  lemma BeginsRefused(world: World, w: nat, claim: Claim, r: Receiver, now: int)
    requires BeginResult(world, claim, now).Ok? && !BeginResult(world, claim, now).value.1.New?
    ensures var prior := BeginResult(world, claim, now).value.1;
      AfterBegin(world, w, claim, r, now) == world.(rows := BeginResult(world, claim, now).value.0, made := world.made +
        (if prior.WasProcessing? then {} else {AckFor(r, claim, if prior.WasDone? then Processed else TerminalFailed, now)}))
  {
    hide BeginResult, AckFor;
    assert world.made + {} == world.made;
  }

  lemma BeginIsNext(cfg: Config, me: string, world: World, w: nat, claim: Claim, r: Receiver, now: int)
    ensures Next(cfg, me, world, BeginClaim(w, claim, r, now)) == AfterBegin(world, w, claim, r, now)
  {
  }

  lemma FinishIsNext(cfg: Config, me: string, world: World, w: nat, r: Receiver, now: int)
    requires w in world.workers
    ensures Next(cfg, me, world, FinishClaim(w, r, true, now)) == AfterFinish(world, w, r, true, now)
  {
  }

  lemma BeginsAs(world: World, claim: Claim, now: int)
    ensures BeginResult(world, claim, now) == BeginRow(world.rows, claim.key, Sha256(claim.envelope), now)
  {
  }

  lemma FinishesAs(world: World, w: nat, r: Receiver, now: int)
    requires w in world.workers && world.workers[w].claim.key in world.rows
    ensures var claim := world.workers[w].claim;
      var payload := Decrypt(r, claim.envelope, now);
      && FinishRow(world.rows, claim.key, payload, now).Ok?
      && AfterFinish(world, w, r, true, now) == world.(
           rows := FinishRow(world.rows, claim.key, payload, now).value,
           workers := world.workers - {w},
           made := world.made + {AckFor(r, claim, if payload.Some? then Processed else TerminalFailed, now)},
           yielded := if payload.Some? then world.yielded + [claim.key] else world.yielded)
  {
    hide Decrypt, AckFor;
  }

  /** A granted claim makes its worker the owner of a processing row. */
  lemma BeginsNew(cfg: Config, me: string, world: World, w: nat, claim: Claim, r: Receiver, now: int)
    requires ClaimFieldsOk(claim.key, Sha256(claim.envelope))
    requires claim.key in world.rows ==>
      && world.rows[claim.key].envelope == Sha256(claim.envelope) && world.rows[claim.key].state.Processing?
      && PROCESSING_TIMEOUT_MS <= now - world.rows[claim.key].updatedAt
    ensures Next(cfg, me, world, BeginClaim(w, claim, r, now)) == world.(
      rows := world.rows[claim.key :=
        Row(Sha256(claim.envelope), Processing, if claim.key in world.rows then world.rows[claim.key].payload else None, now)],
      workers := world.workers[w := Worker(claim)],
      owners := world.owners[claim.key := w])
  {
    hide ClaimFieldsOk, BeginRow, AckFor;
    GrantedExactly(world.rows, claim.key, Sha256(claim.envelope), now);
    BeginsAs(world, claim, now);
  }

  /** A worker whose payload opens makes its row processed and yields. */
  lemma FinishesWell(cfg: Config, me: string, world: World, w: nat, r: Receiver, now: int)
    requires w in world.workers && world.workers[w].claim.key in world.rows
    requires Decrypt(r, world.workers[w].claim.envelope, now).Some?
    ensures var claim := world.workers[w].claim;
      Next(cfg, me, world, FinishClaim(w, r, true, now)) == world.(
        rows := world.rows[claim.key := world.rows[claim.key].(
          state := Done, payload := Decrypt(r, claim.envelope, now), updatedAt := now)],
        workers := world.workers - {w},
        made := world.made + {AckFor(r, claim, Processed, now)},
        yielded := world.yielded + [claim.key])
  {
    hide Decrypt, AckFor, AfterFinish;
    FinishesAs(world, w, r, now);
  }
}
