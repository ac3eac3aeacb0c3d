/** Runs of the broker: any sequence of transactions, accepted or refused, and what one of them does to one row. */
module BrokerRuns {
  import opened Wrappers
  import opened Text
  import opened Directory
  import opened Protocol
  import opened Broker

  datatype Op =
    | ObserveOp(now: int)
    | RecordOp(agent: string, request: Uuid, expires: int, now: int)
    | EnqueueOp(envelope: Envelope, context: Context, now: int)
    | ClaimOp(recipient: string, limit: int, leaseMs: int, leases: seq<Uuid>, now: int)
    | AckOp(ack: Ack, keys: map<string, OwnedKey>, now: int)
    | CursorOp(recipient: string, consumer: string, cursor: int, now: int)
    | MaintainOp(before: Option<int>, now: int)
    | StageOp(envelope: Envelope, now: int)
    | ClaimOutOp(limit: int, leaseMs: int, only: Option<nat>, leases: seq<Uuid>, now: int)
    | CompleteOp(row: nat, lease: Uuid, receipt: Option<Receipt>, terminal: bool, now: int)

  function Committed<T>(before: Db, r: Result<(Db, T), Failure>): Db {
    if r.Ok? then r.value.0 else before
  }

  /** One transaction: what it commits, or the tables as they were when it is refused. */
  function Step(cfg: Config, db: Db, op: Op): Db {
    match op
    case ObserveOp(now) => if Observe(db, now).Ok? then Observe(db, now).value else db
    case RecordOp(agent, request, expires, now) =>
      if Record(db, agent, request, now, expires).Ok? then Record(db, agent, request, now, expires).value else db
    case EnqueueOp(e, c, now) => Committed(db, Enqueue(db, e, c, now))
    case ClaimOp(recipient, limit, leaseMs, leases, now) =>
      Committed(db, ClaimDeliveries(cfg, db, recipient, limit, leaseMs, now, leases))
    case AckOp(ack, keys, now) => Committed(db, Acknowledge(cfg, db, ack, keys, now))
    case CursorOp(recipient, consumer, cursor, now) =>
      if AdvanceCursor(db, recipient, consumer, cursor).Ok? then AdvanceCursor(db, recipient, consumer, cursor).value else db
    case MaintainOp(before, now) => Maintain(cfg, db, before, now)
    case StageOp(e, now) => Committed(db, Stage(db, e, now))
    case ClaimOutOp(limit, leaseMs, only, leases, now) => Committed(db, ClaimOutbox(cfg, db, limit, leaseMs, only, now, leases))
    case CompleteOp(row, lease, receipt, terminal, now) => Committed(db, CompleteOutbox(cfg, db, row, lease, receipt, terminal, now))
  }

  function Run(cfg: Config, ops: seq<Op>): Db {
    if ops == [] then EMPTY else Step(cfg, Run(cfg, ops[..|ops| - 1]), ops[|ops| - 1])
  }

  lemma RunNext(cfg: Config, ops: seq<Op>, n: nat)
    requires n < |ops|
    ensures Run(cfg, ops[..n + 1]) == Step(cfg, Run(cfg, ops[..n]), ops[n])
  {
    assert ops[..n + 1][..n] == ops[..n];
  }

  // ---- one transaction seen from one delivery ----

  predicate ClaimAccepted(cfg: Config, db: Db, op: Op) {
    op.ClaimOp? && ClaimDeliveries(cfg, db, op.recipient, op.limit, op.leaseMs, op.now, op.leases).Ok?
  }

  predicate Claims(cfg: Config, db: Db, op: Op, s: nat) {
    ClaimAccepted(cfg, db, op) && s in Selected(cfg, db, op.recipient, op.limit, op.now)
  }

  function IndexOf(rows: seq<nat>, s: nat): (i: nat)
    requires s in rows
    ensures i < |rows| && rows[i] == s
  {
    if rows[0] == s then 0 else 1 + IndexOf(rows[1..], s)
  }

  function LeaseGiven(cfg: Config, db: Db, op: Op, s: nat): Lease
    requires Claims(cfg, db, op, s)
  {
    Lease(op.leases[IndexOf(Selected(cfg, db, op.recipient, op.limit, op.now), s)], op.now + op.leaseMs)
  }

  /** The acknowledgement settles this row: it is genuine, new, and names the row's live lease. */
  predicate Settles(db: Db, op: Op, s: nat) {
    && op.AckOp?
    && AckError(op.ack, op.keys, op.now).None?
    && Sha256(op.ack) !in db.acks
    && FindLeased(db, op.ack.body, db.nextSeq) == Some(s)
    && db.deliveries[s].state.Claimed?
    && op.now < db.deliveries[s].lease.value.until
  }

  /** What a transaction leaves in a row that it does not delete. */
  function RowAfter(cfg: Config, db: Db, op: Op, s: nat): Delivery
    requires s in db.deliveries
  {
    var d := db.deliveries[s];
    if ClaimAccepted(cfg, db, op) then
      var expired := ExpireRow(cfg, db.messages, d, op.now);
      if Claims(cfg, db, op, s) then ClaimRow(expired, LeaseGiven(cfg, db, op, s), op.now) else expired
    else if Settles(db, op, s) then SettleRow(cfg, d, op.ack, op.now)
    else if op.MaintainOp? then ExpireRow(cfg, db.messages, d, op.now)
    else d
  }

  /** Transactions outside admission, claiming, acknowledging and maintenance leave the delivery tables alone. */
  lemma TablesUntouched(cfg: Config, db: Db, op: Op)
    requires !op.EnqueueOp? && !op.ClaimOp? && !op.AckOp? && !op.MaintainOp?
    ensures Step(cfg, db, op).deliveries == db.deliveries && Step(cfg, db, op).messages == db.messages
    ensures Step(cfg, db, op).nextSeq == db.nextSeq && Step(cfg, db, op).acks == db.acks
  {
    hide Step;
    match op
    case ObserveOp(_) => TimeOnly(cfg, db, op);
    case RecordOp(_, _, _, _) => TimeOnly(cfg, db, op);
    case CursorOp(_, _, _, _) => CursorOnly(cfg, db, op);
    case _ => OutboxOnly(cfg, db, op);
  }

  lemma TimeOnly(cfg: Config, db: Db, op: Op)
    requires op.ObserveOp? || op.RecordOp?
    ensures Step(cfg, db, op) == db.(highWater := Step(cfg, db, op).highWater, replays := Step(cfg, db, op).replays)
  {
    hide Prune, IsIdentifier;
  }

  lemma CursorOnly(cfg: Config, db: Db, op: Op)
    requires op.CursorOp?
    ensures Step(cfg, db, op) == db.(cursors := Step(cfg, db, op).cursors)
  {
    hide IsIdentifier;
  }

  lemma OutboxOnly(cfg: Config, db: Db, op: Op)
    requires op.StageOp? || op.ClaimOutOp? || op.CompleteOp?
    ensures Step(cfg, db, op) == db.(outbox := Step(cfg, db, op).outbox)
  {
    hide StructureError, FindStaged, ExpireOutbox, OutSelected, ClaimOutRows, OutClaimsOf, CompleteRow, LeasesOk;
  }

  lemma RowOf(cfg: Config, db: Db, op: Op, s: nat)
    requires s in db.deliveries && s < db.nextSeq
    ensures s in Step(cfg, db, op).deliveries ==> Step(cfg, db, op).deliveries[s] == RowAfter(cfg, db, op, s)
    ensures s !in Step(cfg, db, op).deliveries ==> op.MaintainOp? && op.before.Some?
    ensures Step(cfg, db, op).nextSeq >= db.nextSeq
  {
    hide Step, RowAfter;
    match op
    case ClaimOp(_, _, _, _, _) => RowOfClaim(cfg, db, op, s);
    case AckOp(_, _, _) => RowOfAck(cfg, db, op, s);
    case EnqueueOp(_, _, _) => RowOfEnqueue(cfg, db, op, s);
    case MaintainOp(_, _) => RowOfMaintain(cfg, db, op, s);
    case _ =>
      TablesUntouched(cfg, db, op);
      OtherRow(cfg, db, op, s);
  }

  lemma OtherRow(cfg: Config, db: Db, op: Op, s: nat)
    requires s in db.deliveries && !op.ClaimOp? && !op.AckOp? && !op.MaintainOp?
    ensures RowAfter(cfg, db, op, s) == db.deliveries[s]
  {
  }

  lemma RowOfAck(cfg: Config, db: Db, op: Op, s: nat)
    requires op.AckOp? && s in db.deliveries
    ensures s in Step(cfg, db, op).deliveries && Step(cfg, db, op).nextSeq == db.nextSeq
    ensures Step(cfg, db, op).deliveries[s] == RowAfter(cfg, db, op, s)
  {
    hide AckError, SettleRow, Matches, ExpireRow;
  }

  lemma RowOfEnqueue(cfg: Config, db: Db, op: Op, s: nat)
    requires op.EnqueueOp? && s in db.deliveries && s < db.nextSeq
    ensures s in Step(cfg, db, op).deliveries && Step(cfg, db, op).nextSeq >= db.nextSeq
    ensures Step(cfg, db, op).deliveries[s] == RowAfter(cfg, db, op, s)
  {
    hide BrokerError, NewDelivery, ExpireRow;
  }

  lemma RowOfMaintain(cfg: Config, db: Db, op: Op, s: nat)
    requires op.MaintainOp? && s in db.deliveries
    ensures s in Step(cfg, db, op).deliveries ==> Step(cfg, db, op).deliveries[s] == RowAfter(cfg, db, op, s)
    ensures s !in Step(cfg, db, op).deliveries ==> op.before.Some?
    ensures Step(cfg, db, op).nextSeq == db.nextSeq
  {
    hide ExpireRow, Purgeable;
  }

  lemma RowOfClaim(cfg: Config, db: Db, op: Op, s: nat)
    requires op.ClaimOp? && s in db.deliveries
    ensures s in Step(cfg, db, op).deliveries && Step(cfg, db, op).nextSeq == db.nextSeq
    ensures Step(cfg, db, op).deliveries[s] == RowAfter(cfg, db, op, s)
  {
    hide ExpireRow, ClaimRows, Selected, ReadyBelow;
    if ClaimAccepted(cfg, db, op) {
      var expired := Expire(cfg, db, op.now);
      var rows := Selected(cfg, db, op.recipient, op.limit, op.now);
      ClaimRowsMeaning(expired.deliveries, rows, op.leases, op.now + op.leaseMs, op.now);
      if s in rows {
        assert rows[IndexOf(rows, s)] == s;
      }
    }
  }

  lemma NewRow(cfg: Config, db: Db, op: Op, s: nat)
    requires s !in db.deliveries && s in Step(cfg, db, op).deliveries
    ensures op.EnqueueOp? && Enqueue(db, op.envelope, op.context, op.now).Ok?
    ensures KeyOf(op.envelope) !in db.messages
    ensures db.nextSeq <= s < db.nextSeq + |op.envelope.body.recipients| == Step(cfg, db, op).nextSeq
    ensures Step(cfg, db, op).deliveries[s] == NewDelivery(op.envelope, op.envelope.body.recipients[s - db.nextSeq], op.now)
  {
    hide Step, Enqueue;
    NoOtherNewRow(cfg, db, op, s);
    NewRowOfEnqueue(cfg, db, op, s);
  }

  lemma NewRowOfEnqueue(cfg: Config, db: Db, op: Op, s: nat)
    requires op.EnqueueOp? && s !in db.deliveries && s in Step(cfg, db, op).deliveries
    ensures Enqueue(db, op.envelope, op.context, op.now).Ok?
    ensures KeyOf(op.envelope) !in db.messages
    ensures db.nextSeq <= s < db.nextSeq + |op.envelope.body.recipients| == Step(cfg, db, op).nextSeq
    ensures Step(cfg, db, op).deliveries[s] == NewDelivery(op.envelope, op.envelope.body.recipients[s - db.nextSeq], op.now)
  {
    hide BrokerError, NewDelivery;
  }

  lemma NoOtherNewRow(cfg: Config, db: Db, op: Op, s: nat)
    requires s !in db.deliveries && s in Step(cfg, db, op).deliveries
    ensures op.EnqueueOp?
  {
    if !op.EnqueueOp? && !op.ClaimOp? && !op.AckOp? && !op.MaintainOp? {
      hide Step;
      TablesUntouched(cfg, db, op);
    } else {
      hide BrokerError, AckError, ExpireRow, SettleRow, Selected, ReadyBelow, NewDeliveries;
    }
  }

  // ---- one transaction seen from one message ----

  lemma MessageOf(cfg: Config, db: Db, op: Op, k: MessageKey)
    ensures k in Step(cfg, db, op).messages && k in db.messages ==> Step(cfg, db, op).messages[k] == db.messages[k]
    ensures k in Step(cfg, db, op).messages && k !in db.messages ==>
      && op.EnqueueOp? && KeyOf(op.envelope) == k
      && Enqueue(db, op.envelope, op.context, op.now).Ok?
      && Step(cfg, db, op).messages[k] == Message(op.envelope, op.now)
    ensures k !in Step(cfg, db, op).messages && k in db.messages ==>
      op.MaintainOp? && op.before.Some? && Purgeable(Expire(cfg, db, op.now), k, op.before.value)
  {
    if !op.EnqueueOp? && !op.ClaimOp? && !op.AckOp? && !op.MaintainOp? {
      hide Step;
      TablesUntouched(cfg, db, op);
    } else {
      hide BrokerError, AckError, ExpireRow, SettleRow, Selected, ReadyBelow, NewDeliveries, ClaimRows, FindLeased;
    }
  }

  // ---- the invariant ----

  predicate DeliveryOk(cfg: Config, d: Delivery) {
    && (d.state.Claimed? <==> d.lease.Some?)
    && d.attempts <= cfg.maxAttempts
    && (d.state.Queued? ==> d.attempts < cfg.maxAttempts)
    && (d.state.Claimed? ==> 1 <= d.attempts)
  }

  ghost predicate HasDelivery(db: Db, k: MessageKey) {
    exists s :: s in db.deliveries && db.deliveries[s].message == k
  }

  predicate RowsOk(cfg: Config, db: Db) {
    forall s :: s in db.deliveries ==>
      s < db.nextSeq && DeliveryOk(cfg, db.deliveries[s]) && db.deliveries[s].message in db.messages
  }

  ghost predicate MessagesOk(db: Db) {
    forall k :: k in db.messages ==> HasDelivery(db, k) && KeyOf(db.messages[k].envelope) == k
  }

  /** What every reachable state of the broker satisfies. */
  ghost predicate Good(cfg: Config, db: Db) {
    RowsOk(cfg, db) && MessagesOk(db)
  }

  /** Only a row that is queued once the lapsed leases are cleared can be claimed. */
  lemma ClaimedIsReady(cfg: Config, db: Db, op: Op, s: nat)
    requires Claims(cfg, db, op, s)
    ensures s in db.deliveries && Ready(Expire(cfg, db, op.now), s, op.recipient, op.now)
    ensures ExpireRow(cfg, db.messages, db.deliveries[s], op.now).state.Queued?
    ensures ExpireRow(cfg, db.messages, db.deliveries[s], op.now).availableAt <= op.now
  {
    hide ClaimDeliveries, ExpireRow;
    var rows := Selected(cfg, db, op.recipient, op.limit, op.now);
    assert rows[IndexOf(rows, s)] == s;
  }

  lemma RowAfterOk(cfg: Config, db: Db, op: Op, s: nat)
    requires cfg.maxAttempts >= 1 && s in db.deliveries && DeliveryOk(cfg, db.deliveries[s])
    ensures DeliveryOk(cfg, RowAfter(cfg, db, op, s))
    ensures RowAfter(cfg, db, op, s).message == db.deliveries[s].message
    ensures RowAfter(cfg, db, op, s).recipient == db.deliveries[s].recipient
  {
    hide AckError, ClaimDeliveries, RetryDelay, Selected, FindLeased, LeaseGiven;
    if Claims(cfg, db, op, s) {
      ClaimedIsReady(cfg, db, op, s);
    }
  }

  lemma StepKeepsRows(cfg: Config, db: Db, op: Op)
    requires cfg.maxAttempts >= 1 && Good(cfg, db)
    ensures RowsOk(cfg, Step(cfg, db, op))
  {
    hide Step, RowAfter, HasDelivery;
    var after := Step(cfg, db, op);
    forall s | s in after.deliveries
      ensures s < after.nextSeq && DeliveryOk(cfg, after.deliveries[s]) && after.deliveries[s].message in after.messages
    {
      StepKeepsRow(cfg, db, op, s);
    }
  }

  lemma StepKeepsRow(cfg: Config, db: Db, op: Op, s: nat)
    requires cfg.maxAttempts >= 1 && RowsOk(cfg, db) && s in Step(cfg, db, op).deliveries
    ensures s < Step(cfg, db, op).nextSeq && DeliveryOk(cfg, Step(cfg, db, op).deliveries[s])
    ensures Step(cfg, db, op).deliveries[s].message in Step(cfg, db, op).messages
  {
    hide Step, RowAfter;
    if s in db.deliveries {
      RowOf(cfg, db, op, s);
      RowAfterOk(cfg, db, op, s);
      RowKeepsMessage(cfg, db, op, s);
    } else {
      NewRow(cfg, db, op, s);
      NewMessage(cfg, db, op);
    }
  }

  lemma NewMessage(cfg: Config, db: Db, op: Op)
    requires op.EnqueueOp? && Enqueue(db, op.envelope, op.context, op.now).Ok?
    ensures KeyOf(op.envelope) in Step(cfg, db, op).messages
    ensures |op.envelope.body.recipients| >= 1
  {
    hide AckError, ExpireRow;
  }

  /** Maintenance keeps or deletes a row and its message together. */
  lemma MaintainedTogether(cfg: Config, db: Db, op: Op, s: nat)
    requires op.MaintainOp? && s in db.deliveries && db.deliveries[s].message in db.messages
    ensures s in Step(cfg, db, op).deliveries <==> db.deliveries[s].message in Step(cfg, db, op).messages
  {
    assert ExpireRow(cfg, db.messages, db.deliveries[s], op.now).message == db.deliveries[s].message;
    hide ExpireRow;
    var expired := Expire(cfg, db, op.now);
    assert s in expired.deliveries && expired.deliveries[s].message == db.deliveries[s].message;
  }

  /** A row survives only together with its message. */
  lemma RowKeepsMessage(cfg: Config, db: Db, op: Op, s: nat)
    requires s in db.deliveries && s in Step(cfg, db, op).deliveries && db.deliveries[s].message in db.messages
    ensures db.deliveries[s].message in Step(cfg, db, op).messages
  {
    hide Step;
    if op.MaintainOp? {
      MaintainedTogether(cfg, db, op, s);
    } else {
      MessageOf(cfg, db, op, db.deliveries[s].message);
    }
  }

  lemma StepKeepsMessages(cfg: Config, db: Db, op: Op)
    requires cfg.maxAttempts >= 1 && Good(cfg, db)
    ensures MessagesOk(Step(cfg, db, op))
  {
    hide Step, HasDelivery;
    var after := Step(cfg, db, op);
    forall k | k in after.messages
      ensures HasDelivery(after, k) && KeyOf(after.messages[k].envelope) == k
    {
      MessageOf(cfg, db, op, k);
      if k in db.messages {
        MessageKeepsDelivery(cfg, db, op, k);
      } else {
        NewMessageHasDelivery(cfg, db, op);
      }
    }
  }

  lemma MessageKeepsDelivery(cfg: Config, db: Db, op: Op, k: MessageKey)
    requires cfg.maxAttempts >= 1 && RowsOk(cfg, db) && HasDelivery(db, k) && k in Step(cfg, db, op).messages && k in db.messages
    ensures HasDelivery(Step(cfg, db, op), k)
  {
    hide Step, RowAfter;
    var s :| s in db.deliveries && db.deliveries[s].message == k;
    RowOf(cfg, db, op, s);
    RowAfterOk(cfg, db, op, s);
    RowStays(cfg, db, op, s);
  }

  lemma RowStays(cfg: Config, db: Db, op: Op, s: nat)
    requires s in db.deliveries && s < db.nextSeq
    requires db.deliveries[s].message in Step(cfg, db, op).messages && db.deliveries[s].message in db.messages
    ensures s in Step(cfg, db, op).deliveries
  {
    hide Step, RowAfter;
    if op.MaintainOp? {
      MaintainedTogether(cfg, db, op, s);
    } else {
      RowOf(cfg, db, op, s);
    }
  }

  lemma NewMessageHasDelivery(cfg: Config, db: Db, op: Op)
    requires op.EnqueueOp? && Enqueue(db, op.envelope, op.context, op.now).Ok?
    requires KeyOf(op.envelope) !in db.messages
    ensures HasDelivery(Step(cfg, db, op), KeyOf(op.envelope))
  {
    hide AckError, ExpireRow;
    assert db.nextSeq in Step(cfg, db, op).deliveries;
  }

  lemma StepKeepsGood(cfg: Config, db: Db, op: Op)
    requires cfg.maxAttempts >= 1 && Good(cfg, db)
    ensures Good(cfg, Step(cfg, db, op))
  {
    hide Step, RowsOk, MessagesOk;
    StepKeepsRows(cfg, db, op);
    StepKeepsMessages(cfg, db, op);
  }

  lemma {:induction false} RunGood(cfg: Config, ops: seq<Op>)
    requires cfg.maxAttempts >= 1
    ensures Good(cfg, Run(cfg, ops))
  {
    if ops != [] {
      RunGood(cfg, ops[..|ops| - 1]);
      hide Step, Good;
      StepKeepsGood(cfg, Run(cfg, ops[..|ops| - 1]), ops[|ops| - 1]);
    }
  }
}
