/** Every delivery and every outbox row reaches rest: a measure that each state change lowers. */
module DeliveryMeasure {
  import opened Protocol
  import opened Broker
  import opened BrokerRuns

  function Weight(cfg: Config, d: Delivery): int {
    if d.Terminal() then 0 else 2 * (cfg.maxAttempts - d.attempts) + if d.state.Claimed? then 1 else 0
  }

  /** The weight of a row number: not yet used, in use, or deleted. */
  function WeightAt(cfg: Config, db: Db, s: nat): int {
    if s in db.deliveries then Weight(cfg, db.deliveries[s]) else if s < db.nextSeq then 0 else 2 * cfg.maxAttempts
  }

  function Differ(a: DeliveryState, b: DeliveryState): nat {
    if a == b then 0 else 1
  }

  /** How often one transaction rewrites the state column of a row with a different value. */
  function Changes(cfg: Config, db: Db, op: Op, s: nat): nat {
    if s !in db.deliveries then 0
    else
      var d := db.deliveries[s];
      if ClaimAccepted(cfg, db, op) || op.MaintainOp? then
        var lapsed := ExpireLease(cfg, d, op.now);
        var expired := ExpireMessage(db.messages, lapsed, op.now);
        Differ(d.state, lapsed.state) + Differ(lapsed.state, expired.state) + (if Claims(cfg, db, op, s) then 1 else 0)
      else Differ(d.state, RowAfter(cfg, db, op, s).state)
  }

  function ChangesIn(cfg: Config, ops: seq<Op>, s: nat): nat {
    if ops == [] then 0
    else ChangesIn(cfg, ops[..|ops| - 1], s) + Changes(cfg, Run(cfg, ops[..|ops| - 1]), ops[|ops| - 1], s)
  }

  function ClaimsIn(cfg: Config, ops: seq<Op>, s: nat): nat {
    if ops == [] then 0
    else ClaimsIn(cfg, ops[..|ops| - 1], s) + if Claims(cfg, Run(cfg, ops[..|ops| - 1]), ops[|ops| - 1], s) then 1 else 0
  }

  /** A terminal row never changes again, in any column. */
  lemma TerminalStays(cfg: Config, db: Db, op: Op, s: nat)
    requires cfg.maxAttempts >= 1 && Good(cfg, db) && s in db.deliveries && db.deliveries[s].Terminal()
    ensures s in Step(cfg, db, op).deliveries ==> Step(cfg, db, op).deliveries[s] == db.deliveries[s]
  {
    hide Step, AckError, ClaimDeliveries, Selected, FindLeased, LeaseGiven, HasDelivery;
    RowOf(cfg, db, op, s);
    if Claims(cfg, db, op, s) {
      ClaimedIsReady(cfg, db, op, s);
    }
  }

  lemma RowWeight(cfg: Config, db: Db, op: Op, s: nat)
    requires cfg.maxAttempts >= 1 && s in db.deliveries && DeliveryOk(cfg, db.deliveries[s])
    ensures 0 <= Weight(cfg, RowAfter(cfg, db, op, s))
    ensures Weight(cfg, RowAfter(cfg, db, op, s)) + Changes(cfg, db, op, s) <= Weight(cfg, db.deliveries[s])
    ensures RowAfter(cfg, db, op, s).attempts == db.deliveries[s].attempts + if Claims(cfg, db, op, s) then 1 else 0
    ensures RowAfter(cfg, db, op, s).attempts <= cfg.maxAttempts
  {
    hide AckError, ClaimDeliveries, RetryDelay, Selected, FindLeased, LeaseGiven;
    if Claims(cfg, db, op, s) {
      ClaimedIsReady(cfg, db, op, s);
    }
  }

  /** Each state change costs at least one unit of weight; nothing ever adds weight. */
  lemma StepWeight(cfg: Config, db: Db, op: Op, s: nat)
    requires cfg.maxAttempts >= 1 && Good(cfg, db)
    ensures 0 <= WeightAt(cfg, Step(cfg, db, op), s)
    ensures WeightAt(cfg, Step(cfg, db, op), s) + Changes(cfg, db, op, s) <= WeightAt(cfg, db, s)
  {
    hide Step, RowAfter, Changes, Claims, MessagesOk, DeliveryOk, Weight;
    NextSeqGrows(cfg, db, op);
    if s in db.deliveries {
      RowOf(cfg, db, op, s);
      RowWeight(cfg, db, op, s);
    } else {
      NoChange(cfg, db, op, s);
      if s in Step(cfg, db, op).deliveries {
        NewRow(cfg, db, op, s);
        NewRowWeight(cfg, op, s - db.nextSeq);
      }
    }
  }

  lemma NewRowWeight(cfg: Config, op: Op, i: nat)
    requires op.EnqueueOp? && i < |op.envelope.body.recipients|
    ensures Weight(cfg, NewDelivery(op.envelope, op.envelope.body.recipients[i], op.now)) == 2 * cfg.maxAttempts
  {
  }

  lemma NoChange(cfg: Config, db: Db, op: Op, s: nat)
    requires s !in db.deliveries
    ensures Changes(cfg, db, op, s) == 0 && !Claims(cfg, db, op, s)
  {
    hide ClaimDeliveries;
    if Claims(cfg, db, op, s) {
      ClaimedIsReady(cfg, db, op, s);
    }
  }

  lemma NextSeqGrows(cfg: Config, db: Db, op: Op)
    ensures Step(cfg, db, op).nextSeq >= db.nextSeq
  {
    if !op.EnqueueOp? && !op.ClaimOp? && !op.AckOp? && !op.MaintainOp? {
      hide Step;
      TablesUntouched(cfg, db, op);
    } else {
      hide BrokerError, AckError, ExpireRow, SettleRow, Selected, ReadyBelow, ClaimRows, NewDeliveries, FindLeased;
    }
  }

  /** Over any run a delivery changes state at most 2 * maxAttempts times. */
  lemma {:induction false} BoundedChanges(cfg: Config, ops: seq<Op>, s: nat)
    requires cfg.maxAttempts >= 1
    ensures 0 <= WeightAt(cfg, Run(cfg, ops), s)
    ensures WeightAt(cfg, Run(cfg, ops), s) + ChangesIn(cfg, ops, s) <= 2 * cfg.maxAttempts
  {
    if ops != [] {
      BoundedChanges(cfg, ops[..|ops| - 1], s);
      RunGood(cfg, ops[..|ops| - 1]);
      hide Step, Good, Changes, WeightAt;
      StepWeight(cfg, Run(cfg, ops[..|ops| - 1]), ops[|ops| - 1], s);
    }
  }

  /** The attempts already made, and after deletion the attempts that can no longer be made. */
  function AttemptsLeft(cfg: Config, db: Db, s: nat): int {
    if s in db.deliveries then cfg.maxAttempts - db.deliveries[s].attempts else if s < db.nextSeq then 0 else cfg.maxAttempts
  }

  lemma StepAttempts(cfg: Config, db: Db, op: Op, s: nat)
    requires cfg.maxAttempts >= 1 && Good(cfg, db)
    ensures 0 <= AttemptsLeft(cfg, Step(cfg, db, op), s)
    ensures AttemptsLeft(cfg, Step(cfg, db, op), s) + (if Claims(cfg, db, op, s) then 1 else 0) <= AttemptsLeft(cfg, db, s)
  {
    hide Step, RowAfter, Changes, Claims, HasDelivery;
    if s in db.deliveries {
      RowOf(cfg, db, op, s);
      RowWeight(cfg, db, op, s);
    } else {
      NoChange(cfg, db, op, s);
      NextSeqGrows(cfg, db, op);
      if s in Step(cfg, db, op).deliveries {
        NewRow(cfg, db, op, s);
      }
    }
  }

  /** Over any run a delivery is claimed at most maxAttempts times. */
  lemma {:induction false} BoundedClaims(cfg: Config, ops: seq<Op>, s: nat)
    requires cfg.maxAttempts >= 1
    ensures 0 <= AttemptsLeft(cfg, Run(cfg, ops), s)
    ensures AttemptsLeft(cfg, Run(cfg, ops), s) + ClaimsIn(cfg, ops, s) <= cfg.maxAttempts
  {
    if ops != [] {
      BoundedClaims(cfg, ops[..|ops| - 1], s);
      RunGood(cfg, ops[..|ops| - 1]);
      hide Step, Good, Claims, AttemptsLeft;
      StepAttempts(cfg, Run(cfg, ops[..|ops| - 1]), ops[|ops| - 1], s);
    }
  }
}
