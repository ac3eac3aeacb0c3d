/** The sender's outbox obeys the same measure as the deliveries, and a sent or dead row never moves again. */
module OutboxMeasure {
  import opened Wrappers
  import opened Protocol
  import opened Broker
  import opened BrokerRuns

  predicate OutClaimAccepted(cfg: Config, db: Db, op: Op) {
    op.ClaimOutOp? && ClaimOutbox(cfg, db, op.limit, op.leaseMs, op.only, op.now, op.leases).Ok?
  }

  predicate OutClaims(cfg: Config, db: Db, op: Op, i: nat) {
    OutClaimAccepted(cfg, db, op) && i in OutSelected(cfg, db, op.limit, op.only, op.now)
  }

  function OutLeaseGiven(cfg: Config, db: Db, op: Op, i: nat): Lease
    requires OutClaims(cfg, db, op, i)
  {
    Lease(op.leases[IndexOf(OutSelected(cfg, db, op.limit, op.only, op.now), i)], op.now + op.leaseMs)
  }

  predicate Completes(cfg: Config, db: Db, op: Op, i: nat) {
    op.CompleteOp? && op.row == i && CompleteOutbox(cfg, db, op.row, op.lease, op.receipt, op.terminal, op.now).Ok?
  }

  /** What a transaction leaves in an outbox row; rows are never deleted. */
  function OutAfter(cfg: Config, db: Db, op: Op, i: nat): OutRow
    requires i < |db.outbox|
  {
    var r := db.outbox[i];
    if OutClaimAccepted(cfg, db, op) then
      var expired := ExpireOutRow(cfg, r, op.now);
      if OutClaims(cfg, db, op, i) then ClaimOutRow(expired, OutLeaseGiven(cfg, db, op, i), op.now) else expired
    else if Completes(cfg, db, op, i) then CompleteRow(cfg, r, op.receipt, op.terminal, op.now)
    else r
  }

  lemma {:induction false} ClaimOutRowsMeaning(outbox: seq<OutRow>, rows: seq<nat>, leases: seq<Uuid>, until: int, now: int)
    requires |rows| <= |leases| && forall i :: 0 <= i < |rows| ==> rows[i] < |outbox|
    requires forall i, j :: 0 <= i < j < |rows| ==> rows[i] < rows[j]
    ensures forall i :: 0 <= i < |outbox| && i !in rows ==> ClaimOutRows(outbox, rows, leases, until, now)[i] == outbox[i]
    ensures forall k :: 0 <= k < |rows| ==>
      ClaimOutRows(outbox, rows, leases, until, now)[rows[k]] == ClaimOutRow(outbox[rows[k]], Lease(leases[k], until), now)
  {
    if rows != [] {
      ClaimOutRowsMeaning(outbox, rows[..|rows| - 1], leases, until, now);
    }
  }

  lemma OutRowOf(cfg: Config, db: Db, op: Op, i: nat)
    requires i < |db.outbox|
    ensures |db.outbox| <= |Step(cfg, db, op).outbox|
    ensures Step(cfg, db, op).outbox[i] == OutAfter(cfg, db, op, i)
    ensures OutAfter(cfg, db, op, i).envelope == db.outbox[i].envelope
  {
    if op.ClaimOutOp? {
      OutRowOfClaim(cfg, db, op, i);
    } else if op.StageOp? || op.CompleteOp? {
      OutRowOfOwn(cfg, db, op, i);
    } else {
      OutboxElsewhere(cfg, db, op);
    }
  }

  lemma OutRowOfOwn(cfg: Config, db: Db, op: Op, i: nat)
    requires (op.StageOp? || op.CompleteOp?) && i < |db.outbox|
    ensures |db.outbox| <= |Step(cfg, db, op).outbox|
    ensures Step(cfg, db, op).outbox[i] == OutAfter(cfg, db, op, i)
    ensures OutAfter(cfg, db, op, i).envelope == db.outbox[i].envelope
  {
    hide RetryDelay, StructureError;
  }

  /** No transaction but the outbox's own touches it. */
  lemma OutboxElsewhere(cfg: Config, db: Db, op: Op)
    requires !op.StageOp? && !op.ClaimOutOp? && !op.CompleteOp?
    ensures Step(cfg, db, op).outbox == db.outbox
  {
    hide BrokerError, AckError, ExpireRow, StructureError, SettleRow, ClaimRows, Selected;
  }

  lemma OutRowOfClaim(cfg: Config, db: Db, op: Op, i: nat)
    requires op.ClaimOutOp? && i < |db.outbox|
    ensures |db.outbox| == |Step(cfg, db, op).outbox|
    ensures Step(cfg, db, op).outbox[i] == OutAfter(cfg, db, op, i)
    ensures OutAfter(cfg, db, op, i).envelope == db.outbox[i].envelope
  {
    hide ClaimOutRows, OutSelected, OutReadyBelow;
    if OutClaimAccepted(cfg, db, op) {
      var expired := ExpireOutbox(cfg, db.outbox, op.now);
      var rows := OutSelected(cfg, db, op.limit, op.only, op.now);
      ClaimOutRowsMeaning(expired, rows, op.leases, op.now + op.leaseMs, op.now);
      if i in rows {
        assert rows[IndexOf(rows, i)] == i;
      }
    }
  }

  lemma NewOutRow(cfg: Config, db: Db, op: Op, i: nat)
    requires |db.outbox| <= i < |Step(cfg, db, op).outbox|
    ensures op.StageOp? && i == |db.outbox| && |Step(cfg, db, op).outbox| == i + 1
    ensures Step(cfg, db, op).outbox[i] == OutRow(op.envelope, Pending, op.now, None, 0, None, op.now)
  {
    hide BrokerError, AckError, ExpireRow, StructureError, SettleRow, ClaimRows, Selected;
  }

  lemma OutboxGrows(cfg: Config, db: Db, op: Op)
    ensures |db.outbox| <= |Step(cfg, db, op).outbox|
  {
    hide BrokerError, AckError, ExpireRow, StructureError, SettleRow, ClaimRows, Selected;
  }

  // ---- the invariant and the measure ----

  predicate OutRowOk(cfg: Config, r: OutRow) {
    && (r.state.Sending? <==> r.lease.Some?)
    && r.attempts <= cfg.maxAttempts
    && (r.state.Pending? ==> r.attempts < cfg.maxAttempts)
    && (r.state.Sending? ==> 1 <= r.attempts)
    && (r.state.Sent? <==> r.receipt.Some?)
  }

  predicate OutboxOk(cfg: Config, db: Db) {
    forall i :: 0 <= i < |db.outbox| ==> OutRowOk(cfg, db.outbox[i])
  }

  predicate AtRest(r: OutRow) {
    r.state.Sent? || r.state.OutDead?
  }

  function OutWeight(cfg: Config, r: OutRow): int {
    if AtRest(r) then 0 else 2 * (cfg.maxAttempts - r.attempts) + if r.state.Sending? then 1 else 0
  }

  function OutWeightAt(cfg: Config, db: Db, i: nat): int {
    if i < |db.outbox| then OutWeight(cfg, db.outbox[i]) else 2 * cfg.maxAttempts
  }

  function OutDiffer(a: OutState, b: OutState): nat {
    if a == b then 0 else 1
  }

  function OutChanges(cfg: Config, db: Db, op: Op, i: nat): nat {
    if i >= |db.outbox| then 0
    else
      var r := db.outbox[i];
      if OutClaimAccepted(cfg, db, op) then
        OutDiffer(r.state, ExpireOutRow(cfg, r, op.now).state) + if OutClaims(cfg, db, op, i) then 1 else 0
      else OutDiffer(r.state, OutAfter(cfg, db, op, i).state)
  }

  function OutChangesIn(cfg: Config, ops: seq<Op>, i: nat): nat {
    if ops == [] then 0
    else OutChangesIn(cfg, ops[..|ops| - 1], i) + OutChanges(cfg, Run(cfg, ops[..|ops| - 1]), ops[|ops| - 1], i)
  }

  lemma OutClaimedIsReady(cfg: Config, db: Db, op: Op, i: nat)
    requires OutClaims(cfg, db, op, i)
    ensures i < |db.outbox|
    ensures ExpireOutRow(cfg, db.outbox[i], op.now).state.Pending?
    ensures ExpireOutRow(cfg, db.outbox[i], op.now).availableAt <= op.now
  {
    hide ClaimOutbox;
    var rows := OutSelected(cfg, db, op.limit, op.only, op.now);
    assert OutReady(ExpireOutbox(cfg, db.outbox, op.now), rows[IndexOf(rows, i)], op.only, op.now);
  }

  lemma OutRowWeight(cfg: Config, db: Db, op: Op, i: nat)
    requires cfg.maxAttempts >= 1 && i < |db.outbox| && OutRowOk(cfg, db.outbox[i])
    ensures OutRowOk(cfg, OutAfter(cfg, db, op, i))
    ensures 0 <= OutWeight(cfg, OutAfter(cfg, db, op, i))
    ensures OutWeight(cfg, OutAfter(cfg, db, op, i)) + OutChanges(cfg, db, op, i) <= OutWeight(cfg, db.outbox[i])
    ensures AtRest(db.outbox[i]) ==> OutAfter(cfg, db, op, i) == db.outbox[i]
  {
    hide ClaimOutbox, RetryDelay, OutSelected, OutLeaseGiven;
    if OutClaims(cfg, db, op, i) {
      OutClaimedIsReady(cfg, db, op, i);
    }
    if Completes(cfg, db, op, i) {
      CompletesSending(cfg, db, op, i);
    }
  }

  lemma CompletesSending(cfg: Config, db: Db, op: Op, i: nat)
    requires Completes(cfg, db, op, i)
    ensures i < |db.outbox| && db.outbox[i].state.Sending?
  {}

  lemma OutStepWeight(cfg: Config, db: Db, op: Op, i: nat)
    requires cfg.maxAttempts >= 1 && OutboxOk(cfg, db)
    ensures 0 <= OutWeightAt(cfg, Step(cfg, db, op), i)
    ensures OutWeightAt(cfg, Step(cfg, db, op), i) + OutChanges(cfg, db, op, i) <= OutWeightAt(cfg, db, i)
    ensures i < |Step(cfg, db, op).outbox| ==> OutRowOk(cfg, Step(cfg, db, op).outbox[i])
  {
    hide Step, OutAfter;
    OutboxGrows(cfg, db, op);
    if i < |db.outbox| {
      OutRowOf(cfg, db, op, i);
      OutRowWeight(cfg, db, op, i);
    } else if i < |Step(cfg, db, op).outbox| {
      NewOutRow(cfg, db, op, i);
    }
  }

  lemma {:induction false} RunOutboxOk(cfg: Config, ops: seq<Op>)
    requires cfg.maxAttempts >= 1
    ensures OutboxOk(cfg, Run(cfg, ops))
  {
    if ops != [] {
      hide Step, OutRowOk;
      var before, op := Run(cfg, ops[..|ops| - 1]), ops[|ops| - 1];
      RunOutboxOk(cfg, ops[..|ops| - 1]);
      forall i | 0 <= i < |Step(cfg, before, op).outbox| ensures OutRowOk(cfg, Step(cfg, before, op).outbox[i]) {
        OutStepWeight(cfg, before, op, i);
      }
    }
  }

  /** Over any run an outbox row changes state at most 2 * maxAttempts times. */
  lemma {:induction false} OutboxBoundedChanges(cfg: Config, ops: seq<Op>, i: nat)
    requires cfg.maxAttempts >= 1
    ensures 0 <= OutWeightAt(cfg, Run(cfg, ops), i)
    ensures OutWeightAt(cfg, Run(cfg, ops), i) + OutChangesIn(cfg, ops, i) <= 2 * cfg.maxAttempts
  {
    if ops != [] {
      OutboxBoundedChanges(cfg, ops[..|ops| - 1], i);
      RunOutboxOk(cfg, ops[..|ops| - 1]);
      hide Step, OutboxOk, OutChanges, OutWeightAt;
      OutStepWeight(cfg, Run(cfg, ops[..|ops| - 1]), ops[|ops| - 1], i);
    }
  }

  /** A sent or dead outbox row keeps its state, its receipt and its envelope for ever. */
  lemma OutboxRestStays(cfg: Config, db: Db, op: Op, i: nat)
    requires cfg.maxAttempts >= 1 && OutboxOk(cfg, db) && i < |db.outbox| && AtRest(db.outbox[i])
    ensures i < |Step(cfg, db, op).outbox| && Step(cfg, db, op).outbox[i] == db.outbox[i]
  {
    hide Step, OutAfter;
    OutRowOf(cfg, db, op, i);
    OutRowWeight(cfg, db, op, i);
  }

  /** After a failed completion the row is either dead or not claimed again before its backoff has passed. */
  lemma FailedRowWaits(cfg: Config, db: Db, op: Op, later: Op)
    requires op.CompleteOp? && op.receipt.None? && Completes(cfg, db, op, op.row)
    requires later.now < op.now + RetryDelay(cfg, db.outbox[op.row].attempts)
    ensures !OutClaims(cfg, Step(cfg, db, op), later, op.row)
  {
    hide Step, RetryDelay, ClaimOutbox;
    CompletesSending(cfg, db, op, op.row);
    OutRowOf(cfg, db, op, op.row);
    var after := Step(cfg, db, op);
    if OutClaims(cfg, after, later, op.row) {
      OutClaimedIsReady(cfg, after, later, op.row);
    }
  }
}
