/** Signed requests: the rules one must pass, and why none passes twice although replay rows are pruned. */
module Requests {
  import opened Protocol
  import opened Broker
  import opened BrokerRuns

  predicate Records(db: Db, op: Op) {
    op.RecordOp? && Record(db, op.agent, op.request, op.now, op.expires).Ok?
  }

  /** The recorded request is still known, or trusted time has reached its expiry. */
  predicate Burned(db: Db, agent: string, request: Uuid, expires: int) {
    || (db.highWater.Some? && expires <= db.highWater.value)
    || ((agent, request) in db.replays && expires <= db.replays[(agent, request)])
  }

  /** Trusted time never falls, whatever clocks the callers bring. */
  lemma HighWaterRises(cfg: Config, db: Db, op: Op)
    requires db.highWater.Some?
    ensures Step(cfg, db, op).highWater.Some? && db.highWater.value <= Step(cfg, db, op).highWater.value
  {
    hide BrokerError, AckError, StructureError, SettleRow, ClaimRows, Selected, ClaimOutRows, OutSelected;
  }

  /** Pruning drops only rows whose expiry trusted time has reached. */
  lemma ReplaysKept(cfg: Config, db: Db, op: Op, k: (string, Uuid))
    requires k in db.replays
    ensures var after := Step(cfg, db, op);
      || (k in after.replays && after.replays[k] == db.replays[k])
      || (after.highWater.Some? && db.replays[k] <= after.highWater.value)
  {
    hide BrokerError, AckError, StructureError, SettleRow, ClaimRows, Selected, ClaimOutRows, OutSelected;
  }

  lemma BurnedStep(cfg: Config, db: Db, op: Op, agent: string, request: Uuid, expires: int)
    requires Burned(db, agent, request, expires)
    ensures Burned(Step(cfg, db, op), agent, request, expires)
  {
    hide Step;
    if db.highWater.Some? && expires <= db.highWater.value {
      HighWaterRises(cfg, db, op);
    } else {
      ReplaysKept(cfg, db, op, (agent, request));
    }
  }

  lemma BurnedFirst(cfg: Config, db: Db, op: Op)
    requires Records(db, op)
    ensures Burned(Step(cfg, db, op), op.agent, op.request, op.expires)
  {
    hide BrokerError, AckError, StructureError, SettleRow, ClaimDeliveries, ClaimOutbox;
  }

  lemma {:induction false} BurnedUntil(cfg: Config, ops: seq<Op>, i: nat, n: nat)
    requires i < n <= |ops| && ops[i].RecordOp? && Records(Run(cfg, ops[..i]), ops[i])
    ensures Burned(Run(cfg, ops[..n]), ops[i].agent, ops[i].request, ops[i].expires)
    decreases n
  {
    hide Step, Run, Burned, Records;
    RunNext(cfg, ops, n - 1);
    if n == i + 1 {
      BurnedFirst(cfg, Run(cfg, ops[..i]), ops[i]);
    } else {
      BurnedUntil(cfg, ops, i, n - 1);
      BurnedStep(cfg, Run(cfg, ops[..n - 1]), ops[n - 1], ops[i].agent, ops[i].request, ops[i].expires);
    }
  }

  /**
   * A request that is recorded while it is unexpired is never recorded again while it is unexpired:
   * a replay row is pruned only when trusted time has passed the point after which validation rejects the request.
   */
  lemma RecordedOnce(cfg: Config, ops: seq<Op>, i: nat, j: nat)
    requires i < j < |ops| && Records(Run(cfg, ops[..i]), ops[i])
    requires ops[j].RecordOp? && ops[j].agent == ops[i].agent && ops[j].request == ops[i].request
    requires ops[j].expires <= ops[i].expires && ops[j].now < ops[j].expires
    ensures !Records(Run(cfg, ops[..j]), ops[j])
  {
    BurnedUntil(cfg, ops, i, j);
    hide Step, Run;
  }
}
