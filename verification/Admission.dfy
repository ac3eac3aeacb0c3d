/** A message is admitted as new at most once, for ever, although the tables are purged. */
module Admission {
  import opened Text
  import opened Directory
  import opened Protocol
  import opened Broker
  import opened BrokerRuns

  /** Retention that suffices whatever bytes are signed later: the longest lifetime and three clock skews. */
  const SAFE_RETENTION_MS := MAX_TTL_MS + 3 * MAX_CLOCK_SKEW_MS

  /** Retention that suffices for the same bytes: the longest lifetime and one clock skew. */
  const SAME_BYTES_RETENTION_MS := MAX_TTL_MS + MAX_CLOCK_SKEW_MS

  predicate TimesRise(ops: seq<Op>) {
    forall i, j :: 0 <= i < j < |ops| ==> ops[i].now <= ops[j].now
  }

  predicate PurgesKeep(ops: seq<Op>, retention: int) {
    forall i :: 0 <= i < |ops| && ops[i].MaintainOp? && ops[i].before.Some? ==> ops[i].before.value <= ops[i].now - retention
  }

  /** The transaction admits this message and answers that it is new. */
  predicate AdmitsNew(db: Db, op: Op, k: MessageKey) {
    && op.EnqueueOp?
    && KeyOf(op.envelope) == k
    && Enqueue(db, op.envelope, op.context, op.now).Ok?
    && !Enqueue(db, op.envelope, op.context, op.now).value.1.duplicate
  }

  /** The message is kept, with rows touched no earlier than its admission, or the retention has passed since. */
  predicate Remembered(db: Db, k: MessageKey, admitted: int, clock: int, retention: int) {
    || (&& k in db.messages
        && forall s :: s in db.deliveries && db.deliveries[s].message == k ==> admitted <= db.deliveries[s].updatedAt)
    || admitted + retention < clock
  }

  lemma RowTouched(cfg: Config, db: Db, op: Op, s: nat)
    requires s in db.deliveries
    ensures RowAfter(cfg, db, op, s).updatedAt == db.deliveries[s].updatedAt || RowAfter(cfg, db, op, s).updatedAt == op.now
    ensures RowAfter(cfg, db, op, s).message == db.deliveries[s].message
  {
    hide AckError, ClaimDeliveries, RetryDelay, Selected, FindLeased;
  }

  lemma RememberedStep(cfg: Config, db: Db, op: Op, k: MessageKey, admitted: int, clock: int, retention: int)
    requires cfg.maxAttempts >= 1 && Good(cfg, db)
    requires admitted <= clock <= op.now && Remembered(db, k, admitted, clock, retention)
    requires op.MaintainOp? && op.before.Some? ==> op.before.value <= op.now - retention
    ensures Remembered(Step(cfg, db, op), k, admitted, op.now, retention)
  {
    if k in db.messages && !(admitted + retention < op.now) {
      hide Step, HasDelivery, RowAfter;
      var after := Step(cfg, db, op);
      MessageOf(cfg, db, op, k);
      if k !in after.messages {
        PurgedLate(cfg, db, k, admitted, op.before.value, op.now);
      }
      forall s | s in after.deliveries && after.deliveries[s].message == k ensures admitted <= after.deliveries[s].updatedAt {
        if s in db.deliveries {
          RowOf(cfg, db, op, s);
          RowTouched(cfg, db, op, s);
        } else {
          NewRow(cfg, db, op, s);
        }
      }
    }
  }

  /** A purged message had a row touched no earlier than its admission, so the cutoff lies after that. */
  lemma PurgedLate(cfg: Config, db: Db, k: MessageKey, admitted: int, before: int, now: int)
    requires HasDelivery(db, k) && admitted <= now && Purgeable(Expire(cfg, db, now), k, before)
    requires forall s :: s in db.deliveries && db.deliveries[s].message == k ==> admitted <= db.deliveries[s].updatedAt
    ensures admitted < before
  {
    var s :| s in db.deliveries && db.deliveries[s].message == k;
    assert s in Expire(cfg, db, now).deliveries;
  }

  lemma {:induction false} RememberedUntil(cfg: Config, ops: seq<Op>, i: nat, n: nat, k: MessageKey, retention: int)
    requires cfg.maxAttempts >= 1 && i < n <= |ops| && TimesRise(ops) && PurgesKeep(ops, retention)
    requires AdmitsNew(Run(cfg, ops[..i]), ops[i], k)
    ensures Remembered(Run(cfg, ops[..n]), k, ops[i].now, ops[n - 1].now, retention)
    decreases n
  {
    hide Step, Run, Good, Remembered, AdmitsNew;
    RunNext(cfg, ops, n - 1);
    RunGood(cfg, ops[..n - 1]);
    if n == i + 1 {
      RememberedFirst(cfg, Run(cfg, ops[..i]), ops[i], k, retention);
    } else {
      RememberedUntil(cfg, ops, i, n - 1, k, retention);
      RememberedStep(cfg, Run(cfg, ops[..n - 1]), ops[n - 1], k, ops[i].now, ops[n - 2].now, retention);
    }
  }

  lemma RememberedFirst(cfg: Config, db: Db, op: Op, k: MessageKey, retention: int)
    requires cfg.maxAttempts >= 1 && Good(cfg, db) && AdmitsNew(db, op, k)
    ensures Remembered(Step(cfg, db, op), k, op.now, op.now, retention)
  {
    hide Step, HasDelivery, BrokerError;
    NewMessage(cfg, db, op);
    var after := Step(cfg, db, op);
    forall s | s in after.deliveries && after.deliveries[s].message == k ensures op.now <= after.deliveries[s].updatedAt {
      if s !in db.deliveries {
        NewRow(cfg, db, op, s);
      } else {
        RowOf(cfg, db, op, s);
        RowTouched(cfg, db, op, s);
      }
    }
  }

  /** What admission at a time says about the times inside the envelope. */
  lemma AdmittedTimes(db: Db, op: Op, k: MessageKey)
    requires AdmitsNew(db, op, k)
    ensures op.envelope.body.messageId == k.id && k.id.bits.Some?
    ensures op.envelope.body.issued <= op.now + MAX_CLOCK_SKEW_MS
    ensures -MAX_CLOCK_SKEW_MS <= k.id.Timestamp() - op.envelope.body.issued <= MAX_CLOCK_SKEW_MS
    ensures op.now < op.envelope.body.expires <= op.envelope.body.issued + MAX_TTL_MS
  {
    hide SignerError, KeyIsValid, RecipientsError, IsIdentifier, IsContentType;
  }

  /** With a retention of the longest lifetime and three skews, no sender and message ID is ever admitted as new twice. */
  lemma AdmittedOnce(cfg: Config, ops: seq<Op>, i: nat, j: nat, k: MessageKey, retention: int)
    requires cfg.maxAttempts >= 1 && i < j < |ops| && TimesRise(ops)
    requires PurgesKeep(ops, retention) && retention >= SAFE_RETENTION_MS - 1
    requires AdmitsNew(Run(cfg, ops[..i]), ops[i], k)
    ensures !AdmitsNew(Run(cfg, ops[..j]), ops[j], k)
  {
    hide Step, Run, BrokerError;
    AdmittedTimes(Run(cfg, ops[..i]), ops[i], k);
    RememberedUntil(cfg, ops, i, j, k, retention);
    if AdmitsNew(Run(cfg, ops[..j]), ops[j], k) {
      AdmittedTimes(Run(cfg, ops[..j]), ops[j], k);
      assert false;
    }
  }

  /** For the same bytes one skew less twice over is enough. */
  lemma SameBytesAdmittedOnce(cfg: Config, ops: seq<Op>, i: nat, j: nat, retention: int)
    requires cfg.maxAttempts >= 1 && i < j < |ops| && TimesRise(ops)
    requires PurgesKeep(ops, retention) && retention >= SAME_BYTES_RETENTION_MS - 1
    requires ops[i].EnqueueOp? && ops[j].EnqueueOp? && ops[i].envelope == ops[j].envelope
    requires AdmitsNew(Run(cfg, ops[..i]), ops[i], KeyOf(ops[i].envelope))
    ensures !AdmitsNew(Run(cfg, ops[..j]), ops[j], KeyOf(ops[i].envelope))
  {
    hide Step, Run, BrokerError;
    var k := KeyOf(ops[i].envelope);
    AdmittedTimes(Run(cfg, ops[..i]), ops[i], k);
    RememberedUntil(cfg, ops, i, j, k, retention);
    if AdmitsNew(Run(cfg, ops[..j]), ops[j], k) {
      AdmittedTimes(Run(cfg, ops[..j]), ops[j], k);
      assert false;
    }
  }
}
