/** Lease exclusivity and fencing over any run. Clocks may jump backwards between transactions. */
module Leases {
  import opened Wrappers
  import opened Protocol
  import opened Broker
  import opened BrokerRuns
  import opened DeliveryMeasure

  // ---- exclusivity ----

  /** The transaction accepts a retryable failure of this row, and counts its backoff from there. */
  predicate RetryAt(cfg: Config, db: Db, op: Op, s: nat, attempts: nat, availableAt: int) {
    Settles(db, op, s) && op.ack.body.outcome.RetryableFailed? && availableAt == op.now + RetryDelay(cfg, attempts)
  }

  predicate Retried(cfg: Config, ops: seq<Op>, m: nat, s: nat, attempts: nat, availableAt: int)
    requires m < |ops|
  {
    RetryAt(cfg, Run(cfg, ops[..m]), ops[m], s, attempts, availableAt)
  }

  /** Where a claimed row can be before it is claimed again. */
  ghost predicate Waiting(cfg: Config, ops: seq<Op>, i: nat, n: nat, s: nat, lease: Lease, attempts: nat)
    requires n <= |ops|
  {
    var db := Run(cfg, ops[..n]);
    && s < db.nextSeq
    && (s in db.deliveries ==>
          var d := db.deliveries[s];
          || d.Terminal()
          || (d.attempts == attempts && d.state.Claimed? && d.lease == Some(lease))
          || (d.attempts == attempts && d.state.Queued? && lease.until <= d.availableAt)
          || (d.attempts == attempts && d.state.Queued? && RetriedBetween(cfg, ops, i, n, s, attempts, d.availableAt)))
  }

  ghost predicate RetriedBetween(cfg: Config, ops: seq<Op>, i: nat, n: nat, s: nat, attempts: nat, availableAt: int)
    requires n <= |ops|
  {
    exists m :: i < m < n && Retried(cfg, ops, m, s, attempts, availableAt)
  }

  lemma RetriedLater(cfg: Config, ops: seq<Op>, i: nat, n: nat, s: nat, attempts: nat, availableAt: int)
    requires n < |ops| && RetriedBetween(cfg, ops, i, n, s, attempts, availableAt)
    ensures RetriedBetween(cfg, ops, i, n + 1, s, attempts, availableAt)
  {
    hide Retried;
    var m :| i < m < n && Retried(cfg, ops, m, s, attempts, availableAt);
    assert i < m < n + 1;
  }

  /** What one transaction that does not claim the row can do to it. */
  lemma Unclaimed(cfg: Config, db: Db, op: Op, s: nat)
    requires s in db.deliveries && DeliveryOk(cfg, db.deliveries[s]) && !Claims(cfg, db, op, s)
    ensures var d, d' := db.deliveries[s], RowAfter(cfg, db, op, s);
      || d' == d
      || d'.Terminal()
      || (&& d.state.Claimed? && d'.state.Queued? && d'.attempts == d.attempts
          && d.lease.value.until <= op.now && d'.availableAt == op.now)
      || (d'.state.Queued? && d'.attempts == d.attempts && RetryAt(cfg, db, op, s, d.attempts, d'.availableAt))
  {
    hide AckError, ClaimDeliveries, RetryDelay, Selected, FindLeased;
  }

  lemma WaitingStep(cfg: Config, ops: seq<Op>, i: nat, n: nat, s: nat, lease: Lease, attempts: nat)
    requires cfg.maxAttempts >= 1 && i < n < |ops|
    requires Waiting(cfg, ops, i, n, s, lease, attempts)
    requires !Claims(cfg, Run(cfg, ops[..n]), ops[n], s)
    ensures Waiting(cfg, ops, i, n + 1, s, lease, attempts)
  {
    hide Step, Claims, RetryAt, RowAfter, HasDelivery, RetriedBetween, Run;
    var db, op := Run(cfg, ops[..n]), ops[n];
    RunNext(cfg, ops, n);
    RunGood(cfg, ops[..n]);
    NextSeqGrows(cfg, db, op);
    if s in db.deliveries {
      RowOf(cfg, db, op, s);
      Unclaimed(cfg, db, op, s);
      var d, d' := db.deliveries[s], RowAfter(cfg, db, op, s);
      if d.Terminal() {
        TerminalStays(cfg, db, op, s);
      } else if d'.state.Queued? && RetryAt(cfg, db, op, s, d.attempts, d'.availableAt) {
        RetriedNow(cfg, ops, i, n, s, d.attempts, d'.availableAt);
      } else if RetriedBetween(cfg, ops, i, n, s, attempts, d.availableAt) {
        RetriedLater(cfg, ops, i, n, s, attempts, d.availableAt);
      }
    } else if s in Step(cfg, db, op).deliveries {
      NewRow(cfg, db, op, s);
    }
  }

  lemma RetriedNow(cfg: Config, ops: seq<Op>, i: nat, n: nat, s: nat, attempts: nat, availableAt: int)
    requires i < n < |ops| && Retried(cfg, ops, n, s, attempts, availableAt)
    ensures RetriedBetween(cfg, ops, i, n + 1, s, attempts, availableAt)
  {
    hide Retried;
  }

  lemma {:induction false} WaitingUntil(cfg: Config, ops: seq<Op>, i: nat, n: nat, s: nat)
    requires cfg.maxAttempts >= 1 && i < n <= |ops|
    requires Claims(cfg, Run(cfg, ops[..i]), ops[i], s)
    requires forall m :: i < m < n ==> !Claims(cfg, Run(cfg, ops[..m]), ops[m], s)
    ensures s in Run(cfg, ops[..i + 1]).deliveries
    ensures Waiting(cfg, ops, i, n, s, LeaseGiven(cfg, Run(cfg, ops[..i]), ops[i], s), Run(cfg, ops[..i + 1]).deliveries[s].attempts)
    decreases n
  {
    hide Step, Run, HasDelivery, LeaseGiven, Waiting, Claims;
    var db, op := Run(cfg, ops[..i]), ops[i];
    RunNext(cfg, ops, i);
    RunGood(cfg, ops[..i]);
    FirstClaim(cfg, db, op, s);
    if n == i + 1 {
      WaitingFirst(cfg, ops, i, s);
    } else {
      WaitingUntil(cfg, ops, i, n - 1, s);
      WaitingStep(cfg, ops, i, n - 1, s, LeaseGiven(cfg, db, op, s), Run(cfg, ops[..i + 1]).deliveries[s].attempts);
    }
  }

  lemma FirstClaim(cfg: Config, db: Db, op: Op, s: nat)
    requires Good(cfg, db) && Claims(cfg, db, op, s)
    ensures s in Step(cfg, db, op).deliveries && s < Step(cfg, db, op).nextSeq
    ensures Step(cfg, db, op).deliveries[s].state.Claimed?
    ensures Step(cfg, db, op).deliveries[s].lease == Some(LeaseGiven(cfg, db, op, s))
  {
    hide Step, ClaimDeliveries, Selected, LeaseGiven, ExpireRow, HasDelivery;
    ClaimedIsReady(cfg, db, op, s);
    RowOf(cfg, db, op, s);
    NextSeqGrows(cfg, db, op);
  }

  lemma WaitingFirst(cfg: Config, ops: seq<Op>, i: nat, s: nat)
    requires i < |ops| && cfg.maxAttempts >= 1 && Claims(cfg, Run(cfg, ops[..i]), ops[i], s)
    ensures s in Run(cfg, ops[..i + 1]).deliveries
    ensures Waiting(cfg, ops, i, i + 1, s, LeaseGiven(cfg, Run(cfg, ops[..i]), ops[i], s), Run(cfg, ops[..i + 1]).deliveries[s].attempts)
  {
    hide Step, Run, HasDelivery, LeaseGiven, Claims, RetriedBetween;
    RunNext(cfg, ops, i);
    RunGood(cfg, ops[..i]);
    FirstClaim(cfg, Run(cfg, ops[..i]), ops[i], s);
  }

  /**
   * Of two successive claims of one delivery the second starts when the first lease has ended,
   * or a full backoff after a retryable failure that the first lease's holder reported.
   */
  lemma SuccessiveClaims(cfg: Config, ops: seq<Op>, i: nat, j: nat, s: nat)
    requires cfg.maxAttempts >= 1 && i < j < |ops|
    requires Claims(cfg, Run(cfg, ops[..i]), ops[i], s) && Claims(cfg, Run(cfg, ops[..j]), ops[j], s)
    requires forall m :: i < m < j ==> !Claims(cfg, Run(cfg, ops[..m]), ops[m], s)
    ensures s in Run(cfg, ops[..i + 1]).deliveries
    ensures var attempts := Run(cfg, ops[..i + 1]).deliveries[s].attempts;
      || ops[i].now + ops[i].leaseMs <= ops[j].now
      || exists availableAt :: availableAt <= ops[j].now && RetriedBetween(cfg, ops, i, j, s, attempts, availableAt)
  {
    hide Step, Run, HasDelivery, RetriedBetween, ClaimDeliveries, Selected;
    WaitingUntil(cfg, ops, i, j, s);
    var db := Run(cfg, ops[..j]);
    ClaimedIsReady(cfg, db, ops[j], s);
    var d := db.deliveries[s];
    if d.state.Queued? {
      assert d.availableAt <= ops[j].now;
    }
  }

  // ---- fencing ----

  /** The lease factory never repeats itself. */
  predicate DistinctLeases(ops: seq<Op>) {
    forall m, n, a, b ::
      0 <= m < |ops| && 0 <= n < |ops| && ops[m].ClaimOp? && ops[n].ClaimOp?
      && 0 <= a < |ops[m].leases| && 0 <= b < |ops[n].leases| && ops[m].leases[a] == ops[n].leases[b]
      ==> m == n && a == b
  }

  predicate Holds(db: Db, s: nat, x: Uuid) {
    s in db.deliveries && db.deliveries[s].lease.Some? && db.deliveries[s].lease.value.id == x
  }

  predicate Issued(ops: seq<Op>, n: nat, x: Uuid)
    requires n <= |ops|
  {
    exists m :: 0 <= m < n && ops[m].ClaimOp? && x in ops[m].leases
  }

  /** A row holds a lease only because it held it before or has just been given it. */
  lemma HolderOrigin(cfg: Config, db: Db, op: Op, s: nat, x: Uuid)
    requires Good(cfg, db) && Holds(Step(cfg, db, op), s, x)
    ensures Holds(db, s, x) || (Claims(cfg, db, op, s) && LeaseGiven(cfg, db, op, s).id == x && op.ClaimOp? && x in op.leases)
  {
    hide Step, HasDelivery, AckError, ClaimDeliveries, Selected, RetryDelay, FindLeased;
    if s in db.deliveries {
      RowOf(cfg, db, op, s);
      if Claims(cfg, db, op, s) {
        GivenFromFactory(cfg, db, op, s);
      }
    } else {
      NewRow(cfg, db, op, s);
    }
  }

  lemma GivenFromFactory(cfg: Config, db: Db, op: Op, s: nat)
    requires Claims(cfg, db, op, s)
    ensures LeaseGiven(cfg, db, op, s).id in op.leases
    ensures IndexOf(Selected(cfg, db, op.recipient, op.limit, op.now), s) < |op.leases|
  {
    hide ClaimRows, Selected, Expire;
  }

  lemma {:induction false} HolderIssued(cfg: Config, ops: seq<Op>, n: nat, s: nat, x: Uuid)
    requires cfg.maxAttempts >= 1 && n <= |ops| && Holds(Run(cfg, ops[..n]), s, x)
    ensures Issued(ops, n, x)
    decreases n
  {
    if n > 0 {
      hide Step, Claims, LeaseGiven, Good;
      RunNext(cfg, ops, n - 1);
      RunGood(cfg, ops[..n - 1]);
      HolderOrigin(cfg, Run(cfg, ops[..n - 1]), ops[n - 1], s, x);
      if Holds(Run(cfg, ops[..n - 1]), s, x) {
        HolderIssued(cfg, ops, n - 1, s, x);
      }
    }
  }

  lemma NoneHeldAtFirst(cfg: Config, ops: seq<Op>, s: nat, x: Uuid)
    ensures !Holds(Run(cfg, ops[..0]), s, x)
  {
    assert ops[..0] == [];
  }

  /** With distinct lease IDs no two deliveries ever hold the same lease. */
  lemma {:induction false} OneHolder(cfg: Config, ops: seq<Op>, n: nat, s: nat, t: nat, x: Uuid)
    requires cfg.maxAttempts >= 1 && n <= |ops| && DistinctLeases(ops)
    requires Holds(Run(cfg, ops[..n]), s, x) && Holds(Run(cfg, ops[..n]), t, x)
    ensures s == t
    decreases n
  {
    hide Step, Claims, LeaseGiven, Good, Holds, Run, DistinctLeases, Issued;
    if n == 0 {
      NoneHeldAtFirst(cfg, ops, s, x);
    } else {
      var db, op := Run(cfg, ops[..n - 1]), ops[n - 1];
      RunNext(cfg, ops, n - 1);
      RunGood(cfg, ops[..n - 1]);
      HolderOrigin(cfg, db, op, s, x);
      HolderOrigin(cfg, db, op, t, x);
      if Holds(db, s, x) && Holds(db, t, x) {
        OneHolder(cfg, ops, n - 1, s, t, x);
      } else if Holds(db, s, x) {
        HolderIssued(cfg, ops, n - 1, s, x);
        NotReissued(ops, n - 1, x);
      } else if Holds(db, t, x) {
        HolderIssued(cfg, ops, n - 1, t, x);
        NotReissued(ops, n - 1, x);
      } else {
        SameIndex(cfg, db, op, s, t, ops, n - 1);
      }
    }
  }

  lemma NotReissued(ops: seq<Op>, n: nat, x: Uuid)
    requires n < |ops| && DistinctLeases(ops) && Issued(ops, n, x) && ops[n].ClaimOp?
    ensures x !in ops[n].leases
  {
    var m :| 0 <= m < n && ops[m].ClaimOp? && x in ops[m].leases;
    var a :| 0 <= a < |ops[m].leases| && ops[m].leases[a] == x;
    forall b | 0 <= b < |ops[n].leases| ensures ops[n].leases[b] != x {}
  }

  lemma SameIndex(cfg: Config, db: Db, op: Op, s: nat, t: nat, ops: seq<Op>, n: nat)
    requires n < |ops| && ops[n] == op && DistinctLeases(ops)
    requires Claims(cfg, db, op, s) && Claims(cfg, db, op, t)
    requires LeaseGiven(cfg, db, op, s).id == LeaseGiven(cfg, db, op, t).id
    ensures s == t
  {
    hide ClaimDeliveries, Selected;
    GivenFromFactory(cfg, db, op, s);
    GivenFromFactory(cfg, db, op, t);
    var rows := Selected(cfg, db, op.recipient, op.limit, op.now);
    assert op.leases[IndexOf(rows, s)] == op.leases[IndexOf(rows, t)];
    assert rows[IndexOf(rows, s)] == s && rows[IndexOf(rows, t)] == t;
  }

  ghost predicate Ended(db: Db, x: Uuid) {
    forall s :: !Holds(db, s, x)
  }

  /** Once an issued lease is gone it is gone for ever. */
  lemma {:induction false} EndedStays(cfg: Config, ops: seq<Op>, n: nat, later: nat, x: Uuid)
    requires cfg.maxAttempts >= 1 && n <= later <= |ops| && DistinctLeases(ops)
    requires Issued(ops, n, x) && Ended(Run(cfg, ops[..n]), x)
    ensures Ended(Run(cfg, ops[..later]), x)
    decreases later - n
  {
    if n < later {
      hide Step, Claims, LeaseGiven, Good, Holds, Run, DistinctLeases, Issued;
      var db, op := Run(cfg, ops[..n]), ops[n];
      RunNext(cfg, ops, n);
      RunGood(cfg, ops[..n]);
      if op.ClaimOp? {
        NotReissued(ops, n, x);
      }
      forall s ensures !Holds(Step(cfg, db, op), s, x) {
        if Holds(Step(cfg, db, op), s, x) {
          HolderOrigin(cfg, db, op, s, x);
        }
      }
      EndedStays(cfg, ops, n + 1, later, x);
    }
  }

  /** A lease that its row has lost, for whatever reason, is held by nobody. */
  lemma {:induction false} LostIsEnded(cfg: Config, ops: seq<Op>, n: nat, later: nat, s: nat, x: Uuid)
    requires cfg.maxAttempts >= 1 && n <= later <= |ops| && DistinctLeases(ops)
    requires Holds(Run(cfg, ops[..n]), s, x) && !Holds(Run(cfg, ops[..later]), s, x)
    ensures Ended(Run(cfg, ops[..later]), x)
    decreases later - n
  {
    hide Step, Claims, LeaseGiven, Good, Holds, Run, DistinctLeases, Issued;
    var db, op := Run(cfg, ops[..n]), ops[n];
    RunNext(cfg, ops, n);
    RunGood(cfg, ops[..n]);
    if Holds(Run(cfg, ops[..n + 1]), s, x) {
      LostIsEnded(cfg, ops, n + 1, later, s, x);
    } else {
      HolderIssued(cfg, ops, n, s, x);
      forall t ensures !Holds(Step(cfg, db, op), t, x) {
        if Holds(Step(cfg, db, op), t, x) {
          HolderOrigin(cfg, db, op, t, x);
          if Holds(db, t, x) {
            OneHolder(cfg, ops, n, s, t, x);
          } else {
            NotReissued(ops, n, x);
          }
        }
      }
      IssuedLater(ops, n, x);
      EndedStays(cfg, ops, n + 1, later, x);
    }
  }

  lemma IssuedLater(ops: seq<Op>, n: nat, x: Uuid)
    requires n < |ops| && Issued(ops, n, x)
    ensures Issued(ops, n + 1, x)
  {
    var m :| 0 <= m < n && ops[m].ClaimOp? && x in ops[m].leases;
    assert 0 <= m < n + 1;
  }

  lemma IssuedBefore(ops: seq<Op>, n: nat, later: nat, x: Uuid)
    requires n <= later <= |ops| && Issued(ops, n, x)
    ensures Issued(ops, later, x)
  {
    var m :| 0 <= m < n && ops[m].ClaimOp? && x in ops[m].leases;
    assert 0 <= m < later;
  }

  lemma EndedAckIsInert(cfg: Config, db: Db, op: Op)
    requires op.AckOp? && Ended(db, op.ack.body.leaseId)
    ensures Step(cfg, db, op).deliveries == db.deliveries
  {
    hide AckError;
    FoundHolds(db, op.ack.body);
  }

  lemma FoundHolds(db: Db, b: AckBody)
    ensures FindLeased(db, b, db.nextSeq).None? || Holds(db, FindLeased(db, b, db.nextSeq).value, b.leaseId)
  {}

  /** A stale acknowledgement, naming a lease its delivery has lost, changes no delivery however late it comes. */
  lemma StaleAckIsInert(cfg: Config, ops: seq<Op>, n: nat, lost: nat, j: nat, s: nat)
    requires cfg.maxAttempts >= 1 && n <= lost <= j < |ops| && DistinctLeases(ops) && ops[j].AckOp?
    requires Holds(Run(cfg, ops[..n]), s, ops[j].ack.body.leaseId)
    requires !Holds(Run(cfg, ops[..lost]), s, ops[j].ack.body.leaseId)
    ensures Step(cfg, Run(cfg, ops[..j]), ops[j]).deliveries == Run(cfg, ops[..j]).deliveries
  {
    hide Step, Run, Holds, DistinctLeases, Issued;
    var x := ops[j].ack.body.leaseId;
    HolderIssued(cfg, ops, n, s, x);
    IssuedBefore(ops, n, lost, x);
    LostIsEnded(cfg, ops, n, lost, s, x);
    EndedStays(cfg, ops, lost, j, x);
    EndedAckIsInert(cfg, Run(cfg, ops[..j]), ops[j]);
  }

  /** An accepted acknowledgement, replayed or re-signed with another outcome for the same lease, changes no delivery. */
  lemma SettledOnce(cfg: Config, ops: seq<Op>, i: nat, j: nat, s: nat)
    requires cfg.maxAttempts >= 1 && i < j < |ops| && DistinctLeases(ops)
    requires Settles(Run(cfg, ops[..i]), ops[i], s)
    requires ops[j].AckOp? && ops[j].ack.body.leaseId == ops[i].ack.body.leaseId
    ensures Step(cfg, Run(cfg, ops[..j]), ops[j]).deliveries == Run(cfg, ops[..j]).deliveries
  {
    hide Step, Run, AckError, Good;
    RunNext(cfg, ops, i);
    RunGood(cfg, ops[..i]);
    SettlingReleases(cfg, Run(cfg, ops[..i]), ops[i], s);
    StaleAckIsInert(cfg, ops, i, i + 1, j, s);
  }

  lemma SettlingReleases(cfg: Config, db: Db, op: Op, s: nat)
    requires Good(cfg, db) && Settles(db, op, s)
    ensures Holds(db, s, op.ack.body.leaseId)
    ensures !Holds(Step(cfg, db, op), s, op.ack.body.leaseId)
  {
    hide Step, AckError, RetryDelay;
    RowOf(cfg, db, op, s);
  }
}
