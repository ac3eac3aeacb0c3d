/** What staging, expiry, claiming and completion do to the sender's outbox, and what they answer. */
module OutboxLaws {
  import opened Wrappers
  import opened Protocol
  import opened Broker
  import opened BrokerRuns
  import opened OutboxMeasure

  // ---- staging ----

  /** Every message is staged once: again it gets the same row, and another envelope under its ID conflicts. */
  lemma StagedOnce(db: Db, e: Envelope, now: int, e': Envelope, later: int)
    requires Stage(db, e, now).Ok? && KeyOf(e') == KeyOf(e) && StructureError(e').None?
    ensures var (after, row) := Stage(db, e, now).value;
      && (row.duplicate <==> exists i :: 0 <= i < |db.outbox| && KeyOf(db.outbox[i].envelope) == KeyOf(e))
      && row.id < |after.outbox| && after.outbox[row.id].envelope == e
      && Stage(after, e', later) == if e' == e then Ok((after, Staged(row.id, true))) else Err(MessageConflict)
  {
    hide StructureError;
    var (after, row) := Stage(db, e, now).value;
    if FindStaged(db.outbox, KeyOf(e)).None? {
      FindsLast(db.outbox, after.outbox[|db.outbox|]);
    }
  }

  lemma FindsLast(outbox: seq<OutRow>, r: OutRow)
    requires FindStaged(outbox, KeyOf(r.envelope)).None?
    ensures FindStaged(outbox + [r], KeyOf(r.envelope)) == Some(|outbox|)
  {
    assert (outbox + [r])[..|outbox|] == outbox;
  }

  /** A new row is due at once and untried; the rows already there stay, and so does everything else. */
  lemma StagingAdds(db: Db, e: Envelope, now: int)
    requires Stage(db, e, now).Ok?
    ensures var (after, row) := Stage(db, e, now).value;
      && (row.duplicate ==> after == db)
      && (!row.duplicate ==>
            && after == db.(outbox := after.outbox) && row.id == |db.outbox| && |after.outbox| == |db.outbox| + 1
            && after.outbox[..|db.outbox|] == db.outbox
            && OutReady(after.outbox, row.id, None, now) && OutReady(after.outbox, row.id, Some(row.id), now)
            && after.outbox[row.id].attempts == 0 && after.outbox[row.id].lease.None? && after.outbox[row.id].receipt.None?)
  {
    hide StructureError, FindStaged;
  }

  // ---- expiry ----

  predicate OutLeaseOver(r: OutRow, now: int) {
    r.state.Sending? && r.lease.Some? && r.lease.value.until <= now
  }

  /** A lapsed lease returns its row to the queue, due at once, or buries it, exactly when its attempts are spent; nothing else expires. */
  lemma OutExpiresWhenDue(cfg: Config, outbox: seq<OutRow>, now: int, i: nat)
    requires i < |outbox|
    ensures var r := outbox[i]; |ExpireOutbox(cfg, outbox, now)| == |outbox| && var after := ExpireOutbox(cfg, outbox, now)[i];
      && (!OutLeaseOver(r, now) ==> after == r)
      && (OutLeaseOver(r, now) ==>
            && after == r.(state := after.state, availableAt := now, lease := None, updatedAt := now)
            && (after.state.OutDead? <==> cfg.maxAttempts <= r.attempts)
            && (r.attempts < cfg.maxAttempts ==> OutReady(ExpireOutbox(cfg, outbox, now), i, None, now)))
  {
  }

  /** Over any transaction a row dies only by a lapsed last attempt, or by a completion that is final or spends the last one. */
  lemma OutBuriedExactly(cfg: Config, db: Db, op: Op, i: nat)
    requires i < |db.outbox| && !db.outbox[i].state.OutDead?
    ensures i < |Step(cfg, db, op).outbox|
    ensures Step(cfg, db, op).outbox[i].state.OutDead? <==>
      || (OutClaimAccepted(cfg, db, op) && OutLeaseOver(db.outbox[i], op.now) && cfg.maxAttempts <= db.outbox[i].attempts)
      || (Completes(cfg, db, op, i) && op.receipt.None? && (op.terminal || cfg.maxAttempts <= db.outbox[i].attempts))
  {
    hide Step, ClaimOutbox, RetryDelay, OutSelected, OutLeaseGiven, ExpireOutRow, CompleteOutbox, OutReadyBelow;
    OutRowOf(cfg, db, op, i);
    if OutClaimAccepted(cfg, db, op) {
      OutExpiresWhenDue(cfg, db.outbox, op.now, i);
      if OutClaims(cfg, db, op, i) {
        ClaimedIsPending(cfg, db, op, i);
      }
      assert ExpireOutbox(cfg, db.outbox, op.now)[i] == ExpireOutRow(cfg, db.outbox[i], op.now);
    }
  }

  lemma ClaimedIsPending(cfg: Config, db: Db, op: Op, i: nat)
    requires OutClaims(cfg, db, op, i) && i < |db.outbox|
    ensures ExpireOutRow(cfg, db.outbox[i], op.now).state.Pending?
  {
    hide ExpireOutRow, ClaimOutbox;
    var rows := OutSelected(cfg, db, op.limit, op.only, op.now);
    var k :| 0 <= k < |rows| && rows[k] == i;
    assert OutReady(ExpireOutbox(cfg, db.outbox, op.now), rows[k], op.only, op.now);
  }

  // ---- claiming ----

  lemma {:induction false} OutReadyComplete(outbox: seq<OutRow>, only: Option<nat>, now: int, n: nat, i: nat)
    requires i < n && OutReady(outbox, i, only, now)
    ensures i in OutReadyBelow(outbox, only, now, n)
  {
    if i < n - 1 {
      OutReadyComplete(outbox, only, now, n - 1, i);
      var rest := OutReadyBelow(outbox, only, now, n - 1);
      var k :| 0 <= k < |rest| && rest[k] == i;
      assert OutReadyBelow(outbox, only, now, n)[k] == i;
    }
  }

  /** The lowest due rows are claimed: one is passed over only when the limit is filled by lower ones. */
  lemma OutLowestFirst(cfg: Config, db: Db, limit: nat, only: Option<nat>, now: int, i: nat)
    requires OutReady(ExpireOutbox(cfg, db.outbox, now), i, only, now)
    ensures var rows := OutSelected(cfg, db, limit, only, now);
      i in rows || (|rows| == limit && forall k :: 0 <= k < |rows| ==> rows[k] < i)
  {
    hide OutReady, OutReadyBelow, ExpireOutRow;
    var expired := ExpireOutbox(cfg, db.outbox, now);
    OutReadyIsRow(expired, i, only, now);
    var all := OutReadyBelow(expired, only, now, |db.outbox|);
    OutReadyComplete(expired, only, now, |db.outbox|, i);
    var k :| 0 <= k < |all| && all[k] == i;
    if |all| > limit && k < limit {
      assert all[..limit][k] == i;
    }
  }

  lemma OutReadyIsRow(outbox: seq<OutRow>, i: nat, only: Option<nat>, now: int)
    requires OutReady(outbox, i, only, now)
    ensures i < |outbox|
  {
  }

  /** What a claim hands out: for each selected row its number, its envelope and a fresh lease, as the row now says. */
  lemma OutClaimAnswer(cfg: Config, db: Db, limit: int, leaseMs: int, only: Option<nat>, now: int, leases: seq<Uuid>)
    requires ClaimOutbox(cfg, db, limit, leaseMs, only, now, leases).Ok?
    ensures var (after, claims) := ClaimOutbox(cfg, db, limit, leaseMs, only, now, leases).value;
      && |claims| <= limit && |claims| <= |leases| && |after.outbox| == |db.outbox| && after == db.(outbox := after.outbox)
      && (forall i, j :: 0 <= i < j < |claims| ==> claims[i].id < claims[j].id)
      && (forall i :: 0 <= i < |claims| ==> OutHandedOut(cfg, db, after, only, claims[i], Lease(leases[i], now + leaseMs), now))
      && (forall k :: 0 <= k < |db.outbox| && (forall i :: 0 <= i < |claims| ==> claims[i].id != k) ==>
            after.outbox[k] == ExpireOutbox(cfg, db.outbox, now)[k])
  {
    hide OutReadyBelow, ClaimOutRows, OutReady, ExpireOutRow, OutSelected;
    var expired, rows := ExpireOutbox(cfg, db.outbox, now), OutSelected(cfg, db, limit, only, now);
    var (after, claims) := ClaimOutbox(cfg, db, limit, leaseMs, only, now, leases).value;
    forall i | 0 <= i < |rows| ensures OutReady(expired, rows[i], only, now) && rows[i] < |expired| {
      OutReadyIsRow(expired, rows[i], only, now);
    }
    ClaimOutRowsMeaning(expired, rows, leases, now + leaseMs, now);
    assert forall i :: 0 <= i < |rows| ==> claims[i].id == rows[i];
    forall i | 0 <= i < |claims|
      ensures OutHandedOut(cfg, db, after, only, claims[i], Lease(leases[i], now + leaseMs), now)
    {
      OutHandsOut(cfg, db, after, only, claims[i], Lease(leases[i], now + leaseMs), now);
    }
  }

  predicate OutHandedOut(cfg: Config, db: Db, after: Db, only: Option<nat>, claim: OutClaim, lease: Lease, now: int) {
    && claim.id < |db.outbox| == |after.outbox| && (only.Some? ==> claim.id == only.value)
    && OutReady(ExpireOutbox(cfg, db.outbox, now), claim.id, None, now)
    && claim.envelope == db.outbox[claim.id].envelope == after.outbox[claim.id].envelope
    && after.outbox[claim.id].state.Sending? && after.outbox[claim.id].lease == Some(claim.lease) && claim.lease == lease
    && after.outbox[claim.id].attempts == db.outbox[claim.id].attempts + 1
    && after.outbox[claim.id].availableAt == ExpireOutbox(cfg, db.outbox, now)[claim.id].availableAt && after.outbox[claim.id].updatedAt == now
    && after.outbox[claim.id].receipt == db.outbox[claim.id].receipt
  }

  lemma OutHandsOut(cfg: Config, db: Db, after: Db, only: Option<nat>, claim: OutClaim, lease: Lease, now: int)
    requires OutReady(ExpireOutbox(cfg, db.outbox, now), claim.id, only, now) && |after.outbox| == |db.outbox|
    requires after.outbox[claim.id] == ClaimOutRow(ExpireOutbox(cfg, db.outbox, now)[claim.id], lease, now)
    requires claim.envelope == ExpireOutbox(cfg, db.outbox, now)[claim.id].envelope && claim.lease == lease
    ensures OutHandedOut(cfg, db, after, only, claim, lease, now)
  {
    OutExpiresWhenDue(cfg, db.outbox, now, claim.id);
  }

  // ---- completing ----

  /** A completion is accepted exactly under the live lease of its row, and answered with the state it leads to. */
  lemma CompletionAnswer(cfg: Config, db: Db, id: nat, lease: Uuid, receipt: Option<Receipt>, terminal: bool, now: int)
    ensures var r := CompleteOutbox(cfg, db, id, lease, receipt, terminal, now);
      && (r.Ok? <==>
            && id < |db.outbox| && db.outbox[id].state.Sending? && db.outbox[id].lease.Some?
            && db.outbox[id].lease.value.id == lease && now < db.outbox[id].lease.value.until)
      && (r.Ok? ==>
            var (after, state) := r.value; var before := db.outbox[id];
            && after == db.(outbox := db.outbox[id := after.outbox[id]]) && state == after.outbox[id].state
            && after.outbox[id].lease.None? && after.outbox[id].receipt == receipt
            && after.outbox[id].envelope == before.envelope && after.outbox[id].attempts == before.attempts
            && state == (if receipt.Some? then Sent else if terminal || cfg.maxAttempts <= before.attempts then OutDead else Pending)
            && after.outbox[id].availableAt == (if state.Pending? then now + RetryDelay(cfg, before.attempts) else now))
  {
    hide RetryDelay;
  }
}
