/** What single broker operations guarantee, and invariants of their tables over any run. */
module BrokerFacts {
  import opened Wrappers
  import opened Text
  import opened Directory
  import opened Protocol
  import opened Broker
  import opened BrokerRuns

  // ---- expiry and selection ----

  /** After expiry no lease has ended, and no unfinished delivery belongs to a message that has expired. */
  lemma NothingStaleAfterExpiry(cfg: Config, db: Db, now: int, s: nat)
    requires Good(cfg, db) && s in Expire(cfg, db, now).deliveries
    ensures var d := Expire(cfg, db, now).deliveries[s];
      && (d.lease.Some? ==> now < d.lease.value.until)
      && (!d.Terminal() ==> d.message in db.messages && now < db.messages[d.message].envelope.body.expires)
  {
    assert s in db.deliveries;
  }

  lemma {:induction false} ReadyBelowIsComplete(db: Db, recipient: string, now: int, n: nat, s: nat)
    requires s < n && Ready(db, s, recipient, now)
    ensures s in ReadyBelow(db, recipient, now, n)
  {
    assert 0 <= s < n;
  }

  /** A claim takes the lowest ready numbers: a ready row is passed over only when the limit is filled by lower ones. */
  lemma LowestFirst(cfg: Config, db: Db, recipient: string, limit: nat, now: int, s: nat)
    requires Good(cfg, db) && Ready(Expire(cfg, db, now), s, recipient, now)
    ensures var rows := Selected(cfg, db, recipient, limit, now);
      s in rows || (|rows| == limit && forall i :: 0 <= i < |rows| ==> rows[i] < s)
  {
    hide Ready, ReadyBelow, ExpireRow, HasDelivery;
    var expired := Expire(cfg, db, now);
    ReadyIsNumbered(expired, s, recipient, now);
    var all := ReadyBelow(expired, recipient, now, db.nextSeq);
    ReadyBelowIsComplete(expired, recipient, now, db.nextSeq, s);
    var k :| 0 <= k < |all| && all[k] == s;
    if |all| > limit && k < limit {
      assert all[..limit][k] == s;
    }
  }

  lemma ReadyIsNumbered(db: Db, s: nat, recipient: string, now: int)
    requires Ready(db, s, recipient, now)
    ensures s in db.deliveries
  {
  }

  // ---- retries ----

  /** The backoff starts at the base, doubles from attempt to attempt, and never exceeds the ceiling. */
  lemma RetrySchedule(cfg: Config, attempts: nat)
    requires cfg.retryBase >= 0 && cfg.retryMax >= 0 && attempts >= 1
    ensures RetryDelay(cfg, 1) == if cfg.retryBase < cfg.retryMax then cfg.retryBase else cfg.retryMax
    ensures RetryDelay(cfg, attempts + 1) ==
      if 2 * RetryDelay(cfg, attempts) < cfg.retryMax then 2 * RetryDelay(cfg, attempts) else cfg.retryMax
    ensures 0 <= RetryDelay(cfg, attempts) <= cfg.retryMax
  {
    assert Pow2(attempts) == 2 * Pow2(attempts - 1);
    assert cfg.retryBase * Pow2(attempts) == 2 * (cfg.retryBase * Pow2(attempts - 1));
    assert cfg.retryBase * Pow2(attempts - 1) >= 0;
    assert Pow2(0) == 1;
  }

  // ---- one row per message and recipient ----

  predicate OnePerRecipient(deliveries: map<nat, Delivery>) {
    forall s, t :: s in deliveries && t in deliveries && s != t ==>
      deliveries[s].message != deliveries[t].message || deliveries[s].recipient != deliveries[t].recipient
  }

  lemma AdmittedRecipientsDiffer(db: Db, op: Op)
    requires op.EnqueueOp? && Enqueue(db, op.envelope, op.context, op.now).Ok? && KeyOf(op.envelope) !in db.messages
    ensures UniqueRecipients(op.envelope.body.recipients)
  {
    hide SignerError, TimeError, KeyIsValid, WrapsValid, IsIdentifier, IsContentType;
  }

  lemma StepKeepsOnePerRecipient(cfg: Config, db: Db, op: Op)
    requires cfg.maxAttempts >= 1 && Good(cfg, db) && OnePerRecipient(db.deliveries)
    ensures OnePerRecipient(Step(cfg, db, op).deliveries)
  {
    var after := Step(cfg, db, op).deliveries;
    forall s, t | s in after && t in after && s != t
      ensures after[s].message != after[t].message || after[s].recipient != after[t].recipient
    {
      RowsStayApart(cfg, db, op, s, t);
    }
  }

  lemma RowsStayApart(cfg: Config, db: Db, op: Op, s: nat, t: nat)
    requires cfg.maxAttempts >= 1 && Good(cfg, db) && OnePerRecipient(db.deliveries)
    requires s in Step(cfg, db, op).deliveries && t in Step(cfg, db, op).deliveries && s != t
    ensures var after := Step(cfg, db, op).deliveries;
      after[s].message != after[t].message || after[s].recipient != after[t].recipient
  {
    hide Step, RowAfter, HasDelivery, Enqueue;
    RowOrigin(cfg, db, op, s);
    RowOrigin(cfg, db, op, t);
  }

  /** A row keeps its message and recipient, or it is new: then its message is, and its recipient is its own. */
  lemma RowOrigin(cfg: Config, db: Db, op: Op, s: nat)
    requires cfg.maxAttempts >= 1 && Good(cfg, db) && s in Step(cfg, db, op).deliveries
    ensures var d := Step(cfg, db, op).deliveries[s];
      if s in db.deliveries then
        d.message == db.deliveries[s].message && d.recipient == db.deliveries[s].recipient && d.message in db.messages
      else
        && op.EnqueueOp? && d.message == KeyOf(op.envelope) && d.message !in db.messages
        && db.nextSeq <= s < db.nextSeq + |op.envelope.body.recipients|
        && d.recipient == op.envelope.body.recipients[s - db.nextSeq].id
        && UniqueRecipients(op.envelope.body.recipients)
  {
    hide Step, RowAfter, HasDelivery, Enqueue;
    if s in db.deliveries {
      RowOf(cfg, db, op, s);
      RowAfterOk(cfg, db, op, s);
    } else {
      NewRow(cfg, db, op, s);
      AdmittedRecipientsDiffer(db, op);
    }
  }

  lemma {:induction false} RunOnePerRecipient(cfg: Config, ops: seq<Op>)
    requires cfg.maxAttempts >= 1
    ensures OnePerRecipient(Run(cfg, ops).deliveries)
  {
    if ops != [] {
      RunOnePerRecipient(cfg, ops[..|ops| - 1]);
      RunGood(cfg, ops[..|ops| - 1]);
      hide Step, Good, OnePerRecipient;
      StepKeepsOnePerRecipient(cfg, Run(cfg, ops[..|ops| - 1]), ops[|ops| - 1]);
    }
  }

  /** In a reachable state an acknowledgement fits at most one row, so the lookup without an order is deterministic. */
  lemma AckFitsOneRow(cfg: Config, ops: seq<Op>, b: AckBody, s: nat, t: nat)
    requires cfg.maxAttempts >= 1 && Matches(Run(cfg, ops), s, b) && Matches(Run(cfg, ops), t, b)
    ensures s == t
  {
    hide Run, HasDelivery;
    RunGood(cfg, ops);
    RunOnePerRecipient(cfg, ops);
    var db := Run(cfg, ops);
    assert KeyOf(db.messages[db.deliveries[s].message].envelope) == db.deliveries[s].message;
    assert KeyOf(db.messages[db.deliveries[t].message].envelope) == db.deliveries[t].message;
  }

  // ---- acknowledgements ----

  /** The recorded acknowledgements belong to rows that are still there. */
  predicate AcksOk(db: Db) {
    forall h :: h in db.acks ==> db.acks[h].delivery in db.deliveries
  }

  lemma StepKeepsAcks(cfg: Config, db: Db, op: Op)
    requires AcksOk(db)
    ensures AcksOk(Step(cfg, db, op))
  {
    hide Step;
    match op
    case MaintainOp(before, now) => MaintainKeepsAcks(cfg, db, op);
    case EnqueueOp(_, _, _) => AdmittingKeepsAcks(cfg, db, op);
    case ClaimOp(_, _, _, _, _) => ClaimingKeepsAcks(cfg, db, op);
    case AckOp(_, _, _) => AcknowledgingKeepsAcks(cfg, db, op);
    case _ => TablesUntouched(cfg, db, op);
  }

  lemma MaintainKeepsAcks(cfg: Config, db: Db, op: Op)
    requires op.MaintainOp? && AcksOk(db)
    ensures AcksOk(Step(cfg, db, op))
  {
    hide ExpireRow, Purgeable;
  }

  lemma AdmittingKeepsAcks(cfg: Config, db: Db, op: Op)
    requires op.EnqueueOp? && AcksOk(db)
    ensures AcksOk(Step(cfg, db, op))
  {
    hide BrokerError, NewDeliveries;
  }

  lemma ClaimingKeepsAcks(cfg: Config, db: Db, op: Op)
    requires op.ClaimOp? && AcksOk(db)
    ensures AcksOk(Step(cfg, db, op))
  {
    hide ExpireRow, Selected, ReadyBelow, ClaimRows, ClaimsOf;
  }

  lemma AcknowledgingKeepsAcks(cfg: Config, db: Db, op: Op)
    requires op.AckOp? && AcksOk(db)
    ensures AcksOk(Step(cfg, db, op))
  {
    hide AckError, SettleRow, FindLeased;
  }

  /** The finished state and the evidence for it: acknowledged rows keep the receiver's own report of success. */
  predicate EvidenceOk(db: Db, d: Delivery) {
    && (d.state.Acknowledged? ==> d.terminalAck.Some? && d.terminalAck.value.body.outcome.Processed?)
    && (d.terminalAck.Some? ==>
          && d.Terminal()
          && d.terminalAck.value.body.receiver == d.recipient
          && d.terminalAck.value.body.messageId == d.message.id
          && d.message in db.messages
          && d.terminalAck.value.body.envelope == Sha256(db.messages[d.message].envelope)
          && d.terminalAck.value.value.Ed25519?
          && d.terminalAck.value.value.message == d.terminalAck.value.body)
  }

  predicate AllEvidenceOk(db: Db) {
    forall s :: s in db.deliveries ==> EvidenceOk(db, db.deliveries[s])
  }

  /** An accepted acknowledgement carries a signature over its own body. */
  lemma GenuineAck(ack: Ack, keys: map<string, OwnedKey>, now: int)
    requires AckError(ack, keys, now).None?
    ensures ack.value.Ed25519? && ack.value.message == ack.body
    ensures ack.body.signingKid in keys && keys[ack.body.signingKid].owner == ack.body.receiver
    ensures ack.value.key == keys[ack.body.signingKid].key.publicKey
  {
  }

  /** Where settling leads: the outcome and the attempts decide the state, and only a finished row keeps the report. */
  lemma SettledMeans(cfg: Config, d: Delivery, ack: Ack, now: int)
    ensures var r := SettleRow(cfg, d, ack, now);
      && r.lease.None? && r.attempts == d.attempts && r.message == d.message && r.recipient == d.recipient
      && (r.state.Acknowledged? <==> ack.body.outcome.Processed?)
      && (r.state.DeadLetter? <==>
            ack.body.outcome.TerminalFailed? || (ack.body.outcome.RetryableFailed? && cfg.maxAttempts <= d.attempts))
      && (r.Terminal() <==> r.terminalAck == Some(ack))
      && (!r.Terminal() <==> r.state.Queued? && r.terminalAck.None? && r.availableAt == now + RetryDelay(cfg, d.attempts))
  {
    hide RetryDelay;
  }

  lemma RowEvidence(cfg: Config, db: Db, op: Op, s: nat)
    requires s in db.deliveries && db.deliveries[s].message in db.messages && EvidenceOk(db, db.deliveries[s])
    ensures EvidenceOk(db, RowAfter(cfg, db, op, s))
    ensures RowAfter(cfg, db, op, s).message == db.deliveries[s].message
  {
    hide AckError, ClaimDeliveries, Selected, SettleRow, FindLeased, LeaseGiven, ExpireRow, ClaimRow, EvidenceOk;
    var d := db.deliveries[s];
    ExpiredEvidence(cfg, db, d, op.now);
    if Claims(cfg, db, op, s) {
      ClaimedIsReady(cfg, db, op, s);
      ClaimedEvidence(db, ExpireRow(cfg, db.messages, d, op.now), LeaseGiven(cfg, db, op, s), op.now);
    } else if Settles(db, op, s) {
      SettledEvidence(cfg, db, op, s);
    }
  }

  lemma ExpiredEvidence(cfg: Config, db: Db, d: Delivery, now: int)
    requires EvidenceOk(db, d)
    ensures EvidenceOk(db, ExpireRow(cfg, db.messages, d, now))
    ensures ExpireRow(cfg, db.messages, d, now).message == d.message
  {
  }

  lemma ClaimedEvidence(db: Db, d: Delivery, lease: Lease, now: int)
    requires EvidenceOk(db, d) && d.state.Queued?
    ensures EvidenceOk(db, ClaimRow(d, lease, now)) && ClaimRow(d, lease, now).message == d.message
  {
  }

  lemma SettledEvidence(cfg: Config, db: Db, op: Op, s: nat)
    requires Settles(db, op, s) && s in db.deliveries && db.deliveries[s].message in db.messages
    ensures EvidenceOk(db, SettleRow(cfg, db.deliveries[s], op.ack, op.now))
    ensures SettleRow(cfg, db.deliveries[s], op.ack, op.now).message == db.deliveries[s].message
  {
    hide AckError, SettleRow, FindLeased;
    GenuineAck(op.ack, op.keys, op.now);
    SettledMeans(cfg, db.deliveries[s], op.ack, op.now);
    FoundMatches(db, op.ack.body, s);
  }

  lemma FoundMatches(db: Db, b: AckBody, s: nat)
    requires FindLeased(db, b, db.nextSeq) == Some(s)
    ensures Matches(db, s, b)
  {
  }

  lemma StepKeepsEvidence(cfg: Config, db: Db, op: Op)
    requires cfg.maxAttempts >= 1 && Good(cfg, db) && AllEvidenceOk(db)
    ensures AllEvidenceOk(Step(cfg, db, op))
  {
    hide Step, RowAfter, HasDelivery, EvidenceOk;
    var after := Step(cfg, db, op);
    forall s | s in after.deliveries ensures EvidenceOk(after, after.deliveries[s]) {
      if s in db.deliveries {
        RowOf(cfg, db, op, s);
        RowEvidence(cfg, db, op, s);
        RowKeepsMessage(cfg, db, op, s);
        MessageOf(cfg, db, op, db.deliveries[s].message);
        SameEvidence(db, after, after.deliveries[s]);
      } else {
        NewRow(cfg, db, op, s);
        NoEvidenceYet(after, op.envelope, op.envelope.body.recipients[s - db.nextSeq], op.now);
      }
    }
  }

  lemma SameEvidence(db: Db, after: Db, d: Delivery)
    requires EvidenceOk(db, d) && d.message in db.messages && d.message in after.messages
    requires after.messages[d.message] == db.messages[d.message]
    ensures EvidenceOk(after, d)
  {
  }

  lemma NoEvidenceYet(db: Db, e: Envelope, r: Recipient, now: int)
    ensures EvidenceOk(db, NewDelivery(e, r, now))
  {
  }

  /** In every reachable state each acknowledged delivery holds its recipient's signed report of success for its own envelope. */
  lemma {:induction false} RunEvidence(cfg: Config, ops: seq<Op>)
    requires cfg.maxAttempts >= 1
    ensures AllEvidenceOk(Run(cfg, ops))
  {
    if ops != [] {
      RunEvidence(cfg, ops[..|ops| - 1]);
      RunGood(cfg, ops[..|ops| - 1]);
      hide Step, Good, AllEvidenceOk;
      StepKeepsEvidence(cfg, Run(cfg, ops[..|ops| - 1]), ops[|ops| - 1]);
    }
  }

  /** Sent again at once, an accepted acknowledgement is answered with the same row and outcome and changes nothing. */
  lemma AckAnsweredAgain(cfg: Config, db: Db, ack: Ack, keys: map<string, OwnedKey>, now: int)
    requires Acknowledge(cfg, db, ack, keys, now).Ok?
    ensures var (after, reply) := Acknowledge(cfg, db, ack, keys, now).value;
      Acknowledge(cfg, after, ack, keys, now) == Ok((after, reply.(duplicate := true)))
  {
    hide AckError, SettleRow;
  }

  // ---- cursors ----

  /** A consumer's cursor never falls, whatever else happens. */
  lemma CursorNeverFalls(cfg: Config, db: Db, op: Op, consumer: (string, string))
    requires consumer in db.cursors
    ensures consumer in Step(cfg, db, op).cursors && db.cursors[consumer] <= Step(cfg, db, op).cursors[consumer]
  {
    hide BrokerError, AckError, StructureError, SettleRow, ClaimRows, Selected, ClaimOutRows, OutSelected, ExpireRow;
  }

  /** A cursor moves only onto a finished delivery of its own recipient, or to zero. */
  lemma CursorNamesFinished(cfg: Config, db: Db, op: Op, consumer: (string, string))
    requires consumer in Step(cfg, db, op).cursors
    requires consumer !in db.cursors || db.cursors[consumer] != Step(cfg, db, op).cursors[consumer]
    ensures var cursor := Step(cfg, db, op).cursors[consumer];
      cursor == 0 || (cursor in db.deliveries && db.deliveries[cursor].recipient == consumer.0 && db.deliveries[cursor].Terminal())
  {
    hide BrokerError, AckError, StructureError, SettleRow, ClaimRows, Selected, ClaimOutRows, OutSelected, ExpireRow;
  }

  // ---- retention ----

  /** A purge removes exactly the messages whose deliveries all finished before the cutoff, with their rows. */
  lemma PurgedExactly(cfg: Config, db: Db, before: int, k: MessageKey)
    requires Good(cfg, db) && k in db.messages
    ensures k !in Purge(db, before).messages <==>
      forall s :: s in db.deliveries && db.deliveries[s].message == k ==> db.deliveries[s].Terminal() && db.deliveries[s].updatedAt < before
    ensures forall s :: s in db.deliveries && db.deliveries[s].message == k ==>
      (s in Purge(db, before).deliveries <==> k in Purge(db, before).messages)
  {
    hide HasDelivery;
  }
}
