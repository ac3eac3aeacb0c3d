/** What each broker transaction does to the deliveries it concerns and answers to its caller, column by column. */
module DeliveryLaws {
  import opened Wrappers
  import opened Text
  import opened Directory
  import opened Protocol
  import opened Broker
  import opened BrokerRuns
  import opened BrokerFacts

  // ---- expiry ----

  /** The message has lived out its time. */
  predicate MessageOver(db: Db, d: Delivery, now: int) {
    d.message in db.messages && db.messages[d.message].envelope.body.expires <= now
  }

  predicate LeaseOver(d: Delivery, now: int) {
    d.state.Claimed? && d.lease.Some? && d.lease.value.until <= now
  }

  /** Expiry changes a row exactly when something is due: a lapsed lease, or the end of an unfinished delivery's message. */
  lemma ExpiresWhenDue(cfg: Config, db: Db, now: int, s: nat)
    requires s in db.deliveries
    ensures var d, after := db.deliveries[s], Expire(cfg, db, now).deliveries[s];
      after != d ==> LeaseOver(d, now) || (!d.Terminal() && MessageOver(db, d, now))
    ensures var d, after := db.deliveries[s], Expire(cfg, db, now).deliveries[s];
      after == d.(state := after.state, availableAt := after.availableAt, lease := after.lease, note := after.note, updatedAt := after.updatedAt)
      && (after.updatedAt == now || after == d)
      && after.availableAt == (if LeaseOver(d, now) then now else d.availableAt)
  {
  }

  /** Expiry buries an unfinished row exactly when its message is over, or its lease is and its attempts are spent. */
  lemma BuriedByExpiry(cfg: Config, db: Db, now: int, s: nat)
    requires s in db.deliveries && !db.deliveries[s].Terminal()
    ensures var d, after := db.deliveries[s], Expire(cfg, db, now).deliveries[s];
      && (after.state.DeadLetter? <==> MessageOver(db, d, now) || (LeaseOver(d, now) && cfg.maxAttempts <= d.attempts))
      && !after.state.Acknowledged?
      && (after.state.DeadLetter? ==>
            after.lease.None? && after.note == Some(if LeaseOver(d, now) && cfg.maxAttempts <= d.attempts then AttemptsSpentAtExpiry else MessageExpired))
  {
  }

  /** A lapsed lease with attempts left puts its row back in the queue, ready for its recipient at once. */
  lemma LapsedIsReady(cfg: Config, db: Db, now: int, s: nat)
    requires s in db.deliveries && LeaseOver(db.deliveries[s], now) && db.deliveries[s].attempts < cfg.maxAttempts
    requires db.deliveries[s].message in db.messages && !MessageOver(db, db.deliveries[s], now)
    ensures Ready(Expire(cfg, db, now), s, db.deliveries[s].recipient, now)
    ensures Expire(cfg, db, now).deliveries[s].attempts == db.deliveries[s].attempts
    ensures Expire(cfg, db, now).deliveries[s].note == Some(LeaseExpired)
  {
  }

  /** Over any transaction an unfinished row is buried only by the end of its message, a lapsed last attempt, or its holder's report. */
  lemma BuriedExactly(cfg: Config, db: Db, op: Op, s: nat)
    requires cfg.maxAttempts >= 1 && Good(cfg, db) && s in db.deliveries && !db.deliveries[s].Terminal()
    requires s in Step(cfg, db, op).deliveries
    ensures var d := db.deliveries[s];
      Step(cfg, db, op).deliveries[s].state.DeadLetter? <==>
        || ((ClaimAccepted(cfg, db, op) || op.MaintainOp?)
            && (MessageOver(db, d, op.now) || (LeaseOver(d, op.now) && cfg.maxAttempts <= d.attempts)))
        || (Settles(db, op, s)
            && (op.ack.body.outcome.TerminalFailed? || (op.ack.body.outcome.RetryableFailed? && cfg.maxAttempts <= d.attempts)))
  {
    hide Step, HasDelivery, ClaimDeliveries, AckError, FindLeased, RetryDelay, Selected, Expire, LeaseGiven;
    RowOf(cfg, db, op, s);
    BuriedByExpiry(cfg, db, op.now, s);
    ExpiredRow(cfg, db, op.now, s);
    if Claims(cfg, db, op, s) {
      ClaimedIsReady(cfg, db, op, s);
    }
    hide ExpireRow;
  }

  lemma ExpiredRow(cfg: Config, db: Db, now: int, s: nat)
    requires s in db.deliveries
    ensures s in Expire(cfg, db, now).deliveries && Expire(cfg, db, now).deliveries[s] == ExpireRow(cfg, db.messages, db.deliveries[s], now)
  {
  }

  // ---- admission ----

  /** Admission is answered by the message's digest and whether it was there, conflicts with another envelope, and needs the time to fit. */
  lemma AdmissionAnswer(db: Db, e: Envelope, c: Context, now: int)
    ensures var r := Enqueue(db, e, c, now);
      && (r.Ok? <==>
            && 0 <= now <= 9_007_199_254_740_991 && (db.highWater.Some? ==> db.highWater.value <= now)
            && Admits(e, c.(now := now))
            && (KeyOf(e) in db.messages ==> db.messages[KeyOf(e)].envelope == e))
      && (r.Ok? ==> r.value.1 == Receipt(Sha256(e), KeyOf(e) in db.messages))
      && (r.Ok? && KeyOf(e) in db.messages ==> r.value.0 == db.(highWater := Some(now)))
  {
    hide BrokerError;
  }

  /** A newly admitted message is stored as it came, and each recipient can claim its delivery at once, under its own wrap key. */
  lemma AdmittedIsReady(cfg: Config, db: Db, e: Envelope, c: Context, now: int, n: nat)
    requires Good(cfg, db) && Enqueue(db, e, c, now).Ok? && KeyOf(e) !in db.messages && n < |e.body.recipients|
    ensures var after, s := Enqueue(db, e, c, now).value.0, db.nextSeq + n;
      && KeyOf(e) in after.messages && after.messages[KeyOf(e)] == Message(e, now)
      && Ready(after, s, e.body.recipients[n].id, now) && s !in db.deliveries
      && after.deliveries[s].message == MessageKey(e.body.senderId, e.body.messageId)
      && after.deliveries[s].encryptionKid == e.body.recipients[n].encryptionKid
      && after.deliveries[s].attempts == 0 && after.deliveries[s].lease.None? && after.deliveries[s].terminalAck.None?
  {
    hide BrokerError, HasDelivery;
    AdmittedLives(db, e, c, now);
  }

  lemma AdmittedLives(db: Db, e: Envelope, c: Context, now: int)
    requires Enqueue(db, e, c, now).Ok?
    ensures now < e.body.expires
  {
    hide StructureError, SignerError, KeyIsValid, WrapsValid, RecipientIds;
  }

  /** Admission adds one delivery per recipient, numbered onwards, and leaves the others and every message as they were. */
  lemma AdmissionAdds(cfg: Config, db: Db, e: Envelope, c: Context, now: int)
    requires Good(cfg, db) && Enqueue(db, e, c, now).Ok? && KeyOf(e) !in db.messages
    ensures var after := Enqueue(db, e, c, now).value.0;
      && after == db.(highWater := Some(now), messages := after.messages, deliveries := after.deliveries, nextSeq := after.nextSeq)
      && after.nextSeq == db.nextSeq + |e.body.recipients|
      && (forall s :: s in after.deliveries <==> s in db.deliveries || db.nextSeq <= s < db.nextSeq + |e.body.recipients|)
      && (forall s :: s in db.deliveries ==> after.deliveries[s] == db.deliveries[s])
      && (forall k :: k in db.messages ==> k in after.messages && after.messages[k] == db.messages[k])
  {
    hide BrokerError, HasDelivery;
  }

  // ---- claiming ----

  /** What a claim hands out: for each selected row its number, envelope, fresh lease and attempt, as its row now says. */
  lemma ClaimAnswer(cfg: Config, db: Db, recipient: string, limit: int, leaseMs: int, now: int, leases: seq<Uuid>)
    requires ClaimDeliveries(cfg, db, recipient, limit, leaseMs, now, leases).Ok?
    ensures var (after, claims) := ClaimDeliveries(cfg, db, recipient, limit, leaseMs, now, leases).value;
      && |claims| <= limit && |claims| <= |leases|
      && (forall i, j :: 0 <= i < j < |claims| ==> claims[i].seqno < claims[j].seqno)
      && (forall i :: 0 <= i < |claims| ==> HandedOut(cfg, db, after, recipient, claims[i], Lease(leases[i], now + leaseMs), now))
  {
    hide ReadyBelow, ClaimRows, Ready, ExpireRow, Selected;
    var expired, rows := Expire(cfg, db, now), Selected(cfg, db, recipient, limit, now);
    var (after, claims) := ClaimDeliveries(cfg, db, recipient, limit, leaseMs, now, leases).value;
    forall i | 0 <= i < |rows| ensures Ready(expired, rows[i], recipient, now) && rows[i] in expired.deliveries {
      ReadyIsNumbered(expired, rows[i], recipient, now);
    }
    ClaimRowsMeaning(expired.deliveries, rows, leases, now + leaseMs, now);
    forall i | 0 <= i < |claims|
      ensures HandedOut(cfg, db, after, recipient, claims[i], Lease(leases[i], now + leaseMs), now)
    {
      HandsOut(cfg, db, after, recipient, rows[i], claims[i], Lease(leases[i], now + leaseMs), now);
    }
  }

  lemma ClaimTouches(cfg: Config, db: Db, recipient: string, limit: int, leaseMs: int, now: int, leases: seq<Uuid>)
    requires ClaimDeliveries(cfg, db, recipient, limit, leaseMs, now, leases).Ok?
    ensures var after := ClaimDeliveries(cfg, db, recipient, limit, leaseMs, now, leases).value.0;
      after == db.(deliveries := after.deliveries) && after.deliveries.Keys == db.deliveries.Keys
  {
    hide ReadyBelow, ClaimRows, Ready, ExpireRow, Selected;
  }

  /** Every other delivery is only expired. */
  lemma ClaimSpares(cfg: Config, db: Db, recipient: string, limit: int, leaseMs: int, now: int, leases: seq<Uuid>, s: nat)
    requires ClaimDeliveries(cfg, db, recipient, limit, leaseMs, now, leases).Ok? && s in db.deliveries
    requires forall i :: 0 <= i < |ClaimDeliveries(cfg, db, recipient, limit, leaseMs, now, leases).value.1| ==>
      ClaimDeliveries(cfg, db, recipient, limit, leaseMs, now, leases).value.1[i].seqno != s
    ensures var after := ClaimDeliveries(cfg, db, recipient, limit, leaseMs, now, leases).value.0;
      s in after.deliveries && after.deliveries[s] == Expire(cfg, db, now).deliveries[s]
  {
    hide ReadyBelow, ClaimRows, Ready, ExpireRow, Selected;
    var expired, rows := Expire(cfg, db, now), Selected(cfg, db, recipient, limit, now);
    forall i | 0 <= i < |rows| ensures rows[i] in expired.deliveries {
      ReadyIsNumbered(expired, rows[i], recipient, now);
    }
    ClaimRowsMeaning(expired.deliveries, rows, leases, now + leaseMs, now);
    var claims := ClaimDeliveries(cfg, db, recipient, limit, leaseMs, now, leases).value.1;
    assert forall i :: 0 <= i < |rows| ==> claims[i].seqno == rows[i];
  }

  /** A delivery that was ready once expired is now held by its recipient under this lease, one attempt further. */
  predicate HandedOut(cfg: Config, db: Db, after: Db, recipient: string, claim: Claim, lease: Lease, now: int) {
    var s := claim.seqno;
    && s in db.deliveries && s in after.deliveries
    && Ready(Expire(cfg, db, now), s, recipient, now)
    && after.deliveries[s].message == claim.key == db.deliveries[s].message
    && after.deliveries[s].recipient == recipient == db.deliveries[s].recipient
    && claim.key in db.messages && claim.envelope == db.messages[claim.key].envelope
    && after.deliveries[s].state.Claimed? && after.deliveries[s].lease == Some(claim.lease) && claim.lease == lease
    && after.deliveries[s].attempts == claim.attempt == db.deliveries[s].attempts + 1
    && after.deliveries[s].availableAt == Expire(cfg, db, now).deliveries[s].availableAt && after.deliveries[s].updatedAt == now
    && after.deliveries[s].note == Expire(cfg, db, now).deliveries[s].note && after.deliveries[s].terminalAck == db.deliveries[s].terminalAck
    && after.deliveries[s].encryptionKid == db.deliveries[s].encryptionKid
  }

  lemma HandsOut(cfg: Config, db: Db, after: Db, recipient: string, s: nat, claim: Claim, lease: Lease, now: int)
    requires Ready(Expire(cfg, db, now), s, recipient, now) && s in after.deliveries
    requires after.deliveries[s] == ClaimRow(Expire(cfg, db, now).deliveries[s], lease, now)
    requires claim == ClaimOf(Expire(cfg, db, now), s, lease)
    ensures HandedOut(cfg, db, after, recipient, claim, lease, now)
  {
    ExpiresWhenDue(cfg, db, now, s);
  }

  /** A claim is accepted exactly for an identifier, one to a hundred rows, leases of a second to a quarter of an hour, and enough fresh lease IDs. */
  lemma ClaimAccepts(cfg: Config, db: Db, recipient: string, limit: int, leaseMs: int, now: int, leases: seq<Uuid>)
    ensures ClaimDeliveries(cfg, db, recipient, limit, leaseMs, now, leases).Ok? <==>
      && IsIdentifier(recipient) && 1 <= limit <= 100 && 1000 <= leaseMs <= 900_000
      && |Selected(cfg, db, recipient, limit, now)| <= |leases|
      && forall i :: 0 <= i < |Selected(cfg, db, recipient, limit, now)| ==> leases[i].HasVersion(4)
  {
    hide Selected, ClaimRows, ClaimsOf, Expire;
  }

  // ---- acknowledging ----

  /** A first acknowledgement is accepted exactly when it is genuine and names a live lease; it settles that row, is answered with it and logged. */
  lemma AckAnswer(cfg: Config, db: Db, ack: Ack, keys: map<string, OwnedKey>, now: int)
    requires RowsOk(cfg, db) && Sha256(ack) !in db.acks && AckError(ack, keys, now).None?
    requires forall s, t :: Matches(db, s, ack.body) && Matches(db, t, ack.body) ==> s == t
    ensures var r := Acknowledge(cfg, db, ack, keys, now);
      && (r.Ok? <==> exists s :: Matches(db, s, ack.body) && db.deliveries[s].state.Claimed? && now < db.deliveries[s].lease.value.until)
      && (r.Ok? ==>
            var (after, reply) := r.value;
            && Matches(db, reply.cursor, ack.body) && reply.outcome == ack.body.outcome && !reply.duplicate
            && after == db.(acks := after.acks, deliveries := after.deliveries)
            && after.acks == db.acks[Sha256(ack) := AckEvent(reply.cursor, ack.body.outcome)]
            && after.deliveries == db.deliveries[reply.cursor := after.deliveries[reply.cursor]])
  {
    hide AckError, SettleRow, Matches;
    var found := FindLeased(db, ack.body, db.nextSeq);
    forall s: nat | Matches(db, s, ack.body) ensures s in db.deliveries && s < db.nextSeq {
      MatchesIsRow(db, s, ack.body);
    }
    if found.Some? {
      MatchesIsRow(db, found.value, ack.body);
    }
  }

  lemma MatchesIsRow(db: Db, s: nat, b: AckBody)
    requires Matches(db, s, b)
    ensures s in db.deliveries && db.deliveries[s].lease.Some?
  {
  }

  /** Settling touches state, availability, note, report and time of change, and gives up the lease. */
  lemma SettledColumns(cfg: Config, d: Delivery, ack: Ack, now: int)
    ensures var r := SettleRow(cfg, d, ack, now);
      && r == d.(state := r.state, availableAt := r.availableAt, lease := None, note := r.note, terminalAck := r.terminalAck, updatedAt := now)
      && (r.Terminal() ==> r.availableAt == now)
      && r.note == match ack.body.outcome
           case Processed => None
           case TerminalFailed => Some(FailedTerminally)
           case RetryableFailed => Some(if cfg.maxAttempts <= d.attempts then AttemptsSpent else FailedRetryably)
  {
    hide RetryDelay;
  }

  // ---- cursors, requests, retention ----

  /** A cursor moves exactly forward onto a finished delivery of its recipient, or stays or starts at zero; nothing else changes. */
  lemma CursorMoves(db: Db, recipient: string, consumer: string, cursor: int)
    ensures var r := AdvanceCursor(db, recipient, consumer, cursor);
      && (r.Ok? <==>
            && IsIdentifier(recipient) && IsIdentifier(consumer) && 0 <= cursor
            && (cursor == 0 || (cursor in db.deliveries && db.deliveries[cursor].recipient == recipient && db.deliveries[cursor].Terminal()))
            && ((recipient, consumer) in db.cursors ==> db.cursors[(recipient, consumer)] <= cursor))
      && (r.Ok? ==> (recipient, consumer) in r.value.cursors && r.value.cursors[(recipient, consumer)] == cursor)
      && (r.Ok? ==> forall k :: k != (recipient, consumer) ==>
            (k in r.value.cursors <==> k in db.cursors) && (k in db.cursors ==> r.value.cursors[k] == db.cursors[k]))
      && (r.Ok? ==> r.value == db.(cursors := r.value.cursors))
  {
    hide IsIdentifier;
  }

  /** A request is recorded exactly when time has not fallen and no unexpired record of it stands; exactly the expired records go. */
  lemma RecordAnswer(db: Db, agent: string, request: Uuid, now: int, expires: int)
    ensures var r := Record(db, agent, request, now, expires);
      && (r.Ok? <==>
            && IsIdentifier(agent) && request.HasVersion(7)
            && 0 <= now <= 9_007_199_254_740_991 && (db.highWater.Some? ==> db.highWater.value <= now)
            && ((agent, request) in db.replays ==> db.replays[(agent, request)] <= now))
      && (r.Ok? ==> r.value == db.(highWater := Some(now), replays := r.value.replays))
      && (r.Ok? ==> forall k :: k in r.value.replays <==> k == (agent, request) || (k in db.replays && now < db.replays[k]))
      && (r.Ok? ==> forall k :: k in r.value.replays ==>
            r.value.replays[k] == if k == (agent, request) then expires else db.replays[k])
  {
    hide IsIdentifier;
  }

  /** A purge deletes, of what belongs to no purged message, nothing: not one delivery, acknowledgement, cursor, record or outbox row. */
  lemma PurgeSpares(db: Db, before: int)
    requires forall s :: s in db.deliveries ==> db.deliveries[s].message in db.messages
    ensures var after := Purge(db, before);
      && after == db.(messages := after.messages, deliveries := after.deliveries, acks := after.acks)
      && (forall k :: k in after.messages ==> k in db.messages && after.messages[k] == db.messages[k])
      && (forall s :: s in after.deliveries <==> s in db.deliveries && db.deliveries[s].message in after.messages)
      && (forall s :: s in after.deliveries ==> after.deliveries[s] == db.deliveries[s])
      && (forall h :: h in after.acks <==>
            h in db.acks && (db.acks[h].delivery in db.deliveries ==> db.acks[h].delivery in after.deliveries))
      && (forall h :: h in after.acks ==> after.acks[h] == db.acks[h])
  {
    hide Purgeable;
  }
}
