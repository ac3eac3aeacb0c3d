/** From admission through claim to settlement: what each side makes is what the other side accepts. */
module RoundTrip {
  import opened Wrappers
  import opened Text
  import opened Directory
  import opened Protocol
  import opened Broker
  import opened BrokerRuns
  import opened BrokerFacts
  import opened DeliveryLaws
  import opened Inbox

  /** Every stored message is well formed. */
  predicate MessagesFormed(db: Db) {
    forall k :: k in db.messages ==> StructureError(db.messages[k].envelope).None?
  }

  lemma {:induction false} RunFormed(cfg: Config, ops: seq<Op>)
    ensures MessagesFormed(BrokerRuns.Run(cfg, ops))
  {
    if ops != [] {
      var before, op := BrokerRuns.Run(cfg, ops[..|ops| - 1]), ops[|ops| - 1];
      RunFormed(cfg, ops[..|ops| - 1]);
      hide Step;
      forall k | k in Step(cfg, before, op).messages ensures StructureError(Step(cfg, before, op).messages[k].envelope).None? {
        FormedStep(cfg, before, op, k);
      }
    }
  }

  lemma FormedStep(cfg: Config, db: Db, op: Op, k: MessageKey)
    requires MessagesFormed(db) && k in Step(cfg, db, op).messages
    ensures StructureError(Step(cfg, db, op).messages[k].envelope).None?
  {
    hide Step, StructureError, SignerError, TimeError, KeyIsValid, WrapsValid;
    MessageOf(cfg, db, op, k);
  }

  /** The receiver's acknowledgement of a claim, signed with its own key. */
  function Report(r: Receiver, claim: Claim, outcome: Outcome, at: int, publicKey: Bytes): Ack {
    var body := AckFor(r, claim, outcome, at);
    Ack(body, "Ed25519", r.signingKid, Ed25519(publicKey, body, 0))
  }

  /**
   * What a broker hands out, the receiver's acknowledgement settles: while the lease lives it is accepted, for that very
   * delivery and with that outcome, and the delivery ends acknowledged, buried or queued again as the outcome says.
   */
  lemma ClaimedThenSettled(cfg: Config, ops: seq<Op>, r: Receiver, limit: int, leaseMs: int, at: int, leases: seq<Uuid>, i: nat,
      outcome: Outcome, made: int, keys: map<string, OwnedKey>, now: int)
    requires cfg.maxAttempts >= 1
    requires ClaimDeliveries(cfg, BrokerRuns.Run(cfg, ops), r.agent, limit, leaseMs, at, leases).Ok?
    requires i < |ClaimDeliveries(cfg, BrokerRuns.Run(cfg, ops), r.agent, limit, leaseMs, at, leases).value.1|
    requires at <= now < at + leaseMs && -300_000 <= made - now <= 300_000
    requires IsIdentifier(r.signingKid) && r.signingKid in keys && keys[r.signingKid].owner == r.agent && keys[r.signingKid].key.status.Active?
    requires var claim := ClaimDeliveries(cfg, BrokerRuns.Run(cfg, ops), r.agent, limit, leaseMs, at, leases).value.1[i];
      Sha256(Report(r, claim, outcome, made, keys[r.signingKid].key.publicKey)) !in BrokerRuns.Run(cfg, ops).acks
    ensures var (after, claims) := ClaimDeliveries(cfg, BrokerRuns.Run(cfg, ops), r.agent, limit, leaseMs, at, leases).value;
      var claim := claims[i];
      var settled := Acknowledge(cfg, after, Report(r, claim, outcome, made, keys[r.signingKid].key.publicKey), keys, now);
      && settled.Ok? && settled.value.1 == AckReply(claim.seqno, outcome, false)
      && claim.seqno in settled.value.0.deliveries
      && var d := settled.value.0.deliveries[claim.seqno];
      && d.message == claim.key && d.recipient == r.agent && d.lease.None?
      && d.state == match outcome
           case Processed => Acknowledged
           case TerminalFailed => DeadLetter
           case RetryableFailed => if cfg.maxAttempts <= claim.attempt then DeadLetter else Queued
  {
    var db := BrokerRuns.Run(cfg, ops);
    var (after, claims) := ClaimDeliveries(cfg, db, r.agent, limit, leaseMs, at, leases).value;
    var claim := claims[i];
    var op := ClaimOp(r.agent, limit, leaseMs, leases, at);
    var ack := Report(r, claim, outcome, made, keys[r.signingKid].key.publicKey);
    hide ClaimDeliveries, AckError, SettleRow, Matches, HasDelivery, Acknowledge, StructureError;
    RunGood(cfg, ops);
    RunFormed(cfg, ops);
    RunOnePerRecipient(cfg, ops);
    ClaimAnswer(cfg, db, r.agent, limit, leaseMs, at, leases);
    AfterClaim(cfg, db, op);
    LeaseIsFresh(cfg, db, op, i);
    hide BrokerRuns.Run;
    ReportIsGenuine(db, r, claim, outcome, made, keys, now);
    ReportMatches(cfg, db, after, r, claim, at, outcome, made);
    OnlyMatch(cfg, after, ack.body);
    AckAnswer(cfg, after, ack, keys, now);
    var d := after.deliveries[claim.seqno];
    Settled(cfg, after, ack, keys, now, claim.seqno);
    SettledMeans(cfg, d, ack, now);
    SettledColumns(cfg, d, ack, now);
  }

  lemma AfterClaim(cfg: Config, db: Db, op: Op)
    requires cfg.maxAttempts >= 1 && Good(cfg, db) && OnePerRecipient(db.deliveries) && ClaimAccepted(cfg, db, op)
    ensures var after := ClaimDeliveries(cfg, db, op.recipient, op.limit, op.leaseMs, op.now, op.leases).value.0;
      Good(cfg, after) && OnePerRecipient(after.deliveries) && after.acks == db.acks && after.messages == db.messages
  {
    hide ClaimDeliveries, HasDelivery, OnePerRecipient, Good;
    StepKeepsGood(cfg, db, op);
    StepKeepsOnePerRecipient(cfg, db, op);
    ClaimTouches(cfg, db, op.recipient, op.limit, op.leaseMs, op.now, op.leases);
  }

  lemma LeaseIsFresh(cfg: Config, db: Db, op: Op, i: nat)
    requires ClaimAccepted(cfg, db, op) && i < |ClaimDeliveries(cfg, db, op.recipient, op.limit, op.leaseMs, op.now, op.leases).value.1|
    ensures ClaimDeliveries(cfg, db, op.recipient, op.limit, op.leaseMs, op.now, op.leases).value.1[i].lease.id.HasVersion(4)
    ensures IsIdentifier(op.recipient)
  {
    hide Selected, ClaimRows, Expire;
  }

  lemma ReportIsGenuine(db: Db, r: Receiver, claim: Claim, outcome: Outcome, made: int, keys: map<string, OwnedKey>, now: int)
    requires MessagesFormed(db) && claim.key in db.messages && KeyOf(db.messages[claim.key].envelope) == claim.key
    requires IsIdentifier(r.agent) && IsIdentifier(r.signingKid) && claim.lease.id.HasVersion(4) && -300_000 <= made - now <= 300_000
    requires r.signingKid in keys && keys[r.signingKid].owner == r.agent && keys[r.signingKid].key.status.Active?
    ensures AckError(Report(r, claim, outcome, made, keys[r.signingKid].key.publicKey), keys, now).None?
  {
    FormedId(db.messages[claim.key].envelope);
    hide IsIdentifier, StructureError, MessagesFormed;
  }

  lemma FormedId(e: Envelope)
    ensures StructureError(e).None? ==> e.body.messageId.HasVersion(7)
  {
    hide IsIdentifier, IsContentType, RecipientsError, RecipientIds;
  }

  lemma ReportMatches(cfg: Config, db: Db, after: Db, r: Receiver, claim: Claim, at: int, outcome: Outcome, made: int)
    requires HandedOut(cfg, db, after, r.agent, claim, claim.lease, at)
    requires after.messages == db.messages
    ensures Matches(after, claim.seqno, AckFor(r, claim, outcome, made))
    ensures after.deliveries[claim.seqno].state.Claimed? && after.deliveries[claim.seqno].lease == Some(claim.lease)
  {
    hide Ready, Expire;
  }

  lemma OnlyMatch(cfg: Config, db: Db, b: AckBody)
    requires Good(cfg, db) && OnePerRecipient(db.deliveries)
    ensures forall s, t :: Matches(db, s, b) && Matches(db, t, b) ==> s == t
  {
    hide HasDelivery;
    forall s: nat, t: nat | Matches(db, s, b) && Matches(db, t, b) ensures s == t {
      assert KeyOf(db.messages[db.deliveries[s].message].envelope) == db.deliveries[s].message;
      assert KeyOf(db.messages[db.deliveries[t].message].envelope) == db.deliveries[t].message;
    }
  }

  lemma Settled(cfg: Config, db: Db, ack: Ack, keys: map<string, OwnedKey>, now: int, s: nat)
    requires Acknowledge(cfg, db, ack, keys, now).Ok? && Sha256(ack) !in db.acks
    requires Acknowledge(cfg, db, ack, keys, now).value.1.cursor == s && s in db.deliveries
    ensures s in Acknowledge(cfg, db, ack, keys, now).value.0.deliveries
    ensures Acknowledge(cfg, db, ack, keys, now).value.0.deliveries[s] == SettleRow(cfg, db.deliveries[s], ack, now)
  {
    hide AckError, SettleRow, FindLeased;
  }
}
